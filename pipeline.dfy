/**
 * The orchestration of one ingestion run (`batch_ingest`, batch_ingest.py:209-250) as
 * functions of the starting database and an environment of oracles: the search API,
 * the outcome of each commit, the outcome of the reaper, and the distance formula.
 */
module Pipeline {
  import opened Records
  import opened Store

  /** `range(0, ResultCap, PageSize)` gives the offsets requested per term. */
  const PageSize: nat := 50
  const ResultCap: nat := 50

  /** What `search_yelp(term, offset=offset)` does: return a page, or raise. */
  datatype Fetch = Page(records: seq<RawRecord>) | FetchFailed

  /** The observable steps of a run: the reaper, and each page request. */
  datatype Event = Reaped | Fetched(term: string, offset: nat)

  /**
   * The oracles of one run. `search(i, term, offset)` and `commitFails(i, offset)` answer
   * for the `i`-th term of the run, so a term listed twice gets two independent requests
   * and two independent transactions.
   */
  datatype Environment = Environment(
    search: (nat, string, nat) -> Fetch,
    commitFails: (nat, nat) -> bool,
    reapQueryFails: bool,
    reapCommitFails: bool,
    haversine: Haversine)

  datatype TermResult = TermResult(db: Db, stats: Stats, trace: seq<Event>)

  datatype RunResult = RunResult(db: Db, reports: seq<Stats>, trace: seq<Event>)

  /** Upsert every record of a page into the pending state, then commit, or roll back if the commit raises. */
  function IngestPage(db: Db, recs: seq<RawRecord>, tag: string, pos: nat, offset: nat, env: Environment): (r: Db) {
    var staged := Db(db.committed, UpsertPage(db.pending, recs, tag, env.haversine));
    if env.commitFails(pos, offset) then Discard(staged) else Persist(staged)
  }

  /** The offset loop of the `pos`-th term, `tag`, from `offset` on, with the statistics gathered so far. */
  function IngestFrom(db: Db, s: Stats, tag: string, pos: nat, offset: nat, env: Environment): (r: TermResult)
    decreases ResultCap - offset
  {
    if offset >= ResultCap then TermResult(db, s, [])
    else
      var fetched := Fetched(tag, offset);
      match env.search(pos, tag, offset)
      case FetchFailed =>
        var rest := IngestFrom(Discard(db), s, tag, pos, offset + PageSize, env);
        rest.(trace := [fetched] + rest.trace)
      case Page(recs) =>
        if recs == [] then TermResult(db, s, [fetched])
        else
          var rest := IngestFrom(IngestPage(db, recs, tag, pos, offset, env), Count(s, recs), tag, pos, offset + PageSize, env);
          rest.(trace := [fetched] + rest.trace)
  }

  /** The `pos`-th term of the run, with its statistics starting from zero. */
  function IngestTerm(db: Db, tag: string, pos: nat, env: Environment): (r: TermResult) {
    IngestFrom(db, NoStats, tag, pos, 0, env)
  }

  /** The terms in order, each reporting its own statistics. */
  function IngestTerms(db: Db, terms: seq<string>, env: Environment): (r: RunResult)
    decreases |terms|
  {
    if terms == [] then RunResult(db, [], [])
    else
      var before := IngestTerms(db, terms[..|terms| - 1], env);
      var t := IngestTerm(before.db, terms[|terms| - 1], |terms| - 1, env);
      RunResult(t.db, before.reports + [t.stats], before.trace + t.trace)
  }

  /** The whole run: reap once, then ingest every term. */
  function BatchRun(db: Db, terms: seq<string>, env: Environment): (r: RunResult) {
    var run := IngestTerms(Reap(db, env.reapQueryFails, env.reapCommitFails), terms, env);
    RunResult(run.db, run.reports, [Reaped] + run.trace)
  }

  /** The statistics a term reports for its one page request. */
  function PageReport(f: Fetch): (r: Stats) {
    match f
    case FetchFailed => NoStats
    case Page(recs) => Count(NoStats, recs)
  }

  /** Each term requests offset 0 and nothing else. */
  lemma TermFetchesOffsetZero(db: Db, tag: string, pos: nat, env: Environment)
    ensures IngestTerm(db, tag, pos, env).trace == [Fetched(tag, 0)]
  {
    assert IngestFrom(Discard(db), NoStats, tag, pos, PageSize, env).trace == [];
  }

  /**
   * A term's statistics count exactly the records of its page, from zero, whatever was
   * stored before and whether or not the commit succeeded; a failed fetch counts nothing.
   */
  lemma TermReport(db: Db, tag: string, pos: nat, env: Environment)
    ensures IngestTerm(db, tag, pos, env).stats == PageReport(env.search(pos, tag, 0))
  {
  }

  /**
   * A term commits its whole page or nothing: the database gains the page's upserts when
   * the page is non-empty and the commit succeeds, and is left as it was otherwise; a
   * failed fetch or commit drops only the pending writes.
   */
  lemma TermIsAtomic(db: Db, tag: string, pos: nat, env: Environment)
    ensures var r := IngestTerm(db, tag, pos, env); var f := env.search(pos, tag, 0);
      var success := f.Page? && f.records != [] && !env.commitFails(pos, 0);
      && r.db.committed == (if success then UpsertPage(db.pending, f.records, tag, env.haversine) else db.committed)
      && r.db.pending == (if f.Page? && f.records == [] then db.pending else r.db.committed)
  {
  }

  /** The page requests of a run: one per term, at offset 0, in order. */
  function FetchLog(terms: seq<string>): (log: seq<Event>) {
    seq(|terms|, i requires 0 <= i < |terms| => Fetched(terms[i], 0))
  }

  lemma {:induction false} IngestTermsShape(db: Db, terms: seq<string>, env: Environment)
    ensures var r := IngestTerms(db, terms, env);
      && r.trace == FetchLog(terms)
      && |r.reports| == |terms|
      && forall i :: 0 <= i < |terms| ==> r.reports[i] == PageReport(env.search(i, terms[i], 0))
    decreases |terms|
  {
    if terms != [] {
      var prefix := terms[..|terms| - 1];
      IngestTermsShape(db, prefix, env);
      var before := IngestTerms(db, prefix, env);
      TermFetchesOffsetZero(before.db, terms[|terms| - 1], |terms| - 1, env);
      TermReport(before.db, terms[|terms| - 1], |terms| - 1, env);
      assert FetchLog(terms) == FetchLog(prefix) + [Fetched(terms[|terms| - 1], 0)];
    }
  }

  /**
   * A run reaps exactly once, before any term, then requests offset 0 of each term in
   * order, and reports per term the statistics of that term's page alone.
   */
  lemma RunShape(db: Db, terms: seq<string>, env: Environment)
    ensures var r := BatchRun(db, terms, env);
      && r.trace == [Reaped] + FetchLog(terms)
      && Reaped !in r.trace[1..]
      && |r.reports| == |terms|
      && forall i :: 0 <= i < |terms| ==> r.reports[i] == PageReport(env.search(i, terms[i], 0))
  {
    IngestTermsShape(Reap(db, env.reapQueryFails, env.reapCommitFails), terms, env);
  }

  lemma TermKeepsInvariants(db: Db, tag: string, pos: nat, env: Environment)
    requires db.committed == db.pending
    ensures var r := IngestTerm(db, tag, pos, env).db;
      && r.committed == r.pending
      && (TagsDistinct(db.committed) ==> TagsDistinct(r.committed))
      && (NoneClosed(db.committed) ==> NoneClosed(r.committed))
      && Grows(db.committed, r.committed)
  {
    var f := env.search(pos, tag, 0);
    TermIsAtomic(db, tag, pos, env);
    if f.Page? && f.records != [] {
      UpsertPageInvariants(db.pending, f.records, tag, env.haversine);
    }
  }

  lemma {:induction false} IngestTermsInvariants(db: Db, terms: seq<string>, env: Environment)
    requires db.committed == db.pending
    ensures var r := IngestTerms(db, terms, env).db;
      && r.committed == r.pending
      && (TagsDistinct(db.committed) ==> TagsDistinct(r.committed))
      && (NoneClosed(db.committed) ==> NoneClosed(r.committed))
      && Grows(db.committed, r.committed)
    decreases |terms|
  {
    if terms != [] {
      var prefix := terms[..|terms| - 1];
      IngestTermsInvariants(db, prefix, env);
      var mid := IngestTerms(db, prefix, env).db;
      TermKeepsInvariants(mid, terms[|terms| - 1], |terms| - 1, env);
      GrowsTransitive(db.committed, mid.committed, IngestTerms(db, terms, env).db.committed);
    }
  }

  /**
   * A run that starts from a clean session ends clean; no row's tags ever repeat; no
   * open row is lost and only its tags can change; and when the reaper succeeds no
   * stored row is closed at the end.
   */
  lemma RunInvariants(db: Db, terms: seq<string>, env: Environment)
    requires db.committed == db.pending
    ensures var r := BatchRun(db, terms, env).db;
      && r.committed == r.pending
      && (TagsDistinct(db.committed) ==> TagsDistinct(r.committed))
      && Grows(WithoutClosed(db.committed), r.committed)
      && (!env.reapQueryFails && !env.reapCommitFails ==> NoneClosed(r.committed))
  {
    var start := Reap(db, env.reapQueryFails, env.reapCommitFails);
    ReapOutcome(db, env.reapQueryFails, env.reapCommitFails);
    IngestTermsInvariants(start, terms, env);
    var r := IngestTerms(start, terms, env).db;
    assert Grows(WithoutClosed(db.committed), start.committed);
    GrowsTransitive(WithoutClosed(db.committed), start.committed, r.committed);
  }
}
