/**
 * The imperative pipeline: the database session as an object whose methods change its
 * committed and pending tables step by step, as `upsert_business`,
 * `delete_closed_businesses` and `batch_ingest` do (batch_ingest.py:102-250).
 * Each method is proved against the functions of `Store` and `Pipeline`.
 */
module Ingestion {
  import opened Wrappers
  import opened Records
  import opened Store
  import opened Pipeline

  class Session {
    /** The rows the database holds. */
    var committed: Table
    /** The rows the session sees: `committed` plus the writes not yet committed. */
    var pending: Table

    function State(): (db: Db)
      reads this
    {
      Db(committed, pending)
    }

    /** A session opened on `stored`, with nothing pending. */
    constructor (stored: Table)
      ensures State() == Db(stored, stored)
    {
      committed := stored;
      pending := stored;
    }

    /** `session.commit()`; `fails` says whether the database raises. */
    method Commit(fails: bool) returns (ok: bool)
      modifies this
      ensures ok == !fails
      ensures State() == if ok then Persist(old(State())) else old(State())
    {
      ok := !fails;
      if ok {
        committed := pending;
      }
    }

    /** `session.rollback()`. */
    method Rollback()
      modifies this
      ensures State() == Discard(old(State()))
    {
      pending := committed;
    }

    /**
     * `upsert_business(data, tag, stats)`: the filters in order, the reads that raise,
     * then create the row or append the tag; the database itself is not written.
     */
    method Upsert(data: RawRecord, tag: string, stats: Stats, haversine: Haversine) returns (counted: Stats)
      modifies this
      ensures committed == old(committed)
      ensures pending == UpsertStore(old(pending), data, tag, haversine)
      ensures counted == Tally(stats, Screen(data))
    {
      var rating := Lookup(data.rating, 0.0);
      var reviews := Lookup(data.reviewCount, 0);
      if rating.None? {
        return stats.(errors := stats.errors + 1);
      }
      if rating.value < MinRating {
        return stats.(lowRating := stats.lowRating + 1);
      }
      if reviews.None? {
        return stats.(errors := stats.errors + 1);
      }
      if reviews.value < MinReviews {
        return stats.(lowReviews := stats.lowReviews + 1);
      }
      if data.isClosed {
        return stats.(closed := stats.closed + 1);
      }
      var attrs := AttributesOf(data);
      if attrs.businessTempClosed {
        return stats.(tempClosed := stats.tempClosed + 1);
      }
      var coords := data.coordinates.GetOr(Coordinates(None, None));
      if coords.latitude.None? || coords.longitude.None? {
        return stats.(missingCoordinates := stats.missingCoordinates + 1);
      }
      if data.id.None? {
        // `data["id"]` raises KeyError
        return stats.(errors := stats.errors + 1);
      }
      var id := data.id.value;
      var existing := if id in pending then Some(pending[id]) else None;
      if data.categories.Null? {
        // iterating over `None` raises TypeError
        return stats.(errors := stats.errors + 1);
      }
      match existing {
        case Some(business) =>
          if tag !in business.scenarioTags {
            pending := pending[id := business.(scenarioTags := business.scenarioTags + [tag])];
          }
        case None =>
          pending := pending[id := NewRow(data, tag, haversine)];
      }
      counted := stats.(added := stats.added + 1);
    }

    /**
     * `delete_closed_businesses()`: delete every closed row one by one and commit when
     * there was at least one; if the query or the commit raises, roll back.
     */
    method DeleteClosed(queryFails: bool, commitFails: bool)
      modifies this
      ensures State() == Reap(old(State()), queryFails, commitFails)
    {
      if queryFails {
        Rollback();
        return;
      }
      var closed := set id | id in pending && pending[id].isClosed;
      if closed != {} {
        var remaining := closed;
        while remaining != {}
          invariant remaining <= closed
          invariant committed == old(committed)
          invariant pending == map id | id in old(pending) && id !in closed - remaining :: old(pending)[id]
          decreases remaining
        {
          var id :| id in remaining;
          pending := pending - {id};
          remaining := remaining - {id};
        }
        assert pending == WithoutClosed(old(pending));
        var ok := Commit(commitFails);
        if !ok {
          Rollback();
        }
      }
    }

    /** The record loop of one page: `upsert_business` on each record in order. */
    method UpsertAll(recs: seq<RawRecord>, tag: string, stats: Stats, haversine: Haversine) returns (counted: Stats)
      modifies this
      ensures committed == old(committed)
      ensures pending == UpsertPage(old(pending), recs, tag, haversine)
      ensures counted == Count(stats, recs)
    {
      counted := stats;
      var j := 0;
      while j < |recs|
        invariant 0 <= j <= |recs|
        invariant committed == old(committed)
        invariant pending == UpsertPage(old(pending), recs[..j], tag, haversine)
        invariant counted == Count(stats, recs[..j])
      {
        assert recs[..j + 1][..j] == recs[..j];
        counted := Upsert(recs[j], tag, counted, haversine);
        j := j + 1;
      }
      assert recs[..j] == recs;
    }

    /**
     * The offset loop of `batch_ingest` for one term: statistics from zero, one request
     * per offset of `range(0, 50, 50)`, a stop at an empty page, a commit per page, and a
     * rollback when the fetch or the commit raises. Returns the statistics and the requests.
     */
    method IngestTermLoop(tag: string, pos: nat, env: Environment) returns (stats: Stats, events: seq<Event>)
      modifies this
      ensures TermResult(State(), stats, events) == IngestTerm(old(State()), tag, pos, env)
    {
      stats := NoStats;
      events := [];
      var offset: nat := 0;
      while offset < ResultCap
        invariant var rest := IngestFrom(State(), stats, tag, pos, offset, env);
          TermResult(rest.db, rest.stats, events + rest.trace) == IngestTerm(old(State()), tag, pos, env)
        decreases ResultCap - offset
      {
        ghost var here := IngestFrom(State(), stats, tag, pos, offset, env);
        events := events + [Fetched(tag, offset)];
        var page := env.search(pos, tag, offset);
        if page.FetchFailed? {
          Rollback();
          offset := offset + PageSize;
          continue;
        }
        if page.records == [] {
          assert here == TermResult(State(), stats, [Fetched(tag, offset)]);
          return;
        }
        stats := UpsertAll(page.records, tag, stats, env.haversine);
        var ok := Commit(env.commitFails(pos, offset));
        if !ok {
          Rollback();
        }
        offset := offset + PageSize;
      }
      assert events + [] == events;
    }

    /**
     * `batch_ingest(terms)`: reap once, then ingest each term in order. Returns each
     * term's statistics and the run's trace of reaps and page requests.
     */
    method BatchIngest(terms: seq<string>, env: Environment) returns (reports: seq<Stats>, trace: seq<Event>)
      modifies this
      ensures RunResult(State(), reports, trace) == BatchRun(old(State()), terms, env)
    {
      DeleteClosed(env.reapQueryFails, env.reapCommitFails);
      ghost var start := State();
      reports, trace := [], [Reaped];
      var i := 0;
      while i < |terms|
        invariant 0 <= i <= |terms|
        invariant |trace| >= 1 && trace[0] == Reaped
        invariant IngestTerms(start, terms[..i], env) == RunResult(State(), reports, trace[1..])
      {
        assert terms[..i + 1][..i] == terms[..i];
        var stats, events := IngestTermLoop(terms[i], i, env);
        assert (trace + events)[1..] == trace[1..] + events;
        reports := reports + [stats];
        trace := trace + events;
        i := i + 1;
      }
      assert terms[..i] == terms;
    }
  }
}
