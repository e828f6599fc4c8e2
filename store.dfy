/**
 * The `businesses` table as a map keyed by id, the database session as a committed
 * snapshot plus a pending state, the per-term statistics, and the effect of
 * `upsert_business` and `delete_closed_businesses` on them (batch_ingest.py:102-206).
 */
module Store {
  import opened Wrappers
  import opened Records
  import opened Tags

  type Table = map<string, Business>

  /** What the database holds (`committed`) and what the session sees (`pending`). */
  datatype Db = Db(committed: Table, pending: Table)

  /** `session.commit()`: the pending state becomes durable. */
  function Persist(db: Db): (r: Db) {
    Db(db.pending, db.pending)
  }

  /** `session.rollback()`: every pending change is dropped. */
  function Discard(db: Db): (r: Db) {
    Db(db.committed, db.committed)
  }

  /** The `stats` dictionary of one term: `added` and the `skipped` counters. */
  datatype Stats = Stats(
    added: nat,
    lowRating: nat,
    lowReviews: nat,
    closed: nat,
    tempClosed: nat,
    missingCoordinates: nat,
    errors: nat)

  const NoStats := Stats(0, 0, 0, 0, 0, 0, 0)

  function Skipped(s: Stats, reason: Reason): (n: nat) {
    match reason
    case LowRating => s.lowRating
    case LowReviews => s.lowReviews
    case Closed => s.closed
    case TempClosed => s.tempClosed
    case MissingCoordinates => s.missingCoordinates
  }

  function Total(s: Stats): (n: nat) {
    s.added + s.lowRating + s.lowReviews + s.closed + s.tempClosed + s.missingCoordinates + s.errors
  }

  /** Count one record: exactly one counter, the one for its fate, goes up by one. */
  function Tally(s: Stats, e: Screening): (r: Stats)
    ensures Total(r) == Total(s) + 1
    ensures r.added == s.added + (if e.Eligible? then 1 else 0)
    ensures r.errors == s.errors + (if e.Errored? then 1 else 0)
    ensures forall reason :: Skipped(r, reason) == Skipped(s, reason) + (if e == Rejected(reason) then 1 else 0)
  {
    match e
    case Eligible(_, _, _, _, _) => s.(added := s.added + 1)
    case Errored => s.(errors := s.errors + 1)
    case Rejected(LowRating) => s.(lowRating := s.lowRating + 1)
    case Rejected(LowReviews) => s.(lowReviews := s.lowReviews + 1)
    case Rejected(Closed) => s.(closed := s.closed + 1)
    case Rejected(TempClosed) => s.(tempClosed := s.tempClosed + 1)
    case Rejected(MissingCoordinates) => s.(missingCoordinates := s.missingCoordinates + 1)
  }

  /** The statistics after the records of a page, in order. */
  function Count(s: Stats, recs: seq<RawRecord>): (r: Stats)
    decreases |recs|
  {
    if recs == [] then s else Tally(Count(s, recs[..|recs| - 1]), Screen(recs[|recs| - 1]))
  }

  /** Every record of a page lands in exactly one counter. */
  lemma {:induction false} CountTotal(s: Stats, recs: seq<RawRecord>)
    ensures Total(Count(s, recs)) == Total(s) + |recs|
    ensures Count(s, recs).added <= s.added + |recs|
    decreases |recs|
  {
    if recs != [] {
      CountTotal(s, recs[..|recs| - 1]);
    }
  }

  /** The pending table after `upsert_business(d, tag, stats)`. */
  function UpsertStore(m: Table, d: RawRecord, tag: string, haversine: Haversine): (r: Table) {
    match Screen(d)
    case Eligible(id, _, _, _, _) =>
      if id in m then m[id := m[id].(scenarioTags := AddTag(m[id].scenarioTags, tag))]
      else m[id := NewRow(d, tag, haversine)]
    case _ => m
  }

  /** The pending table after `upsert_business` on each record of a page. */
  function UpsertPage(m: Table, recs: seq<RawRecord>, tag: string, haversine: Haversine): (r: Table)
    decreases |recs|
  {
    if recs == [] then m
    else UpsertStore(UpsertPage(m, recs[..|recs| - 1], tag, haversine), recs[|recs| - 1], tag, haversine)
  }

  /** The pending table after the same record is upserted under each of `tags` in turn. */
  function UpsertEach(m: Table, d: RawRecord, tags: seq<string>, haversine: Haversine): (r: Table)
    decreases |tags|
  {
    if tags == [] then m
    else UpsertStore(UpsertEach(m, d, tags[..|tags| - 1], haversine), d, tags[|tags| - 1], haversine)
  }

  /** No row's scenario tags repeat. */
  ghost predicate TagsDistinct(m: Table) {
    forall id :: id in m ==> NoDup(m[id].scenarioTags)
  }

  /** No row is marked closed. */
  ghost predicate NoneClosed(m: Table) {
    forall id :: id in m ==> !m[id].isClosed
  }

  /**
   * Every row of `before` is still in `after`, with every field but its tags unchanged
   * and its old tags a prefix of its new ones.
   */
  ghost predicate Grows(before: Table, after: Table) {
    forall id :: id in before ==>
      && id in after
      && after[id] == before[id].(scenarioTags := after[id].scenarioTags)
      && before[id].scenarioTags <= after[id].scenarioTags
  }

  lemma GrowsTransitive(a: Table, b: Table, c: Table)
    requires Grows(a, b) && Grows(b, c)
    ensures Grows(a, c)
  {
    forall id | id in a
      ensures id in c && c[id] == a[id].(scenarioTags := c[id].scenarioTags)
      ensures a[id].scenarioTags <= c[id].scenarioTags
    {
      assert b[id].scenarioTags <= c[id].scenarioTags;
    }
  }

  /** A record that is skipped or raises writes nothing. */
  lemma FilteredRecordWritesNothing(m: Table, d: RawRecord, tag: string, haversine: Haversine)
    requires !Screen(d).Eligible?
    ensures UpsertStore(m, d, tag, haversine) == m
  {
  }

  /** An eligible record with a new id adds exactly that row; no existing row changes. */
  lemma NewIdAddsOneRow(m: Table, d: RawRecord, tag: string, haversine: Haversine)
    requires Screen(d).Eligible? && d.id.value !in m
    ensures var r := UpsertStore(m, d, tag, haversine);
      && r.Keys == m.Keys + {d.id.value}
      && r[d.id.value] == NewRow(d, tag, haversine)
      && r[d.id.value].scenarioTags == [tag] && !r[d.id.value].isClosed
      && forall id :: id in m ==> r[id] == m[id]
  {
  }

  /**
   * An eligible record with a known id changes only that row's tags, appending `tag`
   * exactly when it is absent.
   */
  lemma KnownIdOnlyTagsChange(m: Table, d: RawRecord, tag: string, haversine: Haversine)
    requires Screen(d).Eligible? && d.id.value in m
    ensures var r := UpsertStore(m, d, tag, haversine); var id := d.id.value;
      && r.Keys == m.Keys
      && r[id] == m[id].(scenarioTags := r[id].scenarioTags)
      && (tag in m[id].scenarioTags ==> r[id].scenarioTags == m[id].scenarioTags)
      && (tag !in m[id].scenarioTags ==> r[id].scenarioTags == m[id].scenarioTags + [tag])
      && forall k :: k in m && k != id ==> r[k] == m[k]
  {
  }

  /** Upserting the same record under the same tag twice is the same as once. */
  lemma UpsertIdempotent(m: Table, d: RawRecord, tag: string, haversine: Haversine)
    ensures UpsertStore(UpsertStore(m, d, tag, haversine), d, tag, haversine) == UpsertStore(m, d, tag, haversine)
  {
    if Screen(d).Eligible? {
      var once := UpsertStore(m, d, tag, haversine);
      var id := d.id.value;
      assert id in once && tag in once[id].scenarioTags;
      assert once[id := once[id]] == once;
    }
  }

  /** One upsert keeps tags distinct, never closes a row, and only grows the table. */
  lemma UpsertStoreInvariants(m: Table, d: RawRecord, tag: string, haversine: Haversine)
    ensures var r := UpsertStore(m, d, tag, haversine);
      && (TagsDistinct(m) ==> TagsDistinct(r))
      && (NoneClosed(m) ==> NoneClosed(r))
      && Grows(m, r)
  {
  }

  /** A page of upserts keeps tags distinct, never closes a row, and only grows the table. */
  lemma {:induction false} UpsertPageInvariants(m: Table, recs: seq<RawRecord>, tag: string, haversine: Haversine)
    ensures var r := UpsertPage(m, recs, tag, haversine);
      && (TagsDistinct(m) ==> TagsDistinct(r))
      && (NoneClosed(m) ==> NoneClosed(r))
      && Grows(m, r)
    decreases |recs|
  {
    if recs != [] {
      var prefix := recs[..|recs| - 1];
      var mid := UpsertPage(m, prefix, tag, haversine);
      UpsertPageInvariants(m, prefix, tag, haversine);
      UpsertStoreInvariants(mid, recs[|recs| - 1], tag, haversine);
      GrowsTransitive(m, mid, UpsertPage(m, recs, tag, haversine));
    }
  }

  /**
   * A record seen again and again under tags `ts` ends up tagged with `AddTags` of its
   * earlier tags (none when it was new) and `ts`; no other row changes.
   */
  lemma {:induction false} RepeatedSightings(m: Table, d: RawRecord, ts: seq<string>, haversine: Haversine)
    requires Screen(d).Eligible?
    requires d.id.value in m || ts != []
    ensures var r := UpsertEach(m, d, ts, haversine); var id := d.id.value;
      && id in r
      && r[id].scenarioTags == AddTags(if id in m then m[id].scenarioTags else [], ts)
      && forall k :: k in m && k != id ==> k in r && r[k] == m[k]
    decreases |ts|
  {
    var id := d.id.value;
    if ts != [] {
      var ts' := ts[..|ts| - 1];
      var mid := UpsertEach(m, d, ts', haversine);
      if id in m || ts' != [] {
        RepeatedSightings(m, d, ts', haversine);
      } else {
        assert mid == m;
        assert AddTags([], ts) == AddTag(AddTags([], ts'), ts[0]);
      }
    }
  }

  /**
   * So a record's tags stay duplicate-free, gain every new tag, keep the old ones first,
   * and follow the order in which the tags first appeared.
   */
  lemma RepeatedSightingsTagOrder(m: Table, d: RawRecord, ts: seq<string>, haversine: Haversine)
    requires Screen(d).Eligible?
    requires d.id.value !in m || NoDup(m[d.id.value].scenarioTags)
    requires d.id.value in m || ts != []
    ensures var r := UpsertEach(m, d, ts, haversine); var id := d.id.value;
      var earlier := if id in m then m[id].scenarioTags else [];
      && id in r
      && NoDup(r[id].scenarioTags)
      && (forall t :: t in r[id].scenarioTags <==> t in earlier + ts)
      && earlier <= r[id].scenarioTags
      && InFirstAppearanceOrder(r[id].scenarioTags, earlier + ts)
  {
    var id := d.id.value;
    RepeatedSightings(m, d, ts, haversine);
    AddTagsFirstAppearance(if id in m then m[id].scenarioTags else [], ts);
  }

  /** A place first found under "fine dining" and later under "cocktail bar" carries both, in that order. */
  lemma FineDiningThenCocktailBar(m: Table, haversine: Haversine)
    requires "x1" !in m
    ensures var x1 := RawRecord(
        Some("x1"), None, Absent, None, Present(4.2), Present(50),
        Some(Coordinates(Some(43.65), Some(-79.38))), None, None, None, None, false, None, None);
      var r := UpsertStore(UpsertStore(m, x1, "fine dining", haversine), x1, "cocktail bar", haversine);
      && r.Keys == m.Keys + {"x1"}
      && r["x1"].scenarioTags == ["fine dining", "cocktail bar"]
  {
    var x1 := RawRecord(
      Some("x1"), None, Absent, None, Present(4.2), Present(50),
      Some(Coordinates(Some(43.65), Some(-79.38))), None, None, None, None, false, None, None);
    assert Screen(x1).Eligible?;
    assert "cocktail bar" !in ["fine dining"];
  }

  /** Ids of the rows marked closed. */
  function ClosedIds(m: Table): (ids: set<string>) {
    set id | id in m && m[id].isClosed
  }

  /** The table with every closed row deleted and every open row kept. */
  function WithoutClosed(m: Table): (r: Table)
    ensures NoneClosed(r)
    ensures forall id :: id in r <==> id in m && !m[id].isClosed
    ensures forall id :: id in r ==> r[id] == m[id]
  {
    map id | id in m && !m[id].isClosed :: m[id]
  }

  /**
   * The reaper finds nothing to delete exactly when deleting the closed rows would leave
   * the table as it is, so it commits exactly when the deletions change the table.
   */
  lemma NothingToDeleteIffUnchanged(m: Table)
    ensures ClosedIds(m) == {} <==> WithoutClosed(m) == m
  {
    if ClosedIds(m) != {} {
      var id :| id in ClosedIds(m);
      assert id in m && id !in WithoutClosed(m);
    } else {
      forall id | id in m
        ensures !m[id].isClosed
      {
        assert id !in ClosedIds(m);
      }
      assert WithoutClosed(m) == m;
    }
  }

  /**
   * `delete_closed_businesses`: query the closed rows, delete them and commit only when
   * there is at least one; if the query or the commit raises, roll back.
   */
  function Reap(db: Db, queryFails: bool, commitFails: bool): (r: Db) {
    if queryFails then Discard(db)
    else if ClosedIds(db.pending) == {} then db
    else if commitFails then Discard(db)
    else Persist(Db(db.committed, WithoutClosed(db.pending)))
  }

  /**
   * After a successful reap no row is closed and every open row is kept; the database
   * is written only if a row was deleted; a failure leaves the committed state, pending
   * changes dropped.
   */
  lemma ReapOutcome(db: Db, queryFails: bool, commitFails: bool)
    ensures var r := Reap(db, queryFails, commitFails);
      && (queryFails || (ClosedIds(db.pending) != {} && commitFails) ==> r == Discard(db))
      && (!queryFails && ClosedIds(db.pending) == {} ==> r == db && NoneClosed(r.pending))
      && (!queryFails && ClosedIds(db.pending) != {} && !commitFails ==>
            r.committed == r.pending && NoneClosed(r.pending)
            && forall id :: id in db.pending && !db.pending[id].isClosed ==> id in r.pending && r.pending[id] == db.pending[id])
  {
    NothingToDeleteIffUnchanged(db.pending);
  }
}
