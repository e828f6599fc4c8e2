# Batch ingestion of places, modelled in Dafny

This project models the ingestion decision logic of `batch_ingest.py`, a scheduled job
that pulls businesses from a local-search API for a list of scenario terms ("fine
dining", "cocktail bar", ...). It filters out low-quality and closed businesses, and it
stores the rest in a `businesses` table keyed by the API's id. Each stored business is
tagged with every scenario that found it.

The model has three layers:

- **Values** (`records.dfy`, `tags.dfy`). The raw record and the stored `Business` row
  are datatypes. `Screen` is the filter chain of `upsert_business` (low rating, low
  reviews, closed, temporarily closed, missing coordinates; first match wins), together
  with the reads that raise in Python. `Titles` and `Join` build the categories and
  the address. `AddTag` is the tag append, which keeps set semantics.
- **Specification functions** (`store.dfy`, `pipeline.dfy`). The table is a
  `map<string, Business>`. The session is a `Db` holding a committed snapshot and a
  pending state: commit copies pending to committed, and rollback copies committed
  back to pending. The per-term statistics are a record of natural-number counters.
  The whole run is a function of the starting `Db` and an `Environment` of oracles.
- **Imperative code** (`ingestion.dfy`). A `Session` class holds the `committed` and
  `pending` tables. Its methods change them the way the Python code changes the global
  SQLAlchemy session: `Upsert`, `DeleteClosed` (a loop over the closed rows),
  `UpsertAll` (the record loop), `IngestTermLoop` (the offset loop) and `BatchIngest`
  (the term loop). Each method's postcondition equates its new state and results with
  the specification functions, and the properties are proved as lemmas about those
  functions.

External collaborators are parameters held in `Pipeline.Environment`:

- the search API is `search(i, term, offset)` for the `i`-th term of the run, which
  returns a page or fails;
- whether each page commit raises is `commitFails(i, offset)`;
- both are indexed by the term's position, so a term listed twice gets two independent
  requests and two independent transactions;
- whether the reaper's query or its commit raises is two booleans;
- the haversine distance is a function value. Its result is stored on new rows, and
  the model does not compute it.

The model follows what the code does, including three points where it does less than one might expect:

- The reaper returns nothing; it does not return a count.
- Each term requests only offset 0, because `range(0, 50, 50)` has one element.
- A record reported closed never updates an existing row. It is counted as `closed`
  and the stored row is left as it was, so a later reaper finds nothing new to delete
  (`FilteredRecordWritesNothing`, `UpsertStoreInvariants`: ingestion never closes a row).

## Model

| member | source | states |
|---|---|---|
| `Records.Screen` | batch_ingest.py:102-135 | A record is stored exactly when every filter passes and it has an id and readable categories. It is an error exactly when a `null` rating or review count is compared, or a passing record lacks an id or has `null` categories. A stored record has both coordinates. Its rating and review count are exactly the record's own values, at least 3.8 and at least 10. |
| `Records.FilterOrder` | batch_ingest.py:104-130 | The filters fire in a fixed order, first match wins. A rating below 3.8 (missing reads as 0) gives low_rating whatever else the record holds. Then fewer than 10 reviews gives low_reviews, then `is_closed` gives closed, then `business_temp_closed` gives temp_closed, then a missing latitude or longitude gives missing_coordinates. |
| `Records.Titles` | batch_ingest.py:135 | The categories are exactly the non-empty titles of the category list. Each one comes from the list, none is dropped, and there are no more of them than categories. |
| `Records.TitlesAppend` | batch_ingest.py:135 | Titles distribute over concatenation, so the categories keep the order of the source list. |
| `Records.JoinAppend` | batch_ingest.py:163 | Joining two non-empty lists of address lines gives their joins separated by one ", ". Together with `Join([x]) == x` this pins down `", ".join`. |
| `Records.NewRowShape` | batch_ingest.py:131-182 | A new row has the record's id, `scenario_tags == [tag]`, `is_closed == false`, the titles as categories, the joined address and the record's coordinates. Its distance is the haversine from the fixed office point. Its rating and review count are the record's own values, which passed the 3.8 and 10 bars. Name, price, phone, image URL, URL, business hours and the premium attribute fields are copied from the record. |
| `Tags.AddTag` | batch_ingest.py:151-153 | After the append the tag is present. The members are exactly the old tags plus the new one. A duplicate-free list stays duplicate-free. The old list is a prefix and grows by at most one. |
| `Tags.FirstIndex` | batch_ingest.py:152 | The first occurrence of a tag: in range, equal to the tag, and with no earlier occurrence. |
| `Tags.AddTagsFirstAppearance` | batch_ingest.py:151-153 | Appending tags one by one to a duplicate-free list gives a duplicate-free list of exactly the old and new tags. The old tags come first, and all tags are in order of first appearance. |
| `Store.Tally` | batch_ingest.py:108-130 | Each record raises the total by exactly one, in the counter for its fate: `added` when stored, `errors` when it raised, otherwise the counter of its rejection reason. |
| `Store.CountTotal` | batch_ingest.py:185-189 | After a page, the counters have grown by exactly the number of records, and `added` by at most that many. |
| `Store.FilteredRecordWritesNothing` | batch_ingest.py:108-130 | A rejected record, or one whose processing raises, leaves the table unchanged. |
| `Store.NewIdAddsOneRow` | batch_ingest.py:155-183 | An accepted record with a new id adds exactly one row, with that id, tags `[tag]` and the open flag. No existing row changes. |
| `Store.KnownIdOnlyTagsChange` | batch_ingest.py:151-153 | An accepted record with a known id changes only that row's tags. The tag is appended if and only if it is absent, and all other rows stay unchanged. |
| `Store.UpsertIdempotent` | batch_ingest.py:151-153 | Upserting the same record under the same tag twice gives the same table as doing it once. |
| `Store.UpsertStoreInvariants` | batch_ingest.py:151-183 | One upsert keeps every row's tags duplicate-free and never marks a row closed. Every existing row is kept with only its tags extended. |
| `Store.UpsertPageInvariants` | batch_ingest.py:234-235 | The same three facts hold after a whole page of upserts. |
| `Store.RepeatedSightings` | batch_ingest.py:151-171 | A record seen again under tags `ts` ends up with its earlier tags (none if it was new) extended by `AddTags` with `ts`. No other row changes. |
| `Store.RepeatedSightingsTagOrder` | batch_ingest.py:151-171 | So repeated sightings keep the tags duplicate-free, holding exactly the earlier and new tags, with the earlier ones first, in order of first appearance. |
| `Store.FineDiningThenCocktailBar` | batch_ingest.py:151-171 | Place "x1" (rating 4.2, 50 reviews) found under "fine dining" and then "cocktail bar" is one row tagged `["fine dining", "cocktail bar"]`. |
| `Store.WithoutClosed` | batch_ingest.py:197-198 | After the deletions no row is closed. Every open row is kept unchanged, and no row is added. |
| `Store.NothingToDeleteIffUnchanged` | batch_ingest.py:194-199 | The reaper finds no closed row exactly when deleting the closed rows would leave the table unchanged. So it commits exactly when its deletions change the table. |
| `Store.ReapOutcome` | batch_ingest.py:192-206 | After a successful reap, no row is closed, every open row is kept, and the result is committed. The database is written only if some row was closed. If the query or the commit fails, the result is the committed state with pending changes dropped. |
| `Pipeline.TermFetchesOffsetZero` | batch_ingest.py:227-230 | A term requests offset 0 and nothing else. |
| `Pipeline.TermReport` | batch_ingest.py:215-245 | A term's statistics start at zero and count exactly the records of its one page. This holds whatever was stored before and whether or not the commit succeeded; a failed fetch counts nothing. |
| `Pipeline.TermIsAtomic` | batch_ingest.py:229-245 | A term commits its whole page or nothing. The database gains the page's upserts only when the page is non-empty and the commit succeeds; otherwise it keeps its earlier commits. A failed fetch or commit drops only the pending writes, and an empty page stops with nothing written. |
| `Pipeline.IngestTermsShape` | batch_ingest.py:212-250 | Ingesting the terms makes exactly those requests and gives one report per term, each counting only that term's page. |
| `Pipeline.RunShape` | batch_ingest.py:209-250 | A run reaps exactly once, before any term. It then requests offset 0 of each term in order and reports each term's own statistics. |
| `Pipeline.TermKeepsInvariants` | batch_ingest.py:229-245 | From a clean session, a term ends clean. It keeps tags duplicate-free, never closes a row, and keeps every row with only its tags extended. |
| `Pipeline.IngestTermsInvariants` | batch_ingest.py:212-245 | The same holds for any sequence of terms. |
| `Pipeline.RunInvariants` | batch_ingest.py:209-250 | A run from a clean session ends clean and keeps tags duplicate-free. It loses no open row and changes only tags. When the reaper succeeds, no stored row is closed at the end. |
| `Ingestion.Session.constructor` | batch_ingest.py:75-76 | A new session sees the stored table with nothing pending. |
| `Ingestion.Session.Commit` | batch_ingest.py:236 | A commit that succeeds persists the pending state; one that raises changes nothing. |
| `Ingestion.Session.Rollback` | batch_ingest.py:241 | A rollback restores pending from committed. |
| `Ingestion.Session.Upsert` | batch_ingest.py:102-189 | `upsert_business` writes only the pending table, exactly as `UpsertStore`, and bumps the counters exactly as `Tally` of `Screen`. |
| `Ingestion.Session.DeleteClosed` | batch_ingest.py:192-206 | The deletion loop with its conditional commit and its rollback ends in exactly the state `Reap` describes. |
| `Ingestion.Session.UpsertAll` | batch_ingest.py:234-235 | The record loop leaves the database alone. It leaves the pending table as `UpsertPage` and the counters as `Count` describe. |
| `Ingestion.Session.IngestTermLoop` | batch_ingest.py:215-247 | The offset loop ends in the state, statistics and requests that `IngestTerm` describes. |
| `Ingestion.Session.BatchIngest` | batch_ingest.py:209-250 | The whole run ends in the state, reports and trace that `BatchRun` describes. |

## Left out

- `calculate_distance_km` (floating-point haversine and `round`) is a caller-supplied function value. Its symmetry and its zero on equal points are not proved.
- `search_yelp` (the HTTP request, `raise_for_status`, JSON decoding) is the oracle `Environment.search`. A failure covers every exception it can raise.
- The SQLAlchemy engine, table creation and `MutableList` change tracking are replaced by the committed/pending maps. Rows are keyed by id in both maps, and a query sees the pending state (autoflush).
- Logging, the log file, `print`, `load_dotenv`, environment variables and `time.sleep(1)` are left out; they have no effect on the data.
- The premium attribute fields are opaque `Json` values passed through unchanged. `accepted_cards.credit` is read as one field, so an `accepted_cards` value that is truthy but not an object (which raises in Python) is not modelled.
- A `null` "id", a non-string title or address line, a non-object category, and an existing row whose `scenario_tags` is `null` are not modelled. The record type cannot express them.
- A payload that is not well-formed JSON of the expected shape is not modelled.
- Whether a page commit raises, and whether the reaper's query or commit raises, are oracles. Which exception is raised is not modelled.
- `Pipeline.TermReport` (and `Store.Count`, `Store.UpsertStore`) assume the lookup by id in `upsert_business` (a database query with autoflush) never raises. A database failure there would count the record under `errors`, write nothing, and could leave the session needing a rollback. The model has no oracle for it, so every record that passes the filters is counted as `added`, and a term's statistics do not depend on the stored table.
- The `__main__` list of scenario terms is configuration; `BatchIngest` takes the terms as a parameter.
- Concurrency is left out: the job is single-threaded and the model is sequential.
