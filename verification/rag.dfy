/** `search_rag_database`, identical in both backends: the first stored
    record whose error text contains the query, ignoring case, is returned
    as a solution. */
module Rag {

  import opened Wrappers
  import opened Text
  import opened Store

  /** The solution record both backends return (main.py's `Solution`). */
  datatype Solution = Solution(id: int, description: string, confidence: real, solutionText: string)

  /** The description keeps this many characters of the stored error. */
  const DescriptionLimit: nat := 100

  /** The suffix appended to every retrieved description. */
  const Ellipsis: string := "..."

  /** The confidence every retrieved solution carries. */
  const RetrievedConfidence: real := 0.95

  /** `error[:100] + "..."`: the first characters of the error, then the
      ellipsis, whether or not anything was cut. */
  function Describe(error: string): (d: string)
    ensures |d| <= DescriptionLimit + |Ellipsis|
    ensures |d| == (if |error| < DescriptionLimit then |error| else DescriptionLimit) + |Ellipsis|
    ensures d[..|d| - |Ellipsis|] <= error
    ensures EndsWith(d, Ellipsis)
  {
    var kept := if |error| < DescriptionLimit then error else error[..DescriptionLimit];
    assert (kept + Ellipsis)[|kept|..] == Ellipsis;
    kept + Ellipsis
  }

  /** A record is a hit for the query when, ignoring case, the query occurs
      in its error text. */
  predicate Hits(e: Entry, query: string) {
    ContainsIgnoringCase(e.error, query)
  }

  /** Index of the first record at or after `from` that is a hit. */
  function FirstHit(db: seq<Entry>, query: string, from: nat): (r: Option<nat>)
    requires from <= |db|
    ensures r.Some? ==> from <= r.value < |db| && Hits(db[r.value], query)
    ensures r.Some? ==> forall j :: from <= j < r.value ==> !Hits(db[j], query)
    ensures r.None? <==> forall j :: from <= j < |db| ==> !Hits(db[j], query)
    decreases |db| - from
  {
    if from == |db| then None
    else if Hits(db[from], query) then Some(from)
    else FirstHit(db, query, from + 1)
  }

  /** The solution built from a hit. */
  function FromEntry(e: Entry): (s: Solution)
    ensures s.id == e.id && s.solutionText == e.solution
    ensures s.confidence == RetrievedConfidence && s.description == Describe(e.error)
  {
    Solution(e.id, Describe(e.error), RetrievedConfidence, e.solution)
  }

  /** `search_rag_database(query)`: the lowest-index hit, shaped as a
      solution, or `None` when no record is a hit. */
  function SearchRag(db: seq<Entry>, query: string): (r: Option<Solution>)
    ensures r.None? <==> forall j :: 0 <= j < |db| ==> !Hits(db[j], query)
    ensures r.Some? ==> exists k :: 0 <= k < |db| && Hits(db[k], query)
                                  && (forall j :: 0 <= j < k ==> !Hits(db[j], query))
                                  && r.value == FromEntry(db[k])
  {
    match FirstHit(db, query, 0)
    case None => None
    case Some(k) => Some(FromEntry(db[k]))
  }

  /** An empty store never hits. */
  lemma EmptyStoreMisses(query: string)
    ensures SearchRag([], query).None?
  {
  }

  /** Any slice of any record's error text, `""` and the whole text
      included, hits; the record returned is that one or an earlier one. */
  lemma {:induction false} SliceOfStoredErrorHits(db: seq<Entry>, k: int, i: int, j: int)
    requires 0 <= k < |db|
    requires 0 <= i <= j <= |db[k].error|
    ensures SearchRag(db, db[k].error[i..j]).Some?
    ensures FirstHit(db, db[k].error[i..j], 0).Some?
    ensures FirstHit(db, db[k].error[i..j], 0).value <= k
  {
    SliceContainedIgnoringCase(db[k].error, i, j);
  }

  /** Querying with a record's exact error text hits. */
  lemma {:induction false} ExactErrorHits(db: seq<Entry>, k: int)
    requires 0 <= k < |db|
    ensures SearchRag(db, db[k].error).Some?
  {
    assert db[k].error[0..|db[k].error|] == db[k].error;
    SliceOfStoredErrorHits(db, k, 0, |db[k].error|);
  }

  /** The empty query hits the first record of any non-empty store, so a
      request without log content returns the oldest stored solution. */
  lemma {:induction false} EmptyQueryHitsFirst(db: seq<Entry>)
    ensures |db| > 0 ==> SearchRag(db, "") == Some(FromEntry(db[0]))
  {
    if |db| > 0 {
      assert db[0].error[0..0] == "";
      SliceContainedIgnoringCase(db[0].error, 0, 0);
    }
  }

  /** The search ignores the case of the query. */
  lemma {:induction false} QueryCaseIgnored(db: seq<Entry>, query: string)
    ensures SearchRag(db, Lower(query)) == SearchRag(db, query)
  {
    forall j | 0 <= j < |db|
      ensures Hits(db[j], Lower(query)) == Hits(db[j], query)
    {
      ContainsIgnoringCaseLowered(db[j].error, query);
    }
    FirstHitPointwise(db, Lower(query), query, 0);
  }

  /** Two queries that hit the same records find the same first hit. */
  lemma {:induction false} FirstHitPointwise(db: seq<Entry>, q1: string, q2: string, from: nat)
    requires from <= |db|
    requires forall j :: 0 <= j < |db| ==> Hits(db[j], q1) == Hits(db[j], q2)
    ensures FirstHit(db, q1, from) == FirstHit(db, q2, from)
    decreases |db| - from
  {
    if from < |db| {
      FirstHitPointwise(db, q1, q2, from + 1);
    }
  }

  /** Appending records never changes an existing hit. */
  lemma {:induction false} HitSurvivesAppend(db: seq<Entry>, more: seq<Entry>, query: string)
    requires SearchRag(db, query).Some?
    ensures SearchRag(db + more, query) == SearchRag(db, query)
  {
    FirstHitAppend(db, more, query, 0);
    var k := FirstHit(db, query, 0).value;
    assert (db + more)[k] == db[k];
  }

  /** A query that missed the old records is answered by the appended
      records alone. */
  lemma {:induction false} MissDefersToAppended(db: seq<Entry>, more: seq<Entry>, query: string)
    requires SearchRag(db, query).None?
    ensures SearchRag(db + more, query) == SearchRag(more, query)
  {
    FirstHitShift(db, more, query, 0);
    if FirstHit(more, query, 0).Some? {
      var k := FirstHit(more, query, 0).value;
      assert (db + more)[|db| + k] == more[k];
    }
  }

  lemma {:induction false} FirstHitAppend(db: seq<Entry>, more: seq<Entry>, query: string, from: nat)
    requires from <= |db|
    ensures FirstHit(db, query, from).Some? ==> FirstHit(db + more, query, from) == FirstHit(db, query, from)
    decreases |db| - from
  {
    if from < |db| {
      assert (db + more)[from] == db[from];
      FirstHitAppend(db, more, query, from + 1);
    }
  }

  lemma {:induction false} FirstHitShift(db: seq<Entry>, more: seq<Entry>, query: string, from: nat)
    requires from <= |more|
    requires forall j :: 0 <= j < |db| ==> !Hits(db[j], query)
    ensures FirstHit(db + more, query, |db| + from).Some? == FirstHit(more, query, from).Some?
    ensures FirstHit(more, query, from).Some? ==>
      FirstHit(db + more, query, |db| + from).value == |db| + FirstHit(more, query, from).value
    ensures FirstHit(db + more, query, 0) == FirstHit(db + more, query, |db|)
    decreases |more| - from
  {
    if from < |more| {
      assert (db + more)[|db| + from] == more[from];
      FirstHitShift(db, more, query, from + 1);
    }
    SkipMisses(db + more, query, |db|);
  }

  /** Starting the scan past a run of misses changes nothing. */
  lemma {:induction false} SkipMisses(db: seq<Entry>, query: string, k: nat)
    requires k <= |db|
    requires forall j :: 0 <= j < k ==> !Hits(db[j], query)
    ensures FirstHit(db, query, 0) == FirstHit(db, query, k)
    decreases k
  {
    if k > 0 {
      SkipMissesFrom(db, query, k - 1);
      SkipMisses(db, query, k - 1);
    }
  }

  /** A single miss at the start point is skipped. */
  lemma SkipMissesFrom(db: seq<Entry>, query: string, from: nat)
    requires from < |db|
    requires !Hits(db[from], query)
    ensures FirstHit(db, query, from) == FirstHit(db, query, from + 1)
  {
  }

  /** On a valid store the hit's id is the index of the first matching
      record. */
  lemma {:induction false} HitIdIsFirstIndex(st: Store, query: string)
    requires Valid(st)
    ensures SearchRag(st.entries, query).Some? ==>
      var k := SearchRag(st.entries, query).value.id;
      0 <= k < |st.entries| && Hits(st.entries[k], query)
      && forall j :: 0 <= j < k ==> !Hits(st.entries[j], query)
  {
  }

  /** Feedback loop: once a record is marked, its error text is found.
      Earlier hits of other queries stay as they were (`HitSurvivesAppend`);
      an earlier miss may become a hit on the new record. */
  lemma {:induction false} MarkedErrorIsFound(st: Store, errorText: string, solutionText: string)
    ensures SearchRag(MarkByCounter(st, Some(errorText), Some(solutionText)).store.entries, errorText).Some?
  {
    var entries := MarkByCounter(st, Some(errorText), Some(solutionText)).store.entries;
    ExactErrorHits(entries, |st.entries|);
  }
}
