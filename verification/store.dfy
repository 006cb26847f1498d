/** The in-memory solution store both backends keep (`rag_database`): an
    append-only list of `{id, error, solution}` records. */
module Store {

  import opened Wrappers

  /** One stored record. */
  datatype Entry = Entry(id: int, error: string, solution: string)

  /** The simple server's store: the list and the separate
      `solution_counter` that supplies the next id. */
  datatype Store = Store(entries: seq<Entry>, counter: int)

  /** Every entry's id is its position in the list. */
  ghost predicate IdsArePositions(entries: seq<Entry>) {
    forall i :: 0 <= i < |entries| ==> entries[i].id == i
  }

  /** The invariant the simple server keeps: ids are positions and the
      counter is the list length. */
  ghost predicate Valid(st: Store) {
    IdsArePositions(st.entries) && st.counter == |st.entries|
  }

  /** The state at start-up: `rag_database = []`, `solution_counter = 0`. */
  function Empty(): (st: Store)
    ensures Valid(st) && |st.entries| == 0
  {
    Store([], 0)
  }

  /** What `/mark-solution` appends, and the id it reports. */
  datatype Marked = Marked(store: Store, entryId: int)

  /** The simple server's `/mark-solution`: append a record whose id is the
      counter, then bump the counter. A field missing from the request body
      is stored as `""`. */
  function MarkByCounter(st: Store, errorText: Option<string>, solutionText: Option<string>): (m: Marked)
    ensures |m.store.entries| == |st.entries| + 1
    ensures m.store.entries[..|st.entries|] == st.entries
    ensures m.entryId == st.counter && m.store.counter == st.counter + 1
    ensures m.store.entries[|st.entries|] == Entry(m.entryId, errorText.GetOr(""), solutionText.GetOr(""))
    ensures Valid(st) ==> Valid(m.store) && m.entryId == |st.entries|
  {
    var entry := Entry(st.counter, errorText.GetOr(""), solutionText.GetOr(""));
    Marked(Store(st.entries + [entry], st.counter + 1), entry.id)
  }

  /** main.py's `mark_solution`: the id is the list length before the
      append. Returns the new list and the id. */
  function MarkByLength(entries: seq<Entry>, errorText: string, solutionText: string): (r: (seq<Entry>, int))
    ensures |r.0| == |entries| + 1
    ensures r.0[..|entries|] == entries
    ensures r.1 == |entries| && r.0[|entries|] == Entry(r.1, errorText, solutionText)
    ensures IdsArePositions(entries) ==> IdsArePositions(r.0)
  {
    (entries + [Entry(|entries|, errorText, solutionText)], |entries|)
  }

  /** On a valid store the two backends' append rules coincide. */
  lemma MarkRulesAgree(st: Store, errorText: string, solutionText: string)
    requires Valid(st)
    ensures MarkByCounter(st, Some(errorText), Some(solutionText)).store.entries
         == MarkByLength(st.entries, errorText, solutionText).0
    ensures MarkByCounter(st, Some(errorText), Some(solutionText)).entryId
         == MarkByLength(st.entries, errorText, solutionText).1
  {
  }

  /** Ids are positions, so they strictly increase along the list. */
  lemma IdsStrictlyIncrease(entries: seq<Entry>, i: int, j: int)
    requires IdsArePositions(entries)
    requires 0 <= i < j < |entries|
    ensures entries[i].id < entries[j].id
  {
  }

  /** Replays a sequence of `/mark-solution` requests, oldest first. */
  function MarkAll(st: Store, requests: seq<(string, string)>): Store
    decreases |requests|
  {
    if |requests| == 0 then st
    else
      var prefix := requests[..|requests| - 1];
      var last := requests[|requests| - 1];
      MarkByCounter(MarkAll(st, prefix), Some(last.0), Some(last.1)).store
  }

  /** Any number of appends from the empty store keeps the invariant, and
      the n-th append reports id n. */
  lemma {:induction false} MarkAllValid(requests: seq<(string, string)>)
    ensures Valid(MarkAll(Empty(), requests))
    ensures |MarkAll(Empty(), requests).entries| == |requests|
    ensures forall i :: 0 <= i < |requests| ==>
      MarkAll(Empty(), requests).entries[i] == Entry(i, requests[i].0, requests[i].1)
  {
    if |requests| > 0 {
      var prefix := requests[..|requests| - 1];
      MarkAllValid(prefix);
      assert MarkAll(Empty(), requests)
          == MarkByCounter(MarkAll(Empty(), prefix), Some(requests[|requests| - 1].0), Some(requests[|requests| - 1].1)).store;
    }
  }

  /** The body of `/rag-stats`. */
  datatype Stats = Stats(totalSolutions: int, databaseEntries: int)

  /** `/rag-stats`: both counts are the number of stored records. */
  function RagStats(entries: seq<Entry>): (s: Stats)
    ensures s.totalSolutions == s.databaseEntries == |entries|
  {
    Stats(|entries|, |entries|)
  }

  /** The reported count grows by exactly one per `/mark-solution`, and on a
      valid store it equals the counter, i.e. the next id to be handed out. */
  lemma StatsCountMarks(st: Store, errorText: Option<string>, solutionText: Option<string>)
    ensures RagStats(MarkByCounter(st, errorText, solutionText).store.entries).totalSolutions
         == RagStats(st.entries).totalSolutions + 1
    ensures Valid(st) ==> RagStats(st.entries).totalSolutions == st.counter
  {
  }
}
