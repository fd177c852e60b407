/** Two places where `ProductionQueueManager` as written loses track of the engine's queue, each
    next to the behaviour the rest of the model uses instead. */
module QueueFindings {
  import opened QueueOrder
  import opened Engine
  import opened ProductionPriority
  import opened Reconciliation
  import opened ProductionQueueAI

  // ---------------------------------------------------------------------------------------------
  // Locating an entry with bisect_left

  /** The outcome of `self._production_queue.pop(bisect.bisect_left(self._production_queue, tup))`. */
  datatype PopOutcome = Popped(index: nat, popped: Entry, rest: seq<Entry>) | PopIndexError

  /** `_update_production_priorities` as written finds the entry to reschedule with `bisect_left`,
      which is only a search on a sorted list; `pop` at the end of the list raises `IndexError`
      (the surrounding `except ValueError` does not catch it). */
  function PopAtBisectLeft(q: seq<Entry>, x: Entry): (r: PopOutcome)
    ensures r.PopIndexError? <==> BisectLeft(q, x) == |q|
    ensures r.Popped? ==> r.index < |q| && r.popped == q[r.index] && r.rest == Remove(q, r.index)
  {
    var idx := BisectLeft(q, x);
    if idx < |q| then Popped(idx, q[idx], Remove(q, idx)) else PopIndexError
  }

  /** On a sorted list that holds the entry, the bisection pops exactly the entry that
      `RescheduleEntry` locates by searching. */
  lemma PopAtBisectLeftOnSorted(q: seq<Entry>, x: Entry)
    requires Sorted(q) && x in q
    ensures PopAtBisectLeft(q, x) == Popped(IndexOf(q, x), x, Remove(q, IndexOf(q, x)))
  {
    BisectLeftFindsFirstCopy(q, x);
  }

  /** Reconciliation leaves the shadow list unsorted when it inserts a conquered entry (with its
      sentinel priority) in front of an ordinary one. Rescheduling then looks for the conquered
      entry with `bisect_left`, which steps past it, and the `pop` raises. Searching finds it. */
  lemma BisectLeftMissesConqueredEntry()
    ensures var a := Entry(100.0, 100.0, BUILDING, Name("A"), 1);
      var conquered := Element(SHIP, "", 7, 2, 0.0, 1.0);
      var kept := Element(BUILDING, "A", -1, 1, 0.0, 1.0);
      var shadow := Resolve([a], [conquered, kept], 0, {}, {2}, 0).shadow;
      && shadow == [ConqueredEntry(conquered, 0), a]
      && Aligned(shadow, [conquered, kept])
      && PopAtBisectLeft(shadow, shadow[0]) == PopIndexError
      && IndexOf(shadow, shadow[0]) == 0
  {
    var a := Entry(100.0, 100.0, BUILDING, Name("A"), 1);
    var conquered := Element(SHIP, "", 7, 2, 0.0, 1.0);
    var kept := Element(BUILDING, "A", -1, 1, 0.0, 1.0);
    var c := ConqueredEntry(conquered, 0);
    assert [conquered, kept][1..] == [kept] && [kept][1..] == [] && [a][1..] == [];
    assert Resolve([a], [kept], 1, {}, {2}, 1).shadow == [a];
    var shadow := [c, a];
    assert Lt(shadow[1], c);
    assert BisectLeftIn(shadow, c, 0, 2) == BisectLeftIn(shadow, c, 2, 2);
  }

  // ---------------------------------------------------------------------------------------------
  // The refused requeue of a fresh entry

  /** `__handle_error_on_requeue` as written: it builds its entry from three values
      (`new_priority, new_priority, item_tuple[2:]`) for a five-field record, which raises
      `TypeError` before anything is appended or counted. The result is the shadow list and the
      counter it leaves, and whether it raised. */
  function HandleErrorOnRequeueAsWritten(q: seq<Entry>, count: nat, popped: Entry): (r: (seq<Entry>, nat, bool))
    ensures r.0 == q && r.1 == count && r.2
  {
    (q, count, true)
  }

  /** When the engine refuses to move a fresh element from its tail, the handler as written
      leaves the shadow list one entry short of the engine's queue; the corrected handler
      (`RequeueFallback`, used by `TrackEnqueued`) appends the entry where the element stayed. */
  lemma RefusedMoveAsWrittenMisaligns(q0: seq<Entry>, e0: seq<Element>, x: Entry, e: Element, count: nat)
    requires Aligned(q0, e0) && Matches(x, e) && BisectRight(q0, x) < |q0|
    ensures var idx := BisectRight(q0, x);
      var popped := Remove(Insert(q0, idx, x), idx);
      var r := HandleErrorOnRequeueAsWritten(popped, count, x);
      && r.2 && !Aligned(r.0, e0 + [e])
      && Aligned(popped + [RequeueFallback(x, count)], e0 + [e])
  {
    EnqueueKeeps(q0, e0, x, e, count);
  }
}
