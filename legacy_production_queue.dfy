/** The older copy of `ProductionQueueManager`, where it differs from the one in
    `ProductionQueueAI`: the sentinel base is 99999, conquered elements get priority 0.0, the
    conquered branch sits inside the matching loop, and the requeue error handler appends a
    nested 3-tuple. Its other operations are those of `ProductionQueueAI`. */
module LegacyProductionQueue {
  import opened Optional
  import opened QueueOrder
  import opened Engine
  import opened Reconciliation
  import opened ProductionQueueAI

  /** `PRIORITY_INVALID`: the older sentinel base. */
  const LEGACY_INVALID: real := 99999.0

  // ---------------------------------------------------------------------------------------------
  // The conquered branch

  /** The entry the older reconciliation makes for an element on a gained planet: priority 0.0,
      and the item type of the other kind (a ship element is filed as a building and the reverse). */
  function LegacyConqueredEntry(e: Element): (x: Entry)
    ensures Matches(x, e) && x.current == x.base == 0.0
    ensures x.itemType == BUILDING <==> e.buildType == SHIP
  {
    Entry(0.0, 0.0, if e.buildType == SHIP then BUILDING else SHIP, NameOf(e), e.location)
  }

  /** The shadow list after `n` passes of the older `while True` body for an element on a gained
      planet: each pass inserts the entry at `i` and `continue`s, and nothing the pass changes
      (the list) is tested by the branch condition (the element's location). */
  function LegacyConqueredPasses(q: seq<Entry>, i: nat, e: Element, n: nat): (r: seq<Entry>)
    ensures |r| == |q| + n
    decreases n
  {
    if n == 0 then q else PyInsert(LegacyConqueredPasses(q, i, e, n - 1), i, LegacyConqueredEntry(e))
  }

  /** The older loop never leaves the conquered branch: after any number of passes the same
      element is still being handled, and the list has grown by one copy of the entry per pass. */
  lemma {:induction false} LegacyConqueredLoopGrows(q: seq<Entry>, i: nat, e: Element, n: nat)
    ensures var r := LegacyConqueredPasses(q, i, e, n);
      && |r| == |q| + n
      && multiset(r) == multiset(q)[LegacyConqueredEntry(e) := multiset(q)[LegacyConqueredEntry(e)] + n]
    decreases n
  {
    if n > 0 {
      LegacyConqueredLoopGrows(q, i, e, n - 1);
      var before := LegacyConqueredPasses(q, i, e, n - 1);
      var x := LegacyConqueredEntry(e);
      assert multiset(PyInsert(before, i, x)) == multiset(before) + multiset{x} by {
        if i > |before| {
          assert multiset(before + [x]) == multiset(before) + multiset([x]);
        }
      }
    }
  }

  /** The type swap shows in `get_all_queued_buildings`: a conquered building element is not
      listed as a queued building, while the corrected entry is. */
  lemma LegacyConqueredBuildingUnlisted(e: Element)
    requires e.buildType == BUILDING
    ensures BuildingLocations([LegacyConqueredEntry(e)], NameOf(e)) == []
    ensures BuildingLocations([ConqueredEntry(e, 0)], NameOf(e)) == [e.location]
  {
    assert [LegacyConqueredEntry(e)][..0] == [] && [ConqueredEntry(e, 0)][..0] == [];
  }

  // ---------------------------------------------------------------------------------------------
  // The requeue error handler

  /** A row of the older shadow list: a 5-tuple, or the 3-tuple
      `(priority, priority, (item_type, item, loc))` its error handler builds. */
  datatype LegacyRow = Flat(entry: Entry) | Nested(current: real, base: real, rest: (int, Item, int))

  /** `tup[3]`: the item of a 5-tuple; a 3-tuple has no such field (`IndexError`). */
  function ItemField(row: LegacyRow): (r: Option<Item>)
    ensures r.Some? <==> row.Flat?
  {
    match row
    case Flat(x) => Some(x.item)
    case Nested(_, _, _) => None
  }

  /** `[tup[3] for tup in self._production_queue]`, printed right after the handler runs: the
      items in list order, or `None` when some row raises. */
  function ItemListing(q: seq<LegacyRow>): (r: Option<seq<Item>>)
    ensures r.Some? <==> forall k :: 0 <= k < |q| ==> q[k].Flat?
    ensures r.Some? ==> |r.value| == |q| && forall k :: 0 <= k < |q| ==> r.value[k] == q[k].entry.item
  {
    if q == [] then Some([])
    else
      match (ItemListing(q[..|q| - 1]), ItemField(q[|q| - 1]))
      case (Some(items), Some(item)) => Some(items + [item])
      case _ => None
  }

  /** `__handle_error_on_requeue` as written in the older file: it appends a 3-tuple whose third
      field holds the popped entry's type, item and location, and counts one more sentinel. */
  function LegacyHandleErrorAsWritten(q: seq<LegacyRow>, count: nat, popped: Entry): (r: (seq<LegacyRow>, nat))
    ensures |r.0| == |q| + 1 && r.0[..|q|] == q && r.1 == count + 1
    ensures r.0[|q|].Nested? && r.0[|q|].current == LEGACY_INVALID + count as real
  {
    var p := LEGACY_INVALID + count as real;
    (q + [Nested(p, p, (popped.itemType, popped.item, popped.location))], count + 1)
  }

  /** The handler the older file describes: the popped entry appended with priority
      `PRIORITY_INVALID + counter`. */
  function LegacyRequeueFallback(x: Entry, count: nat): (y: Entry)
    ensures y.itemType == x.itemType && y.item == x.item && y.location == x.location
    ensures y.current == y.base == LEGACY_INVALID + count as real
  {
    var p := LEGACY_INVALID + count as real;
    Entry(p, p, x.itemType, x.item, x.location)
  }

  /** After the handler as written, printing the items of the list raises `IndexError` out of
      `enqueue_item`; after the corrected handler the listing ends with the popped item. */
  lemma LegacyHandlerBreaksListing(q: seq<Entry>, count: nat, popped: Entry)
    ensures var rows := seq(|q|, k requires 0 <= k < |q| => Flat(q[k]));
      && ItemListing(LegacyHandleErrorAsWritten(rows, count, popped).0) == None
      && ItemListing(rows + [Flat(LegacyRequeueFallback(popped, count))]).Some?
      && ItemListing(rows + [Flat(LegacyRequeueFallback(popped, count))]).value[|q|] == popped.item
  {
    var rows := seq(|q|, k requires 0 <= k < |q| => Flat(q[k]));
    var written := LegacyHandleErrorAsWritten(rows, count, popped).0;
    assert !written[|q|].Flat?;
  }

  // ---------------------------------------------------------------------------------------------
  // `_get_system_closest_to_target`

  /** The `(distance, sys_id)` pairs gathered for the valid systems whose jump distance the
      universe could compute, in input order. */
  function Gathered(systemIds: seq<int>, jump: int -> Option<int>): (r: seq<(int, int)>)
    ensures forall p :: p in r ==> p.1 in systemIds && p.1 != -1 && jump(p.1) == Some(p.0)
    ensures forall s :: s in systemIds && s != -1 && jump(s).Some? ==> (jump(s).value, s) in r
  {
    if systemIds == [] then []
    else
      var s := systemIds[|systemIds| - 1];
      var before := Gathered(systemIds[..|systemIds| - 1], jump);
      assert forall t :: t in systemIds ==> t in systemIds[..|systemIds| - 1] || t == s;
      if s != -1 && jump(s).Some? then before + [(jump(s).value, s)] else before
  }

  /** Python's order on `(distance, sys_id)` pairs. */
  predicate PairLe(a: (int, int), b: (int, int))
  {
    a.0 < b.0 || (a.0 == b.0 && a.1 <= b.1)
  }

  /** `_get_system_closest_to_target`: the closest system and its distance, the least pair of
      `sorted(distances)`, or `(-1, 9999)` when no distance could be gathered. The jump distance
      is a query to the universe, passed in; `None` stands for a query that raised. */
  method ClosestSystem(systemIds: seq<int>, jump: int -> Option<int>) returns (closest: int, shortest: int)
    ensures Gathered(systemIds, jump) == [] ==> closest == -1 && shortest == 9999
    ensures Gathered(systemIds, jump) != [] ==>
      (shortest, closest) in Gathered(systemIds, jump)
      && forall p :: p in Gathered(systemIds, jump) ==> PairLe((shortest, closest), p)
  {
    var distances := GatherDistances(systemIds, jump);
    if distances == [] {
      return -1, 9999;
    }
    var least := LeastPair(distances);
    shortest, closest := least.0, least.1;
  }

  /** The loop that collects `(distance, sys_id)` for every valid system the universe could
      measure. */
  method GatherDistances(systemIds: seq<int>, jump: int -> Option<int>) returns (distances: seq<(int, int)>)
    ensures distances == Gathered(systemIds, jump)
  {
    distances := [];
    for j := 0 to |systemIds|
      invariant distances == Gathered(systemIds[..j], jump)
    {
      var sysId := systemIds[j];
      assert systemIds[..j + 1][..j] == systemIds[..j];
      if sysId != -1 {
        var d := jump(sysId);
        if d.Some? {
          distances := distances + [(d.value, sysId)];
        }
      }
    }
    assert systemIds[..|systemIds|] == systemIds;
  }

  /** The first element of `sorted(distances)`: a pair of the list no other pair precedes. */
  method LeastPair(distances: seq<(int, int)>) returns (least: (int, int))
    requires distances != []
    ensures least in distances
    ensures forall p :: p in distances ==> PairLe(least, p)
  {
    least := distances[0];
    for j := 1 to |distances|
      invariant least in distances[..j]
      invariant forall k :: 0 <= k < j ==> PairLe(least, distances[k])
    {
      if !PairLe(least, distances[j]) {
        least := distances[j];
      }
    }
    assert distances[..|distances|] == distances;
  }
}
