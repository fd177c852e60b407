/** The AI's production-queue manager: a shadow list of
    `(current_priority, base_priority, item_type, item, location)` entries, kept sorted by
    priority, that must describe the engine's production queue index for index. Every change
    to the engine's queue goes through this class, which issues the order and then updates
    its shadow list to match. */
module ProductionQueueAI {
  import opened QueueOrder
  import opened Engine
  import opened ProductionPriority
  import opened Reconciliation

  /** `get_planet_diff_since_last_turn`: the planets lost and the planets newly gained, from the
      planets owned now and the outposts and populated planets recorded last turn. */
  function PlanetDiff(currentlyOwned: set<int>, oldOwned: set<int>): (r: (set<int>, set<int>))
    ensures r.0 <= oldOwned && r.1 !! oldOwned && r.0 !! r.1
    ensures (oldOwned - r.0) + r.1 == currentlyOwned
  {
    (oldOwned - currentlyOwned, currentlyOwned - oldOwned)
  }

  /** What rescheduling may change in an entry is its current priority only; the rest is its key. */
  function Key(x: Entry): (real, int, Item, int)
  {
    (x.base, x.itemType, x.item, x.location)
  }

  /** The keys of a list, in order. */
  function Keys(q: seq<Entry>): (ks: seq<(real, int, Item, int)>)
  {
    seq(|q|, i requires 0 <= i < |q| => Key(q[i]))
  }

  /** The keys of a list, with their multiplicities. */
  function KeyBag(q: seq<Entry>): (bag: multiset<(real, int, Item, int)>)
    ensures |bag| == |q|
  {
    multiset(Keys(q))
  }

  lemma KeyBagAppend(a: seq<Entry>, b: seq<Entry>)
    ensures KeyBag(a + b) == KeyBag(a) + KeyBag(b)
  {
    assert Keys(a + b) == Keys(a) + Keys(b);
  }

  lemma KeyBagSingle(x: Entry)
    ensures KeyBag([x]) == multiset{Key(x)}
  {
    assert Keys([x]) == [Key(x)];
  }

  /** The keys of a list are those on either side of one entry, plus the entry's own. */
  lemma KeyBagSplit(q: seq<Entry>, idx: nat)
    requires idx < |q|
    ensures KeyBag(q) == KeyBag(q[..idx]) + multiset{Key(q[idx])} + KeyBag(q[idx + 1..])
  {
    assert Keys(q) == Keys(q[..idx]) + [Key(q[idx])] + Keys(q[idx + 1..]);
  }

  lemma KeysRemove(q: seq<Entry>, idx: nat)
    requires idx < |q|
    ensures KeyBag(Remove(q, idx)) == KeyBag(q) - multiset{Key(q[idx])}
  {
    KeyBagSplit(q, idx);
    assert Remove(q, idx) == q[..idx] + q[idx + 1..];
    KeyBagAppend(q[..idx], q[idx + 1..]);
  }

  lemma KeysInsert(q: seq<Entry>, idx: nat, x: Entry)
    requires idx <= |q|
    ensures KeyBag(Insert(q, idx, x)) == KeyBag(q) + multiset{Key(x)}
  {
    var before, after := q[..idx], q[idx..];
    assert KeyBag(q) == KeyBag(before) + KeyBag(after) by {
      assert q == before + after;
      KeyBagAppend(before, after);
    }
    InsertShape(q, idx, x);
    KeyBagAppend(before + [x], after);
    KeyBagAppend(before, [x]);
    KeyBagSingle(x);
  }

  /** Moving one entry and changing its current priority keeps the keys of the list. */
  lemma KeysReplace(q: seq<Entry>, idx: nat, to: nat, x: Entry)
    requires idx < |q| && to < |q| && Key(x) == Key(q[idx])
    ensures KeyBag(Insert(Remove(q, idx), to, x)) == KeyBag(q)
  {
    KeysRemove(q, idx);
    KeysInsert(Remove(q, idx), to, x);
  }

  /** The item types an enqueue order exists for, each with the matching kind of item: a building
      is ordered by name and a ship by design id. */
  predicate Orderable(itemType: int, item: Item)
  {
    (itemType == BUILDING && item.Name?) || (itemType == SHIP && item.Design?)
  }

  function EnqueueOrder(item: Item, loc: int): Order
  {
    match item
    case Name(name) => Order.EnqueueBuilding(name, loc)
    case Design(id) => Order.EnqueueShip(id, loc)
  }

  /** The entry `__handle_error_on_requeue` is meant to append for a fresh entry that could not be
      moved to its rank: the same item, marked with the next sentinel priority. */
  function RequeueFallback(x: Entry, count: nat): (y: Entry)
    ensures y.itemType == x.itemType && y.item == x.item && y.location == x.location
    ensures y.current == y.base == Sentinel(count) >= INVALID
  {
    Entry(Sentinel(count), Sentinel(count), x.itemType, x.item, x.location)
  }

  /** The outcome of `dequeue_item_by_index`: the order's result, or the `IndexError` raised
      when the engine removed an element the shadow list does not have. */
  datatype DequeueOutcome = Returned(res: bool) | IndexErrorRaised

  /** The building locations of `get_all_queued_buildings` for one building name, in queue order. */
  function BuildingLocations(q: seq<Entry>, item: Item): (locs: seq<int>)
    ensures |locs| <= |q|
  {
    if q == [] then []
    else
      var last := q[|q| - 1];
      BuildingLocations(q[..|q| - 1], item) + (if last.itemType == BUILDING && last.item == item then [last.location] else [])
  }

  /** `buildings` maps exactly the buildings queued in `q` to their locations. */
  ghost predicate ListsBuildings(buildings: map<Item, seq<int>>, q: seq<Entry>)
  {
    && (forall item :: item in buildings <==> BuildingLocations(q, item) != [])
    && (forall item :: item in buildings ==> buildings[item] == BuildingLocations(q, item))
  }

  /** One more entry of the list: a building entry adds its location to its name's list. */
  lemma ListsBuildingsStep(buildings: map<Item, seq<int>>, q: seq<Entry>, j: nat)
    requires j < |q| && ListsBuildings(buildings, q[..j])
    ensures var x := q[j];
      ListsBuildings(if x.itemType == BUILDING
                     then buildings[x.item := (if x.item in buildings then buildings[x.item] else []) + [x.location]]
                     else buildings, q[..j + 1])
  {
    var x := q[j];
    var next := if x.itemType == BUILDING
                then buildings[x.item := (if x.item in buildings then buildings[x.item] else []) + [x.location]]
                else buildings;
    assert q[..j + 1][..j] == q[..j] && q[..j + 1][j] == x;
    forall item
      ensures (item in next <==> BuildingLocations(q[..j + 1], item) != [])
      ensures item in next ==> next[item] == BuildingLocations(q[..j + 1], item)
    {
      var here := if x.itemType == BUILDING && x.item == item then [x.location] else [];
      assert BuildingLocations(q[..j + 1], item) == BuildingLocations(q[..j], item) + here;
    }
  }

  /** What a pass of rescheduling keeps: the length of both queues, the keys of the entries, the
      order of a sorted list, the alignment of an aligned list as long as no order is refused,
      and an engine log that grows by requeue orders only. */
  ghost predicate Rescheduled(q0: seq<Entry>, q1: seq<Entry>, e0: seq<Element>, e1: seq<Element>,
                              log0: seq<(Order, bool)>, log1: seq<(Order, bool)>)
  {
    && |q1| == |q0| && |e1| == |e0|
    && KeyBag(q1) == KeyBag(q0)
    && (Sorted(q0) ==> Sorted(q1))
    && RefusalsIn(log1) >= RefusalsIn(log0)
    && (Aligned(q0, e0) && RefusalsIn(log1) == RefusalsIn(log0) ==> Aligned(q1, e1))
    && OnlyRequeues(log0, log1)
  }

  lemma RescheduledNone(q: seq<Entry>, e: seq<Element>, log: seq<(Order, bool)>)
    ensures Rescheduled(q, q, e, e, log, log)
  {
    OnlyRequeuesNone(log);
  }

  lemma RescheduledTransitive(q0: seq<Entry>, q1: seq<Entry>, q2: seq<Entry>,
                              e0: seq<Element>, e1: seq<Element>, e2: seq<Element>,
                              log0: seq<(Order, bool)>, log1: seq<(Order, bool)>, log2: seq<(Order, bool)>)
    requires Rescheduled(q0, q1, e0, e1, log0, log1) && Rescheduled(q1, q2, e1, e2, log1, log2)
    ensures Rescheduled(q0, q2, e0, e2, log0, log2)
  {
    OnlyRequeuesTransitive(log0, log1, log2);
  }

  /** The entry `tup` with the current priority its engine element `e` gives it,
      `base * (1 - progress / cost)`: the key is kept, and for a non-negative base and progress
      within the cost the new priority lies between 0 and the base. */
  function Decayed(tup: Entry, e: Element): (x: Entry)
    requires e.totalCost > 0.0
    ensures Key(x) == Key(tup)
    ensures tup.base >= 0.0 && 0.0 <= e.progress <= e.totalCost ==> 0.0 <= x.current <= x.base
  {
    var x := Entry(Decay(tup.base, e.progress, e.totalCost), tup.base, tup.itemType, tup.item, tup.location);
    assert tup.base >= 0.0 && 0.0 <= e.progress <= e.totalCost ==> 0.0 <= x.current <= x.base by {
      if tup.base >= 0.0 && 0.0 <= e.progress <= e.totalCost {
        DecayBounds(tup.base, e.progress, e.progress, e.totalCost);
      }
    }
    x
  }

  /** The shadow list, the engine's elements and the engine's order log at one point of a pass. */
  datatype PassState = PassState(shadow: seq<Entry>, elements: seq<Element>, log: seq<(Order, bool)>)

  /** One step of `_update_production_priorities` for the entry `tup`, from `s` to `s'`: the entry
      is popped from its index `i`, re-inserted as `Decayed(tup, element i)` at its `bisect_left`
      rank in the list without it, and only when that rank differs from `i` is the engine told to
      requeue `i` to the rank, which moves the element if the engine accepts. */
  ghost predicate ReschedulesAs(s: PassState, tup: Entry, s': PassState)
  {
    && tup in s.shadow && |s.shadow| <= |s.elements|
    && var i := IndexOf(s.shadow, tup);
      && s.elements[i].totalCost > 0.0
      && var x := Decayed(tup, s.elements[i]);
        var to := BisectLeft(Remove(s.shadow, i), x);
        && s'.shadow == Insert(Remove(s.shadow, i), to, x)
        && (to == i ==> s'.elements == s.elements && s'.log == s.log)
        && (to != i ==>
              && |s'.log| == |s.log| + 1
              && s'.log == s.log + [(Order.Requeue(i, to), s'.log[|s.log|].1)]
              && s'.elements == if s'.log[|s.log|].1 then Move(s.elements, i, to) else s.elements)
  }

  /** `trace` records a pass over `pending`: one state before each entry's step and one after the
      last, each step rescheduling that entry. */
  ghost predicate PassTrace(trace: seq<PassState>, pending: seq<Entry>)
  {
    && |trace| == |pending| + 1
    && forall k :: 0 <= k < |pending| ==> ReschedulesAs(trace[k], pending[k], trace[k + 1])
  }

  /** A pass over one more entry of `all` extends the trace by the state after that entry's step. */
  lemma PassTraceStep(trace: seq<PassState>, all: seq<Entry>, j: nat, s': PassState)
    requires j < |all| && PassTrace(trace, all[..j]) && ReschedulesAs(trace[j], all[j], s')
    ensures PassTrace(trace + [s'], all[..j + 1])
  {
    var trace', pending' := trace + [s'], all[..j + 1];
    forall k | 0 <= k < |pending'|
      ensures ReschedulesAs(trace'[k], pending'[k], trace'[k + 1])
    {
      if k < j {
        assert trace'[k] == trace[k] && trace'[k + 1] == trace[k + 1] && pending'[k] == all[..j][k];
      }
    }
  }

  /** Rescheduling the entry at `idx` as `x` (same key, new current priority) at its
      `bisect_left` rank, with the requeue order issued when the rank differs from `idx`. */
  lemma ReplaceRescheduled(q0: seq<Entry>, e0: seq<Element>, log0: seq<(Order, bool)>, idx: nat, x: Entry,
                           accepted: bool)
    requires idx < |q0| <= |e0| && Key(x) == Key(q0[idx])
    ensures var to := BisectLeft(Remove(q0, idx), x);
      var q1 := Insert(Remove(q0, idx), to, x);
      && multiset(q0) - multiset{q0[idx]} <= multiset(q1)
      && (to == idx ==> Rescheduled(q0, q1, e0, e0, log0, log0))
      && (to != idx ==> Rescheduled(q0, q1, e0, if accepted then Move(e0, idx, to) else e0,
                                    log0, log0 + [(Order.Requeue(idx, to), accepted)]))
  {
    var to := BisectLeft(Remove(q0, idx), x);
    var q1 := Insert(Remove(q0, idx), to, x);
    KeysReplace(q0, idx, to, x);
    if Sorted(q0) {
      RemoveSorted(q0, idx);
      InsertAtBisectLeftSorted(Remove(q0, idx), x);
    }
    if Aligned(q0, e0) {
      AlignedReplace(q0, e0, idx, to, x);
    }
    if to == idx {
      OnlyRequeuesNone(log0);
    } else {
      RefusalsAppend(log0, Order.Requeue(idx, to), accepted);
      OnlyRequeuesAppend(log0, Order.Requeue(idx, to), accepted);
    }
  }

  /** Where a freshly enqueued entry `x` for the engine's new tail element `e` goes: at its
      `bisect` (right) rank, mirrored by moving `e` there unless the rank is the tail, or, when
      that move is refused, back out of the list and onto its end with a sentinel priority. */
  lemma EnqueueKeeps(q0: seq<Entry>, e0: seq<Element>, x: Entry, e: Element, count: nat)
    requires Matches(x, e)
    ensures var idx := BisectRight(q0, x);
      && (Aligned(q0, e0) ==> Aligned(Insert(q0, idx, x), if idx == |q0| then e0 + [e] else Move(e0 + [e], |e0|, idx)))
      && (Aligned(q0, e0) ==> Aligned(q0 + [RequeueFallback(x, count)], e0 + [e]))
      && (Sorted(q0) ==> Sorted(Insert(q0, idx, x)))
      && Remove(Insert(q0, idx, x), idx) == q0
  {
    var idx := BisectRight(q0, x);
    if Aligned(q0, e0) {
      AlignedEnqueue(q0, e0, idx, x, e);
      EnqueueFallbackAligned(q0, e0, RequeueFallback(x, count), e);
    }
    if Sorted(q0) {
      InsertAtBisectRightSorted(q0, x);
    }
    RemoveInsert(q0, idx, x);
  }

  /** Where `TrackEnqueued` leaves the shadow list `q`, the engine's elements `es`, its order
      log and the sentinel counter `c`, starting from the shadow list `q0`, the elements `e0`
      followed by the new element `e`, the log `log0` and the counter `c0`. Unless the entry's
      rank is the tail, one requeue order is logged, and the engine's answer to it decides the
      rest. */
  ghost predicate TrackedOutcome(q0: seq<Entry>, e0: seq<Element>, e: Element, log0: seq<(Order, bool)>, c0: nat,
                                 x: Entry, q: seq<Entry>, es: seq<Element>, log: seq<(Order, bool)>, c: nat)
  {
    var idx := BisectRight(q0, x);
    if idx == |q0| then q == Insert(q0, idx, x) && es == e0 + [e] && log == log0 && c == c0
    else
      && |log| == |log0| + 1
      && log == log0 + [(Order.Requeue(|e0|, idx), log[|log0|].1)]
      && if log[|log0|].1 then idx <= |e0| && q == Insert(q0, idx, x) && es == Move(e0 + [e], |e0|, idx) && c == c0
         else q == q0 + [RequeueFallback(x, c0)] && es == e0 + [e] && c == c0 + 1
  }

  /** What the outcome of `TrackEnqueued` means: at most one order, a refused one costing a
      sentinel entry at the tail, alignment kept, and order kept unless the order was refused. */
  lemma TrackedFacts(q0: seq<Entry>, e0: seq<Element>, e: Element, log0: seq<(Order, bool)>, c0: nat,
                     x: Entry, q: seq<Entry>, es: seq<Element>, log: seq<(Order, bool)>, c: nat)
    requires Matches(x, e) && TrackedOutcome(q0, e0, e, log0, c0, x, q, es, log, c)
    ensures var idx := BisectRight(q0, x);
      && (idx == |q0| ==> log == log0)
      && (idx < |q0| ==> |log| == |log0| + 1 && log[..|log0|] == log0 && log[|log0|].0 == Order.Requeue(|e0|, idx))
    ensures RefusalsIn(log) == RefusalsIn(log0) ==> q == Insert(q0, BisectRight(q0, x), x) && c == c0
    ensures RefusalsIn(log) != RefusalsIn(log0) ==>
      RefusalsIn(log) == RefusalsIn(log0) + 1 && q == q0 + [RequeueFallback(x, c0)] && c == c0 + 1
    ensures Aligned(q0, e0) ==> Aligned(q, es)
    ensures Sorted(q0) && RefusalsIn(log) == RefusalsIn(log0) ==> Sorted(q)
  {
    EnqueueKeeps(q0, e0, x, e, c0);
    var idx := BisectRight(q0, x);
    if idx < |q0| {
      RefusalsAppend(log0, Order.Requeue(|e0|, idx), log[|log0|].1);
      assert log[..|log0|] == log0;
    }
  }

  lemma EnqueueFallbackAligned(q0: seq<Entry>, e0: seq<Element>, y: Entry, e: Element)
    requires Aligned(q0, e0) && Matches(y, e)
    ensures Aligned(q0 + [y], e0 + [e])
  {
  }

  /** The entries still to be rescheduled are all in the list; the next one is. */
  lemma PendingHead(pending: seq<Entry>, j: nat, q: seq<Entry>)
    requires j < |pending| && multiset(pending[j..]) <= multiset(q)
    ensures pending[j] in q
  {
    assert pending[j..] == [pending[j]] + pending[j + 1..];
    assert multiset(pending[j..])[pending[j]] > 0;
  }

  /** Rescheduling the next entry, which keeps every other entry of the list, leaves the rest of
      the entries still to be rescheduled in the list. */
  lemma PendingStep(pending: seq<Entry>, j: nat, before: multiset<Entry>, after: multiset<Entry>)
    requires j < |pending| && multiset(pending[j..]) <= before && before - multiset{pending[j]} <= after
    ensures multiset(pending[j + 1..]) <= after
  {
    assert pending[j..] == [pending[j]] + pending[j + 1..];
    assert multiset(pending[j..]) == multiset{pending[j]} + multiset(pending[j + 1..]);
  }

  class ProductionQueueManager {
    /** The shadow list, ordered by priority (lower first). */
    var queue: seq<Entry>
    /** How many sentinel priorities have been handed out. */
    var invalidCount: nat
    /** The turn of the last update, -1 before the first. */
    var lastUpdate: int

    constructor ()
      ensures queue == [] && invalidCount == 0 && lastUpdate == -1
    {
      queue := [];
      invalidCount := 0;
      lastUpdate := -1;
    }

    /** `__getstate__`: what is saved with the game. */
    function GetState(): (seq<Entry>, nat)
      reads this
    {
      (queue, invalidCount)
    }

    /** `__setstate__`: restores a saved state; the update turn is forgotten. */
    constructor FromState(state: (seq<Entry>, nat))
      ensures GetState() == state && lastUpdate == -1
    {
      queue := state.0;
      invalidCount := state.1;
      lastUpdate := -1;
    }

    /** `_resolve_production_queue_diff`: the in-place pass over this turn's engine queue. Its
        outcome is exactly the alignment `Resolve` describes, whose properties are proved in
        `Reconciliation`. */
    method ResolveProductionQueueDiff(elements: seq<Element>, lostPlanets: set<int>, gainedPlanets: set<int>)
      returns (finished: seq<Entry>, lost: seq<Entry>, conquered: seq<Entry>)
      modifies this
      ensures var r := Resolve(old(queue), elements, 0, lostPlanets, gainedPlanets, old(invalidCount));
        queue == r.shadow && finished == r.finished && lost == r.lost && conquered == r.conquered
        && invalidCount == r.invalidCount
      ensures lastUpdate == old(lastUpdate)
    {
      ghost var goal := Resolve(queue, elements, 0, lostPlanets, gainedPlanets, invalidCount);
      ghost var unclassified: seq<nat> := [];
      ghost var broken := false;
      finished, lost, conquered := [], [], [];
      CursorStart(queue, invalidCount, elements, lostPlanets, gainedPlanets);
      var i := 0;
      while i < |elements|
        invariant Cursor(goal, queue, invalidCount, elements, i, broken, lostPlanets, gainedPlanets,
                         finished, lost, conquered, unclassified)
        invariant lastUpdate == old(lastUpdate)
      {
        finished, lost, conquered, unclassified, broken :=
          ResolveElement(elements, i, lostPlanets, gainedPlanets, goal, finished, lost, conquered, unclassified, broken);
        i := i + 1;
      }
      if broken {
        CursorBrokenEnd(goal, queue, invalidCount, elements, lostPlanets, gainedPlanets,
                        finished, lost, conquered, unclassified);
      } else {
        // Shadow entries beyond the engine's queue were finished or lost.
        CursorTailStart(goal, queue, invalidCount, elements, lostPlanets, gainedPlanets,
                        finished, lost, conquered, unclassified);
      }
      var j := i;
      while j < |queue|
        invariant !broken ==> TailCursor(goal, queue, invalidCount, i, j, lostPlanets, gainedPlanets,
                                         finished, lost, conquered, unclassified)
        invariant broken ==> |queue| <= i && goal == Reconciled(queue, finished, lost, conquered, unclassified, invalidCount)
        invariant lastUpdate == old(lastUpdate)
      {
        var remaining := queue[j];
        CursorTailStep(goal, queue, invalidCount, i, j, lostPlanets, gainedPlanets,
                       finished, lost, conquered, unclassified);
        if remaining.location in lostPlanets {
          lost := lost + [remaining];
        } else {
          finished := finished + [remaining];
        }
        j := j + 1;
      }
      if !broken {
        CursorTailEnd(goal, queue, invalidCount, i, lostPlanets, gainedPlanets,
                      finished, lost, conquered, unclassified);
      }
      if i < |queue| {
        queue := queue[..i];
      }
    }

    /** One element of the pass of `_resolve_production_queue_diff`: an element on a newly
        gained planet gets a conquered entry; otherwise shadow entries are dropped until one
        matches the element, and an element the shadow list runs out before stays unclassified. */
    method ResolveElement(elements: seq<Element>, i: nat, lostPlanets: set<int>, gainedPlanets: set<int>,
                          ghost goal: Reconciled, finished: seq<Entry>, lost: seq<Entry>, conquered: seq<Entry>,
                          ghost unclassified: seq<nat>, ghost broken: bool)
      returns (finished': seq<Entry>, lost': seq<Entry>, conquered': seq<Entry>,
               ghost unclassified': seq<nat>, ghost broken': bool)
      requires i < |elements|
      requires Cursor(goal, queue, invalidCount, elements, i, broken, lostPlanets, gainedPlanets,
                      finished, lost, conquered, unclassified)
      modifies this
      ensures Cursor(goal, queue, invalidCount, elements, i + 1, broken', lostPlanets, gainedPlanets,
                     finished', lost', conquered', unclassified')
      ensures lastUpdate == old(lastUpdate)
    {
      finished', lost', conquered', unclassified', broken' := finished, lost, conquered, unclassified, broken;
      var element := elements[i];
      if element.location in gainedPlanets {
        conquered' := AddConquered(elements, i, lostPlanets, gainedPlanets, goal, finished, lost, conquered,
                                   unclassified, broken);
        return;
      }
      // Drop shadow entries until one matches the element or the shadow list runs out.
      finished', lost' := DropUntilMatch(elements, i, lostPlanets, gainedPlanets, goal, finished, lost,
                                         conquered, unclassified, broken);
      if i >= |queue| {
        // The shadow list has run out: this element stays unclassified.
        CursorUnmatched(goal, queue, invalidCount, elements, i, broken, lostPlanets, gainedPlanets,
                        finished', lost', conquered, unclassified);
        broken' := true;
        unclassified' := unclassified + [i];
      } else {
        CursorMatch(goal, queue, invalidCount, elements, i, broken, lostPlanets, gainedPlanets,
                    finished', lost', conquered, unclassified);
      }
    }

    /** An element on a newly gained planet: a conquered entry with the next sentinel priority
        goes in at the element's own index. */
    method AddConquered(elements: seq<Element>, i: nat, lostPlanets: set<int>, gainedPlanets: set<int>,
                        ghost goal: Reconciled, ghost finished: seq<Entry>, ghost lost: seq<Entry>,
                        conquered: seq<Entry>, ghost unclassified: seq<nat>, ghost broken: bool)
      returns (conquered': seq<Entry>)
      requires i < |elements| && elements[i].location in gainedPlanets
      requires Cursor(goal, queue, invalidCount, elements, i, broken, lostPlanets, gainedPlanets,
                      finished, lost, conquered, unclassified)
      modifies this
      ensures Cursor(goal, queue, invalidCount, elements, i + 1, broken, lostPlanets, gainedPlanets,
                     finished, lost, conquered', unclassified)
      ensures lastUpdate == old(lastUpdate)
    {
      var element := elements[i];
      var p := Sentinel(invalidCount);
      var entry := Entry(p, p, if element.buildType == BUILDING then BUILDING else SHIP,
                         NameOf(element), element.location);
      CursorConquer(goal, queue, invalidCount, elements, i, broken, lostPlanets, gainedPlanets,
                    finished, lost, conquered, unclassified);
      invalidCount := invalidCount + 1;
      queue := PyInsert(queue, i, entry);
      conquered' := conquered + [entry];
    }

    /** The inner loop of the pass: shadow entries at the cursor that do not match element `i`
        are popped, into `lost` when their planet was lost and into `finished` otherwise. */
    method DropUntilMatch(elements: seq<Element>, i: nat, lostPlanets: set<int>, gainedPlanets: set<int>,
                          ghost goal: Reconciled, finished: seq<Entry>, lost: seq<Entry>,
                          ghost conquered: seq<Entry>, ghost unclassified: seq<nat>, ghost broken: bool)
      returns (finished': seq<Entry>, lost': seq<Entry>)
      requires i < |elements| && elements[i].location !in gainedPlanets
      requires Cursor(goal, queue, invalidCount, elements, i, broken, lostPlanets, gainedPlanets,
                      finished, lost, conquered, unclassified)
      modifies this
      ensures Cursor(goal, queue, invalidCount, elements, i, broken, lostPlanets, gainedPlanets,
                     finished', lost', conquered, unclassified)
      ensures i >= |queue| || Matches(queue[i], elements[i])
      ensures invalidCount == old(invalidCount) && lastUpdate == old(lastUpdate)
    {
      finished', lost' := finished, lost;
      while i < |queue| && !Matches(queue[i], elements[i])
        invariant Cursor(goal, queue, invalidCount, elements, i, broken, lostPlanets, gainedPlanets,
                         finished', lost', conquered, unclassified)
        invariant invalidCount == old(invalidCount) && lastUpdate == old(lastUpdate)
        decreases |queue| - i
      {
        var x := queue[i];
        CursorDrop(goal, queue, invalidCount, elements, i, broken, lostPlanets, gainedPlanets,
                   finished', lost', conquered, unclassified);
        if x.location in lostPlanets {
          lost' := lost' + [x];
        } else {
          finished' := finished' + [x];
        }
        queue := Remove(queue, i);
      }
    }

    /** `_update_production_priorities`: every entry of the list, in the order of a copy taken at
        the start, is rescheduled by `RescheduleEntry`. The ghost `trace` holds the state before
        each step and after the last one. */
    method UpdateProductionPriorities(engine: EngineQueue) returns (ghost trace: seq<PassState>)
      requires engine.Valid() && |queue| <= |engine.elements|
      modifies this, engine
      ensures engine.Valid()
      ensures invalidCount == old(invalidCount) && lastUpdate == old(lastUpdate)
      ensures |trace| == |old(queue)| + 1
      ensures trace[0] == PassState(old(queue), old(engine.elements), old(engine.log))
      ensures trace[|old(queue)|] == PassState(queue, engine.elements, engine.log)
      ensures PassTrace(trace, old(queue))
      ensures Rescheduled(old(queue), queue, old(engine.elements), engine.elements, old(engine.log), engine.log)
    {
      var oldQueue := queue;
      trace := [PassState(queue, engine.elements, engine.log)];
      RescheduledNone(queue, engine.elements, engine.log);
      for j := 0 to |oldQueue|
        invariant engine.Valid()
        invariant invalidCount == old(invalidCount) && lastUpdate == old(lastUpdate)
        invariant multiset(oldQueue[j..]) <= multiset(queue)
        invariant PassTrace(trace, oldQueue[..j]) && trace[0] == PassState(oldQueue, old(engine.elements), old(engine.log))
        invariant trace[j] == PassState(queue, engine.elements, engine.log)
        invariant Rescheduled(oldQueue, queue, old(engine.elements), engine.elements, old(engine.log), engine.log)
      {
        var tup := oldQueue[j];
        PendingHead(oldQueue, j, queue);
        ghost var q0, e0, log0 := queue, engine.elements, engine.log;
        RescheduleEntry(tup, engine);
        PendingStep(oldQueue, j, multiset(q0), multiset(queue));
        RescheduledTransitive(oldQueue, q0, queue, old(engine.elements), e0, engine.elements,
                              old(engine.log), log0, engine.log);
        PassTraceStep(trace, oldQueue, j, PassState(queue, engine.elements, engine.log));
        trace := trace + [PassState(queue, engine.elements, engine.log)];
      }
      assert oldQueue[..|oldQueue|] == oldQueue;
    }

    /** One step of `_update_production_priorities`: the entry is taken out, given the decayed
        priority `base * (1 - progress / cost)` of the engine element at its index, and put back
        at its `bisect_left` rank; the engine is told to requeue only when the index changed. The
        entry is found by searching the list (the source uses `bisect_left`, which misses on an
        unsorted list: see the findings). */
    method RescheduleEntry(tup: Entry, engine: EngineQueue)
      requires engine.Valid() && tup in queue && |queue| <= |engine.elements|
      modifies this, engine
      ensures engine.Valid()
      ensures invalidCount == old(invalidCount) && lastUpdate == old(lastUpdate)
      ensures ReschedulesAs(PassState(old(queue), old(engine.elements), old(engine.log)), tup,
                            PassState(queue, engine.elements, engine.log))
      ensures multiset(old(queue)) - multiset{tup} <= multiset(queue)
      ensures Rescheduled(old(queue), queue, old(engine.elements), engine.elements, old(engine.log), engine.log)
    {
      ghost var q0, e0, log0 := queue, engine.elements, engine.log;
      var idx := IndexOf(queue, tup);
      queue := Remove(queue, idx);
      var element := engine.elements[idx];
      var newEntry := Decayed(tup, element);
      var newIndex := BisectLeft(queue, newEntry);
      queue := Insert(queue, newIndex, newEntry);
      var accepted := false;
      if newIndex != idx {
        accepted := engine.Requeue(idx, newIndex);
      }
      ReplaceRescheduled(q0, e0, log0, idx, newEntry, accepted);
    }

    /** `enqueue_item`: issues the enqueue order for a building (by name) or a ship (by design id);
        once the engine accepts it, the entry `(priority, priority, type, item, loc)` goes to its
        `bisect` (right) rank, and unless that rank is the tail the engine is told to requeue the
        new element from its tail to that rank. A refused requeue leaves the element at the tail,
        so the entry goes there too, marked with the next sentinel priority. */
    method EnqueueItem(itemType: int, item: Item, loc: int, priority: real, engine: EngineQueue) returns (ok: bool)
      requires engine.Valid()
      modifies this, engine
      ensures engine.Valid() && lastUpdate == old(lastUpdate)
      ensures !Orderable(itemType, item) ==> !ok && unchanged(this) && unchanged(engine)
      ensures Orderable(itemType, item) ==>
        |engine.log| > |old(engine.log)| && engine.log[|old(engine.log)|] == (EnqueueOrder(item, loc), ok)
      ensures !ok ==> queue == old(queue) && invalidCount == old(invalidCount) && engine.elements == old(engine.elements)
      ensures ok ==> var x := Entry(priority, priority, itemType, item, loc);
        var idx := BisectRight(old(queue), x);
        && (idx == |old(queue)| ==> |engine.log| == |old(engine.log)| + 1)
        && if engine.Refusals() == old(engine.Refusals())
           then queue == Insert(old(queue), idx, x) && invalidCount == old(invalidCount)
           else queue == old(queue) + [RequeueFallback(x, old(invalidCount))] && invalidCount == old(invalidCount) + 1
      ensures ok ==> var x := Entry(priority, priority, itemType, item, loc);
        && |engine.elements| == |old(engine.elements)| + 1
        && exists e :: Matches(x, e) &&
             TrackedOutcome(old(queue), old(engine.elements), e, old(engine.log) + [(EnqueueOrder(item, loc), true)],
                            old(invalidCount), x, queue, engine.elements, engine.log, invalidCount)
      ensures old(Aligned(queue, engine.elements)) ==> Aligned(queue, engine.elements)
      ensures old(Sorted(queue)) && engine.Refusals() == old(engine.Refusals()) ==> Sorted(queue)
    {
      if !Orderable(itemType, item) {
        return false;
      }
      ghost var log0, e0 := engine.log, engine.elements;
      if item.Name? {
        ok := engine.EnqueueBuilding(item.name, loc);
      } else {
        ok := engine.EnqueueShip(item.id, loc);
      }
      RefusalsAppend(log0, EnqueueOrder(item, loc), ok);
      if !ok {
        return false;
      }
      ghost var e := engine.elements[|e0|];
      assert engine.elements[..|engine.elements| - 1] == e0;
      var x := Entry(priority, priority, itemType, item, loc);
      ghost var q0, log1, c0 := queue, engine.log, invalidCount;
      TrackEnqueued(x, engine);
      TrackedFacts(q0, e0, e, log1, c0, x, queue, engine.elements, engine.log, invalidCount);
      return true;
    }

    /** The bookkeeping of `enqueue_item` once the engine has accepted the order and appended the
        element `e`: the entry goes to its `bisect` (right) rank and, unless that is the tail, the
        engine is told to move `e` there. When it refuses, the corrected `__handle_error_on_requeue`
        takes the entry back out and appends it with the next sentinel priority, at the tail
        where its element stayed. */
    method TrackEnqueued(x: Entry, engine: EngineQueue)
      requires engine.Valid() && |engine.elements| > 0
      modifies this, engine
      ensures engine.Valid() && lastUpdate == old(lastUpdate)
      ensures var n := |old(engine.elements)| - 1;
        TrackedOutcome(old(queue), old(engine.elements)[..n], old(engine.elements)[n], old(engine.log), old(invalidCount),
                       x, queue, engine.elements, engine.log, invalidCount)
    {
      ghost var q0, e0, log0 := queue, engine.elements[..|engine.elements| - 1], engine.log;
      ghost var e := engine.elements[|e0|];
      assert engine.elements == e0 + [e];
      var idx := BisectRight(queue, x);
      queue := Insert(queue, idx, x);
      if idx == |queue| - 1 {
        return;
      }
      // Move the new element from the engine's tail to the entry's rank.
      var moved := engine.Requeue(|engine.elements| - 1, idx);
      assert engine.log == log0 + [(Order.Requeue(|e0|, idx), moved)];
      if !moved {
        var popped := queue[idx];
        queue := Remove(queue, idx);
        RemoveInsert(q0, idx, x);
        HandleErrorOnRequeue(popped);
      }
    }

    /** The corrected `__handle_error_on_requeue`: the entry that could not be moved to its rank
        is appended with the next sentinel priority. */
    method HandleErrorOnRequeue(itemTuple: Entry)
      modifies this
      ensures queue == old(queue) + [RequeueFallback(itemTuple, old(invalidCount))]
      ensures invalidCount == old(invalidCount) + 1 && lastUpdate == old(lastUpdate)
    {
      var newEntry := RequeueFallback(itemTuple, invalidCount);
      invalidCount := invalidCount + 1;
      queue := queue + [newEntry];
    }

    /** `dequeue_item_by_index`: the shadow entry is deleted only when the engine accepts the
        order. An accepted order at an index the shadow list does not have raises. */
    method DequeueItemByIndex(index: int, engine: EngineQueue) returns (outcome: DequeueOutcome)
      requires engine.Valid()
      modifies this, engine
      ensures engine.Valid() && invalidCount == old(invalidCount) && lastUpdate == old(lastUpdate)
      ensures |engine.log| == |old(engine.log)| + 1 && engine.log[..|old(engine.log)|] == old(engine.log)
      ensures engine.log[|old(engine.log)|].0 == Order.Dequeue(index)
      ensures outcome.Returned? ==> outcome.res == engine.log[|old(engine.log)|].1
      ensures outcome == Returned(false) ==> queue == old(queue) && engine.elements == old(engine.elements)
      ensures outcome == Returned(true) ==> 0 <= index < |old(queue)| && queue == Remove(old(queue), index)
      ensures outcome == IndexErrorRaised ==> queue == old(queue) && |old(queue)| <= index < |old(engine.elements)|
      ensures engine.log[|old(engine.log)|].1 ==>
        0 <= index < |old(engine.elements)| && engine.elements == old(engine.elements)[..index] + old(engine.elements)[index + 1..]
      ensures old(Aligned(queue, engine.elements)) ==> outcome.Returned? && Aligned(queue, engine.elements)
    {
      ghost var e0 := engine.elements;
      var res := engine.Dequeue(index);
      if !res {
        return Returned(false);
      }
      if index >= |queue| {
        return IndexErrorRaised;
      }
      if Aligned(queue, e0) {
        AlignedRemove(queue, e0, index);
      }
      queue := Remove(queue, index);
      return Returned(true);
    }

    /** `get_all_queued_buildings`: building name to the locations it is queued at. */
    method GetAllQueuedBuildings() returns (buildings: map<Item, seq<int>>)
      ensures forall item :: item in buildings <==> BuildingLocations(queue, item) != []
      ensures forall item :: item in buildings ==> buildings[item] == BuildingLocations(queue, item)
    {
      buildings := map[];
      for j := 0 to |queue|
        invariant ListsBuildings(buildings, queue[..j])
      {
        var x := queue[j];
        ListsBuildingsStep(buildings, queue, j);
        if x.itemType == BUILDING {
          buildings := buildings[x.item := (if x.item in buildings then buildings[x.item] else []) + [x.location]];
        }
      }
      assert queue[..|queue|] == queue;
    }

    /** `update_for_new_turn`: once per turn, reconcile with the engine's queue and reschedule. */
    method UpdateForNewTurn(curTurn: int, currentlyOwned: set<int>, oldOwned: set<int>, engine: EngineQueue)
      returns (ghost trace: seq<PassState>)
      requires engine.Valid()
      modifies this, engine
      ensures engine.Valid() && lastUpdate == curTurn
      ensures old(lastUpdate) == curTurn ==> unchanged(this) && unchanged(engine)
      ensures old(lastUpdate) != curTurn ==>
        var diff := PlanetDiff(currentlyOwned, oldOwned);
        var r := Resolve(old(queue), old(engine.elements), 0, diff.0, diff.1, old(invalidCount));
        && invalidCount == r.invalidCount
        && KeyBag(queue) == KeyBag(r.shadow)
        && |engine.elements| == |old(engine.elements)|
        && OnlyRequeues(old(engine.log), engine.log)
        && (r.unclassified == [] && engine.Refusals() == old(engine.Refusals()) ==> Aligned(queue, engine.elements))
        && (old(Sorted(queue)) && r.conquered == [] ==> Sorted(queue))
        && |trace| == |r.shadow| + 1
        && trace[0] == PassState(r.shadow, old(engine.elements), old(engine.log))
        && trace[|r.shadow|] == PassState(queue, engine.elements, engine.log)
        && PassTrace(trace, r.shadow)
    {
      if lastUpdate == curTurn {
        trace := [];
        return;
      }
      lastUpdate := curTurn;
      var diff := PlanetDiff(currentlyOwned, oldOwned);
      ghost var q0 := queue;
      ResolveAligns(q0, engine.elements, 0, diff.0, diff.1, invalidCount);
      if Sorted(q0) && Resolve(q0, engine.elements, 0, diff.0, diff.1, invalidCount).conquered == [] {
        ResolveKeepsOrder(q0, engine.elements, 0, diff.0, diff.1, invalidCount);
      }
      var finished, lost, conquered := ResolveProductionQueueDiff(engine.elements, diff.0, diff.1);
      trace := UpdateProductionPriorities(engine);
    }
  }
}
