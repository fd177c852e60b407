/** The game engine's own production queue, as the AI sees it through its scripting interface.

    The engine is not part of this model: it decides by itself whether it accepts an order,
    so every order below may be refused (a nondeterministic choice), and the contract says
    only what the AI can rely on when it is accepted. A ghost log records every order issued
    and whether it was accepted, so that the AI's methods can state which orders they issue. */
module Engine {
  import opened QueueOrder

  /** The numeric values of `EmpireProductionTypes.BT_BUILDING` and `BT_SHIP`. */
  const BUILDING: int := 1
  const SHIP: int := 2

  /** One element of the engine's production queue: its build type, building name, design id,
      location (a planet id), the production points spent on it so far, and what
      `productionCostAndTime` reports as its total cost. */
  datatype Element = Element(buildType: int, name: string, designId: int, location: int,
                             progress: real, totalCost: real)

  /** `get_name_of_production_queue_element`: a ship is known by its design id, anything else
      by its name. */
  function NameOf(e: Element): (r: Item)
    ensures r.Design? <==> e.buildType == SHIP
  {
    if e.buildType == SHIP then Design(e.designId) else Name(e.name)
  }

  /** The orders of the narrow command set through which the AI changes the engine's queue. */
  datatype Order =
    | EnqueueBuilding(name: string, location: int)
    | EnqueueShip(design: int, location: int)
    | Requeue(from: int, to: int)
    | Dequeue(index: int)

  /** The engine's production costs are positive. */
  predicate PositiveCost(c: real)
  {
    c > 0.0
  }

  /** Moving the element at `from` to `to`: what an accepted requeue does. */
  function Move<T>(s: seq<T>, from: nat, to: nat): (r: seq<T>)
    requires from < |s| && to < |s|
    ensures |r| == |s| && r[to] == s[from]
    ensures multiset(r) == multiset(s)
  {
    var without := s[..from] + s[from + 1..];
    assert s == s[..from] + [s[from]] + s[from + 1..];
    assert without == without[..to] + without[to..];
    assert multiset(without) + multiset{s[from]} == multiset(s);
    without[..to] + [s[from]] + without[to..]
  }

  class EngineQueue {
    var elements: seq<Element>
    ghost var log: seq<(Order, bool)>

    /** Every element the engine reports has a positive total cost. */
    ghost predicate Valid()
      reads this
    {
      forall i :: 0 <= i < |elements| ==> elements[i].totalCost > 0.0
    }

    ghost function Refusals(): nat
      reads this
    {
      RefusalsIn(log)
    }

    constructor (snapshot: seq<Element>)
      requires forall i :: 0 <= i < |snapshot| ==> snapshot[i].totalCost > 0.0
      ensures Valid() && elements == snapshot && log == []
    {
      elements := snapshot;
      log := [];
    }

    /** `issueEnqueueBuildingProductionOrder`: an accepted order appends the building at the tail. */
    method EnqueueBuilding(name: string, location: int) returns (accepted: bool)
      requires Valid()
      modifies this
      ensures Valid()
      ensures log == old(log) + [(Order.EnqueueBuilding(name, location), accepted)]
      ensures !accepted ==> elements == old(elements)
      ensures accepted ==> |elements| == |old(elements)| + 1 && elements[..|old(elements)|] == old(elements)
      ensures accepted ==> var e := elements[|old(elements)|];
        e.buildType == BUILDING && NameOf(e) == Name(name) && e.location == location
    {
      accepted :| true;
      if accepted {
        // The engine sets the new element's progress and cost; its costs are positive.
        var progress: real :| true;
        assert PositiveCost(1.0);
        var cost: real :| PositiveCost(cost);
        assert PositiveCost(cost);
        elements := elements + [Element(BUILDING, name, -1, location, progress, cost)];
      }
      log := log + [(Order.EnqueueBuilding(name, location), accepted)];
    }

    /** `issueEnqueueShipProductionOrder`: an accepted order appends the ship at the tail. */
    method EnqueueShip(design: int, location: int) returns (accepted: bool)
      requires Valid()
      modifies this
      ensures Valid()
      ensures log == old(log) + [(Order.EnqueueShip(design, location), accepted)]
      ensures !accepted ==> elements == old(elements)
      ensures accepted ==> |elements| == |old(elements)| + 1 && elements[..|old(elements)|] == old(elements)
      ensures accepted ==> var e := elements[|old(elements)|];
        e.buildType == SHIP && NameOf(e) == Design(design) && e.location == location
    {
      accepted :| true;
      if accepted {
        // The engine sets the new element's progress and cost; its costs are positive.
        var progress: real :| true;
        assert PositiveCost(1.0);
        var cost: real :| PositiveCost(cost);
        assert PositiveCost(cost);
        elements := elements + [Element(SHIP, "", design, location, progress, cost)];
      }
      log := log + [(Order.EnqueueShip(design, location), accepted)];
    }

    /** `issueRequeueProductionOrder`: an accepted order moves one element. */
    method Requeue(from: int, to: int) returns (accepted: bool)
      requires Valid()
      modifies this
      ensures Valid()
      ensures log == old(log) + [(Order.Requeue(from, to), accepted)]
      ensures !accepted ==> elements == old(elements)
      ensures accepted ==> 0 <= from < |old(elements)| && 0 <= to < |old(elements)|
                           && elements == Move(old(elements), from, to)
    {
      accepted :| true;
      accepted := accepted && 0 <= from < |elements| && 0 <= to < |elements|;
      if accepted {
        elements := Move(elements, from, to);
      }
      log := log + [(Order.Requeue(from, to), accepted)];
    }

    /** `issueDequeueProductionOrder`: an accepted order removes one element. */
    method Dequeue(index: int) returns (accepted: bool)
      requires Valid()
      modifies this
      ensures Valid()
      ensures log == old(log) + [(Order.Dequeue(index), accepted)]
      ensures !accepted ==> elements == old(elements)
      ensures accepted ==> 0 <= index < |old(elements)|
                           && elements == old(elements)[..index] + old(elements)[index + 1..]
    {
      accepted :| true;
      accepted := accepted && 0 <= index < |elements|;
      if accepted {
        elements := elements[..index] + elements[index + 1..];
      }
      log := log + [(Order.Dequeue(index), accepted)];
    }
  }

  /** The number of refused orders in a log. */
  function RefusalsIn(log: seq<(Order, bool)>): (n: nat)
    ensures n <= |log|
  {
    if log == [] then 0 else RefusalsIn(log[..|log| - 1]) + (if log[|log| - 1].1 then 0 else 1)
  }

  /** Appending orders can only add refusals; appending accepted orders adds none. */
  lemma RefusalsAppend(log: seq<(Order, bool)>, o: Order, accepted: bool)
    ensures RefusalsIn(log + [(o, accepted)]) == RefusalsIn(log) + (if accepted then 0 else 1)
  {
    assert (log + [(o, accepted)])[..|log|] == log;
  }

  /** The number of orders in a log that are not requeues. */
  function OtherOrdersIn(log: seq<(Order, bool)>): (n: nat)
    ensures n <= |log|
  {
    if log == [] then 0 else OtherOrdersIn(log[..|log| - 1]) + (if log[|log| - 1].0.Requeue? then 0 else 1)
  }

  /** Between two states of the log, only requeue orders were issued. */
  ghost predicate OnlyRequeues(before: seq<(Order, bool)>, after: seq<(Order, bool)>)
  {
    |before| <= |after| && after[..|before|] == before && OtherOrdersIn(after) == OtherOrdersIn(before)
  }

  lemma OnlyRequeuesTransitive(a: seq<(Order, bool)>, b: seq<(Order, bool)>, c: seq<(Order, bool)>)
    requires OnlyRequeues(a, b) && OnlyRequeues(b, c)
    ensures OnlyRequeues(a, c)
  {
    assert c[..|a|] == c[..|b|][..|a|];
  }

  lemma OnlyRequeuesNone(log: seq<(Order, bool)>)
    ensures OnlyRequeues(log, log)
  {
  }

  lemma OnlyRequeuesAppend(log: seq<(Order, bool)>, o: Order, accepted: bool)
    requires o.Requeue?
    ensures OnlyRequeues(log, log + [(o, accepted)])
  {
    assert (log + [(o, accepted)])[..|log|] == log;
  }
}
