/** `get_design_cost`: the production cost of a ship design at a planet, cached for the current
    turn. The engine's cost query is not part of this model: its answer is passed in. */
module DesignCost {
  /** `INVALID_ID`, the location of a design whose cost does not depend on where it is built. */
  const INVALID_ID: int := -1

  /** The key a cost is cached under: designs whose cost is location-invariant share one key for
      every planet. */
  function CostKey(designId: int, locationInvariant: bool, pid: int): (k: (int, int))
    ensures k.0 == designId
    ensures locationInvariant ==> k.1 == INVALID_ID
    ensures !locationInvariant ==> k.1 == pid
  {
    (designId, if locationInvariant then INVALID_ID else pid)
  }

  /** The cache of one turn after a lookup: `setdefault` keeps a cost already stored and stores
      the queried one otherwise. */
  function SetDefault(costs: map<(int, int), real>, key: (int, int), queried: real): (r: (map<(int, int), real>, real))
    ensures key in r.0 && r.1 == r.0[key]
    ensures key in costs ==> r.0 == costs && r.1 == costs[key]
    ensures key !in costs ==> r.0 == costs[key := queried] && r.1 == queried
  {
    if key in costs then (costs, costs[key]) else (costs[key := queried], queried)
  }

  class DesignCostCache {
    /** `_design_cost_cache`: turn to the costs known that turn, keyed by (design id, location). */
    var byTurn: map<int, map<(int, int), real>>

    /** Only one turn is kept at a time. */
    ghost predicate Valid()
      reads this
    {
      forall s, t :: s in byTurn && t in byTurn ==> s == t
    }

    /** The module's initial value `{0: {(-1, -1): 0}}`. */
    constructor ()
      ensures Valid() && byTurn == map[0 := map[(-1, -1) := 0.0]]
    {
      byTurn := map[0 := map[(-1, -1) := 0.0]];
    }

    /** The costs that a lookup on turn `curTurn` starts from: that turn's costs, or none after
        a turn change, which forgets every other turn. */
    function CostsAt(curTurn: int): (costs: map<(int, int), real>)
      reads this
    {
      if curTurn in byTurn then byTurn[curTurn] else map[]
    }

    /** `get_design_cost(design, pid)` on turn `curTurn`, where `queried` is what the engine
        reports as the design's production cost at `pid`. */
    method GetDesignCost(curTurn: int, designId: int, locationInvariant: bool, pid: int, queried: real)
      returns (cost: real)
      requires Valid()
      modifies this
      ensures Valid() && byTurn.Keys == {curTurn}
      ensures var r := SetDefault(old(CostsAt(curTurn)), CostKey(designId, locationInvariant, pid), queried);
        byTurn[curTurn] == r.0 && cost == r.1
    {
      var costs: map<(int, int), real>;
      if curTurn in byTurn {
        costs := byTurn[curTurn];
        assert forall t :: t in byTurn ==> t == curTurn;
      } else {
        byTurn := map[];
        costs := map[];
      }
      var key := if locationInvariant then (designId, INVALID_ID) else (designId, pid);
      if key !in costs {
        costs := costs[key := queried];
      }
      cost := costs[key];
      byTurn := byTurn[curTurn := costs];
    }
  }

  /** Within a turn the cache is stable: a second lookup of the same design at the same place
      returns the first cost, whatever the engine reports the second time. */
  lemma SecondLookupKeepsFirst(costs: map<(int, int), real>, key: (int, int), first: real, second: real)
    ensures var r1 := SetDefault(costs, key, first);
      SetDefault(r1.0, key, second) == r1
  {
  }

  /** A location-invariant design is cached once for all planets: after a lookup at one planet,
      a lookup at any other planet returns the same cost. */
  lemma LocationInvariantShared(costs: map<(int, int), real>, designId: int, pid: int, other: int, queried: real, again: real)
    ensures var r1 := SetDefault(costs, CostKey(designId, true, pid), queried);
      SetDefault(r1.0, CostKey(designId, true, other), again).1 == r1.1
  {
  }
}
