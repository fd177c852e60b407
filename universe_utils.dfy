/** Supply tiers and annexable systems (`UniverseUtilsAI`). The empire's supply projection, the
    technology and species tables and the starlane graph are game data, passed in as values. */
module UniverseUtils {

  // ---------------------------------------------------------------------------------------------
  // `get_supply_tech_range` and `get_potential_supply_distance`

  /** `get_supply_tech_range`: the sum of the supply ranges of the completed techs, over the
      (tech, range) table in its iteration order. */
  function SupplyTechRange(techs: seq<(string, int)>, complete: string -> bool): (r: int)
    ensures (forall k :: 0 <= k < |techs| ==> techs[k].1 >= 0) ==> r >= 0
  {
    if techs == [] then 0
    else
      var last := techs[|techs| - 1];
      SupplyTechRange(techs[..|techs| - 1], complete) + (if complete(last.0) then last.1 else 0)
  }

  /** Completing techs of non-negative range never shortens the supply range. */
  lemma {:induction false} SupplyTechRangeMonotone(techs: seq<(string, int)>, before: string -> bool, after: string -> bool)
    requires forall k :: 0 <= k < |techs| ==> techs[k].1 >= 0
    requires forall t :: before(t) ==> after(t)
    ensures SupplyTechRange(techs, before) <= SupplyTechRange(techs, after)
  {
    if techs != [] {
      SupplyTechRangeMonotone(techs[..|techs| - 1], before, after);
    }
  }

  /** With no tech completed the range is 0. */
  lemma {:induction false} SupplyTechRangeNone(techs: seq<(string, int)>, complete: string -> bool)
    requires forall t :: !complete(t)
    ensures SupplyTechRange(techs, complete) == 0
  {
    if techs != [] {
      SupplyTechRangeNone(techs[..|techs| - 1], complete);
    }
  }

  /** `max` of a non-empty table. */
  function Max(values: seq<int>): (m: int)
    requires values != []
    ensures m in values && forall k :: 0 <= k < |values| ==> values[k] <= m
  {
    if |values| == 1 then values[0]
    else
      var rest := Max(values[1..]);
      assert forall k :: 1 <= k < |values| ==> values[k] == values[1..][k - 1];
      if values[0] >= rest then values[0] else rest
  }

  /** `get_potential_supply_distance`: the tech range, the best supply of any planet size, the best
      supply modifier of any species, and one for the World Tree special. The two tables must be
      non-empty, or `max` raises. */
  function PotentialSupplyDistance(techRange: int, bySize: seq<int>, speciesModifier: seq<int>): (d: int)
    requires bySize != [] && speciesModifier != []
    ensures forall i, j :: 0 <= i < |bySize| && 0 <= j < |speciesModifier| ==>
      techRange + bySize[i] + speciesModifier[j] + 1 <= d
    ensures exists i, j ::
      && 0 <= i < |bySize| && 0 <= j < |speciesModifier|
      && d == techRange + bySize[i] + speciesModifier[j] + 1
  {
    var s := Max(bySize);
    var m := Max(speciesModifier);
    var i :| 0 <= i < |bySize| && bySize[i] == s;
    var j :| 0 <= j < |speciesModifier| && speciesModifier[j] == m;
    techRange + s + m + 1
  }

  // ---------------------------------------------------------------------------------------------
  // `_all_systems_by_supply_tier` and `get_systems_by_supply_tier`

  /** The tier of a system: its supply projection, or 0 for every supplied system. */
  function Tier(supply: int): (t: int)
    ensures t <= 0
  {
    if supply < 0 then supply else 0
  }

  /** `tiers` sorts the systems of `supply` by tier: every key is a tier in use, and every
      system is listed exactly once, under its own tier. */
  ghost predicate SortsByTier(tiers: map<int, seq<int>>, supply: map<int, int>)
  {
    && (forall t :: t in tiers ==> t <= 0 && tiers[t] != [])
    && (forall t, k :: t in tiers && 0 <= k < |tiers[t]| ==>
          tiers[t][k] in supply && Tier(supply[tiers[t][k]]) == t)
    && (forall s :: s in supply ==> Tier(supply[s]) in tiers && multiset(tiers[Tier(supply[s])])[s] == 1)
  }

  /** Listing one more system under its tier keeps the tiers sorted. */
  lemma SortsByTierAdd(tiers: map<int, seq<int>>, done: map<int, int>, s: int, supply: int)
    requires SortsByTier(tiers, done) && s !in done
    ensures var t := Tier(supply);
      var listed := if t in tiers then tiers[t] else [];
      SortsByTier(tiers[t := listed + [s]], done[s := supply])
  {
    var t := Tier(supply);
    var listed := if t in tiers then tiers[t] else [];
    var tiers', done' := tiers[t := listed + [s]], done[s := supply];
    assert s !in multiset(listed) by {
      forall k | 0 <= k < |listed|
        ensures listed[k] != s
      {
        assert listed[k] in done;
      }
    }
    forall u, k | u in tiers' && 0 <= k < |tiers'[u]|
      ensures tiers'[u][k] in done' && Tier(done'[tiers'[u][k]]) == u
    {
      if u == t && k == |listed| {
        assert tiers'[u][k] == s;
      } else {
        var x := if u == t then listed[k] else tiers[u][k];
        assert tiers'[u][k] == x && x in done;
      }
    }
    forall x | x in done'
      ensures Tier(done'[x]) in tiers' && multiset(tiers'[Tier(done'[x])])[x] == 1
    {
      assert multiset(listed + [s]) == multiset(listed) + multiset{s};
      if x != s {
        assert x in done && done'[x] == done[x];
      }
    }
  }

  /** `_all_systems_by_supply_tier`: the systems are visited in the dict's iteration order, which
      Python does not specify, so only the order within a tier is left open. */
  method AllSystemsBySupplyTier(supply: map<int, int>) returns (tiers: map<int, seq<int>>)
    ensures SortsByTier(tiers, supply)
  {
    tiers := map[];
    var rest := supply.Keys;
    while rest != {}
      invariant rest <= supply.Keys
      invariant SortsByTier(tiers, supply - rest)
      decreases |rest|
    {
      var s := Pick(rest);
      var t := Tier(supply[s]);
      var listed := if t in tiers then tiers[t] else [];
      SortsByTierAdd(tiers, supply - rest, s, supply[s]);
      assert supply - (rest - {s}) == (supply - rest)[s := supply[s]];
      tiers := tiers[t := listed + [s]];
      rest := rest - {s};
    }
    assert supply - rest == supply;
  }

  /** `get_systems_by_supply_tier(supply_tier)`: the systems of that tier, none for a tier not
      in use. */
  function SystemsInTier(tiers: map<int, seq<int>>, tier: int): (systems: seq<int>)
    ensures tier !in tiers ==> systems == []
  {
    if tier in tiers then tiers[tier] else []
  }

  /** A system is listed under a tier exactly when its supply projection puts it there; in
      particular no system is listed under a positive tier. */
  lemma SystemsInTierExactly(tiers: map<int, seq<int>>, supply: map<int, int>, tier: int, s: int)
    requires SortsByTier(tiers, supply)
    ensures s in SystemsInTier(tiers, tier) <==> s in supply && Tier(supply[s]) == tier
  {
    if s in supply && Tier(supply[s]) == tier {
      assert s in multiset(tiers[tier]);
    }
  }

  // ---------------------------------------------------------------------------------------------
  // `get_all_annexable_system_ids`

  /** The systems listed under the tiers 0, -1, …, -`distance`. */
  ghost function WithinTiers(tiers: map<int, seq<int>>, distance: int): set<int>
  {
    set t, k | t in tiers && -distance <= t <= 0 && 0 <= k < |tiers[t]| :: tiers[t][k]
  }

  /** Going one tier further adds the systems of tier -`distance`. */
  lemma WithinTiersStep(tiers: map<int, seq<int>>, distance: int)
    requires distance >= 0
    ensures var listed := SystemsInTier(tiers, -distance);
      WithinTiers(tiers, distance) == WithinTiers(tiers, distance - 1) + (set k | 0 <= k < |listed| :: listed[k])
  {
  }

  /** `get_all_annexable_system_ids`: the union of the tiers 0 down to -`distance`. */
  method AnnexableSystemIds(tiers: map<int, seq<int>>, distance: int) returns (annexable: set<int>)
    ensures annexable == WithinTiers(tiers, distance)
  {
    annexable := {};
    var jumps := 0;
    while jumps > -1 - distance
      invariant -1 - distance <= jumps <= 0 || (jumps == 0 && distance < 0)
      invariant annexable == WithinTiers(tiers, -jumps - 1)
      decreases jumps + 1 + distance
    {
      var listed := SystemsInTier(tiers, jumps);
      WithinTiersStep(tiers, -jumps);
      annexable := annexable + (set k | 0 <= k < |listed| :: listed[k]);
      jumps := jumps - 1;
    }
    if distance < 0 {
      assert WithinTiers(tiers, distance) == {} == WithinTiers(tiers, -1);
    }
  }

  /** A system is annexable exactly when its supply projection is at least -`distance`: it is
      supplied, or at most `distance` jumps from supply. */
  lemma AnnexableBySupply(tiers: map<int, seq<int>>, supply: map<int, int>, distance: int, s: int)
    requires SortsByTier(tiers, supply) && distance >= 0
    ensures s in WithinTiers(tiers, distance) <==> s in supply && supply[s] >= -distance
  {
    if s in supply && supply[s] >= -distance {
      var t := Tier(supply[s]);
      assert s in multiset(tiers[t]);
      var k :| 0 <= k < |tiers[t]| && tiers[t][k] == s;
    }
  }

  // ---------------------------------------------------------------------------------------------
  // `annexable_systems_old`

  /** The systems one starlane away from some system of `from`. */
  function Neighbors(from: set<int>, lanes: int -> set<int>): set<int>
  {
    set y, x | y in from && x in lanes(y) :: x
  }

  /** The systems at most `d` jumps from `start`. */
  function Within(start: set<int>, lanes: int -> set<int>, d: nat): (r: set<int>)
    ensures start <= r
  {
    if d == 0 then start
    else Within(start, lanes, d - 1) + Neighbors(Within(start, lanes, d - 1), lanes)
  }

  /** The ring computed for `distance` d: the neighbours of ring d - 1 not yet covered. */
  function Ring(start: set<int>, lanes: int -> set<int>, d: nat): set<int>
  {
    if d == 0 then start
    else Neighbors(Ring(start, lanes, d - 1), lanes) - Within(start, lanes, d - 1)
  }

  lemma NeighborsUnion(a: set<int>, b: set<int>, lanes: int -> set<int>)
    ensures Neighbors(a + b, lanes) == Neighbors(a, lanes) + Neighbors(b, lanes)
  {
  }

  lemma NeighborsSingle(y: int, lanes: int -> set<int>)
    ensures Neighbors({y}, lanes) == lanes(y)
  {
    forall x | x in Neighbors({y}, lanes)
      ensures x in lanes(y)
    {
      var y', x' :| y' in {y} && x' in lanes(y') && x' == x;
    }
    forall x | x in lanes(y)
      ensures x in Neighbors({y}, lanes)
    {
      assert y in {y} && x in lanes(y);
    }
  }

  /** Within d jumps is within d - 1 jumps, or ring d. */
  lemma {:induction false} WithinSplits(start: set<int>, lanes: int -> set<int>, d: nat)
    requires d >= 1
    ensures Within(start, lanes, d) == Within(start, lanes, d - 1) + Ring(start, lanes, d)
  {
    if d == 1 {
      assert Ring(start, lanes, 0) == start == Within(start, lanes, 0);
    } else {
      var w2 := Within(start, lanes, d - 2);
      var w1 := Within(start, lanes, d - 1);
      var r1 := Ring(start, lanes, d - 1);
      WithinSplits(start, lanes, d - 1);
      assert w1 == w2 + r1;
      NeighborsUnion(w2, r1, lanes);
      assert Neighbors(w2, lanes) <= w1;
    }
  }

  /** Ring d holds exactly the systems d jumps from the start and no fewer: the breadth-first
      search the rings perform is exact. */
  lemma RingIsExactDistance(start: set<int>, lanes: int -> set<int>, d: nat)
    requires d >= 1
    ensures Ring(start, lanes, d) == Within(start, lanes, d) - Within(start, lanes, d - 1)
  {
    WithinSplits(start, lanes, d);
  }

  /** The rings after `n` steps: ring d for each d from 1 to `n`, and in ring 0 (the covered
      systems) everything within `n` jumps. */
  ghost predicate RingsUpTo(rings: map<int, set<int>>, supplied: set<int>, lanes: int -> set<int>, n: nat)
  {
    && (forall e :: e in rings <==> 0 <= e <= n)
    && (forall e :: 1 <= e <= n ==> rings[e] == Ring(supplied, lanes, e))
    && rings[0] == Within(supplied, lanes, n)
  }

  /** From ring n and the systems within n jumps, the next step computes ring n + 1 and the
      systems within n + 1 jumps. */
  lemma NextRing(ring: set<int>, covered: set<int>, supplied: set<int>, lanes: int -> set<int>, n: nat)
    requires ring == Ring(supplied, lanes, n) && covered == Within(supplied, lanes, n)
    ensures Neighbors(ring, lanes) - covered == Ring(supplied, lanes, n + 1)
    ensures covered + (Neighbors(ring, lanes) - covered) == Within(supplied, lanes, n + 1)
  {
    WithinSplits(supplied, lanes, n + 1);
  }

  /** One step of the outer loop: ring `d` is what the candidates add to the covered systems,
      and the covered systems (ring 0) grow by it. */
  function NextRings(rings: map<int, set<int>>, d: int, candidates: set<int>): (next: map<int, set<int>>)
    requires 0 in rings
    ensures next.Keys == rings.Keys + {d}
  {
    var ring := candidates - rings[0];
    rings[d := ring][0 := rings[0] + ring]
  }

  lemma RingsStep(rings: map<int, set<int>>, supplied: set<int>, lanes: int -> set<int>, n: nat)
    requires RingsUpTo(rings, supplied, lanes, n)
    ensures RingsUpTo(NextRings(rings, n + 1, Neighbors(rings[n], lanes)), supplied, lanes, n + 1)
  {
    var next := NextRings(rings, n + 1, Neighbors(rings[n], lanes));
    assert next[0] == Within(supplied, lanes, n + 1) by {
      NextRing(rings[n], rings[0], supplied, lanes, n);
    }
    assert forall e :: e in next <==> 0 <= e <= n + 1 by {
      assert next.Keys == rings.Keys + {n + 1};
    }
    forall e | 1 <= e <= n + 1
      ensures next[e] == Ring(supplied, lanes, e)
    {
      if e <= n {
        assert next[e] == rings[e];
      } else {
        NextRing(rings[n], rings[0], supplied, lanes, n);
      }
    }
  }

  /** `annexable_systems_old`. Ring 0 is the very set used as `covered_systems`, so every
      ring added to the covered systems is added to ring 0 as well. */
  method AnnexableSystemsOld(supplied: set<int>, lanes: int -> set<int>, distance: int)
    returns (rings: map<int, set<int>>)
    ensures RingsUpTo(rings, supplied, lanes, if distance < 0 then 0 else distance)
  {
    rings := map[0 := supplied];
    var n: nat := 0;
    while n < distance
      invariant n <= (if distance < 0 then 0 else distance)
      invariant RingsUpTo(rings, supplied, lanes, n)
    {
      rings := AddRing(rings, supplied, lanes, n);
      n := n + 1;
    }
  }

  /** One pass of the outer loop of `annexable_systems_old`, for `distance` n + 1: the
      neighbours of ring n not yet covered become ring n + 1 and are covered from then on. */
  method AddRing(rings: map<int, set<int>>, supplied: set<int>, lanes: int -> set<int>, n: nat)
    returns (next: map<int, set<int>>)
    requires RingsUpTo(rings, supplied, lanes, n)
    ensures RingsUpTo(next, supplied, lanes, n + 1)
  {
    RingsStep(rings, supplied, lanes, n);
    var candidates := RingNeighbors(rings[n], lanes);
    next := NextRings(rings, n + 1, candidates);
  }

  /** The inner loop of `annexable_systems_old`: the neighbours of every system of a ring. */
  method RingNeighbors(ring: set<int>, lanes: int -> set<int>) returns (candidates: set<int>)
    ensures candidates == Neighbors(ring, lanes)
  {
    candidates := {};
    var rest := ring;
    while rest != {}
      invariant rest <= ring
      invariant candidates == Neighbors(ring - rest, lanes)
      decreases |rest|
    {
      var y := Pick(rest);
      NeighborsUnion(ring - rest, {y}, lanes);
      NeighborsSingle(y, lanes);
      assert ring - (rest - {y}) == (ring - rest) + {y};
      candidates := candidates + lanes(y);
      rest := rest - {y};
    }
    assert ring - rest == ring;
  }

  /** Some element of a non-empty set: the next one Python's iteration yields. */
  method Pick<T>(s: set<T>) returns (x: T)
    requires s != {}
    ensures x in s
  {
    x :| x in s;
  }
}
