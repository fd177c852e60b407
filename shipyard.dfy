/** `ShipyardManager.get_candidate`: where to build a shipyard. Among the planets where the
    shipyard would improve the best ship design, keep those reaching the best rating; unless the
    shipyard improves on the empire's best design, keep only those at least
    `minimum_spacing` jumps from the existing yards; then keep the cheapest and pick the one
    furthest from the existing yards. The ship designer's ratings, the jump distances and the
    building costs are queries to the game, passed in as values. */
module Shipyard {
  import opened Optional
  import opened BestShip

  const MINIMUM_SPACING: int := 2
  /** The starting `least_cost` of `_get_cheapest_candidates`. */
  const LEAST_COST_START: real := 99999.0
  /** `ShipyardLocationCandidate.INVALID_DISTANCE`. */
  const INVALID_DISTANCE: int := 9999

  /** One planet considered by `_get_candidate_list`: the best rating with the shipyard there and
      the change against the rating without it. */
  datatype Rated = Rated(pid: int, newRating: real, diff: real)

  /** `ShipyardLocationCandidate`, reduced to what the selection reads. */
  datatype Candidate = Candidate(pid: int, rating: real, improvement: bool, distToYards: int, totalCost: real)

  // ---------------------------------------------------------------------------------------------
  // `_get_candidate_list`

  /** The best rating after the loop: the old best, raised by every improving planet. */
  function BestRating(locs: seq<Rated>, oldBest: real): (r: real)
    ensures r >= oldBest
    ensures forall k :: 0 <= k < |locs| && locs[k].diff > 0.0 ==> locs[k].newRating <= r
    ensures r == oldBest || exists k :: 0 <= k < |locs| && locs[k].diff > 0.0 && locs[k].newRating == r
  {
    if locs == [] then oldBest
    else
      var before := BestRating(locs[..|locs| - 1], oldBest);
      var last := locs[|locs| - 1];
      assert forall k :: 0 <= k < |locs| - 1 ==> locs[k] == locs[..|locs| - 1][k];
      if last.diff > 0.0 && last.newRating > before then last.newRating else before
  }

  /** The improving planets whose rating is `rating`, in loop order. */
  function RatedAt(locs: seq<Rated>, rating: real): (pids: seq<int>)
    ensures |pids| <= |locs|
    ensures forall p :: p in pids <==>
      exists k :: 0 <= k < |locs| && locs[k].diff > 0.0 && locs[k].newRating == rating && locs[k].pid == p
  {
    if locs == [] then []
    else
      var before := RatedAt(locs[..|locs| - 1], rating);
      var last := locs[|locs| - 1];
      assert forall k :: 0 <= k < |locs| - 1 ==> locs[k] == locs[..|locs| - 1][k];
      if last.diff > 0.0 && last.newRating == rating then before + [last.pid] else before
  }

  lemma RatedAtNone(locs: seq<Rated>, oldBest: real, rating: real)
    requires rating > BestRating(locs, oldBest)
    ensures RatedAt(locs, rating) == []
  {
  }

  /** The candidate loop of `_get_candidate_list`: a planet without improvement is skipped, a
      strictly better rating starts the list afresh and marks an improvement, an equal rating
      joins the list. */
  method CandidateList(locs: seq<Rated>, oldBest: real) returns (candidates: seq<int>, best: real, improvement: bool)
    ensures best == BestRating(locs, oldBest)
    ensures improvement <==> best > oldBest
    ensures candidates == RatedAt(locs, best)
  {
    candidates, best, improvement := [], oldBest, false;
    for j := 0 to |locs|
      invariant best == BestRating(locs[..j], oldBest)
      invariant improvement <==> best > oldBest
      invariant candidates == RatedAt(locs[..j], best)
    {
      var l := locs[j];
      assert locs[..j + 1][..j] == locs[..j] && locs[..j + 1][j] == l;
      if l.diff <= 0.0 {
        continue;
      }
      if l.newRating > best {
        RatedAtNone(locs[..j], oldBest, l.newRating);
        best := l.newRating;
        candidates := [l.pid];
        improvement := true;
      } else if l.newRating >= best {
        candidates := candidates + [l.pid];
      }
    }
    assert locs[..|locs|] == locs;
  }

  // ---------------------------------------------------------------------------------------------
  // The candidate's own figures

  function Sum(costs: seq<real>): real
  {
    if costs == [] then 0.0 else Sum(costs[..|costs| - 1]) + costs[|costs| - 1]
  }

  /** `_calc_total_pp_cost`: the shipyard's own cost plus that of every missing prerequisite. */
  method TotalPPCost(ownCost: real, prereqCosts: seq<real>) returns (total: real)
    ensures total == ownCost + Sum(prereqCosts)
  {
    total := ownCost;
    for j := 0 to |prereqCosts|
      invariant total == ownCost + Sum(prereqCosts[..j])
    {
      assert prereqCosts[..j + 1][..j] == prereqCosts[..j];
      total := total + prereqCosts[j];
    }
    assert prereqCosts[..|prereqCosts|] == prereqCosts;
  }

  /** Missing prerequisites can only add to the cost. */
  lemma {:induction false} SumNonNegative(costs: seq<real>)
    requires forall k :: 0 <= k < |costs| ==> costs[k] >= 0.0
    ensures Sum(costs) >= 0.0
  {
    if costs != [] {
      SumNonNegative(costs[..|costs| - 1]);
    }
  }

  /** The least of the jump distances to the existing yards, `INVALID_DISTANCE` at most. */
  function MinDistance(distances: seq<int>): (d: int)
    ensures d <= INVALID_DISTANCE && forall k :: 0 <= k < |distances| ==> d <= distances[k]
    ensures d == INVALID_DISTANCE || d in distances
  {
    if distances == [] then INVALID_DISTANCE
    else
      var before := MinDistance(distances[..|distances| - 1]);
      var last := distances[|distances| - 1];
      assert forall k :: 0 <= k < |distances| - 1 ==> distances[k] == distances[..|distances| - 1][k];
      if last < before then last else before
  }

  /** `_calc_minimum_distance_to_yards`. */
  method MinimumDistanceToYards(distances: seq<int>) returns (minDist: int)
    ensures minDist == MinDistance(distances)
  {
    minDist := INVALID_DISTANCE;
    for j := 0 to |distances|
      invariant minDist == MinDistance(distances[..j])
    {
      assert distances[..j + 1][..j] == distances[..j];
      minDist := if distances[j] < minDist then distances[j] else minDist;
    }
    assert distances[..|distances|] == distances;
  }

  // ---------------------------------------------------------------------------------------------
  // `_get_cheapest_candidates`

  /** `min(99999, least total cost)`. */
  function LeastCost(cs: seq<Candidate>): (r: real)
    ensures r <= LEAST_COST_START && forall k :: 0 <= k < |cs| ==> r <= cs[k].totalCost
    ensures r == LEAST_COST_START || exists k :: 0 <= k < |cs| && cs[k].totalCost == r
  {
    if cs == [] then LEAST_COST_START
    else
      var before := LeastCost(cs[..|cs| - 1]);
      var last := cs[|cs| - 1];
      assert forall k :: 0 <= k < |cs| - 1 ==> cs[k] == cs[..|cs| - 1][k];
      if last.totalCost < before then last.totalCost else before
  }

  /** The candidates of cost `cost`, in input order. */
  function CostingExactly(cs: seq<Candidate>, cost: real): (r: seq<Candidate>)
    ensures |r| <= |cs|
    ensures forall c :: c in r <==> c in cs && c.totalCost == cost
  {
    if cs == [] then []
    else
      var before := CostingExactly(cs[..|cs| - 1], cost);
      var last := cs[|cs| - 1];
      assert forall c :: c in cs <==> c in cs[..|cs| - 1] || c == last;
      if last.totalCost == cost then before + [last] else before
  }

  lemma CostingExactlyNone(cs: seq<Candidate>, cost: real)
    requires forall k :: 0 <= k < |cs| ==> cs[k].totalCost > cost
    ensures CostingExactly(cs, cost) == []
  {
  }

  /** `_get_cheapest_candidates`: the candidates of least cost, in input order. */
  method CheapestCandidates(cs: seq<Candidate>) returns (cheapest: seq<Candidate>)
    ensures cheapest == CostingExactly(cs, LeastCost(cs))
  {
    cheapest := [];
    var leastCost := LEAST_COST_START;
    for j := 0 to |cs|
      invariant leastCost == LeastCost(cs[..j])
      invariant cheapest == CostingExactly(cs[..j], leastCost)
    {
      var c := cs[j];
      CheapestStep(cs, j, leastCost);
      if c.totalCost < leastCost {
        leastCost := c.totalCost;
        cheapest := [c];
      } else if c.totalCost == leastCost {
        cheapest := cheapest + [c];
      }
    }
    assert cs[..|cs|] == cs;
  }

  /** One more candidate: a strictly cheaper one starts the list afresh, one of equal cost
      joins it, and a dearer one changes nothing. */
  lemma CheapestStep(cs: seq<Candidate>, j: nat, least: real)
    requires j < |cs| && least == LeastCost(cs[..j])
    ensures var c := cs[j];
      && LeastCost(cs[..j + 1]) == (if c.totalCost < least then c.totalCost else least)
      && CostingExactly(cs[..j + 1], LeastCost(cs[..j + 1]))
         == if c.totalCost < least then [c]
            else CostingExactly(cs[..j], least) + (if c.totalCost == least then [c] else [])
  {
    assert cs[..j + 1][..j] == cs[..j] && cs[..j + 1][j] == cs[j];
    if cs[j].totalCost < least {
      CostingExactlyNone(cs[..j], cs[j].totalCost);
    }
  }

  /** When every candidate costs more than 99999, none is cheap enough. */
  lemma NoneCheapEnough(cs: seq<Candidate>)
    requires forall k :: 0 <= k < |cs| ==> cs[k].totalCost > LEAST_COST_START
    ensures CostingExactly(cs, LeastCost(cs)) == []
  {
    if cs != [] {
      assert LeastCost(cs) <= cs[0].totalCost;
    }
    CostingExactlyNone(cs, LeastCost(cs));
  }

  // ---------------------------------------------------------------------------------------------
  // `_get_furthest_candidate`

  /** The index of the first candidate of greatest distance, when that distance exceeds the
      starting `max_dist` of -1. */
  function FurthestIndex(cs: seq<Candidate>): (r: Option<nat>)
    ensures r.None? <==> forall k :: 0 <= k < |cs| ==> cs[k].distToYards <= -1
    ensures r.Some? ==>
      && r.value < |cs| && cs[r.value].distToYards > -1
      && (forall k :: 0 <= k < |cs| ==> cs[k].distToYards <= cs[r.value].distToYards)
      && (forall k :: 0 <= k < r.value ==> cs[k].distToYards < cs[r.value].distToYards)
  {
    if cs == [] then None
    else
      var before := FurthestIndex(cs[..|cs| - 1]);
      var last := cs[|cs| - 1];
      assert forall k :: 0 <= k < |cs| - 1 ==> cs[k] == cs[..|cs| - 1][k];
      var maxDist := if before.Some? then cs[before.value].distToYards else -1;
      if last.distToYards > maxDist then Some(|cs| - 1) else before
  }

  /** `_get_furthest_candidate`: ties keep the earliest, since the test is a strict `>`. */
  method FurthestCandidate(cs: seq<Candidate>) returns (chosen: Option<Candidate>)
    ensures FurthestIndex(cs).None? ==> chosen.None?
    ensures FurthestIndex(cs).Some? ==> chosen == Some(cs[FurthestIndex(cs).value])
  {
    var maxDist := -1;
    chosen := None;
    for j := 0 to |cs|
      invariant FurthestIndex(cs[..j]).None? ==> chosen.None? && maxDist == -1
      invariant FurthestIndex(cs[..j]).Some? ==>
        chosen == Some(cs[FurthestIndex(cs[..j]).value]) && maxDist == chosen.value.distToYards
    {
      var c := cs[j];
      assert cs[..j + 1][..j] == cs[..j] && cs[..j + 1][j] == c;
      assert forall k :: 0 <= k < j ==> cs[..j][k] == cs[k];
      if c.distToYards > maxDist {
        maxDist := c.distToYards;
        chosen := Some(c);
      }
    }
    assert cs[..|cs|] == cs;
  }

  // ---------------------------------------------------------------------------------------------
  // `get_candidate`

  /** The candidates at least `MINIMUM_SPACING` jumps away from the existing yards, in order. */
  function Spaced(cs: seq<Candidate>): (r: seq<Candidate>)
    ensures |r| <= |cs|
    ensures forall c :: c in r <==> c in cs && c.distToYards >= MINIMUM_SPACING
  {
    if cs == [] then []
    else
      var before := Spaced(cs[..|cs| - 1]);
      var last := cs[|cs| - 1];
      assert forall c :: c in cs <==> c in cs[..|cs| - 1] || c == last;
      if last.distToYards >= MINIMUM_SPACING then before + [last] else before
  }

  /** The candidates built from the chosen planets, with their distance and cost. */
  function Candidates(pids: seq<int>, rating: real, improvement: bool,
                      distOf: int -> int, costOf: int -> real): (cs: seq<Candidate>)
    ensures |cs| == |pids|
    ensures forall k :: 0 <= k < |pids| ==>
      cs[k] == Candidate(pids[k], rating, improvement, distOf(pids[k]), costOf(pids[k]))
  {
    seq(|pids|, k requires 0 <= k < |pids| => Candidate(pids[k], rating, improvement, distOf(pids[k]), costOf(pids[k])))
  }

  /** What `get_candidate` picks from a non-empty candidate list. */
  function Pick(cs: seq<Candidate>): (r: Option<Candidate>)
    requires cs != []
    ensures r.Some? ==> r.value in cs && r.value.distToYards > -1
    ensures r.Some? && !cs[0].improvement ==> r.value.distToYards >= MINIMUM_SPACING
  {
    var pool := if cs[0].improvement then cs else Spaced(cs);
    var cheapest := CostingExactly(pool, LeastCost(pool));
    var k := FurthestIndex(cheapest);
    if k.Some? then Some(cheapest[k.value]) else None
  }

  /** A pick is one of the cheapest candidates of the pool, and is far enough from the existing
      yards unless the shipyard improves on the best design. */
  lemma PickIsCheapest(cs: seq<Candidate>)
    requires cs != []
    ensures Pick(cs).Some? ==>
      var c := Pick(cs).value;
      && c in cs
      && (!cs[0].improvement ==> c.distToYards >= MINIMUM_SPACING)
      && c.distToYards > -1
      && forall k :: 0 <= k < |cs| && (cs[0].improvement || cs[k].distToYards >= MINIMUM_SPACING)
                     ==> c.totalCost <= cs[k].totalCost
  {
    var pool := if cs[0].improvement then cs else Spaced(cs);
    var cheapest := CostingExactly(pool, LeastCost(pool));
    if Pick(cs).Some? {
      var c := Pick(cs).value;
      assert c in cheapest;
      forall k | 0 <= k < |cs| && (cs[0].improvement || cs[k].distToYards >= MINIMUM_SPACING)
        ensures c.totalCost <= cs[k].totalCost
      {
        assert cs[k] in pool;
      }
    }
  }

  /** Among the eligible candidates of the pick's (least) cost, the pick is one of greatest
      distance to the existing yards; there is no pick exactly when every eligible candidate of
      least cost has an unknown distance. */
  lemma PickIsFurthest(cs: seq<Candidate>)
    requires cs != []
    ensures var pool := if cs[0].improvement then cs else Spaced(cs);
      var least := LeastCost(pool);
      && (Pick(cs).None? <==> forall c :: c in pool && c.totalCost == least ==> c.distToYards <= -1)
      && (Pick(cs).Some? ==>
            && Pick(cs).value.totalCost == least
            && forall c :: c in pool && c.totalCost == least ==> c.distToYards <= Pick(cs).value.distToYards)
  {
    var pool := if cs[0].improvement then cs else Spaced(cs);
    var cheapest := CostingExactly(pool, LeastCost(pool));
    FurthestOfAll(cheapest);
    var i := FurthestIndex(cheapest);
    assert Pick(cs) == if i.Some? then Some(cheapest[i.value]) else None;
    if i.Some? {
      assert cheapest[i.value] in cheapest;
    }
  }

  /** The furthest index, read over the members of the list rather than its indices. */
  lemma FurthestOfAll(cs: seq<Candidate>)
    ensures FurthestIndex(cs).None? <==> forall c :: c in cs ==> c.distToYards <= -1
    ensures FurthestIndex(cs).Some? ==> forall c :: c in cs ==> c.distToYards <= cs[FurthestIndex(cs).value].distToYards
  {
    var i := FurthestIndex(cs);
    forall c | c in cs
      ensures i.None? ==> c.distToYards <= -1
      ensures i.Some? ==> c.distToYards <= cs[i.value].distToYards
    {
      var j :| 0 <= j < |cs| && cs[j] == c;
    }
    if i.Some? {
      assert cs[i.value] in cs;
    }
  }

  /** `get_candidate`, given the planets rated by `_get_candidate_list` and the old best rating
      of the design it would improve on. */
  method GetCandidate(locs: seq<Rated>, oldBest: real, distOf: int -> int, costOf: int -> real)
    returns (chosen: Option<Candidate>)
    ensures var best := BestRating(locs, oldBest);
      var pids := RatedAt(locs, best);
      && (pids == [] ==> chosen.None?)
      && (pids != [] ==> chosen == Pick(Candidates(pids, best, best > oldBest, distOf, costOf)))
  {
    var pids, best, improvement := CandidateList(locs, oldBest);
    if pids == [] {
      return None;
    }
    var candidateList := Candidates(pids, best, improvement, distOf, costOf);
    if !candidateList[0].improvement {
      candidateList := Spaced(candidateList);
    }
    var cheapest := CheapestCandidates(candidateList);
    chosen := FurthestCandidate(cheapest);
  }

  // ---------------------------------------------------------------------------------------------
  // The unpack at the head of `_get_candidate_list`

  /** The Python values that `get_best_ship_info` puts in its result. */
  datatype PyValue = PyNone | PyInt(i: int) | PyDesign(designId: int) | PyList(pids: seq<int>) | PyReal(r: real)

  /** The tuple `get_best_ship_info` returns: `(top_id, design, valid_locs)`, or three `None`s. */
  function BestShipInfoTuple(info: Option<ShipInfo>): (t: seq<PyValue>)
    ensures |t| == 3
    ensures info.Some? ==> t[2] == PyList(info.value.validLocs)
  {
    match info
    case None => [PyNone, PyNone, PyNone]
    case Some(s) => [PyInt(s.designId), PyDesign(s.designId), PyList(s.validLocs)]
  }

  /** The old yard locations and the old best rating, or the exception the unpack raises. */
  datatype OldBest = OldBest(locs: seq<int>, rating: real) | Raises

  /** `_, _, old_locs, old_best_rating = t`: Python raises `ValueError` unless the tuple has
      exactly four items (and the two read must be a list and a number for the loop to run). */
  function UnpackOldBest(t: seq<PyValue>): (r: OldBest)
    ensures |t| != 4 ==> r == Raises
    ensures r.OldBest? ==> t[2] == PyList(r.locs) && t[3] == PyReal(r.rating)
  {
    if |t| == 4 && t[2].PyList? && t[3].PyReal? then OldBest(t[2].pids, t[3].r) else Raises
  }

  /** As written, `_get_candidate_list` raises on every call, whatever `get_best_ship_info`
      returns: it returns three values where four are unpacked. `CandidateList` takes the old
      locations and rating as values instead. */
  lemma CandidateListAsWrittenRaises(info: Option<ShipInfo>)
    ensures UnpackOldBest(BestShipInfoTuple(info)) == Raises
  {
  }
}
