/** `get_best_ship_info`: the best design for a kind of ship that can be built at some of the
    queried planets, and where a design of that rating can be built. The ranked design lists
    come from the ship designer, which is not part of this model; they are passed in, as are
    the populated planets (`AIstate.popCtrIDs`). */
module BestShip {
  import opened Optional

  /** One ranked design: `(rating, pid, design_id, cost[, stats])`, best first. */
  datatype DesignStats = DesignStats(rating: real, pid: int, designId: int, cost: real)

  /** The `loc` argument: `None`, a list of planets, an int, or anything else. */
  datatype LocQuery = AnyLoc | LocList(pids: seq<int>) | LocId(pid: int) | LocOther

  /** The chosen design and the planets where a design of its rating can be built. The design
      object itself is looked up in the engine by id, which is not part of this model. */
  datatype ShipInfo = ShipInfo(designId: int, validLocs: seq<int>)

  /** The planets the query admits, or `None` when `get_best_ship_info` gives up on `loc`. */
  function QueriedPlanets(loc: LocQuery, popCtrIds: seq<int>): (r: Option<set<int>>)
    ensures loc.AnyLoc? ==> r == Some(set p | p in popCtrIds)
    ensures loc.LocList? ==> r == Some(set p | p in loc.pids && p in popCtrIds)
    ensures loc.LocId? ==> r == (if loc.pid in popCtrIds then Some({loc.pid}) else None)
    ensures loc.LocOther? ==> r == None
  {
    match loc
    case AnyLoc => Some(set p | p in popCtrIds)
    case LocList(pids) => Some(set p | p in pids && p in popCtrIds)
    case LocId(pid) => if pid in popCtrIds then Some({pid}) else None
    case LocOther => None
  }

  /** The index the `for ... break` search stops at: the first design buildable at a queried
      planet, or the last design when none is. */
  function ChosenIndex(best: seq<DesignStats>, planetIds: set<int>): (k: nat)
    requires best != []
    ensures k < |best|
    ensures forall j :: 0 <= j < k ==> best[j].pid !in planetIds
    ensures best[k].pid in planetIds || k == |best| - 1
  {
    if best[0].pid in planetIds || |best| == 1 then 0 else 1 + ChosenIndex(best[1..], planetIds)
  }

  /** `[item[1] for item in best_designs if item[0] == top_rating and item[2] == top_id]`. */
  function LocsOf(best: seq<DesignStats>, rating: real, designId: int): (locs: seq<int>)
    ensures |locs| <= |best|
    ensures forall p :: p in locs <==>
      exists j :: 0 <= j < |best| && best[j].rating == rating && best[j].designId == designId && best[j].pid == p
  {
    if best == [] then []
    else
      var rest := LocsOf(best[1..], rating, designId);
      assert forall j :: 0 < j < |best| ==> best[j] == best[1..][j - 1];
      if best[0].rating == rating && best[0].designId == designId then [best[0].pid] + rest else rest
  }

  /** `get_best_ship_info(priority, loc)`, with `designs` the cached list for `priority`
      (`None` when the priority has no entry). */
  method GetBestShipInfo(designs: Option<seq<DesignStats>>, loc: LocQuery, popCtrIds: seq<int>)
    returns (info: Option<ShipInfo>)
    ensures QueriedPlanets(loc, popCtrIds).None? || designs.None? || designs.value == [] ==> info.None?
    ensures QueriedPlanets(loc, popCtrIds).Some? && designs.Some? && designs.value != [] ==>
      var best, planetIds := designs.value, QueriedPlanets(loc, popCtrIds).value;
      var top := best[ChosenIndex(best, planetIds)];
      info == Some(ShipInfo(top.designId, LocsOf(best, top.rating, top.designId)))
  {
    var planetIds: set<int>;
    match loc {
      case AnyLoc => planetIds := set p | p in popCtrIds;
      case LocList(pids) => planetIds := set p | p in pids && p in popCtrIds;
      case LocId(pid) =>
        if pid !in popCtrIds {
          return None;
        }
        planetIds := {pid};
      case LocOther => return None;
    }
    if designs.None? {
      return None;
    }
    var best := designs.value;
    if best == [] {
      return None;
    }
    var k := FirstBuildable(best, planetIds);
    var top := best[k];
    var validLocs := ValidLocs(best, top.rating, top.designId);
    return Some(ShipInfo(top.designId, validLocs));
  }

  /** The `for ... break` search over the ranked designs: the first one buildable at a queried
      planet, or the last one. */
  method FirstBuildable(best: seq<DesignStats>, planetIds: set<int>) returns (k: nat)
    requires best != []
    ensures k == ChosenIndex(best, planetIds)
  {
    k := 0;
    while k < |best| - 1 && best[k].pid !in planetIds
      invariant 0 <= k < |best|
      invariant ChosenIndex(best, planetIds) == k + ChosenIndex(best[k..], planetIds)
    {
      assert best[k..][1..] == best[k + 1..];
      k := k + 1;
    }
  }

  /** The planets of every ranked entry with the chosen rating and design, in rank order. */
  method ValidLocs(best: seq<DesignStats>, rating: real, designId: int) returns (validLocs: seq<int>)
    ensures validLocs == LocsOf(best, rating, designId)
  {
    validLocs := [];
    for j := 0 to |best|
      invariant validLocs == LocsOf(best[..j], rating, designId)
    {
      LocsOfAppend(best[..j], best[j], rating, designId);
      assert best[..j + 1] == best[..j] + [best[j]];
      if best[j].rating == rating && best[j].designId == designId {
        validLocs := validLocs + [best[j].pid];
      }
    }
    assert best[..|best|] == best;
  }

  lemma {:induction false} LocsOfAppend(best: seq<DesignStats>, x: DesignStats, rating: real, designId: int)
    ensures LocsOf(best + [x], rating, designId)
            == LocsOf(best, rating, designId) + (if x.rating == rating && x.designId == designId then [x.pid] else [])
    decreases |best|
  {
    if best != [] {
      assert (best + [x])[1..] == best[1..] + [x];
      LocsOfAppend(best[1..], x, rating, designId);
    } else {
      assert ([] + [x])[1..] == [];
    }
  }

  /** The chosen design is always among the listed locations' designs: its own planet is a
      valid location. */
  lemma ChosenPlanetListed(best: seq<DesignStats>, planetIds: set<int>)
    requires best != []
    ensures best[ChosenIndex(best, planetIds)].pid
            in LocsOf(best, best[ChosenIndex(best, planetIds)].rating, best[ChosenIndex(best, planetIds)].designId)
  {
  }
}
