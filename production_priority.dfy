/** The priority constants of `ProductionPriority`: a lower number means a higher priority. */
module ProductionPriority {
  const EMERGENCY_FACTOR: real := 0.000000001
  const DEFAULT: real := 100.0
  const BUILDING_LOW: real := 1000.0
  const BUILDING_BASE: real := 100.0
  const BUILDING_HIGH: real := 1.0
  const SHIP_SCOUT: real := 100.0
  const SHIP_ORBITAL_DEFENSE: real := 90.0
  const SHIP_MIL: real := 80.0
  const SHIP_OUTPOST: real := 70.0
  const SHIP_COLO: real := 60.0
  const SHIP_TROOPS: real := 50.0
  const SHIP_ORBITAL_OUTPOST: real := 40.0
  const SHIP_ORBITAL_COLO: real := 30.0
  const SHIP_ORBITAL_TROOPS: real := 20.0
  /** The sentinel base: `invalid + n` marks the n-th entry whose rank could not be established. */
  const INVALID: real := 10000000000.0

  /** The sentinel priority handed out when the invalid-priority counter stands at `count`. */
  function Sentinel(count: nat): (p: real)
    ensures p >= INVALID
    ensures forall other: nat :: other < count ==> Sentinel(other) < p
  {
    INVALID + count as real
  }

  /** The priority decay of rescheduling: `base * (1 - progress / cost)`. */
  function Decay(base: real, progress: real, cost: real): (p: real)
    requires cost > 0.0
    ensures progress == 0.0 ==> p == base
    ensures progress == cost ==> p == 0.0
  {
    base * (1.0 - progress / cost)
  }

  /** Work in progress is drawn towards priority 0: a decayed priority lies between 0 and the
      base priority, and more progress never gives a larger (later) priority. */
  lemma DecayBounds(base: real, progress: real, more: real, cost: real)
    requires cost > 0.0 && base >= 0.0 && 0.0 <= progress <= more <= cost
    ensures 0.0 <= Decay(base, more, cost) <= Decay(base, progress, cost) <= base
  {
    var f, g := progress / cost, more / cost;
    DivideMonotone(0.0, progress, cost);
    DivideMonotone(progress, more, cost);
    DivideMonotone(more, cost, cost);
    assert 0.0 / cost == 0.0 && cost / cost == 1.0;
    assert 0.0 <= 1.0 - g <= 1.0 - f <= 1.0;
    ScaleMonotone(base, 0.0, 1.0 - g);
    ScaleMonotone(base, 1.0 - g, 1.0 - f);
    ScaleMonotone(base, 1.0 - f, 1.0);
    assert Decay(base, more, cost) == base * (1.0 - g) && Decay(base, progress, cost) == base * (1.0 - f);
  }

  lemma DivideMonotone(a: real, b: real, c: real)
    requires c > 0.0 && a <= b
    ensures a / c <= b / c
  {
    assert b / c - a / c == (b - a) / c;
  }

  lemma ScaleMonotone(k: real, a: real, b: real)
    requires k >= 0.0 && a <= b
    ensures k * a <= k * b
  {
    assert k * b - k * a == k * (b - a);
  }
}
