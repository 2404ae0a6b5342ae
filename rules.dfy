/**
 * Damage and dread arithmetic of the battle engine. Every call to Math.random()
 * is taken as a parameter `u` with 0 <= u < 1, and the source's own formulas
 * are applied to it: rand(a, b) = a + u * (b - a), pick(arr) = arr[floor(u * n)].
 * Numbers are mathematical reals; IEEE-754 rounding is not modelled.
 */
module Rules {
  import opened Common

  /** Probability thresholds of a critical hit (Math.random() < threshold). */
  const CritChance: real := 0.10
  const BossCritChance: real := 0.06

  /** Critical rescaling for player strikes and for enemy strikes. */
  const PlayerCritFactor: real := 1.9
  const EnemyCritFactor: real := 1.7

  /** Flat dread bonuses on a critical hit, and the dread a heal grants. */
  const PlayerCritDread: real := 10.0
  const EnemyCritDread: real := 6.0
  const HealDread: real := 12.0

  /** The gauge bounds. */
  const DreadMax: real := 100.0

  predicate IsDraw(u: real) { 0.0 <= u < 1.0 }

  lemma MulNonNeg(x: real, y: real)
    requires x >= 0.0 && y >= 0.0
    ensures x * y >= 0.0
  {
  }

  lemma MulPos(x: real, y: real)
    requires x > 0.0 && y > 0.0
    ensures x * y > 0.0
  {
  }

  /** rand(a, b): a uniform draw u stretched over [a, b). */
  function Rand(a: real, b: real, u: real): (r: real)
    requires IsDraw(u) && a <= b
    ensures a <= r <= b
    ensures a < b ==> r < b
  {
    MulNonNeg(u, b - a);
    MulNonNeg(1.0 - u, b - a);
    if a < b then MulPos(1.0 - u, b - a); a + u * (b - a) else a + u * (b - a)
  }

  /** pick(arr): the index floor(u * n) of an array of n elements. */
  function PickIndex(n: nat, u: real): (i: nat)
    requires IsDraw(u) && n > 0
    ensures i < n
  {
    PickIndexInRange(n, u);
    (u * n as real).Floor
  }

  lemma PickIndexInRange(n: nat, u: real)
    requires IsDraw(u) && n > 0
    ensures 0 <= (u * n as real).Floor < n
  {
    assert 0.0 <= u * n as real;
    assert u * n as real < n as real by {
      assert (1.0 - u) * n as real > 0.0;
    }
  }

  /** rollCrit(), and the boss variant used by the enemy turn. */
  predicate RollCrit(u: real, threshold: real)
    ensures IsDraw(u) && threshold <= 0.0 ==> !RollCrit(u, threshold)
    ensures IsDraw(u) && 1.0 <= threshold ==> RollCrit(u, threshold)
  {
    u < threshold
  }

  /** Every draw that makes a boss crit also makes an ordinary crit, and draws of 0.10 or more make neither. */
  lemma CritThresholds(u: real)
    requires IsDraw(u)
    ensures RollCrit(u, BossCritChance) ==> RollCrit(u, CritChance)
    ensures u >= CritChance ==> !RollCrit(u, CritChance) && !RollCrit(u, BossCritChance)
  {
  }

  /**
   * calcDamage(atk, def, mult): floor((atk - def) * mult + rand(-2, 2)),
   * raised to at least 1. With the jitter strictly below 2 the result lies
   * strictly above base - 3 and (unless it is the floor 1) strictly below base + 2.
   */
  function CalcDamage(atk: int, def: int, mult: real, u: real): (d: int)
    requires IsDraw(u)
    ensures d >= 1
    ensures d as real > (atk - def) as real * mult - 3.0
    ensures d == 1 || d as real < (atk - def) as real * mult + 2.0
  {
    MaxI(1, ((atk - def) as real * mult + Rand(-2.0, 2.0, u)).Floor)
  }

  /** Math.floor(d * factor) for a critical hit: never lowers a hit of at least 1. */
  function CritScale(d: int, factor: real): (r: int)
    requires d >= 1 && factor >= 1.0
    ensures d <= r
    ensures r as real <= d as real * factor < r as real + 1.0
  {
    MulNonNeg(d as real, factor - 1.0);
    (d as real * factor).Floor
  }

  /** A strike: calcDamage, then the critical rescaling when the crit roll succeeded. */
  function StrikeDamage(atk: int, def: int, mult: real, crit: bool, factor: real, u: real): (d: int)
    requires IsDraw(u) && factor >= 1.0
    ensures d >= 1
    ensures !crit ==> d == CalcDamage(atk, def, mult, u)
    ensures crit ==> d >= CalcDamage(atk, def, mult, u)
  {
    var base := CalcDamage(atk, def, mult, u);
    if crit then CritScale(base, factor) else base
  }

  /** Dread Art damage: max(1, floor(atk * 2.1 - def + rand(0, 6))). */
  function DreadArtDamage(atk: int, def: int, u: real): (d: int)
    requires IsDraw(u)
    ensures d >= 1
    ensures d as real > atk as real * 2.1 - def as real - 1.0
    ensures d == 1 || d as real < atk as real * 2.1 - def as real + 6.0
  {
    MaxI(1, (atk as real * 2.1 - def as real + Rand(0.0, 6.0, u)).Floor)
  }

  /** Dread a party member gains for dealing `dmg` (dmg * 0.35, +10 on a crit). */
  function AttackDread(dmg: int, crit: bool): (g: real)
    requires dmg >= 1
    ensures 0.35 <= dmg as real * 0.35 <= g <= dmg as real * 0.35 + PlayerCritDread
    ensures !crit ==> g == dmg as real * 0.35
  {
    dmg as real * 0.35 + (if crit then PlayerCritDread else 0.0)
  }

  /** Dread a party member gains for taking `dmg` (dmg * 0.45, +6 on a crit). */
  function WoundDread(dmg: int, crit: bool): (g: real)
    requires dmg >= 1
    ensures 0.45 <= dmg as real * 0.45 <= g <= dmg as real * 0.45 + EnemyCritDread
    ensures !crit ==> g == dmg as real * 0.45
  {
    dmg as real * 0.45 + (if crit then EnemyCritDread else 0.0)
  }

  /** A dread gauge after adding `amount` (addDread): always inside [0, 100]. */
  function AccruedDread(dread: real, amount: real): (r: real)
    ensures 0.0 <= r <= DreadMax
    ensures 0.0 <= dread + amount <= DreadMax ==> r == dread + amount
    ensures dread + amount > DreadMax ==> r == DreadMax
    ensures dread + amount < 0.0 ==> r == 0.0
  {
    Clamp(dread + amount, 0.0, DreadMax)
  }

  /** A plain attack of ATK 16 on DEF 4 without a crit deals 10 to 13. */
  lemma PlainHitScenario(u: real)
    requires IsDraw(u)
    ensures 10 <= StrikeDamage(16, 4, 1.0, false, PlayerCritFactor, u) <= 13
  {
  }

  /** A Dread Art of ATK 16 on DEF 4 deals 29 to 35. */
  lemma DreadArtScenario(u: real)
    requires IsDraw(u)
    ensures 29 <= DreadArtDamage(16, 4, u) <= 35
  {
  }

  /**
   * A positive accrual never lowers the gauge, and enough accruals fill it:
   * from any gauge, gaining at least `step` > 0 at a time, ceil(100 / step)
   * accruals reach the full gauge.
   */
  function AccrueAll(dread: real, gains: seq<real>): (r: real)
    requires 0.0 <= dread <= DreadMax
    ensures 0.0 <= r <= DreadMax
    decreases |gains|
  {
    if gains == [] then dread else AccrueAll(AccruedDread(dread, gains[0]), gains[1..])
  }

  /** The least gauge reached after n accruals of at least `step`: min(100, dread + step * n). */
  function FillBound(dread: real, step: real, n: nat): real {
    MinR(DreadMax, dread + step * n as real)
  }

  lemma {:induction false} AccrueAllFills(dread: real, gains: seq<real>, step: real)
    requires 0.0 <= dread <= DreadMax && step > 0.0
    requires forall k :: 0 <= k < |gains| ==> gains[k] >= step
    ensures AccrueAll(dread, gains) >= FillBound(dread, step, |gains|)
    decreases |gains|
  {
    if gains == [] {
      FillStart(dread, step);
    } else {
      var next := AccruedDread(dread, gains[0]);
      var rest := gains[1..];
      assert forall k :: 0 <= k < |rest| ==> rest[k] >= step;
      AccrueAllFills(next, rest, step);
      assert AccrueAll(dread, gains) == AccrueAll(next, rest);
      FillStep(dread, gains[0], step, |rest|);
    }
  }

  lemma FillStart(dread: real, step: real)
    ensures FillBound(dread, step, 0) <= dread
  {
  }

  /** One accrual of at least `step` followed by n more reaches at least the bound for n + 1. */
  lemma FillStep(dread: real, gain: real, step: real, n: nat)
    requires 0.0 <= dread <= DreadMax && step > 0.0 && gain >= step
    ensures FillBound(AccruedDread(dread, gain), step, n) >= FillBound(dread, step, n + 1)
  {
    MulNonNeg(step, n as real);
    assert step * (n + 1) as real == step * n as real + step;
  }
}
