/**
 * Encounter zones and the encounter cooldown: which zone the player stands
 * in, which enemy it sends, and how the cooldown runs down frame by frame.
 */
module Zones {
  import opened Common
  import opened Rules
  import opened Roster

  datatype ZoneKind = EncounterZone | BossZone

  /** A zone on the world plane; only `enabled` ever changes after creation. */
  datatype Zone = Zone(x: real, z: real, r: real, kind: ZoneKind, poolLabel: string, enabled: bool)

  /** The four zones addZone creates at start, all enabled. */
  function InitialZones(): (zs: seq<Zone>)
    ensures |zs| == 4
    ensures forall i :: 0 <= i < |zs| ==> zs[i].enabled && zs[i].r > 0.0
    ensures zs[3].kind == BossZone && forall i :: 0 <= i < 3 ==> zs[i].kind == EncounterZone
  {
    [ Zone(-40.0, 28.0, 4.2, EncounterZone, "easy", true),
      Zone(35.0, -18.0, 4.2, EncounterZone, "mid", true),
      Zone(15.0, 55.0, 4.2, EncounterZone, "hard", true),
      Zone(60.0, 60.0, 5.2, BossZone, "boss_knotling_matron", true) ]
  }

  /**
   * Math.hypot(px - x, pz - z) <= r. The hypotenuse is never negative, so
   * this holds exactly when r >= 0 and the squared distance is at most r * r.
   * A zone therefore only holds players within r of its centre on each axis.
   */
  predicate Within(zone: Zone, px: real, pz: real)
    ensures Within(zone, px, pz) ==>
      && zone.x - zone.r <= px <= zone.x + zone.r
      && zone.z - zone.r <= pz <= zone.z + zone.r
  {
    var dx := px - zone.x;
    var dz := pz - zone.z;
    if 0.0 <= zone.r && dx * dx + dz * dz <= zone.r * zone.r then
      InDisc(dx, dz, zone.r);
      true
    else
      false
  }

  /** A point of the disc of radius r lies in the square of half-side r. */
  lemma InDisc(dx: real, dz: real, r: real)
    requires 0.0 <= r && dx * dx + dz * dz <= r * r
    ensures -r <= dx <= r && -r <= dz <= r
  {
    SquareNonNeg(dx);
    SquareNonNeg(dz);
    SquareBound(dx, r);
    SquareBound(dz, r);
  }

  lemma SquareNonNeg(d: real)
    ensures d * d >= 0.0
  {
    if d < 0.0 {
      MulPos(-d, -d);
    }
  }

  lemma SquareBound(d: real, r: real)
    requires 0.0 <= r && d * d <= r * r
    ensures -r <= d <= r
  {
    if d > r {
      assert (d - r) * (d + r) == d * d - r * r;
      MulPos(d - r, d + r);
    } else if d < -r {
      assert (-d - r) * (-d + r) == d * d - r * r;
      MulPos(-d - r, -d + r);
    }
  }

  /** A zone that checkZones does not skip and whose radius holds the player; a disabled zone never hits. */
  predicate Hit(zone: Zone, px: real, pz: real)
    ensures !zone.enabled ==> !Hit(zone, px, pz)
    ensures Hit(zone, px, pz) ==> zone.x - zone.r <= px <= zone.x + zone.r && zone.z - zone.r <= pz <= zone.z + zone.r
  {
    zone.enabled && Within(zone, px, pz)
  }

  /** The zone checkZones stops at: the first hit in list order. */
  function FirstHit(zs: seq<Zone>, px: real, pz: real): (r: Option<nat>)
    ensures r.Some? ==> r.value < |zs| && Hit(zs[r.value], px, pz)
    ensures r.Some? ==> forall j :: 0 <= j < r.value ==> !Hit(zs[j], px, pz)
    ensures r.None? ==> forall j :: 0 <= j < |zs| ==> !Hit(zs[j], px, pz)
  {
    FirstIndex(zs, zone => Hit(zone, px, pz))
  }

  predicate IsBossZone(zone: Zone) { zone.kind == BossZone }

  /** zones.find(z => z.kind === "boss"), as an index. */
  function BossZoneIndex(zs: seq<Zone>): (r: Option<nat>)
    ensures r.Some? ==> r.value < |zs| && zs[r.value].kind == BossZone
    ensures r.Some? ==> forall j :: 0 <= j < r.value ==> zs[j].kind != BossZone
    ensures r.None? ==> forall j :: 0 <= j < |zs| ==> zs[j].kind != BossZone
  {
    FirstIndex(zs, IsBossZone)
  }

  /** resetRun puts the player at the origin, where none of the starting zones reaches. */
  lemma OriginIsQuiet()
    ensures FirstHit(InitialZones(), 0.0, 0.0) == None
  {
    var zs := InitialZones();
    forall j | 0 <= j < |zs|
      ensures !Hit(zs[j], 0.0, 0.0)
    {
    }
  }

  /** The enemy a zone sends: the boss for the boss zone, otherwise pick(pool). */
  function EncounterFor(zone: Zone, u: real): (id: EnemyId)
    requires IsDraw(u)
    ensures zone.kind == BossZone <==> id == KnotlingMatron
    ensures zone.kind == EncounterZone ==> id in PoolFor(zone.poolLabel)
  {
    if zone.kind == BossZone then KnotlingMatron
    else
      var pool := PoolFor(zone.poolLabel);
      pool[PickIndex(|pool|, u)]
  }

  // ---------------------------------------------------------------------
  // Cooldown

  /** The cooldown set by endBattle. */
  const EncounterCooldown: real := 2.2

  /** The largest frame step tick allows. */
  const MaxFrameDt: real := 0.033

  /** tick's dt: the elapsed milliseconds in seconds, capped at 0.033. */
  function FrameDt(elapsedMs: real): (dt: real)
    requires elapsedMs >= 0.0
    ensures 0.0 <= dt <= MaxFrameDt
    ensures dt == MaxFrameDt || dt == elapsedMs / 1000.0
    ensures dt <= elapsedMs / 1000.0
  {
    MinR(elapsedMs / 1000.0, MaxFrameDt)
  }

  /** One frame of cooldown: lowered by dt while positive, never below 0. */
  function CoolDown(c: real, dt: real): (r: real)
    requires c >= 0.0 && dt >= 0.0
    ensures 0.0 <= r <= c
    ensures c > 0.0 ==> r == MaxR(0.0, c - dt)
    ensures c == 0.0 ==> r == 0.0
  {
    if c > 0.0 then MaxR(0.0, c - dt) else c
  }

  /** The cooldown after a run of frames. */
  function Cooled(c: real, dts: seq<real>): (r: real)
    requires c >= 0.0
    requires forall k :: 0 <= k < |dts| ==> 0.0 <= dts[k] <= MaxFrameDt
    ensures 0.0 <= r <= c
    decreases |dts|
  {
    if dts == [] then c else Cooled(CoolDown(c, dts[0]), dts[1..])
  }

  /** No run of frames lowers the cooldown by more than 0.033 per frame. */
  lemma {:induction false} CooledLowerBound(c: real, dts: seq<real>)
    requires c >= 0.0
    requires forall k :: 0 <= k < |dts| ==> 0.0 <= dts[k] <= MaxFrameDt
    ensures Cooled(c, dts) >= c - MaxFrameDt * |dts| as real
    decreases |dts|
  {
    if dts != [] {
      var next := CoolDown(c, dts[0]);
      assert forall k :: 0 <= k < |dts[1..]| ==> 0.0 <= dts[1..][k] <= MaxFrameDt;
      CooledLowerBound(next, dts[1..]);
      assert Cooled(c, dts) == Cooled(next, dts[1..]);
      assert |dts| as real == |dts[1..]| as real + 1.0;
    }
  }

  /**
   * After a battle ends, 66 frames of any length still leave the cooldown
   * positive, so checkZones starts nothing during them.
   */
  lemma CooldownOutlasts66Frames(dts: seq<real>)
    requires |dts| <= 66
    requires forall k :: 0 <= k < |dts| ==> 0.0 <= dts[k] <= MaxFrameDt
    ensures Cooled(EncounterCooldown, dts) > 0.0
  {
    CooledLowerBound(EncounterCooldown, dts);
  }

  /** Full-length frames bring a cooldown of at most 0.033 * n to 0 within n frames. */
  lemma {:induction false} CooledToZero(c: real, dts: seq<real>)
    requires 0.0 <= c <= MaxFrameDt * |dts| as real
    requires forall k :: 0 <= k < |dts| ==> dts[k] == MaxFrameDt
    ensures Cooled(c, dts) == 0.0
    decreases |dts|
  {
    if dts != [] {
      var next := CoolDown(c, dts[0]);
      assert forall k :: 0 <= k < |dts[1..]| ==> dts[1..][k] == MaxFrameDt;
      assert |dts| as real == |dts[1..]| as real + 1.0;
      assert next <= MaxFrameDt * |dts[1..]| as real;
      CooledToZero(next, dts[1..]);
      assert Cooled(c, dts) == Cooled(next, dts[1..]);
    }
  }

  /** With full-length frames the encounter cooldown is over after 67 frames. */
  lemma CooldownLapsesAfter67Frames(dts: seq<real>)
    requires |dts| == 67
    requires forall k :: 0 <= k < |dts| ==> dts[k] == MaxFrameDt
    ensures Cooled(EncounterCooldown, dts) == 0.0
  {
    CooledToZero(EncounterCooldown, dts);
  }
}
