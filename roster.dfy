/**
 * The static game data (party, enemy templates, encounter pools) and the
 * pure questions the battle engine asks about the party: who is alive,
 * whom a heal targets, and which living member acts next.
 */
module Roster {
  import opened Common

  datatype Skill =
    | DamageSkill(skillName: string, mul: real)
    | HealSkill(skillName: string, healAmt: int)

  /** A party record; `spd` is stored but never consulted by the turn order. */
  datatype Member = Member(
    id: string, name: string,
    hpMax: int, hp: int, atk: int, def: int, spd: int,
    dread: real, skill: Skill)

  /** Health within [0, hpMax] and the dread gauge within [0, 100]. */
  predicate WellFormed(m: Member) {
    0 <= m.hp <= m.hpMax && 0.0 <= m.dread <= 100.0
  }

  /** The three members at process start (full health, empty gauge). */
  function InitialParty(): (p: seq<Member>)
    ensures |p| == 3
    ensures forall i :: 0 <= i < |p| ==> WellFormed(p[i]) && p[i].hp == p[i].hpMax > 0 && p[i].dread == 0.0
  {
    [ Member("cael", "Cael", 120, 120, 16, 8, 10, 0.0, DamageSkill("Cleave", 1.25)),
      Member("serah", "Serah Mourn", 95, 95, 14, 6, 14, 0.0, DamageSkill("Sunder", 1.15)),
      Member("iri", "Iri Voss", 105, 105, 12, 7, 9, 0.0, HealSkill("Mend", 26)) ]
  }

  datatype EnemyId = SewerGnawer | ThreadMite | LanternThief | KnotWisp | ThicketStalker | KnotlingMatron

  datatype Enemy = Enemy(id: EnemyId, name: string, hp: int, atk: int, def: int, spd: int, boss: bool)

  /** A fresh copy of the EnemyDB entry for `id`; only the Knotling Matron is a boss. */
  function Template(id: EnemyId): (e: Enemy)
    ensures e.id == id && e.hp > 0
    ensures e.boss <==> id == KnotlingMatron
  {
    match id
    case SewerGnawer => Enemy(SewerGnawer, "Sewer Gnawer", 60, 10, 4, 8, false)
    case ThreadMite => Enemy(ThreadMite, "Thread Mite", 48, 9, 3, 12, false)
    case LanternThief => Enemy(LanternThief, "Lantern Thief", 72, 12, 5, 10, false)
    case KnotWisp => Enemy(KnotWisp, "Knot Wisp", 58, 11, 4, 13, false)
    case ThicketStalker => Enemy(ThicketStalker, "Thicket Stalker", 110, 18, 8, 12, false)
    case KnotlingMatron => Enemy(KnotlingMatron, "Knotling Matron", 320, 22, 10, 9, true)
  }

  const Pools: map<string, seq<EnemyId>> := map[
    "easy" := [SewerGnawer, ThreadMite, LanternThief],
    "mid" := [KnotWisp, LanternThief, SewerGnawer],
    "hard" := [ThicketStalker, KnotWisp, LanternThief]]

  /** Pools[label] || Pools.easy: an unknown label falls back to the easy pool. */
  function PoolFor(poolLabel: string): (p: seq<EnemyId>)
    ensures |p| == 3 && KnotlingMatron !in p
    ensures poolLabel in Pools ==> p == Pools[poolLabel]
    ensures poolLabel !in Pools ==> p == Pools["easy"]
  {
    if poolLabel in Pools then Pools[poolLabel] else Pools["easy"]
  }

  // ---------------------------------------------------------------------
  // Living members

  predicate Alive(m: Member) { m.hp > 0 }

  /** anyPartyAlive: some member has hp > 0. */
  predicate AnyAlive(s: seq<Member>)
    ensures !AnyAlive(s) <==> forall i :: 0 <= i < |s| ==> s[i].hp <= 0
    ensures AnyAlive(s) ==> |s| > 0
  {
    exists i :: 0 <= i < |s| && Alive(s[i])
  }

  /** The indices below n of living members, in array order. */
  function AliveBelow(s: seq<Member>, n: nat): (r: seq<nat>)
    requires n <= |s|
    ensures |r| <= n
    ensures forall k :: 0 <= k < |r| ==> r[k] < n && Alive(s[r[k]])
    ensures forall i :: 0 <= i < n && Alive(s[i]) ==> i in r
    ensures forall k, l :: 0 <= k < l < |r| ==> r[k] < r[l]
  {
    if n == 0 then []
    else AliveBelow(s, n - 1) + (if Alive(s[n - 1]) then [n - 1] else [])
  }

  /** alivePartyIndices: every living index, each once, in increasing order. */
  function AliveIndices(s: seq<Member>): (r: seq<nat>)
    ensures |r| <= |s|
    ensures forall k :: 0 <= k < |r| ==> r[k] < |s| && Alive(s[r[k]])
    ensures forall i :: 0 <= i < |s| && Alive(s[i]) ==> i in r
    ensures forall k, l :: 0 <= k < l < |r| ==> r[k] < r[l]
  {
    AliveBelow(s, |s|)
  }

  /** Some member is alive exactly when the living list is non-empty. */
  lemma AnyAliveIffLiving(s: seq<Member>)
    ensures AnyAlive(s) <==> |AliveIndices(s)| > 0
  {
    var r := AliveIndices(s);
    if AnyAlive(s) {
      var i :| 0 <= i < |s| && Alive(s[i]);
      assert i in r;
    }
    if |r| > 0 {
      assert Alive(s[r[0]]);
    }
  }

  /** Only health decides who is alive: a dread change keeps the living list. */
  lemma AliveIndicesIgnoresDread(s: seq<Member>, i: nat, d: real)
    requires i < |s|
    ensures AliveIndices(s[i := s[i].(dread := d)]) == AliveIndices(s)
  {
    var t := s[i := s[i].(dread := d)];
    forall n | 0 <= n <= |s|
      ensures AliveBelow(t, n) == AliveBelow(s, n)
    {
      AliveBelowIgnoresDread(s, t, n);
    }
  }

  lemma {:induction false} AliveBelowIgnoresDread(s: seq<Member>, t: seq<Member>, n: nat)
    requires |s| == |t| && n <= |s|
    requires forall j :: 0 <= j < |s| ==> t[j].hp == s[j].hp
    ensures AliveBelow(t, n) == AliveBelow(s, n)
  {
    if n > 0 {
      AliveBelowIgnoresDread(s, t, n - 1);
    }
  }

  // ---------------------------------------------------------------------
  // Heal target

  function Missing(m: Member): int { m.hpMax - m.hp }

  /**
   * The member the heal skill restores: alive, missing at least as much health
   * as every living member, and strictly more than every living member before
   * it (the scan only replaces its choice on a strictly larger value).
   */
  predicate IsHealTarget(s: seq<Member>, t: nat) {
    && t < |s| && Alive(s[t])
    && (forall j :: 0 <= j < |s| && Alive(s[j]) ==> Missing(s[j]) <= Missing(s[t]))
    && (forall j :: 0 <= j < t && Alive(s[j]) ==> Missing(s[j]) < Missing(s[t]))
  }

  /**
   * A scan over the living list that ends on position `pos`, missing at least
   * as much as every entry and strictly more than every entry before it,
   * has found the heal target.
   */
  lemma HealScanFindsTarget(s: seq<Member>, living: seq<nat>, pos: nat)
    requires living == AliveIndices(s) && pos < |living|
    requires forall j :: 0 <= j < |living| ==> Missing(s[living[j]]) <= Missing(s[living[pos]])
    requires forall j :: 0 <= j < pos ==> Missing(s[living[j]]) < Missing(s[living[pos]])
    ensures IsHealTarget(s, living[pos])
  {
    var t := living[pos];
    forall j | 0 <= j < |s| && Alive(s[j])
      ensures Missing(s[j]) <= Missing(s[t])
    {
      assert j in living;
    }
    forall j | 0 <= j < t && Alive(s[j])
      ensures Missing(s[j]) < Missing(s[t])
    {
      assert j in living;
      var q :| 0 <= q < |living| && living[q] == j;
      assert q < pos;
    }
  }

  /** At most one member is the heal target. */
  lemma HealTargetUnique(s: seq<Member>, t1: nat, t2: nat)
    requires IsHealTarget(s, t1) && IsHealTarget(s, t2)
    ensures t1 == t2
  {
  }

  /** With health 40/120, 95/95 and 10/105, the heal goes to the third member. */
  lemma HealTargetExample()
    ensures IsHealTarget([
      Member("a", "A", 120, 40, 1, 1, 1, 0.0, DamageSkill("x", 1.0)),
      Member("b", "B", 95, 95, 1, 1, 1, 0.0, DamageSkill("y", 1.0)),
      Member("c", "C", 105, 10, 1, 1, 1, 0.0, HealSkill("z", 26))], 2)
  {
  }

  /** Health after a heal of `amt`: the utility clamp(hp + amt, 0, hpMax), applied to integer health. */
  function HealedHp(hp: int, amt: int, hpMax: int): (r: int)
    requires 0 <= hp <= hpMax
    ensures 0 <= r <= hpMax
    ensures amt >= 0 ==> r >= hp && (r == hpMax || r == hp + amt)
    ensures 0 <= hp + amt <= hpMax ==> r == hp + amt
    ensures hp + amt >= hpMax ==> r == hpMax
  {
    if hp + amt < 0 then 0 else if hp + amt > hpMax then hpMax else hp + amt
  }

  // ---------------------------------------------------------------------
  // Turn order

  /** advanceTurnToNextLiving on the index: (i + 1) mod |living|, unchanged when nobody lives. */
  function NextActor(i: nat, living: nat): (r: nat)
    ensures living > 0 ==> r < living
    ensures living == 0 ==> r == i
  {
    if living == 0 then i else (i + 1) % living
  }

  /** The actor index after k advances from 0 with a fixed number of living members. */
  function ActorAfter(k: nat, living: nat): nat
  {
    if k == 0 then 0 else NextActor(ActorAfter(k - 1, living), living)
  }

  /** Before the index wraps, the k-th advance from 0 names the k-th living member. */
  lemma {:induction false} ActorAfterBelow(k: nat, living: nat)
    requires k < living
    ensures ActorAfter(k, living) == k
  {
    if k > 0 {
      ActorAfterBelow(k - 1, living);
      ModBelow(k, living);
      assert ActorAfter(k, living) == NextActor(k - 1, living);
    }
  }

  lemma ModBelow(x: int, n: int)
    requires 0 <= x < n
    ensures x % n == x
  {
  }

  lemma ModSelf(n: int)
    requires 0 < n
    ensures n % n == 0
  {
  }

  /**
   * A player round lasts exactly one action per living member: starting from
   * actor 0, the index comes back to 0 (which hands the turn to the enemy)
   * after `living` actions and not before.
   */
  lemma RoundLength(k: nat, living: nat)
    requires 0 < k <= living
    ensures ActorAfter(k, living) == 0 <==> k == living
  {
    ActorAfterBelow(k - 1, living);
    assert ActorAfter(k, living) == NextActor(k - 1, living);
    if k == living {
      ModSelf(living);
    } else {
      ModBelow(k, living);
    }
  }
}
