/**
 * The turn-based battle engine and the encounter manager as one object over
 * the module-level state of the game: the party array, the current enemy, the
 * battle record, the boss flag, the encounter cooldown and the zone list.
 *
 * setTimeout callbacks are kept in `pending`, appended only after the
 * synchronous changes of the action that schedules them; FireEvent runs any
 * one of them, since their delays differ and their order is not modelled.
 */
module Battle {
  import opened Common
  import opened Rules
  import opened Roster
  import opened Zones

  datatype Phase = Idle | PlayerPhase | EnemyPhase

  /** A callback waiting in setTimeout: endBattle(victory) or enemyTurn. */
  datatype Event = EndBattleCall(victory: bool) | EnemyTurnCall

  function Removed(q: seq<Event>, k: nat): (r: seq<Event>)
    requires k < |q|
    ensures |r| == |q| - 1
    ensures forall j :: 0 <= j < k ==> r[j] == q[j]
    ensures forall j :: k <= j < |r| ==> r[j] == q[j + 1]
  {
    q[..k] + q[k + 1..]
  }

  /** A member after an enemy strike of `dmg`: hp lowered but kept at 0 or above, dread accrued. */
  function Wounded(m: Member, dmg: int, crit: bool): (r: Member)
    requires dmg >= 1
    ensures r == m.(hp := r.hp, dread := r.dread)
    ensures r.hp >= 0 && (r.hp == 0 || r.hp == m.hp - dmg)
    ensures m.hp >= dmg ==> r.hp == m.hp - dmg
    ensures m.hp < dmg ==> r.hp == 0
    ensures m.hp > 0 ==> r.hp < m.hp
    ensures r.dread == AccruedDread(m.dread, WoundDread(dmg, crit))
    ensures 0.0 <= r.dread <= DreadMax
  {
    m.(hp := MaxI(0, m.hp - dmg), dread := AccruedDread(m.dread, WoundDread(dmg, crit)))
  }

  /**
   * The heal scan over the party `s` and its living list: the first living
   * member missing the most health (a later member replaces the choice only
   * when it misses strictly more). With nobody alive there is no target.
   */
  method HealScan(s: seq<Member>, living: seq<nat>) returns (best: Option<nat>)
    requires forall i :: 0 <= i < |s| ==> WellFormed(s[i])
    requires living == AliveIndices(s)
    ensures best.None? <==> living == []
    ensures best.Some? ==> IsHealTarget(s, best.value)
  {
    best := if |living| > 0 then Some(living[0]) else None;
    var bestMissing := -1;
    ghost var pos: nat := 0;
    for k := 0 to |living|
      invariant |living| > 0 ==> pos < |living| && best == Some(living[pos])
      invariant |living| == 0 ==> best == None
      invariant k == 0 ==> pos == 0 && bestMissing == -1
      invariant k > 0 ==> pos < k && bestMissing == Missing(s[living[pos]])
      invariant forall j :: 0 <= j < k ==> Missing(s[living[j]]) <= bestMissing
      invariant forall j :: 0 <= j < pos ==> Missing(s[living[j]]) < bestMissing
    {
      var i := living[k];
      var missing := s[i].hpMax - s[i].hp;
      if missing > bestMissing {
        bestMissing := missing;
        best := Some(i);
        pos := k;
      }
    }
    if |living| > 0 {
      HealScanFindsTarget(s, living, pos);
    }
  }

  /**
   * The party after `healer` heals member t: the target's health becomes
   * min(hp + amount, hpMax) for a non-negative amount, the healer's dread
   * grows by 12 within [0, 100], and nothing else in the party moves.
   */
  function HealResult(s: seq<Member>, t: nat, healer: nat): (r: seq<Member>)
    requires t < |s| && healer < |s| && WellFormed(s[t]) && s[healer].skill.HealSkill?
    ensures |r| == |s|
    ensures (forall i :: 0 <= i < |s| ==> WellFormed(s[i])) ==> forall i :: 0 <= i < |s| ==> WellFormed(r[i])
    ensures forall i :: 0 <= i < |s| && i != t ==> r[i].hp == s[i].hp
    ensures forall i :: 0 <= i < |s| && i != healer ==> r[i].dread == s[i].dread
    ensures r[healer].dread == AccruedDread(s[healer].dread, HealDread)
    ensures s[healer].skill.healAmt >= 0 ==>
      r[t].hp == (if s[t].hp + s[healer].skill.healAmt < s[t].hpMax
                  then s[t].hp + s[healer].skill.healAmt else s[t].hpMax)
    ensures forall i :: 0 <= i < |s| ==> r[i] == s[i].(hp := r[i].hp, dread := r[i].dread)
  {
    var s1 := s[t := s[t].(hp := HealedHp(s[t].hp, s[healer].skill.healAmt, s[t].hpMax))];
    s1[healer := s1[healer].(dread := AccruedDread(s1[healer].dread, HealDread))]
  }

  class Game {
    /** Party: the three member records, updated in place. */
    const party: array<Member>
    /** zones: the encounter zones; only their `enabled` flags change. */
    const zones: array<Zone>

    var enemy: Option<Enemy>
    var active: bool
    var phase: Phase
    var actorIndex: nat
    var aliveOrder: seq<nat>
    var bossCleared: bool
    var encounterCooldown: real
    /** mode === WORLD (false while in BATTLE mode). */
    var inWorld: bool
    var pending: seq<Event>

    ghost predicate Valid()
      reads this, party
    {
      && party.Length > 0
      && (forall i :: 0 <= i < party.Length ==> WellFormed(party[i]))
      && actorIndex < party.Length
      && (forall k :: 0 <= k < |aliveOrder| ==> aliveOrder[k] < party.Length)
      && encounterCooldown >= 0.0
      && (active <==> enemy.Some?)
      && (inWorld <==> !active)
    }

    /** The game as loaded: full party, all zones enabled, no battle, no cooldown. */
    constructor ()
      ensures Valid() && fresh(party) && fresh(zones)
      ensures party[..] == InitialParty() && zones[..] == InitialZones()
      ensures enemy == None && !active && phase == Idle && actorIndex == 0 && aliveOrder == []
      ensures !bossCleared && encounterCooldown == 0.0 && inWorld && pending == []
    {
      party := new Member[3](i requires 0 <= i < 3 => InitialParty()[i]);
      zones := new Zone[4](i requires 0 <= i < 4 => InitialZones()[i]);
      enemy := None;
      active := false;
      phase := Idle;
      actorIndex := 0;
      aliveOrder := [];
      bossCleared := false;
      encounterCooldown := 0.0;
      inWorld := true;
      pending := [];
      new;
      assert party[..] == InitialParty();
      assert zones[..] == InitialZones();
    }

    // -------------------------------------------------------------------
    // Party helpers

    /** alivePartyIndices: the living members' indices in array order. */
    method AlivePartyIndices() returns (living: seq<nat>)
      ensures living == AliveIndices(party[..])
    {
      living := [];
      var i := 0;
      while i < party.Length
        invariant 0 <= i <= party.Length
        invariant living == AliveBelow(party[..], i)
      {
        if party[i].hp > 0 {
          living := living + [i];
        }
        i := i + 1;
      }
    }

    /** addDread: only member idx's gauge changes, and it stays inside [0, 100]. */
    method AddDread(idx: nat, amount: real)
      requires Valid() && idx < party.Length
      modifies party
      ensures Valid()
      ensures party[..] == old(party[..])[idx := old(party[idx]).(dread := AccruedDread(old(party[idx].dread), amount))]
    {
      party[idx] := party[idx].(dread := AccruedDread(party[idx].dread, amount));
    }

    /** consumeDreadIfFull: a full gauge is emptied and reported; otherwise nothing changes. */
    method ConsumeDreadIfFull(idx: nat) returns (spent: bool)
      requires Valid() && idx < party.Length
      modifies party
      ensures Valid()
      ensures spent <==> old(party[idx].dread) >= DreadMax
      ensures party[..] == if spent then old(party[..])[idx := old(party[idx]).(dread := 0.0)] else old(party[..])
    {
      if party[idx].dread >= DreadMax {
        party[idx] := party[idx].(dread := 0.0);
        return true;
      }
      return false;
    }

    // -------------------------------------------------------------------
    // Turn order

    /** advanceTurnToNextLiving: refresh aliveOrder and step the index modulo its length. */
    method AdvanceTurnToNextLiving()
      requires Valid()
      modifies this`aliveOrder, this`actorIndex
      ensures Valid()
      ensures aliveOrder == AliveIndices(party[..])
      ensures actorIndex == NextActor(old(actorIndex), |aliveOrder|)
      ensures aliveOrder != [] ==> actorIndex < |aliveOrder|
    {
      var living := AlivePartyIndices();
      aliveOrder := living;
      if |living| == 0 {
        return;
      }
      actorIndex := (actorIndex + 1) % |living|;
    }

    /**
     * The state part of renderActionUI: during a player turn it refreshes
     * aliveOrder and returns the member the action buttons are for,
     * aliveOrder[actorIndex % aliveOrder.length]; otherwise no one.
     */
    method RenderActionUI() returns (actor: Option<nat>)
      requires Valid()
      modifies this`aliveOrder
      ensures Valid()
      ensures !active || phase != PlayerPhase ==> aliveOrder == old(aliveOrder)
      ensures active && phase == PlayerPhase ==> aliveOrder == AliveIndices(party[..])
      ensures actor.Some? <==> active && phase == PlayerPhase && aliveOrder != []
      ensures actor.Some? ==> actor.value == aliveOrder[actorIndex % |aliveOrder|]
      ensures actor.Some? ==> actor.value < party.Length && Alive(party[actor.value])
    {
      if !active || phase != PlayerPhase {
        return None;
      }
      aliveOrder := AlivePartyIndices();
      if |aliveOrder| == 0 {
        return None;
      }
      actor := Some(aliveOrder[actorIndex % |aliveOrder|]);
    }

    /** The turn bookkeeping after a player action, given the index, phase and queue before it. */
    ghost predicate Advanced(ai0: nat, ph0: Phase, q0: seq<Event>)
      reads this, party
    {
      && aliveOrder == AliveIndices(party[..])
      && actorIndex == NextActor(ai0, |aliveOrder|)
      && phase == (if actorIndex == 0 then EnemyPhase else ph0)
      && pending == q0 + (if actorIndex == 0 then [EnemyTurnCall] else [])
    }

    /** Advance the turn; when the index wrapped to 0, hand over to the enemy and queue its turn. */
    method FinishTurn()
      requires Valid()
      modifies this`aliveOrder, this`actorIndex, this`phase, this`pending
      ensures Valid()
      ensures Advanced(old(actorIndex), old(phase), old(pending))
    {
      AdvanceTurnToNextLiving();
      ghost var living := aliveOrder;
      if actorIndex == 0 {
        phase := EnemyPhase;
        var shown := RenderActionUI();
        pending := pending + [EnemyTurnCall];
      } else {
        var shown := RenderActionUI();
      }
      assert aliveOrder == living;
    }

    /**
     * The end of a damaging player action, once the enemy's health is
     * `enemyHp`: a felled enemy queues only endBattle(true) and marks a boss
     * as cleared, leaving the turn as it was; otherwise the turn advances.
     */
    twostate predicate Settled(enemyHp: int, wasBoss: bool)
      reads this, party
    {
      && active == old(active) && inWorld == old(inWorld)
      && encounterCooldown == old(encounterCooldown)
      && if enemyHp <= 0 then
           && bossCleared == (old(bossCleared) || wasBoss)
           && actorIndex == old(actorIndex) && phase == old(phase) && aliveOrder == old(aliveOrder)
           && pending == old(pending) + [EndBattleCall(true)]
         else
           && bossCleared == old(bossCleared)
           && Advanced(old(actorIndex), old(phase), old(pending))
    }

    /** The lethal check and turn advance shared by attacks and Dread Arts. */
    method SettleStrike(e: Enemy)
      requires Valid() && enemy == Some(e)
      modifies this`bossCleared, this`pending, this`aliveOrder, this`actorIndex, this`phase
      ensures Valid()
      ensures Settled(e.hp, e.boss)
    {
      if e.hp <= 0 {
        if e.boss {
          bossCleared := true;
        }
        pending := pending + [EndBattleCall(true)];
        return;
      }
      FinishTurn();
    }

    // -------------------------------------------------------------------
    // Player actions

    /** What playerAttack(idx, mult) does with the given crit and jitter draws. */
    twostate predicate Attacked(idx: nat, mult: real, critDraw: real, jitterDraw: real)
      requires idx < party.Length && IsDraw(jitterDraw)
      reads this, party
    {
      if old(enemy).None? then unchanged(this) && party[..] == old(party[..])
      else
        var e := old(enemy).value;
        var crit := RollCrit(critDraw, CritChance);
        var dmg := StrikeDamage(old(party[idx].atk), e.def, mult, crit, PlayerCritFactor, jitterDraw);
        && enemy == Some(e.(hp := e.hp - dmg))
        && party[..] == old(party[..])[idx := old(party[idx]).(dread := AccruedDread(old(party[idx].dread), AttackDread(dmg, crit)))]
        && Settled(e.hp - dmg, e.boss)
    }

    /**
     * playerAttack: deal calcDamage (rescaled on a crit) to the enemy, whose
     * health may go below 0, grant the attacker dread, then either queue the
     * victory or advance the turn. Neither the phase nor the acting member is
     * checked: only the action buttons restrict who calls it.
     */
    method PlayerAttack(idx: nat, mult: real, critDraw: real, jitterDraw: real)
      requires Valid() && idx < party.Length && IsDraw(critDraw) && IsDraw(jitterDraw)
      modifies this, party
      ensures Valid()
      ensures Attacked(idx, mult, critDraw, jitterDraw)
    {
      if enemy.None? {
        return;
      }
      var e := enemy.value;
      var actor := party[idx];
      var crit := RollCrit(critDraw, CritChance);
      var dmg := CalcDamage(actor.atk, e.def, mult, jitterDraw);
      if crit {
        dmg := CritScale(dmg, PlayerCritFactor);
      }
      enemy := Some(e.(hp := e.hp - dmg));
      AddDread(idx, AttackDread(dmg, crit));
      SettleStrike(enemy.value);
    }

    /** What the heal branch of playerSkill does. */
    twostate predicate Healed(idx: nat)
      requires idx < party.Length
      reads this, party
    {
      if old(enemy).None? || AliveIndices(old(party[..])) == [] then unchanged(this) && party[..] == old(party[..])
      else
        && enemy == old(enemy) && active == old(active) && inWorld == old(inWorld)
        && bossCleared == old(bossCleared) && encounterCooldown == old(encounterCooldown)
        && (exists t: nat :: IsHealTarget(old(party[..]), t)
              && WellFormed(old(party[t])) && old(party[idx]).skill.HealSkill?
              && party[..] == HealResult(old(party[..]), t, idx))
        && Advanced(old(actorIndex), old(phase), old(pending))
    }

    /**
     * playerSkill: a damage skill is an attack with the skill's multiplier; a
     * heal restores the most wounded living member, grants the healer 12
     * dread, leaves the enemy alone and advances the turn. With nobody alive
     * the heal would read a missing record and fail before changing anything.
     */
    method PlayerSkill(idx: nat, critDraw: real, jitterDraw: real)
      requires Valid() && idx < party.Length && IsDraw(critDraw) && IsDraw(jitterDraw)
      modifies this, party
      ensures Valid()
      ensures old(party[idx].skill).DamageSkill? ==> Attacked(idx, old(party[idx].skill).mul, critDraw, jitterDraw)
      ensures old(party[idx].skill).HealSkill? ==> Healed(idx)
    {
      var actor := party[idx];
      if enemy.None? {
        return;
      }
      match actor.skill
      case HealSkill(_, amt) =>
        var living := AlivePartyIndices();
        var best := HealScan(party[..], living);
        if best.None? {
          return;
        }
        var t := best.value;
        ghost var before := party[..];
        party[t] := party[t].(hp := HealedHp(party[t].hp, amt, party[t].hpMax));
        AddDread(idx, HealDread);
        assert party[..] == HealResult(before, t, idx);
        AliveIndicesIgnoresDread(before[t := before[t].(hp := party[t].hp)], idx, party[idx].dread);
        FinishTurn();
      case DamageSkill(_, mul) =>
        PlayerAttack(idx, mul, critDraw, jitterDraw);
    }

    /** What playerDreadArt(idx) does with the given jitter draw. */
    twostate predicate DreadArtDone(idx: nat, jitterDraw: real)
      requires idx < party.Length && IsDraw(jitterDraw)
      reads this, party
    {
      if old(enemy).None? || old(party[idx].dread) < DreadMax then unchanged(this) && party[..] == old(party[..])
      else
        var e := old(enemy).value;
        var dmg := DreadArtDamage(old(party[idx].atk), e.def, jitterDraw);
        && enemy == Some(e.(hp := e.hp - dmg))
        && party[..] == old(party[..])[idx := old(party[idx]).(dread := 0.0)]
        && Settled(e.hp - dmg, e.boss)
    }

    /**
     * playerDreadArt: below a full gauge nothing happens; otherwise the gauge
     * is emptied, the Dread Art damage is dealt and no dread is gained.
     */
    method PlayerDreadArt(idx: nat, jitterDraw: real)
      requires Valid() && idx < party.Length && IsDraw(jitterDraw)
      modifies this, party
      ensures Valid()
      ensures DreadArtDone(idx, jitterDraw)
    {
      if enemy.None? {
        return;
      }
      var spent := ConsumeDreadIfFull(idx);
      if !spent {
        return;
      }
      var e := enemy.value;
      var dmg := DreadArtDamage(party[idx].atk, e.def, jitterDraw);
      enemy := Some(e.(hp := e.hp - dmg));
      SettleStrike(enemy.value);
    }

    // -------------------------------------------------------------------
    // Enemy turn

    /**
     * What enemyTurn does, with `q0` the queue it started from: nothing
     * outside a battle; with nobody alive only the defeat is queued;
     * otherwise the picked living member alone takes the hit, and then
     * either the defeat is queued or the round restarts at actor 0.
     */
    twostate predicate EnemyStruck(targetDraw: real, critDraw: real, jitterDraw: real, q0: seq<Event>)
      requires IsDraw(targetDraw) && IsDraw(jitterDraw)
      requires forall i :: 0 <= i < party.Length ==> old(WellFormed(party[i]))
      reads this, party
    {
      && enemy == old(enemy) && active == old(active) && inWorld == old(inWorld)
      && bossCleared == old(bossCleared) && encounterCooldown == old(encounterCooldown)
      && if !old(active) || old(enemy).None? then
           && party[..] == old(party[..]) && pending == q0
           && phase == old(phase) && actorIndex == old(actorIndex) && aliveOrder == old(aliveOrder)
         else if AliveIndices(old(party[..])) == [] then
           && party[..] == old(party[..]) && pending == q0 + [EndBattleCall(false)]
           && phase == old(phase) && actorIndex == old(actorIndex) && aliveOrder == old(aliveOrder)
         else
           var living := AliveIndices(old(party[..]));
           var t := living[PickIndex(|living|, targetDraw)];
           var e := old(enemy).value;
           var crit := RollCrit(critDraw, if e.boss then BossCritChance else CritChance);
           var dmg := StrikeDamage(e.atk, old(party[t].def), 1.0, crit, EnemyCritFactor, jitterDraw);
           && party[..] == old(party[..])[t := Wounded(old(party[t]), dmg, crit)]
           && if AnyAlive(party[..]) then
                && phase == PlayerPhase && actorIndex == 0 && aliveOrder == AliveIndices(party[..])
                && pending == q0
              else
                && phase == old(phase) && actorIndex == old(actorIndex) && aliveOrder == old(aliveOrder)
                && pending == q0 + [EndBattleCall(false)]
    }

    /** The target's side of an enemy strike: hp lowered to no less than 0, then dread accrued. */
    method TakeHit(t: nat, dmg: int, crit: bool)
      requires Valid() && t < party.Length && dmg >= 1
      modifies party
      ensures Valid()
      ensures party[..] == old(party[..])[t := Wounded(old(party[t]), dmg, crit)]
    {
      party[t] := party[t].(hp := MaxI(0, party[t].hp - dmg));
      AddDread(t, WoundDread(dmg, crit));
    }

    /** enemyTurn: one strike at a uniformly picked living member. */
    method EnemyTurn(targetDraw: real, critDraw: real, jitterDraw: real)
      requires Valid() && IsDraw(targetDraw) && IsDraw(critDraw) && IsDraw(jitterDraw)
      modifies this, party
      ensures Valid()
      ensures EnemyStruck(targetDraw, critDraw, jitterDraw, old(pending))
    {
      if !active || enemy.None? {
        return;
      }
      var living := AlivePartyIndices();
      if |living| == 0 {
        pending := pending + [EndBattleCall(false)];
        return;
      }
      var targetIdx := living[PickIndex(|living|, targetDraw)];
      var e := enemy.value;
      var target := party[targetIdx];
      var crit := RollCrit(critDraw, if e.boss then BossCritChance else CritChance);
      var dmg := CalcDamage(e.atk, target.def, 1.0, jitterDraw);
      if crit {
        dmg := CritScale(dmg, EnemyCritFactor);
      }
      assert dmg == StrikeDamage(e.atk, target.def, 1.0, crit, EnemyCritFactor, jitterDraw);
      TakeHit(targetIdx, dmg, crit);
      AfterEnemyStrike();
    }

    /** The end of enemyTurn: queue the defeat when nobody is left, else restart the round at actor 0. */
    method AfterEnemyStrike()
      requires Valid() && active
      modifies this`phase, this`actorIndex, this`aliveOrder, this`pending
      ensures Valid()
      ensures AnyAlive(party[..]) ==>
        && phase == PlayerPhase && actorIndex == 0 && aliveOrder == AliveIndices(party[..])
        && pending == old(pending)
      ensures !AnyAlive(party[..]) ==>
        && phase == old(phase) && actorIndex == old(actorIndex) && aliveOrder == old(aliveOrder)
        && pending == old(pending) + [EndBattleCall(false)]
    {
      if !AnyAlive(party[..]) {
        pending := pending + [EndBattleCall(false)];
        return;
      }
      phase := PlayerPhase;
      actorIndex := 0;
      var shown := RenderActionUI();
    }

    // -------------------------------------------------------------------
    // Sessions

    /** A battle against `id` has just begun. */
    ghost predicate Started(id: EnemyId)
      reads this, party
    {
      && enemy == Some(Template(id)) && active && !inWorld
      && phase == PlayerPhase && actorIndex == 0 && aliveOrder == AliveIndices(party[..])
    }

    /** startBattle (state part): a fresh enemy copy, player turn, actor 0. */
    method StartBattle(id: EnemyId)
      requires Valid()
      modifies this
      ensures Valid()
      ensures Started(id)
      ensures bossCleared == old(bossCleared) && encounterCooldown == old(encounterCooldown) && pending == old(pending)
    {
      enemy := Some(Template(id));
      inWorld := false;
      active := true;
      phase := PlayerPhase;
      actorIndex := 0;
      aliveOrder := AlivePartyIndices();
      var shown := RenderActionUI();
    }

    /** endBattle (state part): no battle, back to the world, cooldown 2.2; the phase is left as it was. */
    method EndBattle(victory: bool)
      requires Valid()
      modifies this`active, this`enemy, this`inWorld, this`encounterCooldown
      ensures Valid()
      ensures !active && enemy == None && inWorld && encounterCooldown == EncounterCooldown
    {
      active := false;
      enemy := None;
      inWorld := true;
      encounterCooldown := EncounterCooldown;
    }

    /** The battle fields are as they were. */
    twostate predicate BattleUnchanged()
      reads this
    {
      && enemy == old(enemy) && active == old(active) && phase == old(phase)
      && actorIndex == old(actorIndex) && aliveOrder == old(aliveOrder) && inWorld == old(inWorld)
    }

    /**
     * What checkZones does: nothing while the cooldown runs or a battle is
     * on; otherwise the first enabled zone holding the player decides, a
     * cleared boss zone ending the scan without a battle, and at most one
     * battle starts.
     */
    twostate predicate ZoneChecked(px: real, pz: real, poolDraw: real)
      requires IsDraw(poolDraw)
      reads this, party, zones
    {
      var hit := FirstHit(zones[..], px, pz);
      if encounterCooldown > 0.0 || old(active) || hit.None? || (zones[hit.value].kind == BossZone && bossCleared)
      then BattleUnchanged()
      else Started(EncounterFor(zones[hit.value], poolDraw))
    }

    /** checkZones, with the player's position and the pool draw as inputs. */
    method CheckZones(px: real, pz: real, poolDraw: real)
      requires Valid() && IsDraw(poolDraw)
      modifies this
      ensures Valid()
      ensures ZoneChecked(px, pz, poolDraw)
      ensures bossCleared == old(bossCleared) && encounterCooldown == old(encounterCooldown) && pending == old(pending)
    {
      if encounterCooldown > 0.0 || active {
        return;
      }
      var i := 0;
      while i < zones.Length
        invariant 0 <= i <= zones.Length
        invariant forall j :: 0 <= j < i ==> !Hit(zones[j], px, pz)
        invariant unchanged(this)
      {
        var zone := zones[i];
        if zone.enabled && Within(zone, px, pz) {
          assert FirstHit(zones[..], px, pz) == Some(i);
          if zone.kind == BossZone {
            if bossCleared {
              return;
            }
            StartBattle(KnotlingMatron);
            return;
          } else {
            var pool := PoolFor(zone.poolLabel);
            StartBattle(pool[PickIndex(|pool|, poolDraw)]);
            return;
          }
        }
        i := i + 1;
      }
    }

    /** zones.find(z => z.kind === "boss"). */
    method FindBossZone() returns (b: Option<nat>)
      ensures b == BossZoneIndex(zones[..])
    {
      var i := 0;
      while i < zones.Length
        invariant 0 <= i <= zones.Length
        invariant forall j :: 0 <= j < i ==> zones[j].kind != BossZone
      {
        if zones[i].kind == BossZone {
          return Some(i);
        }
        i := i + 1;
      }
      return None;
    }

    /**
     * The state part of tick: the cooldown runs down by the capped frame
     * step, a cleared boss keeps the boss zone disabled, and in world mode
     * the zones are checked.
     */
    method Tick(elapsedMs: real, px: real, pz: real, poolDraw: real)
      requires Valid() && elapsedMs >= 0.0 && IsDraw(poolDraw)
      modifies this, zones
      ensures Valid()
      ensures encounterCooldown == CoolDown(old(encounterCooldown), FrameDt(elapsedMs))
      ensures zones[..] == if old(bossCleared) then WithBossDisabled(old(zones[..])) else old(zones[..])
      ensures ZoneChecked(px, pz, poolDraw)
      ensures bossCleared == old(bossCleared) && pending == old(pending)
    {
      var dt := FrameDt(elapsedMs);
      if encounterCooldown > 0.0 {
        encounterCooldown := MaxR(0.0, encounterCooldown - dt);
      }
      if bossCleared {
        var b := FindBossZone();
        if b.Some? {
          zones[b.value] := zones[b.value].(enabled := false);
        }
      }
      if inWorld {
        CheckZones(px, pz, poolDraw);
      }
    }

    // -------------------------------------------------------------------
    // Reset

    /** resetParty: every member back to full health with an empty gauge. */
    method ResetParty()
      requires Valid()
      modifies party
      ensures Valid()
      ensures forall i :: 0 <= i < party.Length ==>
        party[i] == old(party[i]).(hp := old(party[i].hpMax), dread := 0.0)
    {
      for i := 0 to party.Length
        invariant forall j :: 0 <= j < i ==> party[j] == old(party[j]).(hp := old(party[j].hpMax), dread := 0.0)
        invariant forall j :: i <= j < party.Length ==> party[j] == old(party[j])
      {
        party[i] := party[i].(hp := party[i].hpMax, dread := 0.0);
      }
    }

    /** The zone loop of resetRun: every zone enabled again, nothing else about them changed. */
    method EnableZones()
      modifies zones
      ensures forall i :: 0 <= i < zones.Length ==> zones[i] == old(zones[i]).(enabled := true)
    {
      for i := 0 to zones.Length
        invariant forall j :: 0 <= j < i ==> zones[j] == old(zones[j]).(enabled := true)
        invariant forall j :: i <= j < zones.Length ==> zones[j] == old(zones[j])
      {
        zones[i] := zones[i].(enabled := true);
      }
    }

    /**
     * resetRun (state part): no battle, phase idle, no boss cleared, no
     * cooldown, party restored, every zone enabled. Callbacks already queued
     * are not cancelled.
     */
    method ResetRun()
      requires Valid()
      modifies this, party, zones
      ensures Valid()
      ensures enemy == None && !active && phase == Idle && actorIndex == 0 && inWorld
      ensures !bossCleared && encounterCooldown == 0.0
      ensures aliveOrder == old(aliveOrder) && pending == old(pending)
      ensures forall i :: 0 <= i < party.Length ==>
        party[i] == old(party[i]).(hp := old(party[i].hpMax), dread := 0.0)
      ensures forall i :: 0 <= i < zones.Length ==> zones[i] == old(zones[i]).(enabled := true)
    {
      bossCleared := false;
      encounterCooldown := 0.0;
      enemy := None;
      active := false;
      phase := Idle;
      actorIndex := 0;
      inWorld := true;
      ResetParty();
      EnableZones();
      var shown := RenderActionUI();
    }

    // -------------------------------------------------------------------
    // Callbacks

    /**
     * Fire the k-th queued callback: it leaves the queue, then endBattle or
     * enemyTurn runs on the current state.
     */
    method FireEvent(k: nat, targetDraw: real, critDraw: real, jitterDraw: real)
      requires Valid() && k < |pending| && IsDraw(targetDraw) && IsDraw(critDraw) && IsDraw(jitterDraw)
      modifies this, party
      ensures Valid()
      ensures old(pending[k]).EndBattleCall? ==>
        && !active && enemy == None && inWorld && encounterCooldown == EncounterCooldown
        && pending == Removed(old(pending), k) && party[..] == old(party[..]) && aliveOrder == old(aliveOrder)
        && phase == old(phase) && actorIndex == old(actorIndex) && bossCleared == old(bossCleared)
      ensures old(pending[k]).EnemyTurnCall? ==>
        EnemyStruck(targetDraw, critDraw, jitterDraw, Removed(old(pending), k))
    {
      var ev := pending[k];
      pending := Removed(pending, k);
      match ev
      case EndBattleCall(victory) =>
        EndBattle(victory);
      case EnemyTurnCall =>
        EnemyTurn(targetDraw, critDraw, jitterDraw);
    }
  }

  /** The zone list after tick has disabled the boss zone, if there is one. */
  function WithBossDisabled(zs: seq<Zone>): (r: seq<Zone>)
    ensures |r| == |zs|
    ensures forall i :: 0 <= i < |zs| ==> r[i] == zs[i].(enabled := r[i].enabled)
    ensures forall i :: 0 <= i < |zs| && zs[i].kind == EncounterZone ==> r[i] == zs[i]
    ensures BossZoneIndex(zs).Some? ==> !r[BossZoneIndex(zs).value].enabled
    ensures BossZoneIndex(zs).None? ==> r == zs
    ensures forall i :: 0 <= i < |zs| && Some(i) != BossZoneIndex(zs) ==> r[i] == zs[i]
  {
    match BossZoneIndex(zs)
    case None => zs
    case Some(k) => zs[k := zs[k].(enabled := false)]
  }

  /**
   * Once tick has disabled the boss zone it is still the first boss zone,
   * so later frames disable the same zone and change nothing more.
   */
  lemma BossZoneStaysDisabled(zs: seq<Zone>)
    ensures var r := WithBossDisabled(zs);
      && BossZoneIndex(r) == BossZoneIndex(zs)
      && WithBossDisabled(r) == r
  {
    var r := WithBossDisabled(zs);
    match BossZoneIndex(zs)
    case None =>
    case Some(k) =>
      assert r[k].kind == BossZone;
      assert forall j :: 0 <= j < k ==> r[j] == zs[j];
      assert BossZoneIndex(r) == Some(k);
  }
}
