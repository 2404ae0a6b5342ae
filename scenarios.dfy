/**
 * Clients of the battle engine that use only the contracts of its methods.
 */
module Scenarios {
  import opened Common
  import opened Rules
  import opened Roster
  import opened Battle

  /**
   * A fresh game meets a Sewer Gnawer. Three plain attacks, none of them a
   * crit, keep the turn with the party for exactly three actions, in array
   * order, and the third hands the turn to the enemy and queues its turn.
   * (Three crits can fell the Gnawer, and then only the victory is queued.)
   */
  method TurnOrderScenario(j1: real, j2: real, j3: real) returns (ph: Phase, ai: nat, q: seq<Event>, hpLeft: int)
    requires IsDraw(j1) && IsDraw(j2) && IsDraw(j3)
    ensures ph == EnemyPhase && ai == 0 && q == [EnemyTurnCall]
    ensures 60 - 13 - 11 - 9 <= hpLeft < 60
  {
    var g := GnawerEncounter();
    PlainAttack(g, 0, j1);
    assert g.enemy.value.hp >= 47 && g.phase == PlayerPhase && g.actorIndex == 1 && g.pending == [];
    PlainAttack(g, 1, j2);
    assert g.enemy.value.hp >= 36 && g.phase == PlayerPhase && g.actorIndex == 2 && g.pending == [];
    PlainAttack(g, 2, j3);
    ph, ai, q, hpLeft := g.phase, g.actorIndex, g.pending, g.enemy.value.hp;
  }

  /**
   * A fresh game meets a Sewer Gnawer: the first member is offered the
   * turn, with all three alive and nothing queued.
   */
  method GnawerEncounter() returns (g: Game)
    ensures fresh(g) && fresh(g.party) && g.Valid() && g.party.Length == 3
    ensures AliveIndices(g.party[..]) == [0, 1, 2]
    ensures g.party[0].atk == 16 && g.party[1].atk == 14 && g.party[2].atk == 12
    ensures g.enemy == Some(Template(SewerGnawer)) && g.enemy.value.hp == 60 && g.enemy.value.def == 4
    ensures g.phase == PlayerPhase && g.actorIndex == 0 && g.pending == []
  {
    g := new Game();
    assert AliveIndices(g.party[..]) == [0, 1, 2];
    g.StartBattle(SewerGnawer);
    var actor := g.RenderActionUI();
    assert actor == Some(0);
  }

  /**
   * One plain attack without a crit by the member at position k of a
   * three-member round against an enemy it cannot fell: the enemy loses at
   * most atk - def + 1, the living list stays [0, 1, 2], and the turn passes
   * to member k + 1, or to the enemy after the last member.
   */
  method PlainAttack(g: Game, k: nat, j: real)
    requires g.Valid() && IsDraw(j) && k < 3 && g.party.Length == 3
    requires AliveIndices(g.party[..]) == [0, 1, 2]
    requires g.enemy.Some? && g.actorIndex == k && g.phase == PlayerPhase
    requires g.enemy.value.def <= g.party[k].atk < g.enemy.value.hp + g.enemy.value.def - 1
    modifies g, g.party
    ensures g.Valid() && g.party.Length == 3
    ensures AliveIndices(g.party[..]) == [0, 1, 2]
    ensures forall i :: 0 <= i < 3 ==> g.party[i].atk == old(g.party[i].atk)
    ensures g.enemy.Some? && g.enemy.value.def == old(g.enemy.value.def)
    ensures old(g.enemy.value.hp) - (g.party[k].atk - g.enemy.value.def + 1) <= g.enemy.value.hp < old(g.enemy.value.hp)
    ensures g.actorIndex == (k + 1) % 3
    ensures g.phase == (if k == 2 then EnemyPhase else PlayerPhase)
    ensures g.pending == old(g.pending) + (if k == 2 then [EnemyTurnCall] else [])
  {
    ghost var before := g.party[..];
    ghost var e := g.enemy.value;
    g.PlayerAttack(k, 1.0, 0.5, j);
    ghost var dmg := StrikeDamage(before[k].atk, e.def, 1.0, false, PlayerCritFactor, j);
    assert (before[k].atk - e.def) as real * 1.0 == (before[k].atk - e.def) as real;
    assert dmg <= before[k].atk - e.def + 1;
    assert g.enemy == Some(e.(hp := e.hp - dmg));
    assert g.party[..] == before[k := before[k].(dread := g.party[k].dread)];
    AliveIndicesIgnoresDread(before, k, g.party[k].dread);
  }

  /**
   * endBattle does not restore the party, so a battle entered while every
   * member is down offers no actor and queues no callback: nothing can end it
   * except resetRun.
   */
  method DownedPartyScenario(g: Game, id: EnemyId) returns (actor: Option<nat>)
    requires g.Valid() && !AnyAlive(g.party[..])
    modifies g
    ensures actor == None && g.active && g.phase == PlayerPhase && g.pending == old(g.pending)
  {
    AnyAliveIffLiving(g.party[..]);
    g.StartBattle(id);
    actor := g.RenderActionUI();
  }
}
