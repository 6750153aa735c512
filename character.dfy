/**
 * A combatant: its design record, its HP and SP (every write clamped), and
 * its list of active statuses with their end-of-turn tick. The game's
 * OnHPChanged, OnSPChanged and OnDied events are modelled as counters of
 * how often each fired; their subscribers are presentation code.
 */
module Character {
  import opened GameData
  import opened Rounding
  import opened DamageCalculator
  import opened Inventory

  /** The absolute SP cap of the system. */
  const SP_CAP: int := 9

  datatype UnitType = Player | Enemy

  /** A fresh instance of a status: at least one turn long. */
  function NewInstance(so: StatusEffectDefinition): (s: ActiveStatusEffect)
    ensures s.effect == so && s.remainingTurns >= 1
    ensures so.durationTurns >= 1 ==> s.remainingTurns == so.durationTurns
  {
    ActiveStatusEffect(so, Max(1, so.durationTurns))
  }

  /** Every status still present has at least one turn left. */
  ghost predicate StatusesLive(s: seq<ActiveStatusEffect>)
  {
    forall i :: 0 <= i < |s| ==> s[i].remainingTurns >= 1
  }

  // ---------------------------------------------------------------------
  // The end-of-turn tick, as functions of the status list
  // ---------------------------------------------------------------------

  /** One status after the tick: one turn fewer, or gone when that leaves none. */
  function TickOne(s: ActiveStatusEffect): seq<ActiveStatusEffect>
  {
    if s.remainingTurns - 1 <= 0 then [] else [s.(remainingTurns := s.remainingTurns - 1)]
  }

  /** The status list after the tick. */
  function Ticked(s: seq<ActiveStatusEffect>): seq<ActiveStatusEffect>
  {
    if s == [] then [] else TickOne(s[0]) + Ticked(s[1..])
  }

  /** The tick works status by status: the survivors of a prefix come before those of the rest. */
  lemma {:induction false} TickedAppend(a: seq<ActiveStatusEffect>, b: seq<ActiveStatusEffect>)
    ensures Ticked(a + b) == Ticked(a) + Ticked(b)
  {
    if a == [] {
      assert a + b == b;
    } else {
      assert (a + b)[1..] == a[1..] + b;
      TickedAppend(a[1..], b);
    }
  }

  /**
   * The list never grows; a status survives exactly when it had more than
   * one turn left, and then with exactly one turn fewer; every survivor has
   * a turn left.
   */
  lemma TickedSurvivors(s: seq<ActiveStatusEffect>)
    ensures |Ticked(s)| <= |s|
    ensures StatusesLive(Ticked(s))
    ensures forall k :: 0 <= k < |s| && s[k].remainingTurns > 1 ==>
              s[k].(remainingTurns := s[k].remainingTurns - 1) in Ticked(s)
    ensures forall x :: x in Ticked(s) ==>
              exists k :: 0 <= k < |s| && s[k].remainingTurns > 1 && x == s[k].(remainingTurns := s[k].remainingTurns - 1)
  {
    TickedShrinks(s);
    TickedKeepsSurvivors(s);
    TickedOnlySurvivors(s);
  }

  /** The tick never lengthens the list, and what it leaves has a turn left. */
  lemma {:induction false} TickedShrinks(s: seq<ActiveStatusEffect>)
    ensures |Ticked(s)| <= |s|
    ensures StatusesLive(Ticked(s))
  {
    if s != [] {
      TickedShrinks(s[1..]);
    }
  }

  /** A status with more than one turn left survives the tick, one turn shorter. */
  lemma {:induction false} TickedKeepsSurvivors(s: seq<ActiveStatusEffect>)
    ensures forall k :: 0 <= k < |s| && s[k].remainingTurns > 1 ==>
              s[k].(remainingTurns := s[k].remainingTurns - 1) in Ticked(s)
  {
    if s != [] {
      TickedKeepsSurvivors(s[1..]);
      forall k | 1 <= k < |s| && s[k].remainingTurns > 1
        ensures s[k].(remainingTurns := s[k].remainingTurns - 1) in Ticked(s)
      {
        assert s[1..][k - 1] == s[k];
      }
    }
  }

  /** Every status after the tick is a survivor of the list, one turn shorter. */
  lemma {:induction false} TickedOnlySurvivors(s: seq<ActiveStatusEffect>)
    ensures forall x :: x in Ticked(s) ==>
              exists k :: 0 <= k < |s| && s[k].remainingTurns > 1 && x == s[k].(remainingTurns := s[k].remainingTurns - 1)
  {
    if s != [] {
      TickedOnlySurvivors(s[1..]);
      forall x | x in Ticked(s)
        ensures exists k :: 0 <= k < |s| && s[k].remainingTurns > 1 && x == s[k].(remainingTurns := s[k].remainingTurns - 1)
      {
        if x in Ticked(s[1..]) {
          var k :| 0 <= k < |s[1..]| && s[1..][k].remainingTurns > 1 && x == s[1..][k].(remainingTurns := s[1..][k].remainingTurns - 1);
          assert s[k + 1] == s[1..][k];
        } else {
          assert x in TickOne(s[0]);
        }
      }
    }
  }

  /**
   * One step of the in-place tick, from the back: with the statuses after
   * index i already ticked, ticking the one at i (removing it, or storing
   * it one turn shorter) extends the ticked suffix by one.
   */
  lemma TickAt(s0: seq<ActiveStatusEffect>, i: nat, cur: seq<ActiveStatusEffect>)
    requires i < |s0| && cur == s0[..i + 1] + Ticked(s0[i + 1..])
    ensures var x := cur[i].(remainingTurns := cur[i].remainingTurns - 1);
            (if x.remainingTurns <= 0 then cur[..i] + cur[i + 1..] else cur[i := x]) == s0[..i] + Ticked(s0[i..])
  {
    assert s0[i..][1..] == s0[i + 1..];
    assert s0[..i + 1] == s0[..i] + [s0[i]];
  }

  /** A status whose last turn has come is removed by the tick. */
  lemma LastTurnExpires(x: ActiveStatusEffect)
    requires x.remainingTurns <= 1
    ensures Ticked([x]) == []
  {
    assert [x][1..] == [];
  }

  /** True when this status deals damage over time. */
  predicate IsDot(s: ActiveStatusEffect)
  {
    s.effect.isDOT && s.effect.dotPercentOfMaxHP > 0
  }

  /** One status's damage-over-time step: a living unit loses the DOT amount, clamped. */
  function DotStep(hp: int, s: ActiveStatusEffect, maxHP: int): int
  {
    if IsDot(s) && hp > 0 then Clamp(hp - DotPercent(Some(maxHP), s.effect.dotPercentOfMaxHP), 0, maxHP) else hp
  }

  /** HP after the DOT steps of a status list, taken last status first. */
  function DotsApplied(hp: int, s: seq<ActiveStatusEffect>, maxHP: int): int
  {
    if s == [] then hp else DotStep(DotsApplied(hp, s[1..], maxHP), s[0], maxHP)
  }

  /** How many of the DOT steps of a status list change HP, i.e. how often OnHPChanged fires during them. */
  function DotHPChanges(hp: int, s: seq<ActiveStatusEffect>, maxHP: int): (r: nat)
    ensures r <= |s|
  {
    if s == [] then 0
    else
      var h := DotsApplied(hp, s[1..], maxHP);
      DotHPChanges(hp, s[1..], maxHP) + (if DotStep(h, s[0], maxHP) != h then 1 else 0)
  }

  /**
   * For HP in range, the DOT steps never raise HP, so OnHPChanged fires
   * during them exactly when the tick leaves HP lower than it was.
   */
  lemma {:induction false} DotHPChangesZero(hp: int, s: seq<ActiveStatusEffect>, maxHP: int)
    requires 0 <= hp <= maxHP
    ensures 0 <= DotsApplied(hp, s, maxHP) <= hp
    ensures DotHPChanges(hp, s, maxHP) == 0 <==> DotsApplied(hp, s, maxHP) == hp
  {
    if s != [] {
      DotHPChangesZero(hp, s[1..], maxHP);
    }
  }

  /** The total DOT damage of a status list: every DOT status counts, whatever its remaining turns. */
  function DotTotal(s: seq<ActiveStatusEffect>, maxHP: int): (r: int)
    ensures r >= 0
  {
    if s == [] then 0
    else (if IsDot(s[0]) then DotPercent(Some(maxHP), s[0].effect.dotPercentOfMaxHP) else 0) + DotTotal(s[1..], maxHP)
  }

  /**
   * The DOT steps together take the total DOT damage off a unit whose HP is
   * in range, floored at 0: the order of the steps and the liveness checks
   * between them do not change the outcome.
   */
  lemma {:induction false} DotsAppliedTotal(hp: int, s: seq<ActiveStatusEffect>, maxHP: int)
    requires 0 <= hp <= maxHP
    ensures DotsApplied(hp, s, maxHP) == Max(0, hp - DotTotal(s, maxHP))
  {
    if s != [] {
      DotsAppliedTotal(hp, s[1..], maxHP);
    }
  }

  /** A DOT status on its final turn still deals its damage on the tick that removes it. */
  lemma DotOnFinalTick(hp: int, x: ActiveStatusEffect, maxHP: int)
    requires 0 < hp <= maxHP && IsDot(x) && x.remainingTurns == 1
    ensures Ticked([x]) == []
    ensures DotsApplied(hp, [x], maxHP) == Max(0, hp - DotPercent(Some(maxHP), x.effect.dotPercentOfMaxHP))
    ensures DotsApplied(hp, [x], maxHP) < hp
  {
    LastTurnExpires(x);
    assert [x][1..] == [];
  }

  /** A combatant's battle state as a value. */
  datatype UnitState = UnitState(
    name: string, maxHP: int, currentHP: int, maxSP: int, currentSP: int,
    statuses: seq<ActiveStatusEffect>, diedEvents: nat)

  /** 1 when a change of HP from before to after is a death, else 0. */
  function Death(before: int, after: int): nat
  {
    if before > 0 && after == 0 then 1 else 0
  }

  /** The state after HP moved to hp, with OnDied counted if that move is a death. */
  function WithHP(s: UnitState, hp: int): UnitState
  {
    s.(currentHP := hp, diedEvents := s.diedEvents + Death(s.currentHP, hp))
  }

  /** The state after storing an already clamped HP v: unchanged when v is the current HP; OnDied counts a change to 0. */
  function SetHPState(s: UnitState, v: int): UnitState
  {
    if v == s.currentHP then s else s.(currentHP := v, diedEvents := s.diedEvents + (if v == 0 then 1 else 0))
  }

  /** The state after `hits` successive SetHP(currentHP + delta) calls: only HP and the death count move. */
  function AfterHits(s: UnitState, hits: nat, delta: int): (r: UnitState)
    ensures r == s.(currentHP := r.currentHP, diedEvents := r.diedEvents)
  {
    if hits == 0 then s
    else
      var p := AfterHits(s, hits - 1, delta);
      SetHPState(p, Clamp(p.currentHP + delta, 0, p.maxHP))
  }

  /**
   * Repeated hits of the same size on a unit whose HP is in range add up:
   * k hits of delta leave HP at clamp(HP + k * delta), and OnDied fires
   * at most once, exactly when HP goes from positive to 0.
   */
  lemma {:induction false} AfterHitsClosedForm(s: UnitState, hits: nat, delta: int)
    requires 0 <= s.currentHP <= s.maxHP
    ensures AfterHits(s, hits, delta) == WithHP(s, Clamp(s.currentHP + hits * delta, 0, s.maxHP))
  {
    if hits > 0 {
      var k := hits - 1;
      AfterHitsClosedForm(s, k, delta);
      var x, m := s.currentHP, s.maxHP;
      var h1 := Clamp(x + k * delta, 0, m);
      ClampRepeat(x, k, delta, m);
      var h2 := Clamp(x + hits * delta, 0, m);
      if delta >= 0 {
        MulNonNeg(k, delta);
        assert x <= h1 <= h2;
      } else {
        MulNonPos(k, delta);
        assert x >= h1 >= h2;
      }
      DeathSteps(x, h1, h2);
    }
  }

  /**
   * Applying the same clamped HP change k times and then once more is
   * applying it k + 1 times: HP moves one way and stops at a bound.
   */
  lemma ClampRepeat(x: int, k: nat, h: int, m: int)
    requires 0 <= x <= m
    ensures Clamp(Clamp(x + k * h, 0, m) + h, 0, m) == Clamp(x + (k + 1) * h, 0, m)
  {
    assert (k + 1) * h == k * h + h;
    if h >= 0 {
      assert x + k * h >= 0 by { MulNonNeg(k, h); }
    } else {
      assert x + k * h <= m by { MulNonPos(k, h); }
    }
  }

  lemma MulNonNeg(k: nat, h: int)
    requires h >= 0
    ensures k * h >= 0
  {
  }

  lemma MulNonPos(k: nat, h: int)
    requires h <= 0
    ensures k * h <= 0
  {
  }

  /**
   * Along HP values that move one way and stay non-negative, OnDied fires
   * in at most one step: the deaths of two consecutive steps add up to the
   * death of the whole move. The second step is a SetHP, which fires only
   * on a change.
   */
  lemma DeathSteps(x: int, h1: int, h2: int)
    requires 0 <= h2 && 0 <= h1 && 0 <= x
    requires (x >= h1 >= h2) || (x <= h1 <= h2)
    ensures Death(x, h1) + (if h2 != h1 && h2 == 0 then 1 else 0) == Death(x, h2)
  {
  }

  class Combatant {
    const unitType: UnitType
    const characterStats: Option<CharacterBaseStats>
    const enemyStats: Option<EnemyBaseStats>
    /** The unit's SkillsInventory component: None when it has none or its list is null. */
    const skills: Option<seq<Option<SkillDefinition>>>
    /** The unit's ItemsInventory component, if it has one. */
    const inventory: ItemsInventory?

    var characterName: string
    var maxHP: int
    var currentHP: int
    var maxSP: int
    var currentSP: int
    var activeStatusEffects: seq<ActiveStatusEffect>

    /** How often OnHPChanged, OnSPChanged and OnDied have fired. */
    var hpChangedEvents: nat
    var spChangedEvents: nat
    var diedEvents: nat

    /** The combatant's invariant: resources in range and every status with a turn left. */
    ghost predicate Valid()
      reads this
    {
      && 0 <= currentHP <= maxHP
      && 0 <= maxSP <= SP_CAP
      && 0 <= currentSP <= maxSP
      && StatusesLive(activeStatusEffects)
    }

    predicate IsEnemy()
    {
      unitType == Enemy
    }

    /** The unit has the stats record that matches its type. */
    predicate HasRecord()
    {
      (unitType == Player && characterStats.Some?) || (unitType == Enemy && enemyStats.Some?)
    }

    /** Design max HP: from the record, 100 without one. */
    function DesignMaxHP(): (r: int)
      ensures !HasRecord() ==> r == 100
      ensures unitType == Player && characterStats.Some? ==> r == characterStats.value.maxHP
      ensures unitType == Enemy && enemyStats.Some? ==> r == enemyStats.value.maxHP
    {
      if unitType == Player && characterStats.Some? then characterStats.value.maxHP
      else if unitType == Enemy && enemyStats.Some? then enemyStats.value.maxHP
      else 100
    }

    /** Design max SP: from the record, 50 without one. */
    function DesignMaxSP(): (r: int)
      ensures !HasRecord() ==> r == 50
      ensures unitType == Player && characterStats.Some? ==> r == characterStats.value.maxSP
      ensures unitType == Enemy && enemyStats.Some? ==> r == enemyStats.value.maxSP
    {
      if unitType == Player && characterStats.Some? then characterStats.value.maxSP
      else if unitType == Enemy && enemyStats.Some? then enemyStats.value.maxSP
      else 50
    }

    function RecordName(): (r: string)
      requires HasRecord()
    {
      if unitType == Player then characterStats.value.displayName else enemyStats.value.displayName
    }

    /** Base ATK from the record that matches the unit type, 0 without one. */
    function GetBaseATK(): (r: int)
      ensures !HasRecord() ==> r == 0
      ensures unitType == Player && characterStats.Some? ==> r == characterStats.value.atk
      ensures unitType == Enemy && enemyStats.Some? ==> r == enemyStats.value.atk
    {
      if unitType == Player && characterStats.Some? then characterStats.value.atk
      else if unitType == Enemy && enemyStats.Some? then enemyStats.value.atk
      else 0
    }

    /** Base DEF from the record that matches the unit type, 0 without one. */
    function GetBaseDEF(): (r: int)
      ensures !HasRecord() ==> r == 0
      ensures unitType == Player && characterStats.Some? ==> r == characterStats.value.def
      ensures unitType == Enemy && enemyStats.Some? ==> r == enemyStats.value.def
    {
      if unitType == Player && characterStats.Some? then characterStats.value.def
      else if unitType == Enemy && enemyStats.Some? then enemyStats.value.def
      else 0
    }

    /** AGI from the record that matches the unit type, 0 without one. */
    function GetAGI(): (r: int)
      ensures !HasRecord() ==> r == 0
      ensures unitType == Player && characterStats.Some? ==> r == characterStats.value.agi
      ensures unitType == Enemy && enemyStats.Some? ==> r == enemyStats.value.agi
    {
      if unitType == Player && characterStats.Some? then characterStats.value.agi
      else if unitType == Enemy && enemyStats.Some? then enemyStats.value.agi
      else 0
    }

    /** What the damage calculator reads of this unit. */
    function Stats(): CombatStats
      reads this`activeStatusEffects
    {
      CombatStats(GetBaseATK(), GetBaseDEF(), activeStatusEffects)
    }

    /** The battle state of this unit, without the HP- and SP-changed event counts. */
    function State(): UnitState
      reads this
    {
      UnitState(characterName, maxHP, currentHP, maxSP, currentSP, activeStatusEffects, diedEvents)
    }

    /** A unit as configured, after Awake has run InitializeFromData. */
    constructor (unitType: UnitType, characterStats: Option<CharacterBaseStats>, enemyStats: Option<EnemyBaseStats>,
                 skills: Option<seq<Option<SkillDefinition>>>, inventory: ItemsInventory?, characterName: string)
      ensures this.unitType == unitType && this.characterStats == characterStats && this.enemyStats == enemyStats
      ensures this.skills == skills && this.inventory == inventory
      ensures maxHP == DesignMaxHP() && currentHP == maxHP
      ensures maxSP == Clamp(DesignMaxSP(), 0, SP_CAP) && currentSP == 0
      ensures activeStatusEffects == []
      ensures this.characterName == if characterName == [] && HasRecord() then RecordName() else characterName
      ensures hpChangedEvents == 0 && spChangedEvents == 0 && diedEvents == 0
      ensures DesignMaxHP() >= 0 ==> Valid()
    {
      this.unitType := unitType;
      this.characterStats := characterStats;
      this.enemyStats := enemyStats;
      this.skills := skills;
      this.inventory := inventory;
      this.characterName := characterName;
      maxHP, currentHP, maxSP, currentSP := 0, 0, 0, 0;
      activeStatusEffects := [];
      hpChangedEvents, spChangedEvents, diedEvents := 0, 0, 0;
      new;
      InitializeFromData();
    }

    /**
     * Loads max HP and max SP from the design record (SP clamped into
     * [0, SP_CAP]), fills HP, empties SP and clears every status. No event fires.
     */
    method InitializeFromData()
      modifies this`characterName, this`maxHP, this`currentHP, this`maxSP, this`currentSP, this`activeStatusEffects
      ensures maxHP == DesignMaxHP() && currentHP == maxHP
      ensures maxSP == Clamp(DesignMaxSP(), 0, SP_CAP) && currentSP == 0
      ensures activeStatusEffects == []
      ensures characterName == if old(characterName) == [] && HasRecord() then RecordName() else old(characterName)
      ensures DesignMaxHP() >= 0 ==> Valid()
    {
      var baseMaxHP, baseMaxSP := 100, 50;
      if unitType == Player && characterStats.Some? {
        baseMaxHP := characterStats.value.maxHP;
        baseMaxSP := characterStats.value.maxSP;
        if characterName == [] { characterName := characterStats.value.displayName; }
      } else if unitType == Enemy && enemyStats.Some? {
        baseMaxHP := enemyStats.value.maxHP;
        baseMaxSP := enemyStats.value.maxSP;
        if characterName == [] { characterName := enemyStats.value.displayName; }
      }
      maxHP := baseMaxHP;
      maxSP := Clamp(baseMaxSP, 0, SP_CAP);
      currentHP := maxHP;
      currentSP := 0;
      activeStatusEffects := [];
    }

    /**
     * Stores value clamped into [0, maxHP]. Nothing changes and no event
     * fires when that equals the current HP; OnDied fires exactly when HP
     * changes to 0.
     */
    method SetHP(value: int)
      modifies this`currentHP, this`hpChangedEvents, this`diedEvents
      ensures currentHP == Clamp(value, 0, maxHP)
      ensures hpChangedEvents == old(hpChangedEvents) + (if currentHP != old(currentHP) then 1 else 0)
      ensures diedEvents == old(diedEvents) + (if currentHP != old(currentHP) && currentHP == 0 then 1 else 0)
    {
      var v := Clamp(value, 0, maxHP);
      if v == currentHP {
        return;
      }
      currentHP := v;
      hpChangedEvents := hpChangedEvents + 1;
      if currentHP == 0 {
        diedEvents := diedEvents + 1;
      }
    }

    /** Stores value clamped into [0, maxSP]; OnSPChanged fires only on a change. */
    method SetSP(value: int)
      modifies this`currentSP, this`spChangedEvents
      ensures currentSP == Clamp(value, 0, maxSP)
      ensures spChangedEvents == old(spChangedEvents) + (if currentSP != old(currentSP) then 1 else 0)
    {
      var v := Clamp(value, 0, maxSP);
      if v == currentSP {
        return;
      }
      currentSP := v;
      spChangedEvents := spChangedEvents + 1;
    }

    /** A non-positive gain changes nothing; otherwise SP rises, clamped at maxSP. */
    method GainSP(amount: int)
      modifies this`currentSP, this`spChangedEvents
      ensures amount <= 0 ==> currentSP == old(currentSP)
      ensures amount > 0 ==> currentSP == Clamp(old(currentSP) + amount, 0, maxSP)
      ensures spChangedEvents == old(spChangedEvents) + (if currentSP != old(currentSP) then 1 else 0)
    {
      if amount <= 0 {
        return;
      }
      var v := Clamp(currentSP + amount, 0, maxSP);
      if v == currentSP {
        return;
      }
      currentSP := v;
      spChangedEvents := spChangedEvents + 1;
    }

    /**
     * Spends amount SP. A non-positive amount succeeds without change; too
     * little SP fails without change; otherwise exactly amount is taken.
     */
    method SpendSP(amount: int) returns (ok: bool)
      modifies this`currentSP, this`spChangedEvents
      ensures amount <= 0 ==> ok && currentSP == old(currentSP) && spChangedEvents == old(spChangedEvents)
      ensures amount > 0 && old(currentSP) < amount ==> !ok && currentSP == old(currentSP) && spChangedEvents == old(spChangedEvents)
      ensures amount > 0 && old(currentSP) >= amount ==> ok && currentSP == old(currentSP) - amount && spChangedEvents == old(spChangedEvents) + 1
    {
      if amount <= 0 {
        return true;
      }
      if currentSP < amount {
        return false;
      }
      currentSP := currentSP - amount;
      spChangedEvents := spChangedEvents + 1;
      return true;
    }

    /** Appends one fresh instance of the status; a null status is ignored. Existing instances are untouched. */
    method AddStatusEffect(so: Option<StatusEffectDefinition>)
      modifies this`activeStatusEffects
      ensures activeStatusEffects == old(activeStatusEffects) + (if so.Some? then [NewInstance(so.value)] else [])
    {
      if so.None? {
        return;
      }
      activeStatusEffects := activeStatusEffects + [NewInstance(so.value)];
    }

    /** One status's damage over time: a living unit loses the DOT amount through SetHP. */
    method ApplyDot(s: ActiveStatusEffect)
      requires 0 <= currentHP <= maxHP
      modifies this`currentHP, this`hpChangedEvents, this`diedEvents
      ensures currentHP == DotStep(old(currentHP), s, maxHP)
      ensures 0 <= currentHP <= old(currentHP)
      ensures hpChangedEvents == old(hpChangedEvents) + (if currentHP != old(currentHP) then 1 else 0)
      ensures diedEvents == old(diedEvents) + (if old(currentHP) > 0 && currentHP == 0 then 1 else 0)
    {
      if s.effect.isDOT && s.effect.dotPercentOfMaxHP > 0 && currentHP > 0 {
        var dot := DotPercent(Some(maxHP), s.effect.dotPercentOfMaxHP);
        SetHP(currentHP - dot);
      }
    }

    /**
     * The end-of-turn tick, last status first: each DOT status hurts a
     * living unit, then every status loses one turn and those left with
     * none are removed. OnDied fires exactly when the tick kills the unit.
     */
    method TickStatusesAtTurnEnd()
      requires Valid()
      modifies this`activeStatusEffects, this`currentHP, this`hpChangedEvents, this`diedEvents
      ensures activeStatusEffects == Ticked(old(activeStatusEffects))
      ensures currentHP == DotsApplied(old(currentHP), old(activeStatusEffects), maxHP)
      ensures hpChangedEvents == old(hpChangedEvents) + DotHPChanges(old(currentHP), old(activeStatusEffects), maxHP)
      ensures diedEvents == old(diedEvents) + (if old(currentHP) > 0 && currentHP == 0 then 1 else 0)
      ensures Valid()
    {
      ghost var s0, hp0, died0, changed0 := activeStatusEffects, currentHP, diedEvents, hpChangedEvents;
      var i := |activeStatusEffects|;
      assert s0[i..] == [];
      while i > 0
        invariant 0 <= i <= |s0|
        invariant activeStatusEffects == s0[..i] + Ticked(s0[i..])
        invariant currentHP == DotsApplied(hp0, s0[i..], maxHP)
        invariant 0 <= currentHP <= hp0
        invariant hpChangedEvents == changed0 + DotHPChanges(hp0, s0[i..], maxHP)
        invariant diedEvents == died0 + (if hp0 > 0 && currentHP == 0 then 1 else 0)
      {
        i := i - 1;
        assert s0[i..][1..] == s0[i + 1..];
        var s := activeStatusEffects[i];
        assert s == s0[i];
        ApplyDot(s);
        TickAt(s0, i, activeStatusEffects);
        s := s.(remainingTurns := s.remainingTurns - 1);
        if s.remainingTurns <= 0 {
          activeStatusEffects := activeStatusEffects[..i] + activeStatusEffects[i + 1..];
        } else {
          activeStatusEffects := activeStatusEffects[i := s];
        }
      }
      assert s0[..0] == [] && s0[0..] == s0;
      TickedSurvivors(s0);
    }
  }
}
