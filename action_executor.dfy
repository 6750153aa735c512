/**
 * Action resolution: the state changes of a basic attack, a skill and an
 * item, in the order the game makes them. Facing, movement, animation,
 * popups and waits are presentation and are not modelled. Targets are a
 * list that may be absent (a null list) and may hold null entries and
 * repeated units; an absent list that the game iterates over raises a
 * NullReferenceException, which ends the action as Faulted with the
 * changes made so far.
 */
module ActionExecutor {
  import opened GameData
  import opened Rounding
  import opened DamageCalculator
  import opened Inventory
  import opened Character
  import EnemyAI

  /** How an action ended: ran through, left early without a change, or stopped by an exception. */
  datatype Outcome = Completed | Abandoned | Faulted

  /** A player's command; the game's `None` decision is called NoDecision here. */
  datatype DecisionType = NoDecision | Attack | Skill | Item | Guard

  datatype CommandDecision = CommandDecision(decisionType: DecisionType, skill: Option<SkillDefinition>, item: Option<ItemDefinition>)

  // ---------------------------------------------------------------------
  // Target lists
  // ---------------------------------------------------------------------

  /** The entries of a target list; an absent list has none. */
  function Entries(targets: Option<seq<Combatant?>>): seq<Combatant?>
  {
    if targets.None? then [] else targets.value
  }

  /** The units an action may touch: the actor first, then the target list. */
  function Group(actor: Combatant, targets: Option<seq<Combatant?>>): seq<Combatant?>
  {
    [actor] + Entries(targets)
  }

  /** How often u occurs in a target list: each occurrence is one hit. */
  function Count(ts: seq<Combatant?>, u: Combatant): nat
  {
    multiset(ts)[u]
  }

  lemma CountSnoc(ts: seq<Combatant?>, t: Combatant?, u: Combatant)
    ensures Count(ts + [t], u) == Count(ts, u) + (if t == u then 1 else 0)
  {
    assert multiset(ts + [t]) == multiset(ts) + multiset{t};
  }

  /** The first position of a unit in a list that holds it. */
  function IndexOf(ts: seq<Combatant?>, u: Combatant): (k: nat)
    requires u in ts
    ensures k < |ts| && ts[k] == u
  {
    if ts[0] == u then 0 else 1 + IndexOf(ts[1..], u)
  }

  /** Every unit of a list is valid. */
  ghost predicate AllValid(ts: seq<Combatant?>)
    reads ts
  {
    forall j | 0 <= j < |ts| && ts[j] != null :: ts[j].Valid()
  }

  /** The target list of a group is part of it. */
  lemma GroupTargets(actor: Combatant, targets: Option<seq<Combatant?>>)
    ensures var g, ts := Group(actor, targets), Entries(targets);
            g[0] == actor && |g| == |ts| + 1 && forall k | 0 <= k < |ts| :: g[k + 1] == ts[k]
  {
  }

  // ---------------------------------------------------------------------
  // HP changes
  // ---------------------------------------------------------------------

  /** A unit's state after the hits of a target list, taken in list order: each occurrence of u is one SetHP(currentHP + delta). */
  function HitsAlong(s: UnitState, ts: seq<Combatant?>, u: Combatant, delta: int): (r: UnitState)
    ensures r.statuses == s.statuses && r.maxHP == s.maxHP
  {
    if ts == [] then s
    else
      var p := HitsAlong(s, ts[..|ts| - 1], u, delta);
      if ts[|ts| - 1] == u then SetHPState(p, Clamp(p.currentHP + delta, 0, p.maxHP)) else p
  }

  /** Only how often u occurs matters, not where: the hits of a list are Count(ts, u) hits. */
  lemma {:induction false} HitsAlongCount(s: UnitState, ts: seq<Combatant?>, u: Combatant, delta: int)
    ensures HitsAlong(s, ts, u, delta) == AfterHits(s, Count(ts, u), delta)
  {
    if ts != [] {
      var init := ts[..|ts| - 1];
      HitsAlongCount(s, init, u, delta);
      assert ts == init + [ts[|ts| - 1]];
      CountSnoc(init, ts[|ts| - 1], u);
    }
  }

  /** One hit on t: SetHP(currentHP + delta), which changes only HP and the Died count. */
  method Hit(t: Combatant, delta: int)
    requires t.Valid()
    modifies t`currentHP, t`hpChangedEvents, t`diedEvents
    ensures t.Valid()
    ensures t.State() == SetHPState(old(t.State()), Clamp(old(t.currentHP) + delta, 0, t.maxHP))
  {
    t.SetHP(t.currentHP + delta);
  }

  /**
   * An HP pass: each non-null entry of ts, in order, takes
   * SetHP(currentHP + delta(its stats, its max HP)). The skill's damage
   * loop and the heal loops of skills and items all have this form; the
   * amount depends only on the target's statuses, base stats and max HP,
   * which the pass does not change, so a unit listed k times takes the
   * same change k times.
   */
  method HPPass(ts: seq<Combatant?>, delta: (CombatStats, int) -> int)
    requires AllValid(ts)
    modifies ts`currentHP, ts`hpChangedEvents, ts`diedEvents
    ensures AllValid(ts)
    ensures forall j | 0 <= j < |ts| && ts[j] != null ::
              ts[j].State() == AfterHits(old(ts[j].State()), Count(ts, ts[j]), delta(old(ts[j].Stats()), old(ts[j].maxHP)))
  {
    HitEach(ts, delta);
    forall j | 0 <= j < |ts| && ts[j] != null
      ensures ts[j].State() == AfterHits(old(ts[j].State()), Count(ts, ts[j]), delta(old(ts[j].Stats()), old(ts[j].maxHP)))
    {
      HitsAlongCount(old(ts[j].State()), ts, ts[j], delta(old(ts[j].Stats()), old(ts[j].maxHP)));
    }
  }

  /** The loop of HPPass: entries in list order, each non-null one taking its hit. */
  method HitEach(ts: seq<Combatant?>, delta: (CombatStats, int) -> int)
    requires AllValid(ts)
    modifies ts`currentHP, ts`hpChangedEvents, ts`diedEvents
    ensures AllValid(ts)
    ensures forall j | 0 <= j < |ts| && ts[j] != null ::
              ts[j].State() == HitsAlong(old(ts[j].State()), ts, ts[j], delta(ts[j].Stats(), ts[j].maxHP))
  {
    var i := 0;
    assert ts[..0] == [];
    while i < |ts|
      invariant 0 <= i <= |ts|
      invariant forall j | 0 <= j < |ts| && ts[j] != null ::
                  ts[j].Valid() && ts[j].State() == HitsAlong(old(ts[j].State()), ts[..i], ts[j], delta(ts[j].Stats(), ts[j].maxHP))
    {
      var t := ts[i];
      assert ts[..i + 1][..i] == ts[..i];
      if t != null {
        Hit(t, delta(t.Stats(), t.maxHP));
      }
      i := i + 1;
    }
    assert ts[..|ts|] == ts;
  }

  /**
   * An HP pass over a list drawn from a group (the group's target list,
   * or the caster alone when the group has no targets), stated for every
   * unit of the group: a unit outside the list is not touched.
   */
  method GroupHPPass(actor: Combatant, targets: Option<seq<Combatant?>>, list: seq<Combatant?>, delta: (CombatStats, int) -> int)
    requires list == Entries(targets) || (list == [actor] && Entries(targets) == [])
    requires AllValid(Group(actor, targets))
    modifies Group(actor, targets)`currentHP, Group(actor, targets)`hpChangedEvents, Group(actor, targets)`diedEvents
    ensures AllValid(Group(actor, targets))
    ensures var g := Group(actor, targets);
            forall j | 0 <= j < |g| && g[j] != null ::
              g[j].State() == AfterHits(old(g[j].State()), Count(list, g[j]), delta(old(g[j].Stats()), old(g[j].maxHP)))
  {
    ghost var g := Group(actor, targets);
    GroupTargets(actor, targets);
    HPPass(list, delta);
    forall j | 0 <= j < |g| && g[j] != null
      ensures g[j].Valid()
      ensures g[j].State() == AfterHits(old(g[j].State()), Count(list, g[j]), delta(old(g[j].Stats()), old(g[j].maxHP)))
    {
      if g[j] !in list {
        assert Count(list, g[j]) == 0;
      } else {
        var k := IndexOf(list, g[j]);
      }
    }
  }

  // ---------------------------------------------------------------------
  // Statuses
  // ---------------------------------------------------------------------

  /** k copies of x. */
  function Repeat(x: ActiveStatusEffect, k: nat): (r: seq<ActiveStatusEffect>)
    ensures |r| == k && forall i :: 0 <= i < k ==> r[i] == x
  {
    if k == 0 then [] else Repeat(x, k - 1) + [x]
  }

  /** The instances of x that u receives from a target list, in list order: one per occurrence. */
  function InflictedAlong(x: ActiveStatusEffect, ts: seq<Combatant?>, u: Combatant): seq<ActiveStatusEffect>
  {
    if ts == [] then []
    else InflictedAlong(x, ts[..|ts| - 1], u) + (if ts[|ts| - 1] == u then [x] else [])
  }

  /** Only how often u occurs matters: a list gives u Count(ts, u) instances. */
  lemma {:induction false} InflictedAlongCount(x: ActiveStatusEffect, ts: seq<Combatant?>, u: Combatant)
    ensures InflictedAlong(x, ts, u) == Repeat(x, Count(ts, u))
  {
    if ts != [] {
      var init := ts[..|ts| - 1];
      InflictedAlongCount(x, init, u);
      assert ts == init + [ts[|ts| - 1]];
      CountSnoc(init, ts[|ts| - 1], u);
    }
  }

  /**
   * Status pass: every non-null entry of ts, in order, gets one fresh
   * instance of so. A unit listed k times gets k instances.
   */
  method InflictAll(so: StatusEffectDefinition, ts: seq<Combatant?>)
    requires AllValid(ts)
    modifies ts`activeStatusEffects
    ensures AllValid(ts)
    ensures forall j | 0 <= j < |ts| && ts[j] != null ::
              ts[j].activeStatusEffects == old(ts[j].activeStatusEffects) + Repeat(NewInstance(so), Count(ts, ts[j]))
    ensures forall j | 0 <= j < |ts| && ts[j] != null ::
              ts[j].State() == old(ts[j].State()).(statuses := old(ts[j].activeStatusEffects) + Repeat(NewInstance(so), Count(ts, ts[j])))
  {
    InflictEach(so, ts);
    forall j | 0 <= j < |ts| && ts[j] != null
      ensures ts[j].Valid()
      ensures ts[j].activeStatusEffects == old(ts[j].activeStatusEffects) + Repeat(NewInstance(so), Count(ts, ts[j]))
      ensures ts[j].State() == old(ts[j].State()).(statuses := old(ts[j].activeStatusEffects) + Repeat(NewInstance(so), Count(ts, ts[j])))
    {
      InflictedAlongCount(NewInstance(so), ts, ts[j]);
    }
  }

  /** The loop of InflictAll: entries in list order, each non-null one getting an instance. */
  method InflictEach(so: StatusEffectDefinition, ts: seq<Combatant?>)
    modifies ts`activeStatusEffects
    ensures forall j | 0 <= j < |ts| && ts[j] != null ::
              ts[j].activeStatusEffects == old(ts[j].activeStatusEffects) + InflictedAlong(NewInstance(so), ts, ts[j])
  {
    var i := 0;
    assert ts[..0] == [];
    while i < |ts|
      invariant 0 <= i <= |ts|
      invariant forall j | 0 <= j < |ts| && ts[j] != null ::
                  ts[j].activeStatusEffects == old(ts[j].activeStatusEffects) + InflictedAlong(NewInstance(so), ts[..i], ts[j])
    {
      var t := ts[i];
      assert ts[..i + 1][..i] == ts[..i];
      if t != null {
        t.AddStatusEffect(Some(so));
      }
      i := i + 1;
    }
    assert ts[..|ts|] == ts;
  }

  /** The instances one skill status entry gives unit u: one per occurrence of u in ts, for an inflict entry with a status. */
  function EntryEffect(e: Option<StatusEntry>, ts: seq<Combatant?>, u: Combatant): seq<ActiveStatusEffect>
  {
    if e.Some? && e.value.status.Some? && e.value.op == Inflict then Repeat(NewInstance(e.value.status.value), Count(ts, u))
    else []
  }

  /** The instances a skill's status entries give unit u, entries in order. */
  function Inflicted(entries: seq<Option<StatusEntry>>, ts: seq<Combatant?>, u: Combatant): seq<ActiveStatusEffect>
  {
    if entries == [] then [] else Inflicted(entries[..|entries| - 1], ts, u) + EntryEffect(entries[|entries| - 1], ts, u)
  }

  /**
   * The status step of a skill: for each entry in order, an inflict entry
   * with a status adds one instance to each non-null target in order; a
   * remove entry and a null entry or status change nothing.
   */
  method ApplyStatusEntries(entries: seq<Option<StatusEntry>>, ts: seq<Combatant?>)
    requires AllValid(ts)
    modifies ts`activeStatusEffects
    ensures AllValid(ts)
    ensures forall j | 0 <= j < |ts| && ts[j] != null ::
              ts[j].State() == old(ts[j].State()).(statuses := old(ts[j].activeStatusEffects) + Inflicted(entries, ts, ts[j]))
  {
    var k := 0;
    while k < |entries|
      invariant 0 <= k <= |entries|
      invariant AllValid(ts)
      invariant forall j | 0 <= j < |ts| && ts[j] != null ::
                  ts[j].activeStatusEffects == old(ts[j].activeStatusEffects) + Inflicted(entries[..k], ts, ts[j])
    {
      assert entries[..k + 1][..k] == entries[..k];
      ApplyEntry(entries[k], ts);
      k := k + 1;
    }
    assert entries[..|entries|] == entries;
  }

  /** One status entry of a skill: an inflict entry with a status goes to every non-null target. */
  method ApplyEntry(e: Option<StatusEntry>, ts: seq<Combatant?>)
    requires AllValid(ts)
    modifies ts`activeStatusEffects
    ensures AllValid(ts)
    ensures forall j | 0 <= j < |ts| && ts[j] != null ::
              ts[j].activeStatusEffects == old(ts[j].activeStatusEffects) + EntryEffect(e, ts, ts[j])
  {
    if e.Some? && e.value.status.Some? && e.value.op == Inflict {
      InflictAll(e.value.status.value, ts);
    }
  }

  // ---------------------------------------------------------------------
  // Basic attack
  // ---------------------------------------------------------------------

  /**
   * A unit's state after a basic attack that deals dmg: the target takes
   * SetHP(currentHP - dmg), then the attacker gains 1 SP, clamped at its
   * max SP. A unit that is both is hit first and then gains.
   */
  function AttackResult(s: UnitState, isTarget: bool, isActor: bool, dmg: int): UnitState
  {
    var hit := if isTarget then SetHPState(s, Clamp(s.currentHP - dmg, 0, s.maxHP)) else s;
    if isActor then hit.(currentSP := Clamp(hit.currentSP + 1, 0, hit.maxSP)) else hit
  }

  /**
   * The basic attack: without a first target nothing happens; otherwise
   * the first target loses the attacker's physical damage against it,
   * then the attacker gains 1 SP. No other unit changes.
   */
  twostate predicate BasicAttackDone(actor: Combatant, targets: Option<seq<Combatant?>>, outcome: Outcome)
    reads Group(actor, targets)
  {
    var g := Group(actor, targets);
    if targets.None? || |targets.value| == 0 || targets.value[0] == null then
      outcome == Abandoned && forall j | 0 <= j < |g| && g[j] != null :: g[j].State() == old(g[j].State())
    else
      var t := targets.value[0];
      var dmg := old(Physical(actor.Stats(), t.Stats(), 0, false));
      && outcome == Completed
      && forall j | 0 <= j < |g| && g[j] != null :: g[j].State() == AttackResult(old(g[j].State()), g[j] == t, g[j] == actor, dmg)
  }

  method DoBasicAttack(actor: Combatant, targets: Option<seq<Combatant?>>) returns (outcome: Outcome)
    requires AllValid(Group(actor, targets))
    modifies Group(actor, targets)
    ensures AllValid(Group(actor, targets))
    ensures BasicAttackDone(actor, targets, outcome)
  {
    if targets.None? || |targets.value| == 0 {
      return Abandoned;
    }
    var t := targets.value[0];
    if t == null {
      return Abandoned;
    }
    ghost var g := Group(actor, targets);
    assert g[0] == actor && g[1] == t;
    var dmg := Physical(actor.Stats(), t.Stats(), 0, false);
    Hit(t, -dmg);
    label hit:
    actor.GainSP(1);
    forall j | 0 <= j < |g| && g[j] != null
      ensures g[j].Valid() && g[j].State() == AttackResult(old(g[j].State()), g[j] == t, g[j] == actor, dmg)
    {
      var u := g[j];
      var hitState := if u == t then SetHPState(old(u.State()), Clamp(old(u.currentHP) - dmg, 0, u.maxHP)) else old(u.State());
      assert old@hit(u.State()) == hitState;
      if u != actor {
        assert u.State() == old@hit(u.State());
      } else {
        assert u.State() == hitState.(currentSP := Clamp(hitState.currentSP + 1, 0, hitState.maxSP));
      }
    }
    return Completed;
  }

  // ---------------------------------------------------------------------
  // Skills
  // ---------------------------------------------------------------------

  /** A skill is refused, with no change, when it needs targets and has none, or the caster cannot pay for it. */
  predicate SkillRefused(s: SkillDefinition, sp: int, targets: Option<seq<Combatant?>>)
  {
    (!s.TargetsSelfOnly() && Entries(targets) == []) || sp < s.spCost
  }

  /** The list the heal and status steps use: the caster alone when a self-only skill is given no targets. */
  function EffectiveList(s: SkillDefinition, actor: Combatant, targets: Option<seq<Combatant?>>): seq<Combatant?>
  {
    if Entries(targets) == [] && s.TargetsSelfOnly() then [actor] else Entries(targets)
  }

  /** The units whose HP a skill changes, one entry per hit. */
  function HPList(s: SkillDefinition, actor: Combatant, targets: Option<seq<Combatant?>>): seq<Combatant?>
  {
    match s.effectType
    case Damage => Entries(targets)
    case Heal => EffectiveList(s, actor, targets)
    case NoEffect => []
  }

  /** The HP change of one hit of the skill on a target. */
  function SkillHPDelta(s: SkillDefinition, attacker: CombatStats, target: CombatStats, targetMax: int): int
  {
    match s.effectType
    case Damage => -Physical(attacker, target, s.power, s.potencyMode == FlatNumber)
    case Heal => HealAmount(targetMax, s.power, s.potencyMode == Percent)
    case NoEffect => 0
  }

  /** The status entries a skill applies; a null list has none. */
  function StatusEntries(s: SkillDefinition): seq<Option<StatusEntry>>
  {
    if s.statuses.None? then [] else s.statuses.value
  }

  /**
   * A unit's state after a skill it is not refused: its SP set to sp
   * (the paid amount for the caster, unchanged for anyone else), then
   * `hits` HP changes of delta, then the instances `added` appended.
   */
  function SkillResult(s: UnitState, sp: int, hits: nat, delta: int, added: seq<ActiveStatusEffect>): UnitState
  {
    AfterHits(s.(currentSP := sp), hits, delta).(statuses := s.statuses + added)
  }

  /** A unit that is absent from a list gets nothing from it, whatever the entries. */
  lemma {:induction false} InflictedAbsent(entries: seq<Option<StatusEntry>>, ts: seq<Combatant?>, u: Combatant)
    requires u !in ts
    ensures Inflicted(entries, ts, u) == []
  {
    if entries != [] {
      InflictedAbsent(entries[..|entries| - 1], ts, u);
    }
  }

  /**
   * The status step of a skill that is not refused: when the skill has
   * status entries, each is applied in order to the effective list.
   */
  method SkillStatuses(actor: Combatant, s: SkillDefinition, targets: Option<seq<Combatant?>>)
    requires s.TargetsSelfOnly() || Entries(targets) != []
    requires AllValid(Group(actor, targets))
    modifies Group(actor, targets)`activeStatusEffects
    ensures AllValid(Group(actor, targets))
    ensures var g := Group(actor, targets);
            forall j | 0 <= j < |g| && g[j] != null ::
              g[j].State() == old(g[j].State()).(statuses := old(g[j].activeStatusEffects) +
                                                  Inflicted(StatusEntries(s), EffectiveList(s, actor, targets), g[j]))
  {
    ghost var g := Group(actor, targets);
    var list := EffectiveList(s, actor, targets);
    GroupTargets(actor, targets);
    assert list == Entries(targets) || (list == [actor] && g == [actor]);
    if s.statuses.None? || |s.statuses.value| == 0 {
      assert StatusEntries(s) == [];
      return;
    }
    ApplyStatusEntries(s.statuses.value, list);
    forall j | 0 <= j < |g| && g[j] != null
      ensures g[j].Valid()
      ensures g[j].State() == old(g[j].State()).(statuses := old(g[j].activeStatusEffects) + Inflicted(StatusEntries(s), list, g[j]))
    {
      if list == [actor] && g == [actor] {
        assert g[j] == list[j];
      } else if j > 0 {
        assert g[j] == list[j - 1];
      } else if actor in list {
        var k :| 0 <= k < |list| && list[k] == actor;
      } else {
        InflictedAbsent(StatusEntries(s), list, actor);
      }
    }
  }

  /**
   * What a paid skill does: the HP step (damage to each target, or a heal
   * to each unit of the effective list, amounts fixed by the statuses held
   * before it), then the status step.
   */
  method SkillEffects(actor: Combatant, s: SkillDefinition, targets: Option<seq<Combatant?>>)
    requires s.TargetsSelfOnly() || Entries(targets) != []
    requires s.effectType == Damage ==> targets.Some?
    requires AllValid(Group(actor, targets))
    modifies Group(actor, targets)`currentHP, Group(actor, targets)`hpChangedEvents, Group(actor, targets)`diedEvents, Group(actor, targets)`activeStatusEffects
    ensures AllValid(Group(actor, targets))
    ensures var g := Group(actor, targets);
            forall j | 0 <= j < |g| && g[j] != null ::
              g[j].State() == AfterHits(old(g[j].State()), Count(HPList(s, actor, targets), g[j]),
                                        old(SkillHPDelta(s, actor.Stats(), g[j].Stats(), g[j].maxHP)))
                                .(statuses := old(g[j].activeStatusEffects) + Inflicted(StatusEntries(s), EffectiveList(s, actor, targets), g[j]))
  {
    ghost var g := Group(actor, targets);
    var attacker := actor.Stats();
    var delta := (d: CombatStats, m: int) => SkillHPDelta(s, attacker, d, m);
    if s.effectType == Damage {
      GroupHPPass(actor, targets, targets.value, delta);
    } else if s.effectType == Heal {
      GroupHPPass(actor, targets, EffectiveList(s, actor, targets), delta);
    }
    label hp:
    SkillStatuses(actor, s, targets);
    forall j | 0 <= j < |g| && g[j] != null
      ensures g[j].State() == AfterHits(old(g[j].State()), Count(HPList(s, actor, targets), g[j]),
                                        old(SkillHPDelta(s, actor.Stats(), g[j].Stats(), g[j].maxHP)))
                                .(statuses := old(g[j].activeStatusEffects) + Inflicted(StatusEntries(s), EffectiveList(s, actor, targets), g[j]))
    {
      assert old@hp(g[j].State()) == AfterHits(old(g[j].State()), Count(HPList(s, actor, targets), g[j]), delta(old(g[j].Stats()), old(g[j].maxHP)));
    }
  }

  /**
   * A skill that passed its gates: the cost is paid first; a damage skill
   * given a null list then faults; otherwise each hit changes HP by its
   * damage or heal amount, computed from the statuses held before the
   * skill, and then the status entries are applied.
   */
  twostate predicate PaidSkillDone(actor: Combatant, s: SkillDefinition, targets: Option<seq<Combatant?>>, outcome: Outcome)
    reads actor, Group(actor, targets)
  {
    var g := Group(actor, targets);
    var paid := Clamp(old(actor.currentSP) - s.spCost, 0, actor.maxSP);
    if s.effectType == Damage && targets.None? then
      outcome == Faulted && actor.State() == old(actor.State()).(currentSP := paid)
    else
      && outcome == Completed
      && forall j | 0 <= j < |g| && g[j] != null ::
           g[j].State() == SkillResult(old(g[j].State()), if g[j] == actor then paid else old(g[j].currentSP),
                                       Count(HPList(s, actor, targets), g[j]),
                                       old(SkillHPDelta(s, actor.Stats(), g[j].Stats(), g[j].maxHP)),
                                       Inflicted(StatusEntries(s), EffectiveList(s, actor, targets), g[j]))
  }

  method PaySkill(actor: Combatant, s: SkillDefinition, targets: Option<seq<Combatant?>>) returns (outcome: Outcome)
    requires !SkillRefused(s, actor.currentSP, targets)
    requires AllValid(Group(actor, targets))
    modifies Group(actor, targets)
    ensures AllValid(Group(actor, targets))
    ensures PaidSkillDone(actor, s, targets, outcome)
  {
    ghost var g := Group(actor, targets);
    assert g[0] == actor;
    actor.SetSP(actor.currentSP - s.spCost);
    if s.effectType == Damage && targets.None? {
      return Faulted;
    }
    label paid:
    SkillEffects(actor, s, targets);
    forall j | 0 <= j < |g| && g[j] != null
      ensures g[j].State() == SkillResult(old(g[j].State()), if g[j] == actor then Clamp(old(actor.currentSP) - s.spCost, 0, actor.maxSP) else old(g[j].currentSP),
                                          Count(HPList(s, actor, targets), g[j]),
                                          old(SkillHPDelta(s, actor.Stats(), g[j].Stats(), g[j].maxHP)),
                                          Inflicted(StatusEntries(s), EffectiveList(s, actor, targets), g[j]))
    {
      var u := g[j];
      assert old@paid(actor.Stats()) == old(actor.Stats());
      assert old@paid(u.Stats()) == old(u.Stats()) && old@paid(u.maxHP) == old(u.maxHP);
      if u == actor {
        assert old@paid(u.State()) == old(u.State()).(currentSP := Clamp(old(actor.currentSP) - s.spCost, 0, actor.maxSP));
      } else {
        assert old@paid(u.State()) == old(u.State());
      }
    }
    return Completed;
  }

  /**
   * A skill: refused without change when there is no skill, a targeted
   * skill has no targets, or the caster has too little SP; otherwise paid
   * and carried out.
   */
  twostate predicate SkillDone(actor: Combatant, skill: Option<SkillDefinition>, targets: Option<seq<Combatant?>>, outcome: Outcome)
    reads actor, Group(actor, targets)
  {
    var g := Group(actor, targets);
    if skill.None? || SkillRefused(skill.value, old(actor.currentSP), targets) then
      outcome == Abandoned && forall j | 0 <= j < |g| && g[j] != null :: g[j].State() == old(g[j].State())
    else
      PaidSkillDone(actor, skill.value, targets, outcome)
  }

  method DoSkill(actor: Combatant, skill: Option<SkillDefinition>, targets: Option<seq<Combatant?>>) returns (outcome: Outcome)
    requires AllValid(Group(actor, targets))
    modifies Group(actor, targets)
    ensures AllValid(Group(actor, targets))
    ensures SkillDone(actor, skill, targets, outcome)
  {
    if skill.None? {
      return Abandoned;
    }
    var s := skill.value;
    if !s.TargetsSelfOnly() && (targets.None? || |targets.value| == 0) {
      return Abandoned;
    }
    if actor.currentSP < s.spCost {
      return Abandoned;
    }
    outcome := PaySkill(actor, s, targets);
  }

  // ---------------------------------------------------------------------
  // Items
  // ---------------------------------------------------------------------

  /**
   * A status pass over a group's target list, stated for every unit of the
   * group: each listed unit gets one instance per occurrence, and a unit
   * outside the list is not touched.
   */
  method GroupInflict(actor: Combatant, ts: seq<Combatant?>, so: StatusEffectDefinition)
    requires AllValid(Group(actor, Some(ts)))
    modifies Group(actor, Some(ts))`activeStatusEffects
    ensures AllValid(Group(actor, Some(ts)))
    ensures var g := Group(actor, Some(ts));
            forall j | 0 <= j < |g| && g[j] != null ::
              g[j].State() == old(g[j].State()).(statuses := old(g[j].activeStatusEffects) + Repeat(NewInstance(so), Count(ts, g[j])))
  {
    ghost var g := Group(actor, Some(ts));
    GroupTargets(actor, Some(ts));
    InflictAll(so, ts);
    forall j | 0 <= j < |g| && g[j] != null
      ensures g[j].Valid()
      ensures g[j].State() == old(g[j].State()).(statuses := old(g[j].activeStatusEffects) + Repeat(NewInstance(so), Count(ts, g[j])))
    {
      if g[j] !in ts {
        assert Count(ts, g[j]) == 0;
      } else {
        var k := IndexOf(ts, g[j]);
      }
    }
  }

  /**
   * A unit's state after an item is used on a list holding it `hits`
   * times: a heal item heals it that often (by the heal amount for its own
   * max HP), a status item with a status gives it that many instances,
   * and any other item does nothing.
   */
  function ItemResult(s: UnitState, it: ItemDefinition, hits: nat): UnitState
  {
    if it.effectType == HealItem then AfterHits(s, hits, HealAmount(s.maxHP, it.power, it.isPercent))
    else if it.statusToApply.Some? then s.(statuses := s.statuses + Repeat(NewInstance(it.statusToApply.value), hits))
    else s
  }

  /** Using the item walks the target list: a heal item, or a status item with a status. */
  predicate ItemWalksTargets(it: ItemDefinition)
  {
    it.effectType == HealItem || it.statusToApply.Some?
  }

  /**
   * An item: nothing happens without an item, or when the user has an
   * inventory that cannot give one up; otherwise one is consumed (when
   * there is an inventory) and its effect is applied to the target list.
   * An effect that walks an absent list faults after the consumption.
   */
  twostate predicate ItemDone(actor: Combatant, item: Option<ItemDefinition>, targets: Option<seq<Combatant?>>, outcome: Outcome)
    reads actor, actor.inventory, Group(actor, targets)
  {
    var g := Group(actor, targets);
    var inv := actor.inventory;
    if item.None? || (inv != null && !Consume(old(inv.items), item, 1).0) then
      && outcome == Abandoned
      && (inv != null ==> inv.items == old(inv.items))
      && forall j | 0 <= j < |g| && g[j] != null :: g[j].State() == old(g[j].State())
    else
      && (inv != null ==> inv.items == Consume(old(inv.items), item, 1).1)
      && ItemApplied(actor, item.value, targets, outcome)
  }

  method DoItem(actor: Combatant, item: Option<ItemDefinition>, targets: Option<seq<Combatant?>>) returns (outcome: Outcome)
    requires AllValid(Group(actor, targets))
    modifies actor.inventory, Group(actor, targets)
    ensures AllValid(Group(actor, targets))
    ensures ItemDone(actor, item, targets, outcome)
  {
    if item.None? {
      return Abandoned;
    }
    var inv := actor.inventory;
    if inv != null {
      var ok := inv.TryConsume(item, 1);
      if !ok {
        return Abandoned;
      }
    }
    outcome := UseItem(actor, item.value, targets);
  }

  /** The effect of an item once it is paid for: walking an absent list faults with nothing applied. */
  twostate predicate ItemApplied(actor: Combatant, it: ItemDefinition, targets: Option<seq<Combatant?>>, outcome: Outcome)
    reads actor, Group(actor, targets)
  {
    var g := Group(actor, targets);
    if ItemWalksTargets(it) && targets.None? then
      outcome == Faulted && actor.State() == old(actor.State())
    else
      && outcome == Completed
      && forall j | 0 <= j < |g| && g[j] != null ::
           g[j].State() == ItemResult(old(g[j].State()), it, Count(Entries(targets), g[j]))
  }

  method UseItem(actor: Combatant, it: ItemDefinition, targets: Option<seq<Combatant?>>) returns (outcome: Outcome)
    requires AllValid(Group(actor, targets))
    modifies Group(actor, targets)`currentHP, Group(actor, targets)`hpChangedEvents, Group(actor, targets)`diedEvents,
             Group(actor, targets)`activeStatusEffects
    ensures AllValid(Group(actor, targets))
    ensures ItemApplied(actor, it, targets, outcome)
  {
    if it.effectType == HealItem {
      if targets.None? {
        return Faulted;
      }
      GroupHPPass(actor, targets, targets.value, (d: CombatStats, m: int) => HealAmount(m, it.power, it.isPercent));
    } else if it.statusToApply.Some? {
      if targets.None? {
        return Faulted;
      }
      GroupInflict(actor, targets.value, it.statusToApply.value);
    }
    return Completed;
  }

  // ---------------------------------------------------------------------
  // Dispatch
  // ---------------------------------------------------------------------

  /** No unit of the group changed, and neither did the actor's inventory. */
  twostate predicate NothingDone(actor: Combatant, targets: Option<seq<Combatant?>>)
    reads actor, actor.inventory, Group(actor, targets)
  {
    var g := Group(actor, targets);
    && (actor.inventory != null ==> actor.inventory.items == old(actor.inventory.items))
    && forall j | 0 <= j < |g| && g[j] != null :: g[j].State() == old(g[j].State())
  }

  /** The inventory is untouched by everything but an item. */
  twostate predicate InventoryKept(actor: Combatant)
    reads actor, actor.inventory
  {
    actor.inventory != null ==> actor.inventory.items == old(actor.inventory.items)
  }

  /** A player's command: attack, skill or item as decided; a guard or no decision does nothing. */
  method Execute(actor: Combatant, decision: CommandDecision, targets: Option<seq<Combatant?>>) returns (outcome: Outcome)
    requires AllValid(Group(actor, targets))
    modifies actor.inventory, Group(actor, targets)
    ensures AllValid(Group(actor, targets))
    ensures decision.decisionType == Attack ==> BasicAttackDone(actor, targets, outcome) && InventoryKept(actor)
    ensures decision.decisionType == Skill ==> SkillDone(actor, decision.skill, targets, outcome) && InventoryKept(actor)
    ensures decision.decisionType == Item ==> ItemDone(actor, decision.item, targets, outcome)
    ensures decision.decisionType in {NoDecision, Guard} ==> outcome == Completed && NothingDone(actor, targets)
  {
    match decision.decisionType
    case Attack => outcome := DoBasicAttack(actor, targets);
    case Skill => outcome := DoSkill(actor, decision.skill, targets);
    case Item => outcome := DoItem(actor, decision.item, targets);
    case Guard => outcome := Completed;
    case NoDecision => outcome := Completed;
  }

  /** An enemy's intent, on the targets it carries: a guard or no intent does nothing. */
  method ExecuteIntent(actor: Combatant, intent: EnemyAI.Intent) returns (outcome: Outcome)
    requires AllValid(Group(actor, intent.targets))
    modifies actor.inventory, Group(actor, intent.targets)
    ensures AllValid(Group(actor, intent.targets))
    ensures intent.intentType == EnemyAI.BasicAttack ==> BasicAttackDone(actor, intent.targets, outcome) && InventoryKept(actor)
    ensures intent.intentType == EnemyAI.Skill ==> SkillDone(actor, intent.skill, intent.targets, outcome) && InventoryKept(actor)
    ensures intent.intentType == EnemyAI.Item ==> ItemDone(actor, intent.item, intent.targets, outcome)
    ensures intent.intentType in {EnemyAI.NoIntent, EnemyAI.Guard} ==> outcome == Completed && NothingDone(actor, intent.targets)
  {
    match intent.intentType
    case BasicAttack => outcome := DoBasicAttack(actor, intent.targets);
    case Skill => outcome := DoSkill(actor, intent.skill, intent.targets);
    case Item => outcome := DoItem(actor, intent.item, intent.targets);
    case Guard => outcome := Completed;
    case NoIntent => outcome := Completed;
  }
}
