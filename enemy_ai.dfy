/**
 * The enemy's decision and targeting: the first affordable skill, else a
 * basic attack; targets drawn from the living units of the pool the
 * intent points at, with the random draw supplied by the caller as an
 * index into the candidate list.
 */
module EnemyAI {
  import opened GameData
  import opened Character

  /** The intent kinds; the game's `None` member is called NoIntent here. */
  datatype IntentType = NoIntent | BasicAttack | Skill | Item | Guard

  datatype TargetMode = Single | All

  /** An action chosen for a unit; `targets` is None while no list has been attached. */
  datatype Intent = Intent(
    intentType: IntentType,
    skill: Option<SkillDefinition>,
    item: Option<ItemDefinition>,
    targets: Option<seq<Combatant?>>,
    targetsAllies: bool,
    targetMode: TargetMode)
  {
    /** Guard and self-only skills need no target; everything else does. */
    predicate NeedsTarget()
    {
      intentType != Guard && (skill.None? || !skill.value.TargetsSelfOnly())
    }
  }

  // ---------------------------------------------------------------------
  // Decide
  // ---------------------------------------------------------------------

  /** The index of the first non-null skill whose cost is at most sp. */
  function FirstAffordable(skills: seq<Option<SkillDefinition>>, sp: int): (r: Option<nat>)
    ensures r.Some? ==> r.value < |skills| && skills[r.value].Some? && skills[r.value].value.spCost <= sp
    ensures r.Some? ==> forall j :: 0 <= j < r.value ==> skills[j].None? || skills[j].value.spCost > sp
    ensures r.None? ==> forall j :: 0 <= j < |skills| ==> skills[j].None? || skills[j].value.spCost > sp
  {
    if skills == [] then None
    else if skills[0].Some? && skills[0].value.spCost <= sp then Some(0)
    else match FirstAffordable(skills[1..], sp)
      case None => None
      case Some(k) => Some(k + 1)
  }

  /** The intent that uses skill s, aimed the way its targeting flags say. */
  function SkillIntent(s: SkillDefinition): Intent
  {
    Intent(Skill, Some(s), None, None, s.TargetsAllies(), if s.TargetsAll() then TargetMode.All else TargetMode.Single)
  }

  /** The fallback intent: a single-target basic attack on the opposing side. */
  const BasicAttackIntent: Intent := Intent(BasicAttack, None, None, None, false, TargetMode.Single)

  /** The intent chosen for a unit with the given skill list and SP. */
  function DecideSpec(skills: Option<seq<Option<SkillDefinition>>>, sp: int): Intent
  {
    if skills.None? then BasicAttackIntent
    else match FirstAffordable(skills.value, sp)
      case Some(i) => SkillIntent(skills.value[i].value)
      case None => BasicAttackIntent
  }

  /**
   * Walks the unit's skill list in order and returns an intent for the
   * first non-null skill it can afford, else a basic attack. The player
   * and enemy lists are not consulted.
   */
  method Decide(self: Combatant, players: seq<Combatant?>, enemies: seq<Combatant?>) returns (intent: Intent)
    ensures intent == DecideSpec(self.skills, self.currentSP)
  {
    if self.skills.Some? {
      var list := self.skills.value;
      var i := 0;
      while i < |list|
        invariant 0 <= i <= |list|
        invariant forall j :: 0 <= j < i ==> list[j].None? || list[j].value.spCost > self.currentSP
      {
        if list[i].Some? && list[i].value.spCost <= self.currentSP {
          FirstAffordableIsFirst(list, self.currentSP, i);
          return SkillIntent(list[i].value);
        }
        i := i + 1;
      }
    }
    return BasicAttackIntent;
  }

  /** An affordable skill preceded only by unaffordable or null ones is the one FirstAffordable finds. */
  lemma {:induction false} FirstAffordableIsFirst(skills: seq<Option<SkillDefinition>>, sp: int, i: nat)
    requires i < |skills| && skills[i].Some? && skills[i].value.spCost <= sp
    requires forall j :: 0 <= j < i ==> skills[j].None? || skills[j].value.spCost > sp
    ensures FirstAffordable(skills, sp) == Some(i)
  {
    if i > 0 {
      FirstAffordableIsFirst(skills[1..], sp, i - 1);
    }
  }

  /**
   * What Decide promises: a Skill intent for the first affordable non-null
   * skill, carrying that skill's faction and mode flags, and otherwise a
   * single-target basic attack on the opposing side. No target list is attached.
   */
  lemma DecideChoosesFirstAffordable(skills: Option<seq<Option<SkillDefinition>>>, sp: int)
    ensures var it := DecideSpec(skills, sp);
      it.targets.None? && it.item.None?
      && (it.intentType == Skill || it.intentType == BasicAttack)
      && (it.intentType == Skill <==>
            skills.Some? && exists i :: 0 <= i < |skills.value| && skills.value[i].Some? && skills.value[i].value.spCost <= sp)
      && (it.intentType == Skill ==>
            exists i :: 0 <= i < |skills.value| && it.skill == skills.value[i] && it.skill.value.spCost <= sp
              && (forall j :: 0 <= j < i ==> skills.value[j].None? || skills.value[j].value.spCost > sp)
              && it.targetsAllies == it.skill.value.TargetsAllies()
              && (it.targetMode == All <==> it.skill.value.TargetsAll()))
      && (it.intentType == BasicAttack ==> !it.targetsAllies && it.targetMode == TargetMode.Single && it.skill.None?)
  {
    if skills.Some? {
      var r := FirstAffordable(skills.value, sp);
      if r.Some? {
        var i := r.value;
        assert DecideSpec(skills, sp).skill == skills.value[i];
      }
    }
  }

  /**
   * A decided intent needs a target exactly unless it is a self-only skill;
   * in particular a basic attack always needs one.
   */
  lemma DecidedIntentNeedsTarget(skills: Option<seq<Option<SkillDefinition>>>, sp: int)
    ensures var it := DecideSpec(skills, sp);
      it.NeedsTarget() <==> !(it.intentType == Skill && it.skill.value.TargetsSelfOnly())
  {
    if skills.Some? && FirstAffordable(skills.value, sp).Some? {
      assert DecideSpec(skills, sp).skill.Some?;
    }
  }

  // ---------------------------------------------------------------------
  // Targeting
  // ---------------------------------------------------------------------

  /** The pool an intent draws from: the caster's own side (the enemies) for ally-targeting intents, else the players. */
  function Pool(intent: Intent, players: seq<Combatant?>, enemies: seq<Combatant?>): seq<Combatant?>
  {
    if intent.targetsAllies then enemies else players
  }

  /** The non-null units of the pool with HP above zero, in pool order. */
  function Living(pool: seq<Combatant?>): (r: seq<Combatant>)
    reads pool
    ensures |r| <= |pool|
    ensures forall i :: 0 <= i < |r| ==> r[i] in pool && r[i].currentHP > 0
    ensures forall i :: 0 <= i < |pool| && pool[i] != null && pool[i].currentHP > 0 ==> pool[i] in r
  {
    if pool == [] then []
    else (if pool[0] != null && pool[0].currentHP > 0 then [pool[0]] else []) + Living(pool[1..])
  }

  /** The units of s outside the avoid set, in order. */
  function Without(s: seq<Combatant>, avoid: set<Combatant>): (r: seq<Combatant>)
    ensures |r| <= |s|
    ensures forall i :: 0 <= i < |r| ==> r[i] in s && r[i] !in avoid
    ensures forall i :: 0 <= i < |s| && s[i] !in avoid ==> s[i] in r
  {
    if s == [] then []
    else (if s[0] !in avoid then [s[0]] else []) + Without(s[1..], avoid)
  }

  /**
   * The candidates of a single-target pick: the living units outside the
   * avoid set, or every living unit when that leaves none. An empty avoid
   * set (the game's null or empty HashSet) filters nothing.
   */
  function Candidates(living: seq<Combatant>, avoid: set<Combatant>): (r: seq<Combatant>)
    ensures living != [] ==> r != []
    ensures forall i :: 0 <= i < |r| ==> r[i] in living
    ensures (exists i :: 0 <= i < |living| && living[i] !in avoid) ==> forall i :: 0 <= i < |r| ==> r[i] !in avoid
    ensures |avoid| > 0 ==> forall i :: 0 <= i < |living| && living[i] !in avoid ==> living[i] in r
    ensures |avoid| == 0 || (forall x | x in living :: x in avoid) ==> r == living
  {
    var filtered := if |avoid| > 0 then Without(living, avoid) else living;
    if filtered == [] then living else assert filtered[0] in living; filtered
  }

  /** The number of choices a pick offers the random draw. */
  function PickRange(intent: Intent, players: seq<Combatant?>, enemies: seq<Combatant?>, avoid: set<Combatant>): nat
    reads Pool(intent, players, enemies)
  {
    |Candidates(Living(Pool(intent, players, enemies)), avoid)|
  }

  /**
   * Targets for an intent: none when the pool has no living unit, every
   * living unit in All mode, else the living unit at the drawn index.
   */
  function PickTargets(intent: Intent, players: seq<Combatant?>, enemies: seq<Combatant?>, roll: nat): (r: seq<Combatant>)
    reads Pool(intent, players, enemies)
    requires intent.targetMode == TargetMode.Single && Living(Pool(intent, players, enemies)) != [] ==>
               roll < |Living(Pool(intent, players, enemies))|
    ensures Living(Pool(intent, players, enemies)) == [] ==> r == []
    ensures intent.targetMode == All ==> r == Living(Pool(intent, players, enemies))
    ensures intent.targetMode == TargetMode.Single && Living(Pool(intent, players, enemies)) != [] ==>
              |r| == 1 && r[0] in Pool(intent, players, enemies) && r[0].currentHP > 0
  {
    var living := Living(Pool(intent, players, enemies));
    if living == [] then []
    else if intent.targetMode == All then living
    else [living[roll]]
  }

  /**
   * Like PickTargets, but a single-target pick avoids the units in avoid
   * unless every living unit is in it.
   */
  function PickTargetsUnique(intent: Intent, players: seq<Combatant?>, enemies: seq<Combatant?>, avoid: set<Combatant>, roll: nat): (r: seq<Combatant>)
    reads Pool(intent, players, enemies)
    requires intent.targetMode == TargetMode.Single ==> roll < PickRange(intent, players, enemies, avoid) || Living(Pool(intent, players, enemies)) == []
    ensures Living(Pool(intent, players, enemies)) == [] ==> r == []
    ensures intent.targetMode == All ==> r == Living(Pool(intent, players, enemies))
    ensures intent.targetMode == TargetMode.Single && Living(Pool(intent, players, enemies)) != [] ==>
              |r| == 1 && r[0] in Pool(intent, players, enemies) && r[0].currentHP > 0
              && (r[0] in avoid ==> forall i :: 0 <= i < |Living(Pool(intent, players, enemies))| ==>
                                      Living(Pool(intent, players, enemies))[i] in avoid)
  {
    var living := Living(Pool(intent, players, enemies));
    if living == [] then []
    else if intent.targetMode == All then living
    else
      var candidates := Candidates(living, avoid);
      [candidates[roll]]
  }

  /**
   * The plain draw can land on any living unit: every living unit of the
   * pool is the single pick for some draw in range.
   */
  lemma EveryLivingDrawable(intent: Intent, players: seq<Combatant?>, enemies: seq<Combatant?>, c: Combatant)
    requires intent.targetMode == TargetMode.Single && c in Living(Pool(intent, players, enemies))
    ensures exists roll: nat :: roll < |Living(Pool(intent, players, enemies))|
                                && PickTargets(intent, players, enemies, roll) == [c]
  {
    var living := Living(Pool(intent, players, enemies));
    var i :| 0 <= i < |living| && living[i] == c;
    assert PickTargets(intent, players, enemies, i) == [living[i]];
  }

  /**
   * The avoiding draw can land on any candidate: every candidate is the
   * single pick for some draw in range.
   */
  lemma EveryCandidateDrawable(intent: Intent, players: seq<Combatant?>, enemies: seq<Combatant?>, avoid: set<Combatant>, c: Combatant)
    requires intent.targetMode == TargetMode.Single
    requires c in Candidates(Living(Pool(intent, players, enemies)), avoid)
    ensures exists roll: nat :: roll < PickRange(intent, players, enemies, avoid)
                                && PickTargetsUnique(intent, players, enemies, avoid, roll) == [c]
  {
    var living := Living(Pool(intent, players, enemies));
    var cs := Candidates(living, avoid);
    var i :| 0 <= i < |cs| && cs[i] == c;
    assert living != [];
    assert i < PickRange(intent, players, enemies, avoid);
    assert PickTargetsUnique(intent, players, enemies, avoid, i) == [cs[i]];
  }

  /** With nothing to avoid, the unique picker makes the same choice as the plain one. */
  lemma UniqueWithoutAvoidIsPlain(intent: Intent, players: seq<Combatant?>, enemies: seq<Combatant?>, roll: nat)
    requires intent.targetMode == TargetMode.Single ==> roll < PickRange(intent, players, enemies, {}) || Living(Pool(intent, players, enemies)) == []
    ensures PickTargetsUnique(intent, players, enemies, {}, roll) == PickTargets(intent, players, enemies, roll)
  {
  }
}
