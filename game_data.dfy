/**
 * Authored, read-only battle data: status effects, items, skills and the
 * base-stat records of player characters and enemies. These are Unity
 * ScriptableObject assets in the game; here they are plain values.
 * Asset identity is modelled by value: two assets with identical fields
 * are the same asset in this model.
 */
module GameData {

  /** A nullable asset reference. */
  datatype Option<+T> = None | Some(value: T)

  // ---------------------------------------------------------------------
  // Status effects
  // ---------------------------------------------------------------------

  /** Cosmetic category; never consulted by the battle arithmetic. */
  datatype StatusCategory = Ailment | Buff | Debuff

  /**
   * The status template. The inspector's [Range] hints on the percent
   * fields are not enforced by the game, so the fields are plain ints.
   */
  datatype StatusEffectDefinition = StatusEffectDefinition(
    displayName: string,
    durationTurns: int,
    category: StatusCategory,
    atkFlat: int,
    atkPercent: int,
    defFlat: int,
    defPercent: int,
    damageDealtPercent: int,
    damageTakenPercent: int,
    isDOT: bool,
    dotPercentOfMaxHP: int)

  /** One applied instance of a status on a combatant. */
  datatype ActiveStatusEffect = ActiveStatusEffect(effect: StatusEffectDefinition, remainingTurns: int)

  // ---------------------------------------------------------------------
  // Items
  // ---------------------------------------------------------------------

  datatype ItemEffectType = HealItem | ApplyStatus

  datatype ItemDefinition = ItemDefinition(
    displayName: string,
    effectType: ItemEffectType,
    power: int,
    isPercent: bool,
    statusToApply: Option<StatusEffectDefinition>)

  // ---------------------------------------------------------------------
  // Base stats
  // ---------------------------------------------------------------------

  datatype CharacterBaseStats = CharacterBaseStats(
    displayName: string, maxHP: int, maxSP: int, atk: int, def: int, agi: int)

  datatype EnemyBaseStats = EnemyBaseStats(
    displayName: string, maxHP: int, maxSP: int, atk: int, def: int, agi: int)

  // ---------------------------------------------------------------------
  // Skills (the fields the executor and the targeting properties read)
  // ---------------------------------------------------------------------

  datatype TargetSelection = SelfOnly | Single | Multi

  /** The bits of the skill's faction mask. */
  datatype TargetFaction = Allies | Enemies

  datatype PotencyMode = FlatNumber | Percent

  /** The skill's EffectType; its `None` member is called NoEffect here. */
  datatype SkillEffectType = Damage | Heal | NoEffect

  datatype StatusOp = Inflict | Remove

  datatype StatusEntry = StatusEntry(status: Option<StatusEffectDefinition>, op: StatusOp)

  datatype SkillDefinition = SkillDefinition(
    displayName: string,
    spCost: int,
    effectType: SkillEffectType,
    targetSelection: TargetSelection,
    targetFaction: set<TargetFaction>,
    potencyMode: PotencyMode,
    power: int,
    statuses: Option<seq<Option<StatusEntry>>>)
  {
    /** Self-only skills act on their caster. */
    predicate TargetsSelfOnly()
    {
      targetSelection == SelfOnly
    }

    /** The Allies bit of the faction mask is set. */
    predicate TargetsAllies()
    {
      Allies in targetFaction
    }

    /** Multi-target skills hit every eligible unit of the pool. */
    predicate TargetsAll()
    {
      targetSelection == Multi
    }
  }

  /** A skill never targets "self only" and "all" at once. */
  lemma SelfOnlyExcludesAll(s: SkillDefinition)
    ensures !(s.TargetsSelfOnly() && s.TargetsAll())
    ensures s.TargetsSelfOnly() || s.TargetsAll() || s.targetSelection == Single
  {
  }
}
