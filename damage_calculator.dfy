/**
 * The damage and heal arithmetic of a battle: effective attack and defence
 * from base stats and the modifiers of every active status, physical
 * damage with the dealt/taken multipliers, flat or percent heals, and the
 * percent-of-max-HP damage over time. Every function is pure; the float
 * products of the game are computed here as exact rationals and rounded
 * half to even.
 */
module DamageCalculator {
  import opened GameData
  import opened Rounding

  /** What the calculator reads of a combatant: its base attack and defence and its statuses. */
  datatype CombatStats = CombatStats(baseATK: int, baseDEF: int, statuses: seq<ActiveStatusEffect>)

  /** The integer modifiers a status definition carries. */
  datatype Modifier = AtkFlat | AtkPercent | DefFlat | DefPercent | DamageDealtPercent | DamageTakenPercent

  function ModValue(e: StatusEffectDefinition, m: Modifier): int
  {
    match m
    case AtkFlat => e.atkFlat
    case AtkPercent => e.atkPercent
    case DefFlat => e.defFlat
    case DefPercent => e.defPercent
    case DamageDealtPercent => e.damageDealtPercent
    case DamageTakenPercent => e.damageTakenPercent
  }

  /** The sum of one modifier over every active status. */
  function Sum(s: seq<ActiveStatusEffect>, m: Modifier): int
  {
    if s == [] then 0 else ModValue(s[0].effect, m) + Sum(s[1..], m)
  }

  /** Sums split over concatenation. */
  lemma {:induction false} SumAppend(s: seq<ActiveStatusEffect>, t: seq<ActiveStatusEffect>, m: Modifier)
    ensures Sum(s + t, m) == Sum(s, m) + Sum(t, m)
  {
    if s == [] {
      assert s + t == t;
    } else {
      assert (s + t)[1..] == s[1..] + t;
      SumAppend(s[1..], t, m);
    }
  }

  /** Stacking is additive: one more instance adds its modifiers once more. */
  lemma StackingIsAdditive(s: seq<ActiveStatusEffect>, x: ActiveStatusEffect, m: Modifier)
    ensures Sum(s + [x], m) == Sum(s, m) + ModValue(x.effect, m)
  {
    SumAppend(s, [x], m);
    assert [x][1..] == [];
  }

  /**
   * max(0, round(value * (1 + pct / 100))): the common tail of ApplyAtkMods
   * and ApplyDefMods.
   */
  function ScaleStat(value: int, pct: int): (r: int)
    ensures r >= 0
    ensures value * (100 + pct) <= 0 ==> r == 0
    ensures value * (100 + pct) >= 0 ==> -100 <= 2 * (value * (100 + pct) - r * 100) <= 100
    ensures (value * (100 + pct) >= 0 && (2 * (value * (100 + pct) - r * 100) == 100
                                          || 2 * (value * (100 + pct) - r * 100) == -100)) ==> r % 2 == 0
  {
    var n := value * (100 + pct);
    var rounded := RoundHalfEven(n, 100);
    if n >= 0 then RoundNonNegative(n, 100); Max(0, rounded)
    else RoundMonotone(n, 0, 100); RoundExact(0, 100); Max(0, rounded)
  }

  /** For a non-negative multiplier, a larger stat never scales to a smaller one. */
  lemma ScaleStatMonotone(v1: int, v2: int, pct: int)
    requires v1 <= v2 && 100 + pct >= 0
    ensures ScaleStat(v1, pct) <= ScaleStat(v2, pct)
  {
    MulMonotone(v1, v2, 100 + pct);
    RoundMonotone(v1 * (100 + pct), v2 * (100 + pct), 100);
  }

  /** A zero percent modifier leaves a stat unchanged, except that it is floored at 0. */
  lemma ScaleStatNeutral(value: int)
    ensures ScaleStat(value, 0) == Max(0, value)
  {
    RoundExact(value, 100);
  }

  /** (base + Σ atkFlat) scaled by (1 + Σ atkPercent / 100), floored at 0. */
  function ApplyAtkMods(c: CombatStats, baseValue: int): (r: int)
    ensures r >= 0
  {
    ScaleStat(baseValue + Sum(c.statuses, AtkFlat), Sum(c.statuses, AtkPercent))
  }

  /** (base + Σ defFlat) scaled by (1 + Σ defPercent / 100), floored at 0. */
  function ApplyDefMods(c: CombatStats, baseValue: int): (r: int)
    ensures r >= 0
  {
    ScaleStat(baseValue + Sum(c.statuses, DefFlat), Sum(c.statuses, DefPercent))
  }

  function GetEffectiveATK(c: CombatStats): (r: int)
    ensures r >= 0
  {
    ApplyAtkMods(c, c.baseATK)
  }

  function GetEffectiveDEF(c: CombatStats): (r: int)
    ensures r >= 0
  {
    ApplyDefMods(c, c.baseDEF)
  }

  /** A unit without statuses has its base stats, floored at 0. */
  lemma EffectiveWithoutStatuses(c: CombatStats)
    requires c.statuses == []
    ensures GetEffectiveATK(c) == Max(0, c.baseATK)
    ensures GetEffectiveDEF(c) == Max(0, c.baseDEF)
  {
    ScaleStatNeutral(c.baseATK);
    ScaleStatNeutral(c.baseDEF);
  }

  function SumDamageDealtPercent(c: CombatStats): int
  {
    Sum(c.statuses, DamageDealtPercent)
  }

  function SumDamageTakenPercent(c: CombatStats): int
  {
    Sum(c.statuses, DamageTakenPercent)
  }

  /** The attack that Physical uses: the attacker's effective ATK, or basePower through the attacker's ATK modifiers. */
  function AttackStat(attacker: CombatStats, basePower: int, overrideWithBasePower: bool): (r: int)
    ensures r >= 0
  {
    if overrideWithBasePower then ApplyAtkMods(attacker, basePower) else GetEffectiveATK(attacker)
  }

  /**
   * Physical damage: raw = max(0, atk - def), scaled by
   * (1 + Σ dealt / 100) * (1 + Σ taken / 100), rounded, floored at 0.
   */
  function Physical(attacker: CombatStats, defender: CombatStats, basePower: int, overrideWithBasePower: bool): (r: int)
    ensures r >= 0
  {
    var raw := Max(0, AttackStat(attacker, basePower, overrideWithBasePower) - GetEffectiveDEF(defender));
    ScaleDamage(raw, SumDamageDealtPercent(attacker), SumDamageTakenPercent(defender))
  }

  /** max(0, round(raw * (1 + dealt / 100) * (1 + taken / 100))). */
  function ScaleDamage(raw: int, dealt: int, taken: int): (r: int)
    ensures r >= 0
    ensures raw * (100 + dealt) * (100 + taken) <= 0 ==> r == 0
    ensures raw * (100 + dealt) * (100 + taken) >= 0 ==>
              -10000 <= 2 * (raw * (100 + dealt) * (100 + taken) - r * 10000) <= 10000
    ensures (raw * (100 + dealt) * (100 + taken) >= 0
             && (2 * (raw * (100 + dealt) * (100 + taken) - r * 10000) == 10000
                 || 2 * (raw * (100 + dealt) * (100 + taken) - r * 10000) == -10000)) ==> r % 2 == 0
  {
    var n := raw * (100 + dealt) * (100 + taken);
    var rounded := RoundHalfEven(n, 10000);
    if n >= 0 then RoundNonNegative(n, 10000); Max(0, rounded)
    else RoundMonotone(n, 0, 10000); RoundExact(0, 10000); Max(0, rounded)
  }

  /** With non-negative multipliers, more raw damage never scales to less. */
  lemma ScaleDamageMonotone(raw1: int, raw2: int, dealt: int, taken: int)
    requires raw1 <= raw2 && 100 + dealt >= 0 && 100 + taken >= 0
    ensures ScaleDamage(raw1, dealt, taken) <= ScaleDamage(raw2, dealt, taken)
  {
    var k := (100 + dealt) * (100 + taken);
    MulMonotone(raw1, raw2, k);
    assert raw1 * (100 + dealt) * (100 + taken) == raw1 * k;
    assert raw2 * (100 + dealt) * (100 + taken) == raw2 * k;
    RoundMonotone(raw1 * k, raw2 * k, 10000);
  }

  /** Without dealt/taken multipliers, damage is attack minus defence, never below 0. */
  lemma PhysicalWithoutMultipliers(attacker: CombatStats, defender: CombatStats, basePower: int, overrideWithBasePower: bool)
    requires SumDamageDealtPercent(attacker) == 0 && SumDamageTakenPercent(defender) == 0
    ensures Physical(attacker, defender, basePower, overrideWithBasePower)
         == Max(0, AttackStat(attacker, basePower, overrideWithBasePower) - GetEffectiveDEF(defender))
  {
    var raw := Max(0, AttackStat(attacker, basePower, overrideWithBasePower) - GetEffectiveDEF(defender));
    assert raw * (100 + 0) * (100 + 0) == raw * 10000;
    RoundExact(raw, 10000);
    assert ScaleDamage(raw, 0, 0) == raw;
  }

  /** With no statuses on either side, a basic attack deals max(0, ATK - DEF) of the floored base stats. */
  lemma PhysicalWithoutStatuses(attacker: CombatStats, defender: CombatStats)
    requires attacker.statuses == [] && defender.statuses == []
    ensures Physical(attacker, defender, 0, false) == Max(0, Max(0, attacker.baseATK) - Max(0, defender.baseDEF))
  {
    EffectiveWithoutStatuses(attacker);
    EffectiveWithoutStatuses(defender);
    PhysicalWithoutMultipliers(attacker, defender, 0, false);
  }

  /** With the override, basePower takes the place of the attacker's base ATK and still gets its ATK modifiers. */
  lemma OverrideReplacesBaseAttack(attacker: CombatStats, defender: CombatStats, basePower: int)
    ensures Physical(attacker, defender, basePower, true)
         == Physical(attacker.(baseATK := basePower), defender, 0, false)
  {
  }

  /** A stronger defence never lets more damage through, when neither multiplier is negative. */
  lemma PhysicalAntitoneInDefence(attacker: CombatStats, d1: CombatStats, d2: CombatStats, basePower: int, overrideWithBasePower: bool)
    requires d1.statuses == d2.statuses && d1.baseDEF <= d2.baseDEF
    requires 100 + Sum(d1.statuses, DefPercent) >= 0
    requires 100 + SumDamageDealtPercent(attacker) >= 0 && 100 + SumDamageTakenPercent(d1) >= 0
    ensures Physical(attacker, d2, basePower, overrideWithBasePower) <= Physical(attacker, d1, basePower, overrideWithBasePower)
  {
    EffectiveDefMonotone(d1, d2);
    PhysicalMonotoneInDef(attacker, d1, d2, basePower, overrideWithBasePower);
  }

  /** With the same statuses and a non-negative DEF multiplier, more base DEF is never less effective DEF. */
  lemma EffectiveDefMonotone(d1: CombatStats, d2: CombatStats)
    requires d1.statuses == d2.statuses && d1.baseDEF <= d2.baseDEF
    requires 100 + Sum(d1.statuses, DefPercent) >= 0
    ensures GetEffectiveDEF(d1) <= GetEffectiveDEF(d2)
  {
    ScaleStatMonotone(d1.baseDEF + Sum(d1.statuses, DefFlat), d2.baseDEF + Sum(d2.statuses, DefFlat), Sum(d1.statuses, DefPercent));
  }

  /** Against the same damage-taken modifiers, more effective DEF never lets more damage through. */
  lemma PhysicalMonotoneInDef(attacker: CombatStats, d1: CombatStats, d2: CombatStats, basePower: int, overrideWithBasePower: bool)
    requires GetEffectiveDEF(d1) <= GetEffectiveDEF(d2) && SumDamageTakenPercent(d1) == SumDamageTakenPercent(d2)
    requires 100 + SumDamageDealtPercent(attacker) >= 0 && 100 + SumDamageTakenPercent(d1) >= 0
    ensures Physical(attacker, d2, basePower, overrideWithBasePower) <= Physical(attacker, d1, basePower, overrideWithBasePower)
  {
    var atk := AttackStat(attacker, basePower, overrideWithBasePower);
    ScaleDamageMonotone(Max(0, atk - GetEffectiveDEF(d2)), Max(0, atk - GetEffectiveDEF(d1)),
                        SumDamageDealtPercent(attacker), SumDamageTakenPercent(d1));
  }

  /** A flat heal is the amount itself; a percent heal is amount percent of the target's max HP, rounded. */
  function HealAmount(targetMax: int, amount: int, isPercent: bool): (r: int)
    ensures !isPercent ==> r == amount
    ensures isPercent ==> -100 <= 2 * (targetMax * amount - r * 100) <= 100
    ensures (isPercent && (2 * (targetMax * amount - r * 100) == 100
                           || 2 * (targetMax * amount - r * 100) == -100)) ==> r % 2 == 0
    ensures isPercent && targetMax >= 0 && amount >= 0 ==> r >= 0
  {
    if isPercent then
      if targetMax * amount >= 0 then RoundNonNegative(targetMax * amount, 100); RoundHalfEven(targetMax * amount, 100)
      else RoundHalfEven(targetMax * amount, 100)
    else amount
  }

  /** The damage-over-time tick: percent of the defender's max HP, at least 1, or 0 for no defender or no percent. */
  function DotPercent(defenderMaxHP: Option<int>, percentOfMaxHP: int): (r: int)
    ensures defenderMaxHP.None? || percentOfMaxHP <= 0 ==> r == 0
    ensures defenderMaxHP.Some? && percentOfMaxHP > 0 ==> r >= 1
    ensures defenderMaxHP.Some? && percentOfMaxHP > 0 && r == 1 ==> defenderMaxHP.value * percentOfMaxHP < 150
    ensures defenderMaxHP.Some? && percentOfMaxHP > 0 && r > 1 ==>
              -100 <= 2 * (defenderMaxHP.value * percentOfMaxHP - r * 100) <= 100
    ensures (defenderMaxHP.Some? && percentOfMaxHP > 0 && r > 1
             && (2 * (defenderMaxHP.value * percentOfMaxHP - r * 100) == 100
                 || 2 * (defenderMaxHP.value * percentOfMaxHP - r * 100) == -100)) ==> r % 2 == 0
  {
    if defenderMaxHP.None? || percentOfMaxHP <= 0 then 0
    else Max(1, RoundHalfEven(defenderMaxHP.value * percentOfMaxHP, 100))
  }
}
