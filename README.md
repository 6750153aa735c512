# Battle rules of a turn-based RPG, in Dafny

This project models the rules core of a Unity turn-based RPG battle: the
combatant's HP, SP and status list, the damage and heal arithmetic, the item
bag, the turn queue, the enemy's decision and targeting, how an attack, a
skill or an item changes the units it touches, and the battle loop's
per-turn bookkeeping. Coroutines, animation, movement and UI are left out.

Modules, one per source file of the core:

- `GameData` (`game_data.dfy`): the authored records as datatypes. These are
  status effects, items, skills, and character and enemy base stats. The
  skill's targeting flags are predicates.
- `Rounding` (`rounding.dfy`): the engine's `Mathf.Clamp` on ints and
  `Mathf.RoundToInt`. `RoundToInt` rounds half to even, here on an exact
  rational.
- `DamageCalculator` (`damage_calculator.dfy`): effective ATK/DEF, physical
  damage, heal amounts and damage over time, as pure functions.
- `Character` (`character.dfy`): the class `Combatant`, plus the status
  tick stated as functions on the status list.
- `Inventory` (`items_inventory.dfy`): the class `ItemsInventory`, whose
  entry list is updated in place. It is specified by the functions `Consume`
  and `Added`.
- `TurnOrder` (`turn_order.dfy`): the class `TurnOrderController`. It holds
  the FIFO queue, the current unit and the forecast.
- `EnemyAI` (`enemy_ai.dfy`): the first-affordable-skill decision and the
  target pickers. The random draw is an index the caller supplies.
- `ActionExecutor` (`action_executor.dfy`): the state changes of
  `DoBasicAttack`, `DoSkill` and `DoItem`, made in the game's order.
  - A target list may be absent (a C# null list). It may hold null entries
    and repeated units.
  - Iterating over an absent list throws a NullReferenceException in the
    game. Here that ends the action as `Faulted`, keeping the changes made
    before it.
  - A unit listed k times takes k hits or k status instances.
- `BattleFlow` (`battle_controller.dfy`): the class `BattleController`. It
  owns the active unit, the enemies' shared avoid set, skipping dead units,
  the end-of-turn tick and the requeue of survivors.
  - The player's menu choices and the random draws arrive as a sequence of
    `TurnInput` values.

The game's `OnHPChanged`, `OnSPChanged`, `OnDied` and `ForecastChanged`
events are modelled as counters of how often each fired.

## Model

| member | source | states |
|---|---|---|
| GameData.SelfOnlyExcludesAll | Assets/Scripts/Data/SkillDefinition.Compat.cs:7-14 | A skill is never both self-only and target-all; every skill is self-only, all, or single. |
| Rounding.Clamp | Assets/Scripts/CharacterScript.cs:166 | With lo <= hi the result lies in [lo, hi]: a value in range is kept, a low one becomes lo, a high one becomes hi. |
| Rounding.RoundHalfEven | Assets/Scripts/BattleRuntime/Actions/DamageCalculator.cs:54 | The result is within half a step of n / d. At an exact tie it is even. |
| Rounding.RoundHalfEvenUnique | Assets/Scripts/BattleRuntime/Actions/DamageCalculator.cs:54 | Those two properties determine the rounded value uniquely. |
| Rounding.RoundMonotone | Assets/Scripts/BattleRuntime/Actions/DamageCalculator.cs:18 | Rounding never decreases as the numerator grows. |
| Rounding.RoundNonNegative | Assets/Scripts/BattleRuntime/Actions/DamageCalculator.cs:18 | A non-negative quotient never rounds below 0. |
| DamageCalculator.StackingIsAdditive | Assets/Scripts/BattleRuntime/Actions/DamageCalculator.cs:44-52 | One more instance of a status adds its modifier to the summed modifier once more. |
| DamageCalculator.ScaleStat | Assets/Scripts/BattleRuntime/Actions/DamageCalculator.cs:53-54 | A scaled stat is never negative, is 0 when value * (1 + pct/100) is not positive, and is otherwise that product rounded to the nearest integer, ties to even. With RoundHalfEvenUnique these clauses fix the value. |
| DamageCalculator.ScaleStatMonotone | Assets/Scripts/BattleRuntime/Actions/DamageCalculator.cs:53-54 | With a non-negative multiplier, a larger stat never scales to a smaller one. |
| DamageCalculator.ScaleStatNeutral | Assets/Scripts/BattleRuntime/Actions/DamageCalculator.cs:53-54 | A zero percent modifier leaves the stat as it is, floored at 0. |
| DamageCalculator.ApplyAtkMods | Assets/Scripts/BattleRuntime/Actions/DamageCalculator.cs:44-55 | Modified attack is never negative. |
| DamageCalculator.ApplyDefMods | Assets/Scripts/BattleRuntime/Actions/DamageCalculator.cs:57-68 | Modified defence is never negative. |
| DamageCalculator.GetEffectiveATK | Assets/Scripts/BattleRuntime/Actions/DamageCalculator.cs:32-36 | Effective ATK is never negative. |
| DamageCalculator.GetEffectiveDEF | Assets/Scripts/BattleRuntime/Actions/DamageCalculator.cs:38-42 | Effective DEF is never negative. |
| DamageCalculator.EffectiveWithoutStatuses | Assets/Scripts/BattleRuntime/Actions/DamageCalculator.cs:32-42 | A unit with no statuses has its base ATK and DEF, floored at 0. |
| DamageCalculator.AttackStat | Assets/Scripts/BattleRuntime/Actions/DamageCalculator.cs:9-11 | The attack used by Physical is never negative. |
| DamageCalculator.Physical | Assets/Scripts/BattleRuntime/Actions/DamageCalculator.cs:7-20 | Physical damage is never negative. |
| DamageCalculator.ScaleDamage | Assets/Scripts/BattleRuntime/Actions/DamageCalculator.cs:15-19 | Damage after the dealt/taken multipliers is never negative. It is 0 when raw * (1 + dealt/100) * (1 + taken/100) is not positive, and otherwise that product rounded to the nearest integer, ties to even, which fixes the value. |
| DamageCalculator.ScaleDamageMonotone | Assets/Scripts/BattleRuntime/Actions/DamageCalculator.cs:15-19 | With non-negative multipliers, more raw damage never becomes less final damage. |
| DamageCalculator.PhysicalWithoutMultipliers | Assets/Scripts/BattleRuntime/Actions/DamageCalculator.cs:13-19 | With zero dealt and taken sums, damage is max(0, attack - effective DEF) exactly. |
| DamageCalculator.PhysicalWithoutStatuses | Assets/Scripts/BattleRuntime/Actions/DamageCalculator.cs:7-19 | With no statuses on either side, a basic attack deals max(0, ATK - DEF) of the floored base stats. |
| DamageCalculator.OverrideReplacesBaseAttack | Assets/Scripts/BattleRuntime/Actions/DamageCalculator.cs:9-11 | With the override, basePower takes the place of the attacker's base ATK and still receives the attacker's ATK modifiers. |
| DamageCalculator.PhysicalAntitoneInDefence | Assets/Scripts/BattleRuntime/Actions/DamageCalculator.cs:12-19 | With the same statuses and non-negative multipliers, higher base DEF never lets more damage through. |
| DamageCalculator.EffectiveDefMonotone | Assets/Scripts/BattleRuntime/Actions/DamageCalculator.cs:57-67 | With the same statuses and a non-negative DEF multiplier, higher base DEF never yields lower effective DEF. |
| DamageCalculator.PhysicalMonotoneInDef | Assets/Scripts/BattleRuntime/Actions/DamageCalculator.cs:12-19 | Against the same taken modifiers, higher effective DEF never lets more damage through. |
| DamageCalculator.HealAmount | Assets/Scripts/BattleRuntime/Actions/DamageCalculator.cs:22-23 | Flat mode returns the amount unchanged. Percent mode returns targetMax * amount / 100 rounded to the nearest integer, ties to even, and that is non-negative for non-negative inputs. |
| DamageCalculator.DotPercent | Assets/Scripts/BattleRuntime/Actions/DamageCalculator.cs:25-30 | The result is 0 with no defender or a non-positive percent, and at least 1 otherwise. It is 1 only when max HP * percent is below 150; any result above 1 is the percent of max HP rounded to the nearest integer, ties to even. Together these clauses fix the value. |
| Inventory.FirstIndex | Assets/Scripts/BattleRuntime/ItemsInventory.cs:19 | The result is the position of the first entry holding the item, or None exactly when no entry does. |
| Inventory.FindEntry | Assets/Scripts/BattleRuntime/ItemsInventory.cs:19 | The linear search returns that same first matching position, or None exactly when there is none. |
| Inventory.RemoveAt | Assets/Scripts/BattleRuntime/ItemsInventory.cs:22 | Entry i is dropped; the entries before and after it keep their order. |
| Inventory.ConsumeSucceedsIff | Assets/Scripts/BattleRuntime/ItemsInventory.cs:16-23 | On a well-formed list, consuming succeeds iff the item is present with quantity at least amount. A failure leaves the list unchanged. |
| Inventory.ConsumeSuccess | Assets/Scripts/BattleRuntime/ItemsInventory.cs:21-22 | A success lowers the item's quantity by exactly amount, keeps every other item's quantity, and keeps the list well formed (an entry reaching 0 is removed). |
| Inventory.AddSpec | Assets/Scripts/BattleRuntime/ItemsInventory.cs:26-32 | Adding raises the item's quantity by amount when amount is positive and changes nothing otherwise. Other items are untouched and the list stays well formed. |
| Inventory.AddThenConsume | Assets/Scripts/BattleRuntime/ItemsInventory.cs:16-32 | Adding a positive amount and then consuming the same amount succeeds and restores the original list. |
| Inventory.ConsumeTouchesFirstMatchOnly | Assets/Scripts/BattleRuntime/ItemsInventory.cs:19-22 | A successful consume changes only the first matching entry: it is lowered by amount or removed. The entries before and after it are kept in order. |
| Inventory.AddTouchesFirstMatchOnly | Assets/Scripts/BattleRuntime/ItemsInventory.cs:29-31 | Add appends one entry when the item is absent. Otherwise it raises only the first matching entry by amount. |
| Inventory.ItemsInventory.TryConsume | Assets/Scripts/BattleRuntime/ItemsInventory.cs:16-24 | The returned flag and the new list are exactly those of Consume on the old list. |
| Inventory.ItemsInventory.Add | Assets/Scripts/BattleRuntime/ItemsInventory.cs:26-32 | The new list is exactly Added of the old list. A null item or a non-positive amount changes nothing. |
| Character.NewInstance | Assets/Scripts/CharacterScript.cs:209-213 | A new instance carries the status and max(1, duration) turns: at least 1, and exactly the duration when that is at least 1. |
| Character.TickedSurvivors | Assets/Scripts/CharacterScript.cs:216-231 | The tick never lengthens the list. Statuses with more than one turn survive with exactly one fewer. Nothing else is left, and every survivor has a turn left. |
| Character.TickedShrinks | Assets/Scripts/CharacterScript.cs:228-229 | The tick never lengthens the list, and every status it leaves has at least one turn. |
| Character.TickedKeepsSurvivors | Assets/Scripts/CharacterScript.cs:228-230 | Every status with more than one turn left is in the ticked list, one turn shorter. |
| Character.TickedOnlySurvivors | Assets/Scripts/CharacterScript.cs:228-230 | Every status in the ticked list is a survivor of the old list, one turn shorter. |
| Character.TickAt | Assets/Scripts/CharacterScript.cs:218-230 | One backward step of the in-place tick (remove at i, or store one turn shorter) extends the ticked suffix by one position. |
| Character.LastTurnExpires | Assets/Scripts/CharacterScript.cs:228-229 | A status on its last turn is removed by the tick. |
| Character.DotTotal | Assets/Scripts/CharacterScript.cs:222-226 | The summed damage over time of a status list is never negative. |
| Character.DotsAppliedTotal | Assets/Scripts/CharacterScript.cs:218-226 | The DOT steps of a tick take exactly the total DOT damage off a unit with valid HP, floored at 0. The order of the steps and the liveness checks between them do not matter. |
| Character.DotOnFinalTick | Assets/Scripts/CharacterScript.cs:222-229 | A DOT status on its last turn still deals its damage on the tick that removes it. |
| Character.AfterHits | Assets/Scripts/CharacterScript.cs:164-176 | Repeated SetHP calls change only HP and the OnDied count. |
| Character.AfterHitsClosedForm | Assets/Scripts/CharacterScript.cs:164-176 | k equal hits leave HP at clamp(HP + k * delta, 0, maxHP). OnDied fires at most once, exactly when HP goes from positive to 0. |
| Character.Combatant.DesignMaxHP | Assets/Scripts/CharacterScript.cs:121-135 | The design max HP is the maxHP of the record that matches the unit type (the character record for a player, the enemy record for an enemy), and 100 without one. |
| Character.Combatant.DesignMaxSP | Assets/Scripts/CharacterScript.cs:121-138 | The design max SP is the maxSP of the record that matches the unit type, and 50 without one. |
| Character.Combatant.GetBaseATK | Assets/Scripts/CharacterScript.cs:145-150 | Base ATK comes from the record matching the unit type, else it is 0. |
| Character.Combatant.GetBaseDEF | Assets/Scripts/CharacterScript.cs:151-156 | Base DEF comes from the record matching the unit type, else it is 0. |
| Character.Combatant.GetAGI | Assets/Scripts/CharacterScript.cs:157-162 | AGI comes from the record matching the unit type, else it is 0. |
| Character.Combatant.constructor | Assets/Scripts/CharacterScript.cs:101-143 | A spawned unit has run InitializeFromData: full HP, 0 SP, max SP in [0, 9], no statuses, no events. It is valid when its design max HP is non-negative. |
| Character.Combatant.InitializeFromData | Assets/Scripts/CharacterScript.cs:119-143 | Max HP is the design value and max SP is the design value clamped into [0, SP_CAP]. HP is full, SP is 0 and the status list is empty. An empty name takes the record's display name. |
| Character.Combatant.SetHP | Assets/Scripts/CharacterScript.cs:164-176 | HP becomes the value clamped into [0, maxHP]. OnHPChanged fires only on a change, and OnDied exactly when HP changes to 0. |
| Character.Combatant.SetSP | Assets/Scripts/CharacterScript.cs:178-184 | SP becomes the value clamped into [0, maxSP]. OnSPChanged fires only on a change. |
| Character.Combatant.GainSP | Assets/Scripts/CharacterScript.cs:187-194 | A non-positive amount changes nothing. Otherwise SP becomes clamp(SP + amount, 0, maxSP), so it never passes the cap. |
| Character.Combatant.SpendSP | Assets/Scripts/CharacterScript.cs:197-204 | A non-positive amount succeeds with no change. Too little SP fails with no change. Otherwise exactly the amount is taken and the call succeeds. |
| Character.Combatant.AddStatusEffect | Assets/Scripts/CharacterScript.cs:206-214 | A null status is ignored. Otherwise exactly one new instance is appended and existing entries are untouched. |
| Character.DotHPChangesZero | Assets/Scripts/CharacterScript.cs:218-226 | For HP in range the DOT steps never raise HP, so OnHPChanged fires during a tick exactly when the tick lowers HP. |
| Character.Combatant.ApplyDot | Assets/Scripts/CharacterScript.cs:222-226 | A DOT status hurts only a living unit. HP never rises and never drops below 0. OnHPChanged fires exactly when HP changes, and OnDied exactly when this step kills the unit. |
| Character.Combatant.TickStatusesAtTurnEnd | Assets/Scripts/CharacterScript.cs:216-232 | The list becomes the ticked list and HP the result of the DOT steps taken last to first. OnHPChanged fires once per DOT step that changed HP, OnDied exactly when the tick kills the unit, and the unit stays valid. |
| TurnOrder.InsertByAgi | Assets/Scripts/BattleRuntime/BattleFlow/TurnOrderController.cs:28 | Inserting a unit lengthens the sequence by one. |
| TurnOrder.InsertByAgiSorted | Assets/Scripts/BattleRuntime/BattleFlow/TurnOrderController.cs:28 | Inserting into an AGI-sorted sequence adds exactly that unit and keeps AGI non-increasing. |
| TurnOrder.InsertByAgiAddsX | Assets/Scripts/BattleRuntime/BattleFlow/TurnOrderController.cs:28 | Insertion adds exactly the unit, as a multiset. |
| TurnOrder.InsertByAgiKeepsOrder | Assets/Scripts/BattleRuntime/BattleFlow/TurnOrderController.cs:28 | Insertion keeps AGI non-increasing. |
| TurnOrder.SortByAgi | Assets/Scripts/BattleRuntime/BattleFlow/TurnOrderController.cs:24-29 | The queue is a permutation of the units, ordered by non-increasing AGI. |
| TurnOrder.ForecastOf | Assets/Scripts/BattleRuntime/BattleFlow/TurnOrderController.cs:49-55 | The forecast is the queue, preceded by the current unit when there is one. |
| TurnOrder.TurnOrderController.constructor | Assets/Scripts/BattleRuntime/BattleFlow/TurnOrderController.cs:8-11 | A new controller has an empty queue and forecast and no current unit. |
| TurnOrder.TurnOrderController.Initialize | Assets/Scripts/BattleRuntime/BattleFlow/TurnOrderController.cs:18-31 | Current is null, the queue is the players and enemies reordered by non-increasing AGI, the forecast equals the queue, and ForecastChanged fires once. |
| TurnOrder.TurnOrderController.PopNext | Assets/Scripts/BattleRuntime/BattleFlow/TurnOrderController.cs:33-39 | An empty queue returns null and changes nothing. Otherwise the head is removed, returned and made current, and the forecast is rebuilt. |
| TurnOrder.TurnOrderController.Requeue | Assets/Scripts/BattleRuntime/BattleFlow/TurnOrderController.cs:41-47 | Null is ignored. Otherwise the unit is appended at the tail, current is cleared only if it was that unit, and the forecast is rebuilt. |
| TurnOrder.TurnOrderController.RebuildForecast | Assets/Scripts/BattleRuntime/BattleFlow/TurnOrderController.cs:49-55 | The forecast becomes [current if any] followed by the queue, and ForecastChanged fires once. |
| TurnOrder.PopMany | Assets/Scripts/BattleRuntime/BattleFlow/TurnOrderController.cs:33-39 | n successive pops return the first n units of q, in order, and leave the rest of q queued. |
| TurnOrder.RequeueGoesLast | Assets/Scripts/BattleRuntime/BattleFlow/TurnOrderController.cs:33-47 | After a unit is requeued behind a queue q, the next pops, as many as q has units, return exactly the units of q in their order and leave only that unit queued. |
| EnemyAI.FirstAffordable | Assets/Scripts/BattleRuntime/BattleFlow/EnemyAI.cs:27-40 | The result is the first non-null skill with cost at most SP. None means no such skill exists. |
| EnemyAI.FirstAffordableIsFirst | Assets/Scripts/BattleRuntime/BattleFlow/EnemyAI.cs:27-39 | An affordable skill preceded only by null or unaffordable ones is the one found. |
| EnemyAI.Decide | Assets/Scripts/BattleRuntime/BattleFlow/EnemyAI.cs:22-49 | The loop returns exactly the intent DecideSpec chooses for the unit's skill list and SP. |
| EnemyAI.DecideChoosesFirstAffordable | Assets/Scripts/BattleRuntime/BattleFlow/EnemyAI.cs:22-49 | The decision is a Skill intent iff some non-null skill is affordable. A skill intent uses the first affordable one with its faction and mode flags. Otherwise it is a single-target basic attack on the opposing side. No targets are attached. |
| EnemyAI.DecidedIntentNeedsTarget | Assets/Scripts/BattleRuntime/BattleFlow/EnemyAI.cs:17-19 | A decided intent needs a target unless it is a self-only skill; a basic attack always needs one. |
| EnemyAI.Living | Assets/Scripts/BattleRuntime/BattleFlow/EnemyAI.cs:56 | The result holds exactly the non-null pool units with HP above 0, drawn from the pool. |
| EnemyAI.Without | Assets/Scripts/BattleRuntime/BattleFlow/EnemyAI.cs:89 | The result holds exactly the units outside the avoid set. |
| EnemyAI.Candidates | Assets/Scripts/BattleRuntime/BattleFlow/EnemyAI.cs:88-92 | Candidates are living units, and there is at least one when any unit lives. With a non-empty avoid set, every living unit outside it is a candidate, and when some living unit lies outside it, every candidate does. An empty avoid set, or one that covers every living unit, leaves all living units as candidates, in order. |
| EnemyAI.PickTargets | Assets/Scripts/BattleRuntime/BattleFlow/EnemyAI.cs:51-68 | An empty living pool yields no targets. All mode yields exactly the living pool units in order. Single mode yields exactly one living pool unit; which one is the supplied draw, and EveryLivingDrawable shows every living unit can be drawn. |
| EnemyAI.EveryLivingDrawable | Assets/Scripts/BattleRuntime/BattleFlow/EnemyAI.cs:64-65 | The draw over the living units can land on any of them: every living pool unit is the single pick for some draw in range. |
| EnemyAI.PickTargetsUnique | Assets/Scripts/BattleRuntime/BattleFlow/EnemyAI.cs:70-97 | As PickTargets, except that a single pick is outside the avoid set unless every living unit is in it; EveryCandidateDrawable shows every candidate can be drawn. |
| EnemyAI.EveryCandidateDrawable | Assets/Scripts/BattleRuntime/BattleFlow/EnemyAI.cs:88-95 | The draw over the candidates can land on any of them: every candidate is the single pick for some draw in range. |
| EnemyAI.UniqueWithoutAvoidIsPlain | Assets/Scripts/BattleRuntime/BattleFlow/EnemyAI.cs:70-97 | With an empty avoid set, the unique picker chooses the same targets as the plain one. |
| ActionExecutor.HitsAlong | Assets/Scripts/BattleRuntime/Actions/ActionExecutor.cs:186-195 | Hits along a list never change a unit's statuses or max HP. |
| ActionExecutor.HitsAlongCount | Assets/Scripts/BattleRuntime/Actions/ActionExecutor.cs:186-195 | Only how often a unit is listed matters: the hits of a list are Count(list, u) equal SetHP steps. |
| ActionExecutor.Hit | Assets/Scripts/BattleRuntime/Actions/ActionExecutor.cs:192 | One hit is SetHP(HP + delta): only HP and the death count move, and the unit stays valid. |
| ActionExecutor.HPPass | Assets/Scripts/BattleRuntime/Actions/ActionExecutor.cs:186-195 | Each non-null unit of the list ends as after Count(list, u) hits of its own amount, computed from its stats before the pass. |
| ActionExecutor.HitEach | Assets/Scripts/BattleRuntime/Actions/ActionExecutor.cs:186-195 | The loop applies the hits entry by entry in list order, and every unit stays valid. |
| ActionExecutor.GroupHPPass | Assets/Scripts/BattleRuntime/Actions/ActionExecutor.cs:199-211 | For every unit of the actor's group, including the caster substituted for a self-only heal, the state is that of HPPass. A unit not listed is untouched. |
| ActionExecutor.InflictedAlongCount | Assets/Scripts/BattleRuntime/Actions/ActionExecutor.cs:226-232 | A list gives a unit one instance per occurrence. |
| ActionExecutor.InflictAll | Assets/Scripts/BattleRuntime/Actions/ActionExecutor.cs:226-232 | Each non-null unit gets Count(list, u) new instances appended, with nothing else changed. |
| ActionExecutor.InflictEach | Assets/Scripts/BattleRuntime/Actions/ActionExecutor.cs:226-232 | The loop appends one instance per occurrence, in list order. |
| ActionExecutor.ApplyStatusEntries | Assets/Scripts/BattleRuntime/Actions/ActionExecutor.cs:222-255 | Entries are applied in order with targets inner. Inflict entries with a status add instances; null, statusless and remove entries change nothing. |
| ActionExecutor.ApplyEntry | Assets/Scripts/BattleRuntime/Actions/ActionExecutor.cs:224-245 | One entry adds that entry's instances to each listed unit. |
| ActionExecutor.DoBasicAttack | Assets/Scripts/BattleRuntime/Actions/ActionExecutor.cs:64-112 | An absent or empty list, or a null first target, changes nothing (Abandoned). Otherwise the first target takes SetHP(HP - Physical), the attacker then gains exactly 1 SP (clamped), and no other unit changes. |
| ActionExecutor.SkillStatuses | Assets/Scripts/BattleRuntime/Actions/ActionExecutor.cs:215-256 | Each unit of the group gets exactly the instances the skill's entries give it along the effective list. That list is the caster for a self-only skill without targets. |
| ActionExecutor.SkillEffects | Assets/Scripts/BattleRuntime/Actions/ActionExecutor.cs:182-256 | The HP step (damage along the targets, or heal along the effective list) comes before the status step. Amounts use the statuses held before the skill. |
| ActionExecutor.PaySkill | Assets/Scripts/BattleRuntime/Actions/ActionExecutor.cs:124-256 | The SP cost is paid first. A damage skill with an absent list then faults. Otherwise every unit ends with its paid SP, its hits and its new statuses. |
| ActionExecutor.DoSkill | Assets/Scripts/BattleRuntime/Actions/ActionExecutor.cs:114-268 | A null skill, a non-self-only skill with no targets, or too little SP changes nothing. Otherwise the cost is deducted before any effect, and the effects follow. |
| ActionExecutor.GroupInflict | Assets/Scripts/BattleRuntime/Actions/ActionExecutor.cs:288-291 | Every unit of the group gets one status instance per listed occurrence, and nothing else changes. |
| ActionExecutor.DoItem | Assets/Scripts/BattleRuntime/Actions/ActionExecutor.cs:270-294 | A null item, or an inventory whose TryConsume fails, changes nothing. Otherwise the inventory list is Consume(list, item, 1), and the item's effect follows. |
| ActionExecutor.UseItem | Assets/Scripts/BattleRuntime/Actions/ActionExecutor.cs:278-291 | A heal item heals each listed unit once per occurrence. A status item with a status gives one instance per occurrence. An effect on an absent list faults with no change. |
| ActionExecutor.Execute | Assets/Scripts/BattleRuntime/Actions/ActionExecutor.cs:29-46 | Attack, Skill and Item dispatch to their actions. Only an item touches the inventory. Guard and None change nothing. |
| ActionExecutor.ExecuteIntent | Assets/Scripts/BattleRuntime/Actions/ActionExecutor.cs:48-62 | BasicAttack, Skill and Item dispatch on the intent's own targets. Only an item touches the inventory. Guard and None change nothing. |
| BattleFlow.Draw | Assets/Scripts/BattleRuntime/BattleFlow/EnemyAI.cs:94 | For a positive range, the draw lies in [0, n). |
| BattleFlow.NonNullSet | Assets/Scripts/BattleRuntime/BattleFlow/BattleController.cs:110-112 | The set holds exactly the non-null units of the list. |
| BattleFlow.EnemyTargetsSpread | Assets/Scripts/BattleRuntime/BattleFlow/BattleController.cs:107-108 | A single-target pick avoids every unit already targeted while a living pool unit remains outside the avoid set. |
| BattleFlow.ClearedAvoidPicksPlainly | Assets/Scripts/BattleRuntime/BattleFlow/BattleController.cs:107-108 | With a cleared avoid set, an enemy picks as the plain picker would. |
| BattleFlow.AwaitCommand | Assets/Scripts/BattleRuntime/BattleFlow/BattleController.cs:80-86 | The command used is the first supplied one that is not None. Every earlier one is None; if none qualifies, all the input is used up. |
| BattleFlow.BattleController.constructor | Assets/Scripts/BattleRuntime/BattleFlow/BattleController.cs:23-25 | A controller starts with no active unit and an empty avoid set. |
| BattleFlow.BattleController.AvoidAll | Assets/Scripts/BattleRuntime/BattleFlow/BattleController.cs:110-112 | The avoid set grows by exactly the non-null targets. |
| BattleFlow.BattleController.ChooseTargets | Assets/Scripts/BattleRuntime/BattleFlow/BattleController.cs:107-108 | The targets are the intent's own list, or the unique pick when the intent needs a target and has none. |
| BattleFlow.BattleController.EnemyIntent | Assets/Scripts/BattleRuntime/BattleFlow/BattleController.cs:105-108 | The intent is Decide's choice with its targets chosen against the avoid set, and those targets are units of the battle. |
| BattleFlow.BattleController.EnemyAct | Assets/Scripts/BattleRuntime/BattleFlow/BattleController.cs:114 | Executing an intent keeps every unit valid. A guard or no intent changes nothing. |
| BattleFlow.BattleController.PlayerAct | Assets/Scripts/BattleRuntime/BattleFlow/BattleController.cs:97 | Executing a command keeps every unit valid. A guard or no decision changes nothing. |
| BattleFlow.BattleController.EndTurn | Assets/Scripts/BattleRuntime/BattleFlow/BattleController.cs:68-72 | The unit's statuses tick, and it is requeued at the tail exactly when its HP after the tick is above 0. |
| BattleFlow.BattleController.EnemyTurnUniqueTarget | Assets/Scripts/BattleRuntime/BattleFlow/BattleController.cs:103-119 | The intent is the decided one, and the avoid set grows by exactly its non-null targets. |
| BattleFlow.BattleController.ActTurn | Assets/Scripts/BattleRuntime/BattleFlow/BattleController.cs:50-72 | The avoid set clears exactly when a player follows an enemy. A player acts on its first real command; an enemy uses one draw and adds its targets to the avoid set. Every completed or abandoned action is followed by the tick and a requeue of survivors only. |
| BattleFlow.BattleController.TakeTurn | Assets/Scripts/BattleRuntime/BattleFlow/BattleController.cs:44-72 | An empty queue ends the battle. A popped unit at HP <= 0 is dropped with no turn, no tick and no requeue. Otherwise it acts as in ActTurn, and lastWasEnemy records whether it was an enemy. |
| BattleFlow.BattleController.BattleLoop | Assets/Scripts/BattleRuntime/BattleFlow/BattleController.cs:40-76 | The loop keeps every unit valid. It ends with an empty queue and no active unit when PopNext returns null. |

## Left out

- Presentation:
  - Animation, facing, movement, damage popups, the HUD and the turn-order bar.
  - The `WaitForSeconds` pauses and the coroutine scheduling.
  - The skill's move style and animation trigger, which only drive animation.
- 32-bit integers: C# `int` is 32 bits and wraps on overflow, while the model's `int` is unbounded. The designed stats, item counts and percentages stay far from that range. Sums that could wrap in the game are computed exactly here:
  - `GainSP`'s `currentSP + amount` (CharacterScript.cs:190). Its only caller passes 1 (ActionExecutor.cs:111).
  - `ItemsInventory.Add`'s `e.count += amount` (ItemsInventory.cs:31).
  - `SetHP(currentHP - dmg)` and `SetHP(currentHP + heal)` in the actions (ActionExecutor.cs:97, 192, 209, 284) and in the DOT tick (CharacterScript.cs:225).
  - `Mathf.RoundToInt` of a float outside the `int` range (DamageCalculator.cs:18, 23, 28, 54, 67) is not modelled.
- Float arithmetic: `Mathf.RoundToInt` is applied here to exact rationals with round-half-to-even. The model does not claim bit-exact agreement with single-precision products at rounding boundaries.
- TurnOrder.SortByAgi: takes a list without null entries. The game's sort comparer calls `GetAGI` on every entry before the `if (u)` filter runs, so a null entry would throw there; `SpawnPositions` never registers one.
- TurnOrder.TurnOrderController.Initialize: takes the players and enemies as lists without null entries, for the same reason, so the game's `if (u)` filter is a no-op here.
- TurnOrder.SortByAgi: `List.Sort` is not stable, so the order among units of equal AGI is not specified; only the AGI order and the permutation are.
- Spawning and setup:
  - `SpawnPositions` and `BattleSetup` are not part of this model. The players and enemies are given sequences.
  - `BattleController.Start` (spawning, `Initialize`, HUD binding) is not modelled as one operation. `TurnOrderController.Initialize` is modelled on its own.
- The Remove status op: the game finds a remove method by reflection, and `CharacterScript` has none, so the op does nothing. It is modelled as a no-op.
- Events: the HP- and SP-changed counters are fields of `Combatant`.
  - `UnitState` carries only the OnDied count.
  - The action contracts therefore do not state how often OnHPChanged and OnSPChanged fired. The end-of-turn tick does state its OnHPChanged count, on `TickStatusesAtTurnEnd`.
  - ForecastChanged subscribers are presentation.
- Asset identity: assets are compared by value. Two status, item or skill assets with identical fields are the same asset here.
- Unused parameters: `Physical`'s `maybeSkill` argument is unused by the game and is dropped. So are `Decide`'s players and enemies lists, which it does not read.
- Invariant assumed: actions and ticks require every touched unit to be valid (HP in [0, maxHP], SP in [0, maxSP], statuses with a turn left). The game does not check this, and a unit with negative design max HP is outside the model.
- Faults:
  - A NullReferenceException from iterating an absent target list is the `Faulted` outcome.
  - In the game, the exception is thrown inside the nested `yield return executor.Execute(...)` coroutine. Unity then leaves the battle loop suspended, so no further turn is taken. `BattleLoop` stops with `ActionFaulted`, and the tick and requeue of that turn do not happen.
- Player input: the command menu and the targeting UI are replaced by supplied `TurnInput` entries.
  - A cancelled menu counts as a `None` decision.
  - The supplied targets stand for the targeting UI's result, with no distinction between a decision's own targets and the selected ones.
  - Every supplied target must be a unit of the battle.
- Random draws: `Random.Range` is a supplied number reduced into range. An enemy's turn consumes one input entry for it.
- BattleLoop: the game's loop has no victory check. Once one side is wiped out, the survivors keep taking turns with nothing to hit, and the loop ends only when every unit is dead. The model's loop also stops when the supplied input runs out, which hides this non-termination.
- BattleLoop: the game's loop runs until the queue is empty. The model also stops when the supplied input runs out, and its contract states validity and the empty-queue exit; the per-turn facts are on TakeTurn and ActTurn.
- The avoid set: the game's `HashSet` is never null, so the null-set branch of the unique picker is not reachable from the battle. An empty set behaves as the game's null or empty set.
- BattleFlow.BattleController.EnemyAct: does not restate the executor's per-unit effect predicates. They are stated on `ExecuteIntent`. Here only validity and the guard case are kept, to keep verification cheap.
- BattleFlow.BattleController.PlayerAct: does not restate the executor's per-unit effect predicates. They are stated on `Execute`. Here only validity and the guard case are kept.
- BattleFlow.BattleController.EnemyTurnUniqueTarget: states the decision and the avoid-set update, not the action's effects. The targets chosen are stated on `EnemyIntent`.
- The actor of an action is never null: the game passes the active unit, which the loop has checked.
