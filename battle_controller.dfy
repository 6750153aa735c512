/**
 * The battle loop's bookkeeping: who acts next, skipping the dead, the
 * enemies' shared avoid set and when it is cleared, the end-of-turn status
 * tick and requeueing only survivors. The player's command and the random
 * draws come in from outside: the menus that produce a command are
 * presentation, and Random.Range is a number the caller supplies.
 */
module BattleFlow {
  import opened GameData
  import opened Character
  import opened Inventory
  import opened TurnOrder
  import opened ActionExecutor
  import EnemyAI

  /**
   * What one pass of the loop did: found the queue empty, skipped a dead
   * unit, stopped at a unit whose turn needs input not yet supplied, or let
   * a unit act.
   */
  datatype TurnResult = NoUnit | Skipped | AwaitingInput | Acted(outcome: Outcome, targets: Option<seq<Combatant?>>)

  /**
   * Why the loop stopped: the queue ran dry, an action faulted, or a turn
   * is still waiting for input that has not been supplied.
   */
  datatype LoopEnd = QueueEmpty | ActionFaulted | InputExhausted

  /**
   * What the outside world supplies for one pass: the command and targets
   * a player would choose in the menus, and the number the target draw uses.
   */
  datatype TurnInput = TurnInput(decision: CommandDecision, targets: Option<seq<Combatant?>>, roll: nat)

  /** Random.Range(0, n) for n > 0, as a caller-supplied number reduced into range. */
  function Draw(roll: nat, n: nat): (r: nat)
    ensures n > 0 ==> r < n
  {
    if n > 0 then roll % n else 0
  }

  /** The non-null units of a list, the ones an enemy turn adds to the avoid set. */
  function NonNullSet(ts: seq<Combatant?>): (r: set<Combatant>)
    ensures forall u | u in r :: u in ts
    ensures forall k | 0 <= k < |ts| && ts[k] != null :: ts[k] in r
  {
    if ts == [] then {}
    else NonNullSet(ts[..|ts| - 1]) + (if ts[|ts| - 1] != null then {ts[|ts| - 1]} else {})
  }

  function TargetSet(targets: Option<seq<Combatant?>>): set<Combatant>
  {
    NonNullSet(Entries(targets))
  }

  /** Every entry of a target list is one of the units. */
  predicate Within(targets: Option<seq<Combatant?>>, units: seq<Combatant?>)
  {
    forall k | 0 <= k < |Entries(targets)| && Entries(targets)[k] != null :: Entries(targets)[k] in units
  }

  /**
   * The targets an enemy turn acts on: the intent's own list, or, when
   * the intent needs a target and has none, the unique pick against the
   * avoid set with the supplied draw.
   */
  function EnemyTargets(intent: EnemyAI.Intent, players: seq<Combatant?>, enemies: seq<Combatant?>, avoid: set<Combatant>, roll: nat): Option<seq<Combatant?>>
    reads EnemyAI.Pool(intent, players, enemies)
  {
    if intent.NeedsTarget() && Entries(intent.targets) == [] then
      Some(EnemyAI.PickTargetsUnique(intent, players, enemies, avoid, Draw(roll, EnemyAI.PickRange(intent, players, enemies, avoid))))
    else intent.targets
  }

  /**
   * The targets of an enemy turn come from the battle: a picked list holds
   * only living units of the pool, and an intent's own list is kept.
   */
  lemma EnemyTargetsWithin(intent: EnemyAI.Intent, players: seq<Combatant?>, enemies: seq<Combatant?>, avoid: set<Combatant>, roll: nat)
    requires Within(intent.targets, players + enemies)
    ensures Within(EnemyTargets(intent, players, enemies, avoid, roll), players + enemies)
  {
  }

  /**
   * The player's command loop: a cancelled menu or a `None` decision asks
   * again, so the command used is the first supplied one that is a real
   * decision; k == |inputs| when none is.
   */
  method AwaitCommand(inputs: seq<TurnInput>) returns (k: nat)
    ensures k <= |inputs|
    ensures k < |inputs| ==> inputs[k].decision.decisionType != NoDecision
    ensures forall j | 0 <= j < k :: inputs[j].decision.decisionType == NoDecision
  {
    k := 0;
    while k < |inputs| && inputs[k].decision.decisionType == NoDecision
      invariant k <= |inputs|
      invariant forall j | 0 <= j < k :: inputs[j].decision.decisionType == NoDecision
    {
      k := k + 1;
    }
  }

  /**
   * The avoid set spreads single-target picks: an intent that needs a
   * target and has none gets one living unit of its pool, and that unit is
   * outside the avoid set whenever some living unit of the pool is.
   */
  lemma EnemyTargetsSpread(intent: EnemyAI.Intent, players: seq<Combatant?>, enemies: seq<Combatant?>, avoid: set<Combatant>, roll: nat, spare: Combatant)
    requires intent.NeedsTarget() && Entries(intent.targets) == [] && intent.targetMode == EnemyAI.TargetMode.Single
    requires spare in EnemyAI.Pool(intent, players, enemies) && spare.currentHP > 0 && spare !in avoid
    ensures var r := EnemyTargets(intent, players, enemies, avoid, roll);
            r.Some? && |r.value| == 1 && r.value[0] in EnemyAI.Pool(intent, players, enemies)
            && r.value[0].currentHP > 0 && r.value[0] !in avoid
  {
  }

  /**
   * Once the avoid set has been cleared, an enemy's pick is the plain
   * one: the living unit at the drawn index of its pool, or all of them.
   */
  lemma ClearedAvoidPicksPlainly(intent: EnemyAI.Intent, players: seq<Combatant?>, enemies: seq<Combatant?>, roll: nat)
    ensures var living := EnemyAI.Living(EnemyAI.Pool(intent, players, enemies));
            EnemyTargets(intent, players, enemies, {}, roll) ==
              if intent.NeedsTarget() && Entries(intent.targets) == [] then
                Some(EnemyAI.PickTargets(intent, players, enemies, Draw(roll, |living|)))
              else intent.targets
  {
  }

  /** An action's group lies inside the battle: the actor and every listed unit are units of it. */
  lemma GroupWithin(actor: Combatant, targets: Option<seq<Combatant?>>, units: seq<Combatant?>)
    requires actor in units && Within(targets, units)
    ensures forall k | 0 <= k < |Group(actor, targets)| && Group(actor, targets)[k] != null :: Group(actor, targets)[k] in units
  {
  }

  class BattleController {
    const turnOrder: TurnOrderController
    /** The spawned players and enemies. */
    const players: seq<Combatant?>
    const enemies: seq<Combatant?>

    var active: Combatant?
    /** The units enemies have targeted since a player last acted after an enemy. */
    var avoid: set<Combatant>

    function Units(): seq<Combatant?>
    {
      players + enemies
    }

    /** The units' inventories: an item consumes from the user's one. */
    function Inventories(): set<ItemsInventory>
    {
      set j | 0 <= j < |Units()| && Units()[j] != null && Units()[j].inventory != null :: Units()[j].inventory
    }

    /** Every unit is valid, the forecast is current, and only spawned units are queued. */
    ghost predicate Valid()
      reads turnOrder, Units()
    {
      && turnOrder.Valid()
      && AllValid(Units())
      && forall k | 0 <= k < |turnOrder.queue| :: turnOrder.queue[k] in Units()
    }

    constructor (turnOrder: TurnOrderController, players: seq<Combatant?>, enemies: seq<Combatant?>)
      ensures this.turnOrder == turnOrder && this.players == players && this.enemies == enemies
      ensures active == null && avoid == {}
    {
      this.turnOrder := turnOrder;
      this.players := players;
      this.enemies := enemies;
      active := null;
      avoid := {};
    }
  
    /** A unit of the battle is in the battle's frame, with its inventory. */
    lemma InFrame(u: Combatant)
      requires u in Units()
      ensures u.inventory != null ==> u.inventory in Inventories()
    {
    }

    /** Adds every non-null unit of ts to the avoid set. */
    method AvoidAll(ts: seq<Combatant?>)
      modifies this`avoid
      ensures avoid == old(avoid) + NonNullSet(ts)
    {
      var i := 0;
      while i < |ts|
        invariant 0 <= i <= |ts|
        invariant avoid == old(avoid) + NonNullSet(ts[..i])
      {
        assert ts[..i + 1][..i] == ts[..i];
        assert NonNullSet(ts[..i + 1]) == NonNullSet(ts[..i]) + (if ts[i] != null then {ts[i]} else {});
        if ts[i] != null {
          avoid := avoid + {ts[i]};
        }
        i := i + 1;
      }
      assert ts[..|ts|] == ts;
    }

    /** The targets of an intent: its own, or a unique pick when it needs a target and has none. */
    method ChooseTargets(intent: EnemyAI.Intent, roll: nat) returns (targets: Option<seq<Combatant?>>)
      ensures targets == EnemyTargets(intent, players, enemies, avoid, roll)
    {
      targets := intent.targets;
      if intent.NeedsTarget() && (intent.targets.None? || |intent.targets.value| == 0) {
        var n := EnemyAI.PickRange(intent, players, enemies, avoid);
        var picked := EnemyAI.PickTargetsUnique(intent, players, enemies, avoid, Draw(roll, n));
        targets := Some(picked);
      }
    }

    /**
     * The choice half of an enemy's turn: decide the intent and, when it
     * needs a target and has none, pick one that avoids the units already
     * targeted.
     */
    method EnemyIntent(actor: Combatant, roll: nat) returns (intent: EnemyAI.Intent)
      ensures var decided := EnemyAI.DecideSpec(actor.skills, actor.currentSP);
              intent == decided.(targets := EnemyTargets(decided, players, enemies, avoid, roll))
      ensures Within(intent.targets, Units())
    {
      intent := EnemyAI.Decide(actor, players, enemies);
      var targets := ChooseTargets(intent, roll);
      EnemyTargetsWithin(intent, players, enemies, avoid, roll);
      intent := intent.(targets := targets);
    }

    /** An action of a unit of the battle on units of the battle keeps every unit valid. */
    method EnemyAct(actor: Combatant, intent: EnemyAI.Intent) returns (outcome: Outcome)
      requires Valid() && actor in Units() && Within(intent.targets, Units())
      modifies Units(), Inventories()
      ensures Valid()
      ensures intent.intentType in {EnemyAI.NoIntent, EnemyAI.Guard} ==> outcome == Completed && NothingDone(actor, intent.targets)
    {
      ghost var g := Group(actor, intent.targets);
      GroupWithin(actor, intent.targets, Units());
      InFrame(actor);
      forall k | 0 <= k < |g| && g[k] != null
        ensures g[k].Valid()
      {
        var j := IndexOf(Units(), g[k]);
      }
      outcome := ActionExecutor.ExecuteIntent(actor, intent);
      forall j | 0 <= j < |Units()| && Units()[j] != null
        ensures Units()[j].Valid()
      {
        if Units()[j] in g {
          var k := IndexOf(g, Units()[j]);
        }
      }
    }
  
    /** A player's command on units of the battle keeps every unit valid. */
    method PlayerAct(actor: Combatant, decision: CommandDecision, targets: Option<seq<Combatant?>>) returns (outcome: Outcome)
      requires Valid() && actor in Units() && Within(targets, Units())
      modifies Units(), Inventories()
      ensures Valid()
      ensures decision.decisionType in {NoDecision, Guard} ==> outcome == Completed && NothingDone(actor, targets)
    {
      ghost var g := Group(actor, targets);
      GroupWithin(actor, targets, Units());
      InFrame(actor);
      forall k | 0 <= k < |g| && g[k] != null
        ensures g[k].Valid()
      {
        var j := IndexOf(Units(), g[k]);
      }
      outcome := ActionExecutor.Execute(actor, decision, targets);
      forall j | 0 <= j < |Units()| && Units()[j] != null
        ensures Units()[j].Valid()
      {
        if Units()[j] in g {
          var k := IndexOf(g, Units()[j]);
        }
      }
    }

    /**
     * The end of a turn: the active unit's statuses tick (damage over time
     * first, then durations), and it goes back to the tail of the queue
     * only when it is still alive.
     */
    method EndTurn(u: Combatant)
      requires Valid() && u in Units()
      modifies u`activeStatusEffects, u`currentHP, u`hpChangedEvents, u`diedEvents, turnOrder
      ensures Valid()
      ensures u.activeStatusEffects == Ticked(old(u.activeStatusEffects))
      ensures u.currentHP == DotsApplied(old(u.currentHP), old(u.activeStatusEffects), u.maxHP)
      ensures u.diedEvents == old(u.diedEvents) + (if old(u.currentHP) > 0 && u.currentHP == 0 then 1 else 0)
      ensures turnOrder.queue == old(turnOrder.queue) + (if u.currentHP > 0 then [u] else [])
    {
      var j := IndexOf(Units(), u);
      u.TickStatusesAtTurnEnd();
      if u.currentHP > 0 {
        turnOrder.Requeue(u);
      }
    }
  
    /**
     * An enemy's turn: it decides and picks its targets (EnemyIntent, on
     * the state the turn starts in), adds the chosen units to the avoid
     * set, and executes the intent.
     */
    method EnemyTurnUniqueTarget(u: Combatant, roll: nat) returns (intent: EnemyAI.Intent, outcome: Outcome)
      requires Valid() && u in Units()
      modifies this`avoid, Units(), Inventories()
      ensures Valid()
      ensures intent.(targets := None) == EnemyAI.DecideSpec(u.skills, old(u.currentSP))
      ensures avoid == old(avoid) + TargetSet(intent.targets)
    {
      intent := EnemyIntent(u, roll);
      if intent.targets.Some? {
        AvoidAll(intent.targets.value);
      }
      outcome := EnemyAct(u, intent);
    }

    /**
     * The turn of a living unit just popped from the queue. A player acting
     * right after an enemy clears the avoid set. A player takes the first
     * real command of the input; an enemy takes one entry for its draw and
     * adds its targets to the avoid set. After a completed or abandoned
     * action the unit ticks and is requeued only when alive; a faulted
     * action stops the turn where it broke. acted is the unit's state
     * between action and tick.
     */
    method ActTurn(u: Combatant, lastWasEnemy: bool, inputs: seq<TurnInput>) returns (r: TurnResult, used: nat, enemyLast: bool, ghost acted: UnitState)
      requires Valid() && u in Units()
      requires forall i | 0 <= i < |inputs| :: Within(inputs[i].targets, Units())
      modifies this`avoid, turnOrder, Units(), Inventories()
      ensures Valid() && used <= |inputs|
      ensures r.AwaitingInput? || r.Acted?
      ensures u in players ==> avoid == (if lastWasEnemy then {} else old(avoid))
      ensures r.Acted? && u in players ==>
        && 1 <= used && r.targets == inputs[used - 1].targets && !enemyLast
        && inputs[used - 1].decision.decisionType != NoDecision
        && forall j | 0 <= j < used - 1 :: inputs[j].decision.decisionType == NoDecision
      ensures r.Acted? && u !in players ==>
        && used == 1 && enemyLast
        && avoid == old(avoid) + TargetSet(r.targets)
      ensures r == AwaitingInput ==>
        && turnOrder.queue == old(turnOrder.queue) && enemyLast == lastWasEnemy
        && (if u in players then used == |inputs| else |inputs| == 0 && avoid == old(avoid))
      ensures r.Acted? && r.outcome == Faulted ==> turnOrder.queue == old(turnOrder.queue)
      ensures r.Acted? && r.outcome != Faulted ==>
        && u.activeStatusEffects == Ticked(acted.statuses)
        && u.currentHP == DotsApplied(acted.currentHP, acted.statuses, u.maxHP)
        && turnOrder.queue == old(turnOrder.queue) + (if u.currentHP > 0 then [u] else [])
    {
      acted := u.State();
      enemyLast := lastWasEnemy;
      var isPlayer := u in players;
      if isPlayer && lastWasEnemy {
        avoid := {};
      }
      var outcome: Outcome;
      if isPlayer {
        var k := AwaitCommand(inputs);
        if k == |inputs| {
          r, used := AwaitingInput, k;
          return;
        }
        outcome := PlayerAct(u, inputs[k].decision, inputs[k].targets);
        r, used, enemyLast := Acted(outcome, inputs[k].targets), k + 1, false;
      } else {
        if |inputs| == 0 {
          r, used := AwaitingInput, 0;
          return;
        }
        var intent;
        intent, outcome := EnemyTurnUniqueTarget(u, inputs[0].roll);
        r, used, enemyLast := Acted(outcome, intent.targets), 1, true;
      }
      acted := u.State();
      if outcome == Faulted {
        return;
      }
      EndTurn(u);
    }

    /**
     * One pass of BattleLoop: the head of the queue becomes active; an
     * empty queue ends the battle, a dead unit is dropped without a turn,
     * a tick or a requeue, and a living one takes its turn.
     */
    method TakeTurn(lastWasEnemy: bool, inputs: seq<TurnInput>) returns (r: TurnResult, used: nat, enemyLast: bool, ghost acted: UnitState)
      requires Valid()
      requires forall i | 0 <= i < |inputs| :: Within(inputs[i].targets, Units())
      modifies this`active, this`avoid, turnOrder, Units(), Inventories()
      ensures Valid() && used <= |inputs|
      ensures r == NoUnit <==> old(turnOrder.queue) == []
      ensures r == NoUnit ==> active == null && turnOrder.queue == [] && avoid == old(avoid)
      ensures r.NoUnit? || r.Skipped? ==> used == 0 && enemyLast == lastWasEnemy
      ensures r.Acted? ==> 1 <= used
      ensures old(turnOrder.queue) != [] ==>
        var u := old(turnOrder.queue)[0];
        && active == u
        && (r == Skipped <==> old(u.currentHP) <= 0)
        && (r == Skipped ==> turnOrder.queue == old(turnOrder.queue)[1..] && avoid == old(avoid) && unchanged(u))
        && (r != Skipped && u in players ==> avoid == (if lastWasEnemy then {} else old(avoid)))
        && (r.Acted? && u !in players ==> avoid == old(avoid) + TargetSet(r.targets))
        && (r.Acted? ==> enemyLast == (u !in players))
        && (r == AwaitingInput || (r.Acted? && r.outcome == Faulted) ==> turnOrder.queue == old(turnOrder.queue)[1..])
        && (r.Acted? && r.outcome != Faulted ==>
              && u.activeStatusEffects == Ticked(acted.statuses)
              && u.currentHP == DotsApplied(acted.currentHP, acted.statuses, u.maxHP)
              && turnOrder.queue == old(turnOrder.queue)[1..] + (if u.currentHP > 0 then [u] else []))
    {
      acted := UnitState("", 0, 0, 0, 0, [], 0);
      r, used, enemyLast := NoUnit, 0, lastWasEnemy;
      var u := turnOrder.PopNext();
      active := u;
      if u == null {
        return;
      }
      if u.currentHP <= 0 {
        r := Skipped;
        return;
      }
      r, used, enemyLast, acted := ActTurn(u, lastWasEnemy, inputs);
    }

    /**
     * The battle loop, fed with the supplied input: turns follow the queue
     * until it is empty, an action faults, or a turn needs input that has
     * run out. lastWasEnemy starts false and records the kind of the last
     * unit that acted. used counts the input entries consumed.
     */
    method BattleLoop(inputs: seq<TurnInput>) returns (stop: LoopEnd, used: nat)
      requires Valid()
      requires forall i | 0 <= i < |inputs| :: Within(inputs[i].targets, Units())
      modifies this`active, this`avoid, turnOrder, Units(), Inventories()
      ensures Valid() && used <= |inputs|
      ensures stop == QueueEmpty ==> turnOrder.queue == [] && active == null
    {
      var lastWasEnemy := false;
      used := 0;
      while true
        invariant Valid() && used <= |inputs|
        decreases |inputs| - used, |turnOrder.queue|
      {
        var rest := inputs[used..];
        assert forall i | 0 <= i < |rest| :: rest[i] == inputs[used + i];
        var r, n, enemyLast, acted := TakeTurn(lastWasEnemy, rest);
        match r
        case NoUnit =>
          return QueueEmpty, used;
        case AwaitingInput =>
          return InputExhausted, used + n;
        case Skipped =>
        case Acted(outcome, _) =>
          if outcome == Faulted {
            return ActionFaulted, used + n;
          }
        used, lastWasEnemy := used + n, enemyLast;
      }
    }
  }
}
