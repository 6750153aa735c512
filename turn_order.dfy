/**
 * The turn queue: a FIFO of combatants, filled once in descending AGI
 * order, from which the battle pops the next unit and to which it requeues
 * survivors. The forecast is the current unit (if any) followed by the
 * queue; the ForecastChanged event is modelled as a counter.
 */
module TurnOrder {
  import opened Character

  /** AGI never increases along the sequence. */
  ghost predicate SortedByAgi(s: seq<Combatant>)
  {
    forall i, j :: 0 <= i < j < |s| ==> s[i].GetAGI() >= s[j].GetAGI()
  }

  /** Every unit of s has AGI at most b. */
  ghost predicate AgiAtMost(s: seq<Combatant>, b: int)
  {
    forall i :: 0 <= i < |s| ==> s[i].GetAGI() <= b
  }

  /** Inserts x into a sequence, after the leading units that are at least as agile. */
  function InsertByAgi(x: Combatant, s: seq<Combatant>): (r: seq<Combatant>)
    ensures |r| == |s| + 1
  {
    if s == [] then [x]
    else if s[0].GetAGI() >= x.GetAGI() then [s[0]] + InsertByAgi(x, s[1..])
    else [x] + s
  }

  /** Insertion keeps a bound on AGI that x also meets. */
  lemma {:induction false} InsertByAgiBound(x: Combatant, s: seq<Combatant>, b: int)
    requires AgiAtMost(s, b) && x.GetAGI() <= b
    ensures AgiAtMost(InsertByAgi(x, s), b)
  {
    if s != [] && s[0].GetAGI() >= x.GetAGI() {
      InsertByAgiBound(x, s[1..], b);
    }
  }

  /** A unit at least as agile as everything after it extends a sorted sequence. */
  lemma SortedCons(h: Combatant, t: seq<Combatant>)
    requires SortedByAgi(t) && AgiAtMost(t, h.GetAGI())
    ensures SortedByAgi([h] + t)
  {
    forall i, j | 0 <= i < j < |[h] + t|
      ensures ([h] + t)[i].GetAGI() >= ([h] + t)[j].GetAGI()
    {
      if i > 0 {
        assert ([h] + t)[i] == t[i - 1];
      }
      assert ([h] + t)[j] == t[j - 1];
    }
  }

  /** Inserting into an AGI-sorted sequence keeps it sorted and adds exactly x. */
  lemma InsertByAgiSorted(x: Combatant, s: seq<Combatant>)
    requires SortedByAgi(s)
    ensures multiset(InsertByAgi(x, s)) == multiset(s) + multiset{x}
    ensures SortedByAgi(InsertByAgi(x, s))
  {
    InsertByAgiAddsX(x, s);
    InsertByAgiKeepsOrder(x, s);
  }

  /** Insertion adds exactly x. */
  lemma {:induction false} InsertByAgiAddsX(x: Combatant, s: seq<Combatant>)
    ensures multiset(InsertByAgi(x, s)) == multiset(s) + multiset{x}
  {
    if s != [] && s[0].GetAGI() >= x.GetAGI() {
      var t := s[1..];
      assert s == [s[0]] + t;
      InsertByAgiAddsX(x, t);
    }
  }

  /** Insertion into an AGI-sorted sequence keeps it sorted. */
  lemma {:induction false} InsertByAgiKeepsOrder(x: Combatant, s: seq<Combatant>)
    requires SortedByAgi(s)
    ensures SortedByAgi(InsertByAgi(x, s))
  {
    if s == [] {
    } else if s[0].GetAGI() >= x.GetAGI() {
      var t := s[1..];
      InsertByAgiKeepsOrder(x, t);
      InsertByAgiBound(x, t, s[0].GetAGI());
      SortedCons(s[0], InsertByAgi(x, t));
    } else {
      assert AgiAtMost(s, x.GetAGI());
      SortedCons(x, s);
    }
  }

  /**
   * The units of all, reordered by non-increasing AGI: insertion of each
   * unit in turn into the sorted prefix.
   */
  method SortByAgi(all: seq<Combatant>) returns (q: seq<Combatant>)
    ensures multiset(q) == multiset(all)
    ensures SortedByAgi(q)
  {
    q := [];
    var i := 0;
    while i < |all|
      invariant 0 <= i <= |all|
      invariant multiset(q) == multiset(all[..i])
      invariant SortedByAgi(q)
    {
      assert all[..i + 1] == all[..i] + [all[i]];
      InsertByAgiSorted(all[i], q);
      q := InsertByAgi(all[i], q);
      i := i + 1;
    }
    assert all[..|all|] == all;
  }

  /** The forecast: the current unit, if there is one, then the queue in order. */
  function ForecastOf(current: Combatant?, queue: seq<Combatant>): (r: seq<Combatant>)
    ensures current == null ==> r == queue
    ensures current != null ==> |r| == |queue| + 1 && r[0] == current && r[1..] == queue
  {
    (if current != null then [current] else []) + queue
  }

  class TurnOrderController {
    var queue: seq<Combatant>
    var current: Combatant?
    var forecast: seq<Combatant>
    /** How often ForecastChanged has fired. */
    var forecastChangedEvents: nat

    /** The forecast is up to date. */
    ghost predicate Valid()
      reads this
    {
      forecast == ForecastOf(current, queue)
    }

    constructor ()
      ensures queue == [] && current == null && forecast == [] && forecastChangedEvents == 0
      ensures Valid()
    {
      queue, current, forecast, forecastChangedEvents := [], null, [], 0;
    }

    /**
     * Clears everything, then queues every player and enemy, ordered by
     * non-increasing AGI, and rebuilds the forecast.
     */
    method Initialize(players: seq<Combatant>, enemies: seq<Combatant>)
      modifies this
      ensures current == null
      ensures multiset(queue) == multiset(players + enemies)
      ensures SortedByAgi(queue)
      ensures forecast == queue && Valid()
      ensures forecastChangedEvents == old(forecastChangedEvents) + 1
    {
      queue := SortByAgi(players + enemies);
      current := null;
      RebuildForecast();
    }

    /** Removes and returns the head of the queue, which becomes current; null on an empty queue, changing nothing. */
    method PopNext() returns (u: Combatant?)
      modifies this
      ensures old(queue) == [] ==> u == null && queue == old(queue) && current == old(current)
                                   && forecast == old(forecast) && forecastChangedEvents == old(forecastChangedEvents)
      ensures old(queue) != [] ==> u == old(queue)[0] && queue == old(queue)[1..] && current == u
                                   && forecast == [u] + queue && forecastChangedEvents == old(forecastChangedEvents) + 1
      ensures old(Valid()) ==> Valid()
    {
      if |queue| == 0 {
        return null;
      }
      current := queue[0];
      queue := queue[1..];
      RebuildForecast();
      return current;
    }

    /**
     * Appends a non-null unit at the tail, behind every unit already
     * queued, and clears current when it was that unit; null is ignored.
     */
    method Requeue(unit: Combatant?)
      modifies this
      ensures unit == null ==> queue == old(queue) && current == old(current)
                               && forecast == old(forecast) && forecastChangedEvents == old(forecastChangedEvents)
      ensures unit != null ==> queue == old(queue) + [unit]
                               && current == (if old(current) == unit then null else old(current))
                               && forecastChangedEvents == old(forecastChangedEvents) + 1
      ensures unit != null || old(Valid()) ==> Valid()
    {
      if unit == null {
        return;
      }
      queue := queue + [unit];
      if current == unit {
        current := null;
      }
      RebuildForecast();
    }

    /** Recomputes the forecast from current and the queue, and fires ForecastChanged. */
    method RebuildForecast()
      modifies this`forecast, this`forecastChangedEvents
      ensures forecast == ForecastOf(current, queue) && Valid()
      ensures forecastChangedEvents == old(forecastChangedEvents) + 1
    {
      forecast := [];
      if current != null {
        forecast := forecast + [current];
      }
      forecast := forecast + queue;
      forecastChangedEvents := forecastChangedEvents + 1;
    }
  }

  /**
   * What n successive PopNext calls on a queue q return, in order, and the
   * queue they leave: PopNext removes the head each time (popped[k] is the
   * unit the (k+1)-th call returns).
   */
  function PopMany(q: seq<Combatant>, n: nat): (r: (seq<Combatant>, seq<Combatant>))
    requires n <= |q|
    ensures |r.0| == n && r.0 + r.1 == q
  {
    if n == 0 then ([], q)
    else
      var (popped, rest) := PopMany(q[1..], n - 1);
      ([q[0]] + popped, rest)
  }

  /**
   * FIFO fairness of Requeue: after unit is requeued behind the queue q,
   * the next |q| pops return exactly the units of q, in their order, and
   * leave only unit queued.
   */
  lemma {:induction false} RequeueGoesLast(q: seq<Combatant>, unit: Combatant)
    ensures PopMany(q + [unit], |q|) == (q, [unit])
  {
    if q == [] {
      assert q + [unit] == [unit];
    } else {
      var s := q + [unit];
      assert s[1..] == q[1..] + [unit];
      RequeueGoesLast(q[1..], unit);
      assert PopMany(s, |q|) == ([s[0]] + PopMany(s[1..], |q| - 1).0, PopMany(s[1..], |q| - 1).1);
      assert [q[0]] + q[1..] == q;
    }
  }
}
