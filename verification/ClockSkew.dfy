/** Which clock readings break the sliding-window bound: exactly those whose forward steps add up to
    more than the time between the first reading and the last. */
module ClockSkew {
  import opened Wrappers
  import opened WaiterState
  import opened QueueModel
  import opened RateBounds
  import opened OpeningCrowd

  /** Joins and ticks, from one tick to another. */
  ghost predicate Window(es: seq<Event>) {
    es != [] && Steady(es) && es[0].Admit? && es[|es| - 1].Admit?
  }

  function Elapsed(es: seq<Event>): int
    requires Window(es)
  {
    Max(0, es[|es| - 1].now - es[0].now)
  }

  /** The bound of SlidingWindow, for every queue these events may run on. */
  ghost predicate BoundHolds(es: seq<Event>)
    requires Window(es)
  {
    forall q: Queue, c | Sound(q) && q.config == Some(c) :: BoundedOn(q, c, es)
  }

  ghost predicate BoundedOn(q: Queue, c: Config, es: seq<Event>)
    requires Window(es)
  {
    UNIT * Admissions(q, es, 0, |es|) <= UNIT * c.burst + c.rate * Elapsed(es)
  }

  /** The condition is on the clock readings alone. */
  lemma {:induction false} BoundHoldsIff(es: seq<Event>)
    requires Window(es)
    ensures BoundHolds(es) <==> Forward(es, 0, |es|) <= Elapsed(es)
  {
    hide Tick, At, Admissions, Forward;
    if Forward(es, 0, |es|) <= Elapsed(es) {
      forall q: Queue, c | Sound(q) && q.config == Some(c)
        ensures BoundedOn(q, c, es)
      {
        ForwardBound(q, c, es, 0, |es|);
        NonNegativeProduct(c.rate, Elapsed(es) - Forward(es, 0, |es|));
      }
    } else {
      ForwardIsAttained(es);
      var f := Forward(es, 0, |es|);
      assert !BoundedOn(Crowded(AtOnePerMillisecond(f), 2 * f + 1), AtOnePerMillisecond(f), es);
    }
  }

  /** One token a millisecond, and room to bank everything the window earns. */
  function AtOnePerMillisecond(forward: nat): Config {
    Config(UNIT, forward + 1, forward + 1)
  }

  /** An event that n people joined before its first tick. */
  function Crowded(c: Config, n: nat): Queue {
    QueueData(Names(n), 0, Unset, Some(c))
  }

  lemma {:induction false} ForwardGrows(es: seq<Event>, k: nat)
    requires k <= |es|
    ensures 0 <= Forward(es, 0, k) <= Forward(es, 0, |es|)
    decreases |es| - k, k
  {
    if k < |es| {
      ForwardGrows(es, k + 1);
    }
    ForwardIsNat(es, k);
  }

  lemma {:induction false} ForwardIsNat(es: seq<Event>, k: nat)
    requires k <= |es|
    ensures 0 <= Forward(es, 0, k)
  {
    if k > 0 {
      ForwardIsNat(es, k - 1);
    }
  }

  /** After k events the crowd has had the burst and a waiter for every millisecond forward, and the
      bucket is empty. */
  ghost predicate AllSpent(q: Queue, c: Config, forward: int, last: Option<int>) {
    && last.Some? && q.config == Some(c) && q.bucket == Level(0, last.value)
    && q.admitted == c.burst + forward && 2 * c.burst - 1 <= |q.log|
  }

  lemma {:induction false} SpendStep(q: Queue, f: nat, done: nat, last: Option<int>, e: Event)
    requires AllSpent(q, AtOnePerMillisecond(f), done, last) && (e.Admit? || e.Join?)
    requires done + ForwardStep(last, e) <= f
    ensures AllSpent(Step(q, e), AtOnePerMillisecond(f), done + ForwardStep(last, e),
                     if e.Admit? then Some(e.now) else last)
  {
  }

  lemma {:induction false} SpendsAll(es: seq<Event>, k: nat)
    requires Window(es) && 1 <= k <= |es| && 0 <= Forward(es, 0, |es|)
    ensures var f := Forward(es, 0, |es|);
      var c := AtOnePerMillisecond(f);
      AllSpent(At(Crowded(c, 2 * f + 1), es, k), c, Forward(es, 0, k), LastTick(es, 0, k))
  {
    hide Tick, AllSpent;
    var f := Forward(es, 0, |es|);
    var c := AtOnePerMillisecond(f);
    if k == 1 {
      OpeningSpends(es, f);
    } else {
      SpendsAll(es, k - 1);
      ForwardGrows(es, k);
      ForwardGrows(es, k - 1);
      SpendStep(At(Crowded(c, 2 * f + 1), es, k - 1), f, Forward(es, 0, k - 1), LastTick(es, 0, k - 1), es[k - 1]);
    }
  }

  lemma {:induction false} OpeningSpends(es: seq<Event>, f: nat)
    requires Window(es)
    ensures var c := AtOnePerMillisecond(f);
      AllSpent(At(Crowded(c, 2 * f + 1), es, 1), c, Forward(es, 0, 1), LastTick(es, 0, 1))
  {
    var q := Crowded(AtOnePerMillisecond(f), 2 * f + 1);
    assert At(q, es, 0) == q && LastTick(es, 0, 0) == None;
  }

  /** A run in which the window admits the burst and the whole of its forward motion. */
  lemma {:induction false} ForwardIsAttained(es: seq<Event>)
    requires Window(es)
    ensures 0 <= Forward(es, 0, |es|)
    ensures var f := Forward(es, 0, |es|);
      var c, n := AtOnePerMillisecond(f), 2 * f + 1;
      var q := Crowded(c, n);
      && Sound(q) && q == At(Open(c), Crowd(n), n)
      && Admissions(q, es, 0, |es|) == f + 1 + f
  {
    hide Tick;
    ForwardGrows(es, |es|);
    SpendsAll(es, |es|);
    var f := Forward(es, 0, |es|);
    CrowdArrives(AtOnePerMillisecond(f), 2 * f + 1);
    AdmissionsTelescope(Crowded(AtOnePerMillisecond(f), 2 * f + 1), es, 0, |es|);
  }
}
