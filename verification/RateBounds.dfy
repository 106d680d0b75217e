/** How much any number of admitter processes, ticking at any times, can ever release. */
module RateBounds {
  import opened Wrappers
  import opened WaiterState
  import opened QueueModel

  function LevelOf(b: Bucket): int {
    match b
    case Unset => 0
    case Level(level, _) => level
  }

  /** Nothing negative is banked, and the config in force, if any, is in range. */
  ghost predicate Sound(q: Queue) {
    0 <= LevelOf(q.bucket) && (q.config.Some? ==> Sane(q.config.value))
  }

  ghost predicate SaneEvents(es: seq<Event>) {
    forall m | 0 <= m < |es| && es[m].Configure? :: Sane(es[m].config)
  }

  /** What one event pays in: the opening burst, or the rate over the clock's forward motion. */
  function Credit(q: Queue, e: Event): int {
    if e.Admit? && Running(q) then
      match q.bucket
      case Unset => UNIT * q.config.value.burst
      case Level(_, last) => q.config.value.rate * Max(0, e.now - last)
    else 0
  }

  function Credits(q: Queue, es: seq<Event>, i: nat, k: nat): int
    requires k <= |es|
  {
    if k <= i then 0 else Credits(q, es, i, k - 1) + Credit(At(q, es, k - 1), es[k - 1])
  }

  lemma {:induction false} NonNegativeProduct(a: int, b: int)
    requires 0 <= a && 0 <= b
    ensures 0 <= a * b
  {
  }

  /** One tick in detail: what it releases is paid for by the refilled level. */
  lemma {:induction false} TickLaw(q: Queue, now: int)
    requires Sound(q) && Running(q)
    ensures var c, n := q.config.value, Popped(q, Admit(now));
            && 0 <= n == Grant(c, q.bucket, |q.log| - q.admitted, now)
            && Tick(q, now).bucket == Level(Refill(c, q.bucket, now) - UNIT * n, now)
            && 0 <= LevelOf(Tick(q, now).bucket) <= UNIT * c.burst
            && 0 <= Refill(c, q.bucket, now) <= UNIT * c.burst
  {
  }

  lemma {:induction false} StepLaw(q: Queue, e: Event)
    requires Sound(q) && SaneEvents([e])
    ensures Sound(Step(q, e))
    ensures UNIT * Popped(q, e) + LevelOf(Step(q, e).bucket) <= LevelOf(q.bucket) + Credit(q, e)
  {
    assert [e][0] == e;
    if e.Admit? && Running(q) {
      TickLaw(q, e.now);
    }
  }

  lemma {:induction false} RunsAreSound(q: Queue, es: seq<Event>, k: nat)
    requires Sound(q) && SaneEvents(es) && k <= |es|
    ensures Sound(At(q, es, k))
  {
    if k > 0 {
      RunsAreSound(q, es, k - 1);
      StepLaw(At(q, es, k - 1), es[k - 1]);
    }
  }

  /** Nothing is released that was not paid in: over any stretch of any run, through config
      changes, pauses, resets and clocks that jump either way. */
  lemma {:induction false} SpendingIsPaidFor(q: Queue, es: seq<Event>, i: nat, k: nat)
    requires Sound(q) && SaneEvents(es) && i <= k <= |es|
    ensures UNIT * Admissions(q, es, i, k) + LevelOf(At(q, es, k).bucket)
         <= LevelOf(At(q, es, i).bucket) + Credits(q, es, i, k)
    decreases k - i
  {
    if i < k {
      SpendingIsPaidFor(q, es, i, k - 1);
      RunsAreSound(q, es, k - 1);
      StepLaw(At(q, es, k - 1), es[k - 1]);
    }
  }

  function ForwardStep(last: Option<int>, e: Event): int {
    if last.Some? && e.Admit? then Max(0, e.now - last.value) else 0
  }

  /** The total by which the clock moves forward from tick to tick among events i, ..., k - 1. */
  function Forward(es: seq<Event>, i: nat, k: nat): int
    requires k <= |es|
  {
    if k <= i then 0 else Forward(es, i, k - 1) + ForwardStep(LastTick(es, i, k - 1), es[k - 1])
  }

  /** The state of a stretch that has released `spent` waiters while the clock moved `forward`. */
  ghost predicate Within(c: Config, spent: int, b: Bucket, last: Option<int>, forward: int) {
    if last.None? || c.rate == 0 then spent == 0 && 0 <= c.rate * forward
    else
      && b.Level? && b.last == last.value && 0 <= b.level <= UNIT * c.burst
      && UNIT * spent + b.level <= UNIT * c.burst + c.rate * forward
  }

  lemma {:induction false} NothingYet(c: Config, b: Bucket)
    ensures Within(c, 0, b, None, 0)
  {
  }

  lemma {:induction false} WithinStep(q: Queue, c: Config, spent: int, last: Option<int>, forward: int, e: Event)
    requires Sound(q) && q.config == Some(c) && (e.Admit? || e.Join?)
    requires Within(c, spent, q.bucket, last, forward)
    ensures Within(c, spent + Popped(q, e), Step(q, e).bucket, if e.Admit? then Some(e.now) else last,
                   forward + ForwardStep(last, e))
  {
    var f := ForwardStep(last, e);
    assert c.rate * (forward + f) == c.rate * forward + c.rate * f;
    if c.rate > 0 && e.Admit? {
      TickLaw(q, e.now);
      StepLaw(q, e);
    }
  }

  /** Arbitrary clocks: the bucket stays within 0 and burst after every tick, and any stretch of
      any run releases at most the burst plus the rate over the clock's forward motion in it. */
  lemma {:induction false} ForwardBound(q: Queue, c: Config, es: seq<Event>, i: nat, k: nat)
    requires Sound(q) && q.config == Some(c) && Steady(es) && i <= k <= |es|
    ensures UNIT * Admissions(q, es, i, k) <= UNIT * c.burst + c.rate * Forward(es, i, k)
    ensures c.rate > 0 && LastTick(es, i, k).Some? ==>
              At(q, es, k).bucket.Level? && 0 <= At(q, es, k).bucket.level <= UNIT * c.burst
  {
    StretchWithin(q, c, es, i, k);
  }

  lemma {:induction false} StretchWithin(q: Queue, c: Config, es: seq<Event>, i: nat, k: nat)
    requires Sound(q) && q.config == Some(c) && Steady(es) && i <= k <= |es|
    ensures Within(c, Admissions(q, es, i, k), At(q, es, k).bucket, LastTick(es, i, k), Forward(es, i, k))
    decreases k - i
  {
    hide Tick, Within;
    if i < k {
      StretchWithin(q, c, es, i, k - 1);
      SteadyConfig(q, es, k - 1);
      RunsAreSound(q, es, k - 1);
      WithinStep(At(q, es, k - 1), c, Admissions(q, es, i, k - 1), LastTick(es, i, k - 1), Forward(es, i, k - 1),
                 es[k - 1]);
    } else {
      NothingYet(c, At(q, es, k).bucket);
    }
  }

  lemma {:induction false} ForwardIsElapsed(es: seq<Event>, i: nat, k: nat)
    requires Nondecreasing(es) && i < k <= |es| && es[i].Admit?
    ensures LastTick(es, i, k).Some? && LastTick(es, i, k).value == es[i].now + Forward(es, i, k)
    ensures 0 <= Forward(es, i, k)
    decreases k
  {
    if i + 1 < k {
      ForwardIsElapsed(es, i, k - 1);
      LastTickIsEarlier(es, i, k - 1);
    } else {
      assert LastTick(es, i, i) == None && Forward(es, i, i) == 0;
    }
  }

  lemma {:induction false} LastTickIsEarlier(es: seq<Event>, i: nat, k: nat)
    requires Nondecreasing(es) && k <= |es|
    ensures LastTick(es, i, k).Some? ==>
              forall n | k <= n < |es| && es[n].Admit? :: LastTick(es, i, k).value <= es[n].now
  {
    if i < k {
      LastTickIsEarlier(es, i, k - 1);
    }
  }

  /** Between any two ticks of any interleaved run: at most the burst plus the rate over the time
      between them. */
  lemma {:induction false} SlidingWindow(q: Queue, c: Config, es: seq<Event>, i: nat, j: nat)
    requires Sound(q) && q.config == Some(c) && Steady(es) && Nondecreasing(es)
    requires i <= j < |es| && es[i].Admit? && es[j].Admit?
    ensures UNIT * Admissions(q, es, i, j + 1) <= UNIT * c.burst + c.rate * (es[j].now - es[i].now)
  {
    ForwardBound(q, c, es, i, j + 1);
    ForwardIsElapsed(es, i, j + 1);
    assert LastTick(es, i, j + 1) == Some(es[j].now);
  }

  /** That bound does need clocks that never step back. One process a millisecond behind another
      makes the bucket credit the same millisecond twice. */
  lemma {:induction false} SkewCreditsTwice()
    ensures var c := Config(60000, 1, 1);
      var q, es := QueueData(["a", "b", "c"], 0, Unset, Some(c)), [Admit(0), Admit(1), Admit(0), Admit(1)];
      UNIT * Admissions(q, es, 0, 4) > UNIT * c.burst + c.rate * (es[3].now - es[0].now)
  {
    var c := Config(60000, 1, 1);
    var q: Queue := QueueData(["a", "b", "c"], 0, Unset, Some(c));
    var es := [Admit(0), Admit(1), Admit(0), Admit(1)];
    assert At(q, es, 0) == q;
    assert At(q, es, 1) == QueueData(q.log, 1, Level(0, 0), Some(c));
    assert At(q, es, 2) == QueueData(q.log, 2, Level(0, 1), Some(c));
    assert At(q, es, 3) == QueueData(q.log, 2, Level(0, 0), Some(c));
    assert At(q, es, 4) == QueueData(q.log, 3, Level(0, 1), Some(c));
    AdmissionsTelescope(q, es, 0, 4);
  }
}
