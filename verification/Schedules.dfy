/** What the token bucket guarantees a waiter: an exact pace and a bounded wait. */
module Schedules {
  import opened Wrappers
  import opened WaiterState
  import opened QueueModel
  import opened RateBounds

  // ---- Exact pace ----

  /** The tick releases every whole token the bucket holds: neither the batch limit nor an empty
      queue gets in the way. */
  ghost predicate FullyServed(q: Queue, now: int)
    requires q.config.Some?
  {
    Popped(q, Admit(now)) == Refill(q.config.value, q.bucket, now) / UNIT
  }

  ghost predicate AllServed(q: Queue, es: seq<Event>, i: nat, k: nat) {
    forall m | i <= m < k <= |es| && es[m].Admit? ::
      At(q, es, m).config.Some? && FullyServed(At(q, es, m), es[m].now)
  }

  /** Ticks come in order and soon enough that no refill between two of them reaches the cap. */
  ghost predicate Paced(c: Config, es: seq<Event>, i: nat, k: nat) {
    forall m | i < m < k <= |es| && es[m].Admit? && LastTick(es, i, m).Some? ::
      var last := LastTick(es, i, m).value;
      last <= es[m].now && c.rate * (es[m].now - last) <= UNIT * (c.burst - 1)
  }

  /** Since time t0, when the level was l0, `spent` waiters went and less than one token is left. */
  ghost predicate Drained(c: Config, b: Bucket, spent: int, l0: int, t0: int, last: int) {
    b == Level(l0 + c.rate * (last - t0) - UNIT * spent, last) && 0 <= b.level < UNIT
  }

  lemma {:induction false} DrainedTick(q: Queue, c: Config, spent: int, l0: int, t0: int, last: int, now: int)
    requires Sound(q) && q.config == Some(c) && c.rate > 0
    requires Drained(c, q.bucket, spent, l0, t0, last)
    requires last <= now && c.rate * (now - last) <= UNIT * (c.burst - 1)
    requires FullyServed(q, now)
    ensures Drained(c, Tick(q, now).bucket, spent + Popped(q, Admit(now)), l0, t0, now)
  {
  }

  lemma {:induction false} DrainStarts(q: Queue, c: Config, now: int)
    requires Sound(q) && q.config == Some(c) && c.rate > 0 && FullyServed(q, now)
    ensures var b := Tick(q, now).bucket; b.Level? && Drained(c, b, 0, b.level, now, now)
  {
    TickLaw(q, now);
  }

  lemma {:induction false} DrainLaw(q: Queue, c: Config, es: seq<Event>, i: nat, k: nat)
    requires Sound(q) && q.config == Some(c) && c.rate > 0 && Steady(es)
    requires i < k <= |es| && es[i].Admit? && Paced(c, es, i, k) && AllServed(q, es, i, k)
    ensures LastTick(es, i, k).Some? && At(q, es, i + 1).bucket.Level?
    ensures Drained(c, At(q, es, k).bucket, At(q, es, k).admitted - At(q, es, i + 1).admitted,
                    At(q, es, i + 1).bucket.level, es[i].now, LastTick(es, i, k).value)
    decreases k
  {
    hide Tick, Refill, FullyServed, Drained;
    SteadyConfig(q, es, k - 1);
    RunsAreSound(q, es, k - 1);
    var was, e := At(q, es, k - 1), es[k - 1];
    if i + 1 == k {
      DrainStarts(was, c, e.now);
      LogUnchanged(q, es, i);
    } else {
      DrainLaw(q, c, es, i, k - 1);
      if e.Admit? {
        var start := At(q, es, i + 1);
        LogUnchanged(q, es, k - 1);
        DrainedTick(was, c, was.admitted - start.admitted, start.bucket.level, es[i].now,
                    LastTick(es, i, k - 1).value, e.now);
      }
    }
  }

  lemma {:induction false} RefillWhole(q: Queue, c: Config, now: int)
    requires Sound(q) && q.config == Some(c) && c.rate > 0 && c.burst <= c.batchMax
    requires Refill(c, q.bucket, now) / UNIT <= |q.log| - q.admitted || Tick(q, now).admitted < |q.log|
    ensures FullyServed(q, now)
  {
  }

  /** The whole tokens the bucket earns in `elapsed` milliseconds. */
  function Earned(c: Config, elapsed: int): int {
    c.rate * elapsed / UNIT
  }

  ghost predicate NeverDry(q: Queue, c: Config, es: seq<Event>, k: nat) {
    forall m | 0 <= m < k <= |es| && es[m].Admit? ::
      Refill(c, At(q, es, m).bucket, es[m].now) / UNIT <= |Waiting(At(q, es, m))|
  }

  /** While the queue never runs dry, the total after a tick at time t is exactly the burst plus
      the whole part of rate * (t - t0) / 60000, whichever processes ticked in between. */
  lemma {:induction false} ExactRate(q: Queue, c: Config, es: seq<Event>, j: nat)
    requires Sound(q) && q.config == Some(c) && q.bucket == Unset
    requires 0 < c.rate && c.burst <= c.batchMax
    requires Steady(es) && j < |es| && es[0].Admit? && es[j].Admit?
    requires Paced(c, es, 0, j + 1) && NeverDry(q, c, es, j + 1)
    ensures At(q, es, j + 1).admitted - q.admitted == c.burst + Earned(c, es[j].now - es[0].now)
  {
    hide Tick, Refill, At, Drained;
    var start, now := At(q, es, 1), At(q, es, j + 1);
    assert start.admitted == q.admitted + c.burst && start.bucket == Level(0, es[0].now) by {
      ServedWhileNotDry(q, c, es, j + 1);
      OpeningTick(q, c, es);
    }
    assert Drained(c, now.bucket, now.admitted - start.admitted, 0, es[0].now, es[j].now) by {
      ServedWhileNotDry(q, c, es, j + 1);
      DrainLaw(q, c, es, 0, j + 1);
    }
    DrainedIsEarned(c, now.bucket, now.admitted - start.admitted, es[0].now, es[j].now);
  }

  lemma {:induction false} ServedWhileNotDry(q: Queue, c: Config, es: seq<Event>, k: nat)
    requires Sound(q) && q.config == Some(c) && 0 < c.rate && c.burst <= c.batchMax
    requires Steady(es) && k <= |es| && NeverDry(q, c, es, k)
    ensures AllServed(q, es, 0, k)
  {
    hide Tick, Refill;
    forall m | 0 <= m < k && es[m].Admit?
      ensures At(q, es, m).config.Some? && FullyServed(At(q, es, m), es[m].now)
    {
      SteadyConfig(q, es, m);
      RunsAreSound(q, es, m);
      RefillWhole(At(q, es, m), c, es[m].now);
    }
  }

  lemma {:induction false} OpeningTick(q: Queue, c: Config, es: seq<Event>)
    requires Sound(q) && q.config == Some(c) && q.bucket == Unset && 0 < c.rate
    requires |es| > 0 && es[0].Admit? && AllServed(q, es, 0, 1)
    ensures At(q, es, 1).admitted == q.admitted + c.burst
    ensures At(q, es, 1).bucket == Level(0, es[0].now)
  {
  }

  lemma {:induction false} DrainedIsEarned(c: Config, b: Bucket, spent: int, t0: int, t: int)
    requires Drained(c, b, spent, 0, t0, t)
    ensures spent == Earned(c, t - t0)
  {
  }

  // ---- Bounded wait ----

  /** Since time t0 at least as much was released or kept ready as the rate earned; and once a tick has
      passed, less than one token is kept. */
  ghost predicate KeepsUp(c: Config, b: Bucket, spent: int, t0: int, last: int) {
    && b.Level? && b.last == last && 0 <= b.level && 0 <= spent
    && c.rate * (last - t0) <= UNIT * spent + b.level
    && (b.level < UNIT || last == t0)
  }

  /** A refill that reaches the cap does no harm: it can only be the first, and releases a full burst. */
  lemma {:induction false} KeepsUpTick(q: Queue, c: Config, spent: int, t0: int, last: int, now: int)
    requires Sound(q) && q.config == Some(c) && c.rate > 0
    requires KeepsUp(c, q.bucket, spent, t0, last)
    requires last <= now && c.rate * (now - last) <= UNIT * (c.burst - 1)
    requires FullyServed(q, now)
    ensures KeepsUp(c, Tick(q, now).bucket, spent + Popped(q, Admit(now)), t0, now)
    ensures LevelOf(Tick(q, now).bucket) < UNIT
  {
    TickLaw(q, now);
    assert c.rate * (now - t0) == c.rate * (last - t0) + c.rate * (now - last);
    NonNegativeProduct(c.rate, now - last);
  }

  /** Between a tick and event m there is no other tick. */
  ghost predicate LatestTick(es: seq<Event>, i: nat, m: nat) {
    i < m <= |es| && es[i].Admit? && forall n | i < n < m :: !es[n].Admit?
  }

  lemma {:induction false} BetweenTicks(q: Queue, c: Config, es: seq<Event>, i: nat, m: nat)
    requires Sound(q) && q.config == Some(c) && c.rate > 0 && Steady(es) && LatestTick(es, i, m)
    ensures LastTick(es, i, m) == Some(es[i].now)
    ensures KeepsUp(c, At(q, es, m).bucket, 0, es[i].now, es[i].now)
    decreases m
  {
    hide Tick;
    if i + 1 == m {
      SteadyConfig(q, es, i);
      RunsAreSound(q, es, i);
      TickLaw(At(q, es, i), es[i].now);
    } else {
      BetweenTicks(q, c, es, i, m - 1);
    }
  }

  lemma {:induction false} WaitingKeepsUp(q: Queue, c: Config, es: seq<Event>, i: nat, m: nat, k: nat, entry: nat)
    requires Sound(q) && q.config == Some(c) && 0 < c.rate && c.burst <= c.batchMax
    requires Steady(es) && LatestTick(es, i, m) && m <= k <= |es| && Paced(c, es, i, k)
    requires At(q, es, k).admitted <= entry < |At(q, es, m).log|
    ensures LastTick(es, i, k).Some?
    ensures KeepsUp(c, At(q, es, k).bucket, At(q, es, k).admitted - At(q, es, m).admitted,
                    es[i].now, LastTick(es, i, k).value)
    ensures m < k && es[k - 1].Admit? ==> LevelOf(At(q, es, k).bucket) < UNIT
    decreases k
  {
    hide Tick, Refill, KeepsUp, FullyServed;
    if m == k {
      BetweenTicks(q, c, es, i, m);
    } else {
      RunGrows(q, es, k - 1, k);
      WaitingKeepsUp(q, c, es, i, m, k - 1, entry);
      if es[k - 1].Admit? {
        var was := At(q, es, k - 1);
        ServedWhileWaiting(q, c, es, m, k, entry);
        RunsAreSound(q, es, k - 1);
        SteadyConfig(q, es, k - 1);
        LogUnchanged(q, es, k - 1);
        KeepsUpTick(was, c, was.admitted - At(q, es, m).admitted, es[i].now,
                    LastTick(es, i, k - 1).value, es[k - 1].now);
      }
    }
  }

  /** As long as someone is still waiting behind it, a tick was held back by nothing but the rate. */
  lemma {:induction false} ServedWhileWaiting(q: Queue, c: Config, es: seq<Event>, m: nat, k: nat, entry: nat)
    requires Sound(q) && q.config == Some(c) && 0 < c.rate && c.burst <= c.batchMax
    requires Steady(es) && m < k <= |es| && es[k - 1].Admit?
    requires At(q, es, k).admitted <= entry < |At(q, es, m).log|
    ensures At(q, es, k - 1).config.Some? && FullyServed(At(q, es, k - 1), es[k - 1].now)
  {
    hide Tick, Refill;
    SteadyConfig(q, es, k - 1);
    RunsAreSound(q, es, k - 1);
    RunGrows(q, es, m, k - 1);
    LogUnchanged(q, es, k - 1);
    RefillWhole(At(q, es, k - 1), c, es[k - 1].now);
  }

  /** The estimate is a guarantee: whoever is at position p at any moment after tick i and before the
      next one, new arrivals included, has been popped by any tick that comes eta_seconds_for(p, rate)
      seconds after tick i, whatever joins happen behind them. */
  lemma {:induction false} BoundedWait(q: Queue, c: Config, es: seq<Event>, i: nat, m: nat, j: nat, entry: nat)
    requires Sound(q) && q.config == Some(c) && 0 < c.rate && c.burst <= c.batchMax
    requires Steady(es) && LatestTick(es, i, m) && m <= j < |es| && es[j].Admit? && Paced(c, es, i, j + 1)
    requires At(q, es, m).admitted <= entry < |At(q, es, m).log|
    requires es[i].now + 1000 * EtaSecondsFor(PositionOf(At(q, es, m), entry), c.rate).value <= es[j].now
    ensures entry < At(q, es, j + 1).admitted
  {
    hide Tick, Refill, At, KeepsUp;
    var told, now := At(q, es, m), At(q, es, j + 1);
    if now.admitted <= entry {
      WaitingKeepsUp(q, c, es, i, m, j + 1, entry);
      WaitIsOver(c, now.bucket, now.admitted - told.admitted, es[i].now, es[j].now, PositionOf(told, entry));
    }
  }

  lemma {:induction false} NearerIsSooner(nearer: int, farther: int, rate: int)
    requires 0 < rate && nearer <= farther
    ensures EtaSecondsFor(nearer, rate).value <= EtaSecondsFor(farther, rate).value
  {
    var sooner, later := EtaSecondsFor(nearer, rate).value, EtaSecondsFor(farther, rate).value;
    if later < sooner {
      NonNegativeProduct(rate, sooner - 1 - later);
    }
  }

  /** The same for an estimate given before tick i, be it the first tick of all: it counts from tick i. */
  lemma {:induction false} WaitFromNextTick(q: Queue, c: Config, es: seq<Event>, m: nat, i: nat, j: nat, entry: nat)
    requires Sound(q) && q.config == Some(c) && 0 < c.rate && c.burst <= c.batchMax
    requires Steady(es) && m <= i < j < |es| && es[i].Admit? && es[j].Admit? && Paced(c, es, i, j + 1)
    requires At(q, es, m).admitted <= entry < |At(q, es, m).log|
    requires es[i].now + 1000 * EtaSecondsFor(PositionOf(At(q, es, m), entry), c.rate).value <= es[j].now
    ensures entry < At(q, es, j + 1).admitted
  {
    hide Tick, Refill, At, EtaSecondsFor;
    RunGrows(q, es, m, i + 1);
    RunGrows(q, es, i + 1, j + 1);
    if At(q, es, i + 1).admitted <= entry {
      NearerIsSooner(PositionOf(At(q, es, i + 1), entry), PositionOf(At(q, es, m), entry), c.rate);
      BoundedWait(q, c, es, i, i + 1, j, entry);
    }
  }

  lemma {:induction false} WaitIsOver(c: Config, b: Bucket, spent: int, t0: int, t: int, position: int)
    requires 0 < c.rate && KeepsUp(c, b, spent, t0, t) && LevelOf(b) < UNIT
    requires t0 + 1000 * EtaSecondsFor(position, c.rate).value <= t
    ensures position <= spent
  {
    var eta := EtaSecondsFor(position, c.rate).value;
    NonNegativeProduct(c.rate, t - t0 - 1000 * eta);
    assert c.rate * (t - t0) == c.rate * (t - t0 - 1000 * eta) + 1000 * (c.rate * eta);
  }

  lemma {:induction false} LogUnchanged(q: Queue, es: seq<Event>, m: nat)
    requires m < |es| && es[m].Admit?
    ensures At(q, es, m + 1).log == At(q, es, m).log
    ensures At(q, es, m + 1) == Tick(At(q, es, m), es[m].now)
  {
  }
}
