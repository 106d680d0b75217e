/**
 * admit_batch.lua's header promises at most rate_per_min admissions per minute. The bucket opens
 * full, so that fails for most configs: it holds exactly when burst - 1 tokens are worth less
 * than one millisecond's refill, or the drop is paused.
 */
module PerMinute {
  import opened Wrappers
  import opened QueueModel
  import opened RateBounds
  import opened ExtraTicks
  import opened OpeningCrowd

  const MINUTE_MS := 60000

  /** From one tick to another, less than `span` milliseconds later. */
  ghost predicate InSpan(es: seq<Event>, i: nat, k: nat, span: int) {
    && i < k <= |es| && es[i].Admit? && es[k - 1].Admit?
    && es[k - 1].now - es[i].now < span
  }

  /** The header's promise, for every run of a freshly opened event. */
  ghost predicate MinuteLimit(c: Config) {
    forall es, i: nat, k: nat | Steady(es) && Nondecreasing(es) && InSpan(es, i, k, MINUTE_MS) ::
      Admissions(Open(c), es, i, k) <= c.rate
  }

  lemma {:induction false} MinuteLimitIff(c: Config)
    requires Sane(c)
    ensures MinuteLimit(c) <==> c.rate == 0 || UNIT * (c.burst - 1) < c.rate
  {
    if c.rate == 0 || UNIT * (c.burst - 1) < c.rate {
      forall es, i: nat, k: nat | Steady(es) && Nondecreasing(es) && InSpan(es, i, k, MINUTE_MS)
        ensures Admissions(Open(c), es, i, k) <= c.rate
      {
        SmallBurstKeepsLimit(c, es, i, k);
      }
    } else {
      var es, i := Overrun(c, MINUTE_MS);
      assert InSpan(es, i, |es|, MINUTE_MS);
      assert Admissions(Open(c), es, i, |es|) > c.rate;
    }
  }

  lemma {:induction false} SmallBurstKeepsLimit(c: Config, es: seq<Event>, i: nat, k: nat)
    requires Sane(c) && (c.rate == 0 || UNIT * (c.burst - 1) < c.rate)
    requires Steady(es) && Nondecreasing(es) && InSpan(es, i, k, MINUTE_MS)
    ensures Admissions(Open(c), es, i, k) <= c.rate
  {
    if c.rate == 0 {
      PausedAdmitsNobody(c, es, i, k);
    } else {
      SpanAdmitsAtMost(c, es, i, k, MINUTE_MS);
    }
  }

  lemma {:induction false} PausedAdmitsNobody(c: Config, es: seq<Event>, i: nat, k: nat)
    requires Sane(c) && c.rate == 0 && Steady(es) && i <= k <= |es|
    ensures Admissions(Open(c), es, i, k) == 0
  {
    StretchWithin(Open(c), c, es, i, k);
  }

  // ---- A run that breaks the limit: one person too many waits, and processes tick every millisecond ----

  /** `burst` ticks at one instant. */
  function Round(c: Config, t: int): seq<Event>
    requires 0 <= c.burst
  {
    seq(c.burst, _ => Admit(t))
  }

  function Rounds(c: Config, t: nat): seq<Event>
    requires 0 <= c.burst
  {
    if t == 0 then [] else Rounds(c, t - 1) + Round(c, t - 1)
  }

  lemma {:induction false} RoundsShape(c: Config, t: nat)
    requires 0 < c.burst && 0 < t
    ensures var es := Rounds(c, t);
            && es != [] && es[0] == Admit(0) && es[|es| - 1] == Admit(t - 1)
            && (forall m | 0 <= m < |es| :: es[m].Admit? && es[m].now < t)
            && Nondecreasing(es)
  {
    if t > 1 {
      RoundsShape(c, t - 1);
    } else {
      assert Rounds(c, 0) == [];
      assert Rounds(c, 1) == Round(c, 0);
    }
  }

  /** Everyone is gone, or nothing earned by time t has been clipped away. */
  ghost predicate OnTrack(c: Config, n: nat, q: Queue, t: int) {
    && Sound(q) && q.config == Some(c) && Past(q.bucket, t) && |q.log| == n
    && (q.admitted < |q.log| ==> UNIT * q.admitted + Refill(c, q.bucket, t) == UNIT * c.burst + c.rate * t)
  }

  ghost predicate AtMost(c: Config, q: Queue, t: int, tokens: int) {
    q.admitted < |q.log| ==> Refill(c, q.bucket, t) < UNIT * (tokens + 1)
  }

  lemma {:induction false} TrackTick(c: Config, n: nat, q: Queue, t: int, tokens: nat)
    requires 0 < c.rate && 1 <= c.batchMax && OnTrack(c, n, q, t) && AtMost(c, q, t, tokens)
    ensures OnTrack(c, n, Tick(q, t), t) && AtMost(c, Tick(q, t), t, if tokens == 0 then 0 else tokens - 1)
  {
    TickKeepsWorth(c, q, t);
    TickLaw(q, t);
  }

  lemma {:induction false} RoundDrains(c: Config, n: nat, q: Queue, t: int, r: nat)
    requires 0 < c.rate && 1 <= c.batchMax && OnTrack(c, n, q, t) && r <= c.burst
    ensures OnTrack(c, n, At(q, Round(c, t), r), t) && AtMost(c, At(q, Round(c, t), r), t, c.burst - r)
  {
    hide Tick;
    if r == 0 {
      if Running(q) { TickLaw(q, t); }
    } else {
      RoundDrains(c, n, q, t, r - 1);
      TrackTick(c, n, At(q, Round(c, t), r - 1), t, c.burst - r + 1);
    }
  }

  lemma {:induction false} NextMillisecond(c: Config, n: nat, q: Queue, t: int)
    requires 0 < c.rate <= UNIT * (c.burst - 1) && OnTrack(c, n, q, t) && AtMost(c, q, t, 0)
    ensures OnTrack(c, n, q, t + 1)
  {
  }

  lemma {:induction false} RoundsDrain(c: Config, n: nat, q: Queue, t: nat)
    requires 0 < c.rate <= UNIT * (c.burst - 1) && 1 <= c.batchMax && OnTrack(c, n, q, 0)
    ensures OnTrack(c, n, At(q, Rounds(c, t + 1), |Rounds(c, t + 1)|), t)
    ensures AtMost(c, At(q, Rounds(c, t + 1), |Rounds(c, t + 1)|), t, 0)
  {
    hide Tick, OnTrack, AtMost;
    var before := At(q, Rounds(c, t), |Rounds(c, t)|);
    if t > 0 {
      RoundsDrain(c, n, q, t - 1);
      NextMillisecond(c, n, before, t - 1);
    } else {
      assert before == q;
    }
    RoundDrains(c, n, before, t, c.burst);
    RunsCompose(q, Rounds(c, t), Round(c, t), c.burst);
  }

  /** The most that `span` milliseconds can admit: the burst and what the rate earns in between. */
  function Most(c: Config, span: nat): int {
    (UNIT * c.burst + c.rate * (span - 1)) / UNIT
  }

  lemma {:induction false} SpanAdmitsAtMost(c: Config, es: seq<Event>, i: nat, k: nat, span: nat)
    requires Sane(c) && Steady(es) && Nondecreasing(es) && InSpan(es, i, k, span)
    ensures Admissions(Open(c), es, i, k) <= Most(c, span)
  {
    hide Tick, At, Admissions;
    var elapsed := es[k - 1].now - es[i].now;
    SlidingWindow(Open(c), c, es, i, k - 1);
    NonNegativeProduct(c.rate, span - 1 - elapsed);
    assert c.rate * (span - 1) == c.rate * elapsed + c.rate * (span - 1 - elapsed);
  }

  /** A crowd of n, then ticks throughout `span` milliseconds. */
  function CrowdThenRounds(c: Config, n: nat, span: nat): seq<Event>
    requires 0 <= c.burst
  {
    Crowd(n) + Rounds(c, span)
  }

  /** With any larger burst, and for a stretch of any length, some run admits the very most. */
  lemma {:induction false} Overrun(c: Config, span: nat) returns (es: seq<Event>, i: nat)
    requires Sane(c) && 0 < c.rate <= UNIT * (c.burst - 1) && 0 < span
    ensures Steady(es) && Nondecreasing(es) && InSpan(es, i, |es|, span)
    ensures forall m | 0 <= m < |es| && es[m].Admit? :: 0 <= es[m].now < span
    ensures Admissions(Open(c), es, i, |es|) == Admissions(Open(c), es, 0, |es|) == Most(c, span)
  {
    hide Tick, At, Rounds, Crowd, Most;
    MostIsNat(c, span);
    i := Most(c, span);
    es := CrowdThenRounds(c, i, span);
    RoundsShape(c, span);
    CrowdFirst(c, i, span);
    RoundsDrain(c, i, QueueData(Names(i), 0, Unset, Some(c)), span - 1);
    EveryoneGone(c, span, At(Open(c), es, |es|));
    AdmissionsTelescope(Open(c), es, i, |es|);
    AdmissionsTelescope(Open(c), es, 0, |es|);
    OpensEmpty(c, es);
  }

  lemma {:induction false} CrowdFirst(c: Config, n: nat, span: nat)
    requires 0 <= c.burst
    ensures var es, rounds := CrowdThenRounds(c, n, span), Rounds(c, span);
      var q := QueueData(Names(n), 0, Unset, Some(c));
      |es| >= n && At(Open(c), es, n) == q && At(Open(c), es, |es|) == At(q, rounds, |rounds|)
  {
    hide At, Rounds, Crowd;
    var es, rounds := CrowdThenRounds(c, n, span), Rounds(c, span);
    CrowdArrives(c, n);
    assert es[..n] == Crowd(n)[..n];
    PrefixDecides(Open(c), Crowd(n), es, n);
    RunsCompose(Open(c), Crowd(n), rounds, |rounds|);
  }

  lemma {:induction false} OpensEmpty(c: Config, es: seq<Event>)
    ensures At(Open(c), es, 0) == Open(c)
  {
  }

  lemma {:induction false} MostIsNat(c: Config, span: nat)
    requires Sane(c) && 0 < span
    ensures 0 <= Most(c, span)
  {
    NonNegativeProduct(c.rate, span - 1);
  }

  lemma {:induction false} EveryoneGone(c: Config, span: nat, q: Queue)
    requires 0 < c.rate && 0 < span && 0 <= Most(c, span)
    requires OnTrack(c, Most(c, span), q, span - 1) && AtMost(c, q, span - 1, 0)
    ensures q.admitted == Most(c, span)
  {
  }
}
