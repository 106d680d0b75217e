/**
 * The key comment expects about rate * ttl passes to be live at any moment. The opening burst can
 * push that number up; this says for which configs it does.
 */
module LiveLimit {
  import opened QueueModel
  import opened RateBounds
  import opened OpeningCrowd
  import opened PerMinute
  import opened PassIssuer

  /** In every run of a freshly opened event, seen at any instant from its last tick on, the live
      passes number at most rate * ttl / 60, rounded up. */
  ghost predicate Expected(c: Config, event: string, ttl: nat) {
    forall es, x | Steady(es) && Nondecreasing(es) && TickedBy(es, x) ::
      60 * (CountLive(Passes(Open(c), es, |es|, event, ttl), x) - 1) < c.rate * ttl
      || CountLive(Passes(Open(c), es, |es|, event, ttl), x) == 0
  }

  ghost predicate TickedBy(es: seq<Event>, x: int) {
    forall m | 0 <= m < |es| && es[m].Admit? :: es[m].now <= x
  }

  lemma {:induction false} LiveAtMost(c: Config, es: seq<Event>, event: string, ttl: nat, x: int)
    requires Sane(c) && Steady(es) && Nondecreasing(es) && TickedBy(es, x)
    ensures var live := CountLive(Passes(Open(c), es, |es|, event, ttl), x);
      live > 0 ==> 0 < ttl && 0 < c.rate && live <= Most(c, 1000 * ttl)
  {
    hide Tick, At, Admissions, CountLive, Passes, Most;
    var i, j := LiveAreCovered(Open(c), es, |es|, event, ttl, x);
    if CountLive(Passes(Open(c), es, |es|, event, ttl), x) > 0 {
      assert es[i].now <= es[j].now <= x;
      SpanAdmitsAtMost(c, es, i, j + 1, 1000 * ttl);
      if c.rate == 0 {
        PausedAdmitsNobody(c, es, i, j + 1);
      }
    }
  }

  /** Whether the most that one lifetime can admit is within rate * ttl / 60, rounded up. */
  predicate LifetimeFits(c: Config, ttl: nat) {
    c.rate == 0 || ttl == 0 || UNIT * (Most(c, 1000 * ttl) - 1) < 1000 * (c.rate * ttl)
  }

  /** For every config and every lifetime, the expectation is a limit if and only if it fits. */
  lemma {:induction false} ExpectedIff(c: Config, event: string, ttl: nat)
    requires Sane(c)
    ensures Expected(c, event, ttl) <==> LifetimeFits(c, ttl)
  {
    hide Tick, At, Admissions, CountLive, Passes, Most;
    if LifetimeFits(c, ttl) {
      forall es, x | Steady(es) && Nondecreasing(es) && TickedBy(es, x)
        ensures 60 * (CountLive(Passes(Open(c), es, |es|, event, ttl), x) - 1) < c.rate * ttl
             || CountLive(Passes(Open(c), es, |es|, event, ttl), x) == 0
      {
        LiveAtMost(c, es, event, ttl, x);
      }
    } else {
      LargeBurst(c, ttl);
      TooManyLive(c, event, ttl);
    }
  }

  lemma {:induction false} LargeBurst(c: Config, ttl: nat)
    requires Sane(c) && !LifetimeFits(c, ttl)
    ensures c.rate <= UNIT * (c.burst - 1)
  {
    assert c.rate * (1000 * ttl - 1) == 1000 * (c.rate * ttl) - c.rate;
  }

  /** For passes that live whole minutes the condition is that of the per-minute limit. */
  lemma {:induction false} FitsWholeMinutes(c: Config, minutes: nat)
    requires Sane(c) && 1 <= minutes
    ensures LifetimeFits(c, 60 * minutes) <==> c.rate == 0 || UNIT * (c.burst - 1) < c.rate
  {
    var whole := c.rate * minutes;
    assert c.rate * (60 * minutes) == 60 * whole;
    assert c.rate * (1000 * (60 * minutes) - 1) == UNIT * whole - c.rate;
  }

  /** While no pass has expired, everyone admitted holds a live one. */
  lemma {:induction false} NoneExpired(q: Queue, es: seq<Event>, k: nat, event: string, ttl: nat, x: int)
    requires Steady(es) && k <= |es| && x < 1000 * ttl
    requires forall m | 0 <= m < |es| && es[m].Admit? :: 0 <= es[m].now
    ensures CountLive(Passes(q, es, k, event, ttl), x) == Admissions(q, es, 0, k)
  {
    hide Tick, At, Batch, Popped, CountLive, Passes;
    if k == 0 {
      NoneLiveYet(q, es, event, ttl, x);
    } else {
      NoneExpired(q, es, k - 1, event, ttl, x);
      LiveStep(q, es, k - 1, event, ttl, x);
      if !es[k - 1].Admit? {
        NobodyPopped(At(q, es, k - 1), es[k - 1]);
      }
    }
  }

  /** Otherwise some run shows the most passes at once, and that is too many. */
  lemma {:induction false} TooManyLive(c: Config, event: string, ttl: nat)
    requires Sane(c) && c.rate <= UNIT * (c.burst - 1) && !LifetimeFits(c, ttl)
    ensures !Expected(c, event, ttl)
  {
    hide Tick, At, Admissions, CountLive, Passes, Most;
    MostIsNat(c, 1000 * ttl);
    NonNegativeProduct(c.rate, ttl);
    var es, i := Overrun(c, 1000 * ttl);
    var x := 1000 * ttl - 1;
    NoneExpired(Open(c), es, |es|, event, ttl, x);
    assert TickedBy(es, x);
    assert CountLive(Passes(Open(c), es, |es|, event, ttl), x) == Most(c, 1000 * ttl) >= 1;
  }
}
