/** More admitter processes, or faster ticks, never slow the queue down. */
module ExtraTicks {
  import opened Wrappers
  import opened WaiterState
  import opened SortedSet
  import opened QueueModel
  import opened RateBounds

  /** The run in which only the kept events happen, seen at the same points as the full run. */
  function Thinned(q: Queue, es: seq<Event>, keep: seq<bool>, k: nat): Queue
    requires k <= |es| == |keep|
  {
    if k == 0 then q
    else if keep[k - 1] then Step(Thinned(q, es, keep, k - 1), es[k - 1])
    else Thinned(q, es, keep, k - 1)
  }

  function Kept(es: seq<Event>, keep: seq<bool>, k: nat): seq<Event>
    requires k <= |es| == |keep|
  {
    if k == 0 then []
    else if keep[k - 1] then Kept(es, keep, k - 1) + [es[k - 1]]
    else Kept(es, keep, k - 1)
  }

  lemma {:induction false} ThinnedIsARun(q: Queue, es: seq<Event>, keep: seq<bool>, k: nat)
    requires k <= |es| == |keep|
    ensures Thinned(q, es, keep, k) == At(q, Kept(es, keep, k), |Kept(es, keep, k)|)
  {
    if k > 0 {
      ThinnedIsARun(q, es, keep, k - 1);
      var less, all := Kept(es, keep, k - 1), Kept(es, keep, k);
      if keep[k - 1] {
        assert all[..|less|] == less[..|less|];
        PrefixDecides(q, less, all, |less|);
      }
    }
  }

  /** Only ticks are left out. */
  ghost predicate OnlyTicksDropped(es: seq<Event>, keep: seq<bool>) {
    |keep| == |es| && forall m | 0 <= m < |es| && !keep[m] :: es[m].Admit?
  }

  /** Each token joins once. */
  ghost predicate FreshJoins(q: Queue, es: seq<Event>) {
    && (forall m | 0 <= m < |es| && es[m].Join? :: es[m].token !in q.log)
    && (forall m, n | 0 <= m < n < |es| && es[m].Join? && es[n].Join? :: es[m].token != es[n].token)
  }

  lemma {:induction false} LogHasOnlyJoins(q: Queue, es: seq<Event>, k: nat, t: Token)
    requires Steady(es) && k <= |es| && t in At(q, es, k).log
    ensures t in q.log || exists m :: 0 <= m < k && es[m].Join? && es[m].token == t
  {
    if k > 0 {
      if t in At(q, es, k - 1).log {
        LogHasOnlyJoins(q, es, k - 1, t);
      } else {
        assert es[k - 1].Join? && es[k - 1].token == t;
      }
    }
  }

  ghost predicate Past(b: Bucket, t: int) {
    b.Level? ==> b.last <= t
  }

  /** Same waiters so far; b has released at least as many as a, and has at least as much released
      or ready to release at time t. */
  ghost predicate NotBehind(c: Config, a: Queue, b: Queue, t: int) {
    && a.log == b.log && a.config == b.config == Some(c)
    && a.admitted <= b.admitted
    && UNIT * a.admitted + Refill(c, a.bucket, t) <= UNIT * b.admitted + Refill(c, b.bucket, t)
    && Sound(a) && Sound(b) && Past(a.bucket, t) && Past(b.bucket, t)
  }

  /** Refilling in two steps, capping each time, is refilling once. */
  lemma {:induction false} RefillSplits(c: Config, b: Bucket, t: int, u: int)
    requires 0 <= c.rate && Past(b, t) && t <= u
    ensures Refill(c, b, u) == Min(UNIT * c.burst, Refill(c, b, t) + c.rate * (u - t))
  {
  }

  lemma {:induction false} Later(c: Config, a: Queue, b: Queue, t: int, u: int)
    requires NotBehind(c, a, b, t) && t <= u
    ensures NotBehind(c, a, b, u)
  {
    RefillSplits(c, a.bucket, t, u);
    RefillSplits(c, b.bucket, t, u);
  }

  lemma {:induction false} TickKeepsWorth(c: Config, q: Queue, t: int)
    requires Sound(q) && q.config == Some(c) && Past(q.bucket, t)
    ensures var q' := Tick(q, t);
            && UNIT * q'.admitted + Refill(c, q'.bucket, t) == UNIT * q.admitted + Refill(c, q.bucket, t)
            && q'.log == q.log && q'.config == q.config && Sound(q') && Past(q'.bucket, t)
            && q.admitted <= q'.admitted
  {
  }

  /** The step is monotone: with the same waiters, more released-or-ready and more released before
      means more released after. */
  lemma {:induction false} BothTick(c: Config, a: Queue, b: Queue, t: int)
    requires NotBehind(c, a, b, t)
    ensures NotBehind(c, Tick(a, t), Tick(b, t), t)
  {
    TickKeepsWorth(c, a, t);
    TickKeepsWorth(c, b, t);
    if Running(a) {
      TickLaw(a, t);
      TickLaw(b, t);
    }
  }

  lemma {:induction false} ExtraTick(c: Config, a: Queue, b: Queue, t: int)
    requires NotBehind(c, a, b, t)
    ensures NotBehind(c, a, Tick(b, t), t)
  {
  }

  lemma {:induction false} StaysAhead(q: Queue, c: Config, es: seq<Event>, keep: seq<bool>, k: nat, t: int)
    requires Sound(q) && q.config == Some(c) && Steady(es) && Nondecreasing(es) && FreshJoins(q, es)
    requires OnlyTicksDropped(es, keep) && k <= |es|
    requires Past(q.bucket, t) && forall m | 0 <= m < |es| && es[m].Admit? :: Past(q.bucket, es[m].now)
    requires forall m | 0 <= m < k && es[m].Admit? :: es[m].now <= t
    ensures NotBehind(c, Thinned(q, es, keep, k), At(q, es, k), t)
  {
    hide Tick, Refill;
    if k > 0 {
      var a, b, e := Thinned(q, es, keep, k - 1), At(q, es, k - 1), es[k - 1];
      if e.Admit? {
        StaysAhead(q, c, es, keep, k - 1, e.now);
        if keep[k - 1] {
          BothTick(c, a, b, e.now);
          Later(c, Tick(a, e.now), Tick(b, e.now), e.now, t);
        } else {
          ExtraTick(c, a, b, e.now);
          Later(c, a, Tick(b, e.now), e.now, t);
        }
      } else {
        StaysAhead(q, c, es, keep, k - 1, t);
        if e.token in b.log {
          LogHasOnlyJoins(q, es, k - 1, e.token);
        }
        assert Step(a, e) == a.(log := a.log + [e.token]) && Step(b, e) == b.(log := b.log + [e.token]);
      }
    }
  }

  /** Take a run and leave out any of its ticks. At every common point the full run has the same
      arrivals and has admitted at least as many, so no waiter's position is ever worse. */
  lemma {:induction false} ExtraTicksNeverHurt(q: Queue, c: Config, es: seq<Event>, keep: seq<bool>, k: nat)
    requires Sound(q) && q.config == Some(c) && Steady(es) && Nondecreasing(es) && FreshJoins(q, es)
    requires OnlyTicksDropped(es, keep) && k <= |es|
    requires forall m | 0 <= m < |es| && es[m].Admit? :: Past(q.bucket, es[m].now)
    ensures var fewer := Kept(es, keep, k);
            && At(q, fewer, |fewer|).log == At(q, es, k).log
            && At(q, fewer, |fewer|).admitted <= At(q, es, k).admitted
  {
    ThinnedIsARun(q, es, keep, k);
    var t := Latest(q, es, k);
    StaysAhead(q, c, es, keep, k, t);
  }

  lemma {:induction false} Latest(q: Queue, es: seq<Event>, k: nat) returns (t: int)
    requires k <= |es|
    ensures Past(q.bucket, t) && forall m | 0 <= m < k && es[m].Admit? :: es[m].now <= t
  {
    if k == 0 {
      t := if q.bucket.Level? then q.bucket.last else 0;
    } else {
      t := Latest(q, es, k - 1);
      if es[k - 1].Admit? {
        t := Max(t, es[k - 1].now);
      }
    }
  }
}
