/** Minting admission passes, and how many can be live at once. */
module PassIssuer {
  import opened Wrappers
  import opened SortedSet
  import opened QueueModel
  import opened RateBounds

  /** A signed pass: its claims. Signing itself is abstract, and jti is a fresh number. */
  datatype IssuedPass = IssuedPass(token: Token, event: string, jti: nat, issuedAt: int, expiresAt: int)

  function Issue(event: string, token: Token, nowSeconds: int, ttl: int, jti: nat): IssuedPass {
    IssuedPass(token, event, jti, nowSeconds, nowSeconds + ttl)
  }

  /** One pass per token of a batch, in order, all stamped with the one clock reading. */
  function IssueBatch(event: string, batch: seq<Token>, nowMs: int, ttl: int, firstJti: nat): seq<IssuedPass> {
    seq(|batch|, i requires 0 <= i < |batch| => Issue(event, batch[i], nowMs / 1000, ttl, firstJti + i))
  }

  /** The booking side accepts a pass at instant x (milliseconds) iff it has not expired. */
  predicate Live(p: IssuedPass, x: int) {
    x < 1000 * p.expiresAt
  }

  /** Seconds are rounded down once, at minting: a pass lives for at least ttl - 1 seconds after the
      tick that minted it, and never for ttl seconds or more. */
  lemma {:induction false} PassLifetime(event: string, batch: seq<Token>, nowMs: int, ttl: int, firstJti: nat,
        i: nat, x: int)
    requires i < |batch|
    ensures var p := IssueBatch(event, batch, nowMs, ttl, firstJti)[i];
      && p.token == batch[i] && p.event == event && 0 <= nowMs - 1000 * p.issuedAt < 1000
      && (x <= nowMs + 1000 * (ttl - 1) ==> Live(p, x))
      && (nowMs + 1000 * ttl <= x ==> !Live(p, x))
  {
  }

  /** Every pass of a batch has a jti of its own, and none that was used before. */
  lemma {:induction false} JtisAreFresh(event: string, batch: seq<Token>, nowMs: int, ttl: int, firstJti: nat)
    ensures var ps := IssueBatch(event, batch, nowMs, ttl, firstJti);
      && (forall i | 0 <= i < |ps| :: firstJti <= ps[i].jti < firstJti + |ps|)
      && (forall i, j | 0 <= i < j < |ps| :: ps[i].jti != ps[j].jti)
  {
  }

  function CountLive(ps: seq<IssuedPass>, x: int): nat {
    if ps == [] then 0 else CountLive(ps[..|ps| - 1], x) + if Live(ps[|ps| - 1], x) then 1 else 0
  }

  lemma {:induction false} CountLiveAdds(a: seq<IssuedPass>, b: seq<IssuedPass>, x: int)
    ensures CountLive(a + b, x) == CountLive(a, x) + CountLive(b, x)
  {
    if b == [] {
      assert a + b == a;
    } else {
      assert (a + b)[..|a + b| - 1] == a + b[..|b| - 1];
      CountLiveAdds(a, b[..|b| - 1], x);
    }
  }

  lemma {:induction false} CountLiveUniform(ps: seq<IssuedPass>, expiresAt: int, x: int)
    requires forall i | 0 <= i < |ps| :: ps[i].expiresAt == expiresAt
    ensures CountLive(ps, x) == if x < 1000 * expiresAt then |ps| else 0
  {
    if ps != [] {
      CountLiveUniform(ps[..|ps| - 1], expiresAt, x);
    }
  }

  /** Every pass minted by the first k events of a run. */
  function Passes(q: Queue, es: seq<Event>, k: nat, event: string, ttl: int): seq<IssuedPass>
    requires k <= |es|
  {
    if k == 0 then []
    else
      var before := Passes(q, es, k - 1, event, ttl);
      if es[k - 1].Admit?
      then before + IssueBatch(event, Batch(At(q, es, k - 1), es[k - 1]), es[k - 1].now, ttl, |before|)
      else before
  }

  /** The passes live at x all come from ticks i..j, the first of which is still live. */
  ghost predicate Covered(q: Queue, es: seq<Event>, k: nat, live: nat, ttl: int, x: int, i: nat, j: nat) {
    && i <= j < k <= |es| && es[i].Admit? && es[j].Admit?
    && x < 1000 * (es[i].now / 1000 + ttl)
    && live <= Admissions(q, es, i, j + 1)
  }

  /** One event adds either all of the passes it mints to those live at x, or none of them. */
  lemma {:induction false} LiveStep(q: Queue, es: seq<Event>, k: nat, event: string, ttl: int, x: int)
    requires k < |es| && !es[k].Reset?
    ensures CountLive(Passes(q, es, k + 1, event, ttl), x) ==
              CountLive(Passes(q, es, k, event, ttl), x) +
              if es[k].Admit? && x < 1000 * (es[k].now / 1000 + ttl) then Popped(At(q, es, k), es[k]) else 0
  {
    hide Tick, At, CountLive, Batch, Popped;
    if es[k].Admit? {
      var before, batch := Passes(q, es, k, event, ttl), Batch(At(q, es, k), es[k]);
      var minted := IssueBatch(event, batch, es[k].now, ttl, |before|);
      BatchIsCut(At(q, es, k), es[k]);
      CountLiveAdds(before, minted, x);
      CountLiveUniform(minted, es[k].now / 1000 + ttl, x);
    } else {
      NobodyPopped(At(q, es, k), es[k]);
    }
  }

  lemma {:induction false} NobodyPopped(q: Queue, e: Event)
    requires !e.Admit?
    ensures Popped(q, e) == 0
  {
  }

  lemma {:induction false} LiveAreCovered(q: Queue, es: seq<Event>, k: nat, event: string, ttl: int, x: int)
      returns (i: nat, j: nat)
    requires k <= |es| && NoReset(es)
    ensures CountLive(Passes(q, es, k, event, ttl), x) == 0
         || Covered(q, es, k, CountLive(Passes(q, es, k, event, ttl), x), ttl, x, i, j)
  {
    hide Tick, At, Batch, Popped, CountLive, Passes;
    i, j := 0, 0;
    if k == 0 {
      NoneLiveYet(q, es, event, ttl, x);
    } else {
      i, j := LiveAreCovered(q, es, k - 1, event, ttl, x);
      LiveStep(q, es, k - 1, event, ttl, x);
      var e := es[k - 1];
      if e.Admit? && x < 1000 * (e.now / 1000 + ttl) {
        if CountLive(Passes(q, es, k - 1, event, ttl), x) == 0 {
          i := k - 1;
          assert Admissions(q, es, k - 1, k - 1) == 0;
        } else {
          MoreAdmissions(q, es, i, j + 1, k - 1);
        }
        j := k - 1;
      }
    }
  }

  lemma {:induction false} NoneLiveYet(q: Queue, es: seq<Event>, event: string, ttl: int, x: int)
    ensures CountLive(Passes(q, es, 0, event, ttl), x) == 0
  {
  }

  lemma {:induction false} MoreAdmissions(q: Queue, es: seq<Event>, i: nat, j: nat, k: nat)
    requires NoReset(es) && i <= j <= k <= |es|
    ensures Admissions(q, es, i, j) <= Admissions(q, es, i, k)
  {
    AdmissionsTelescope(q, es, i, j);
    AdmissionsTelescope(q, es, i, k);
    RunGrows(q, es, j, k);
  }

  /** At any instant the unexpired passes number at most burst + rate * ttl / 60. */
  lemma {:induction false} LivePassCap(q: Queue, c: Config, es: seq<Event>, event: string, ttl: nat, x: int)
    requires Sound(q) && q.config == Some(c) && Steady(es) && Nondecreasing(es)
    requires forall m | 0 <= m < |es| && es[m].Admit? :: es[m].now <= x
    ensures 60 * CountLive(Passes(q, es, |es|, event, ttl), x) <= 60 * c.burst + c.rate * ttl
  {
    hide Tick;
    var live := CountLive(Passes(q, es, |es|, event, ttl), x);
    var i, j := LiveAreCovered(q, es, |es|, event, ttl, x);
    NonNegativeProduct(c.rate, ttl);
    if live > 0 {
      SlidingWindow(q, c, es, i, j);
      WindowToPasses(c, live, Admissions(q, es, i, j + 1), es[j].now - es[i].now, ttl);
    }
  }

  lemma {:induction false} WindowToPasses(c: Config, live: int, released: int, elapsed: int, ttl: nat)
    requires Sane(c) && live <= released && elapsed <= 1000 * ttl
    requires UNIT * released <= UNIT * c.burst + c.rate * elapsed
    ensures 60 * live <= 60 * c.burst + c.rate * ttl
  {
  }
}
