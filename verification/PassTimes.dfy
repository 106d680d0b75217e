/** When the passes minted by interleaved processes expire: measured from the clock reading of the very
    tick that released their entry, however long signing took and whatever ran in between. */
module PassTimes {
  import SortedSet
  import opened QueueModel
  import opened PassIssuer
  import opened AdmissionProtocol

  /** Action m is the tick that took this entry out of the queue. */
  ghost predicate PoppedIn(acts: seq<Action>, m: nat, event: string, ttl: nat, entry: nat) {
    && m < |acts| && acts[m].Pop?
    && Frontier(After(acts, m, event, ttl)) <= entry < Frontier(After(acts, m + 1, event, ttl))
  }

  /** The pass is for the event, and lives at least ttl - 1 seconds from `now` and never ttl seconds. */
  ghost predicate LastsFrom(pass: IssuedPass, event: string, now: int, ttl: nat) {
    && pass.event == event
    && forall x :: (x <= now + 1000 * (ttl - 1) ==> Live(pass, x)) && (now + 1000 * ttl <= x ==> !Live(pass, x))
  }

  lemma {:induction false} IssuedLasts(event: string, t: SortedSet.Token, now: int, ttl: nat, jti: nat)
    ensures LastsFrom(Issue(event, t, now / 1000, ttl, jti), event, now, ttl)
  {
  }

  ghost predicate BusyTimed(acts: seq<Action>, k: nat, event: string, ttl: nat, b: Proc, m: nat)
    requires b.Busy?
  {
    && m < k <= |acts| && acts[m].Pop? && acts[m].now == b.now
    && forall i | b.lo <= i < End(b) :: PoppedIn(acts, m, event, ttl, i)
  }

  ghost predicate ProcTimed(acts: seq<Action>, k: nat, event: string, ttl: nat, p: ProcId)
    requires k <= |acts|
  {
    var b := ProcOf(After(acts, k, event, ttl), p);
    b.Busy? ==> exists m: nat :: BusyTimed(acts, k, event, ttl, b, m)
  }

  ghost predicate MintedIn(acts: seq<Action>, k: nat, event: string, ttl: nat, x: Minted, m: nat) {
    m < k <= |acts| && acts[m].Pop? && PoppedIn(acts, m, event, ttl, x.entry)
    && LastsFrom(x.pass, event, acts[m].now, ttl)
  }

  ghost predicate MintTimed(acts: seq<Action>, k: nat, event: string, ttl: nat, x: Minted) {
    exists m: nat :: MintedIn(acts, k, event, ttl, x, m)
  }

  /** A step leaves the batches of the processes alone, apart from the one it pops. */
  lemma {:induction false} BatchesStay(s: State, a: Action, event: string, ttl: nat, p: ProcId)
    requires Inv(s) && ProcOf(Apply(s, a, event, ttl), p).Busy?
    ensures var b, b', s' := ProcOf(s, p), ProcOf(Apply(s, a, event, ttl), p), Apply(s, a, event, ttl);
      || (b.Busy? && b'.lo == b.lo && b'.batch == b.batch && b'.now == b.now)
      || (a == Pop(p, b'.now) && b'.lo == Frontier(s) && End(b') == Frontier(s'))
  {
    hide Tick, Batch, ProcOk, Ids, HeldBy;
    if a.Pop? {
      BatchIsHistory(s, a.now);
    }
  }

  /** What a Sign step mints lasts from its own batch's clock reading, and is for an entry of it. */
  lemma {:induction false} OnlySignMints(s: State, a: Action, event: string, ttl: nat)
    requires Inv(s)
    ensures var s' := Apply(s, a, event, ttl);
      s'.minted == s.minted
      || (a.Sign? && ProcOf(s, a.p).Busy? && |s'.minted| == |s.minted| + 1 && s.minted <= s'.minted
          && var b, x := ProcOf(s, a.p), s'.minted[|s.minted|];
             b.lo <= x.entry < End(b) && LastsFrom(x.pass, event, b.now, ttl))
  {
    hide Tick, Batch, Ids, HeldBy, Issue, LastsFrom;
    if a.Sign? && ProcOf(s, a.p).Busy? {
      var b := ProcOf(s, a.p);
      if |b.passes| < |b.batch| {
        IssuedLasts(event, b.batch[|b.passes|], b.now, ttl, |s.minted|);
      }
    }
  }

  lemma {:induction false} RunIsTimed(acts: seq<Action>, k: nat, event: string, ttl: nat)
    requires k <= |acts|
    ensures forall p :: ProcTimed(acts, k, event, ttl, p)
    ensures forall x | x in After(acts, k, event, ttl).minted :: MintTimed(acts, k, event, ttl, x)
  {
    hide Apply, Inv, LastsFrom, PoppedIn;
    if k > 0 {
      var j: nat := k - 1;
      RunIsTimed(acts, j, event, ttl);
      EveryRunKeepsInv(acts, j, event, ttl);
      forall p ensures ProcTimed(acts, k, event, ttl, p) {
        ProcStaysTimed(acts, j, event, ttl, p);
      }
      forall x | x in After(acts, k, event, ttl).minted ensures MintTimed(acts, k, event, ttl, x) {
        MintStaysTimed(acts, j, event, ttl, x);
      }
    }
  }

  lemma {:induction false} ProcStaysTimed(acts: seq<Action>, k: nat, event: string, ttl: nat, p: ProcId)
    requires k < |acts| && Inv(After(acts, k, event, ttl)) && ProcTimed(acts, k, event, ttl, p)
    ensures ProcTimed(acts, k + 1, event, ttl, p)
  {
    hide Apply, Inv;
    var s, b' := After(acts, k, event, ttl), ProcOf(After(acts, k + 1, event, ttl), p);
    if b'.Busy? {
      BatchesStay(s, acts[k], event, ttl, p);
      var b := ProcOf(s, p);
      if b.Busy? && b'.lo == b.lo && b'.batch == b.batch && b'.now == b.now {
        var m: nat :| BusyTimed(acts, k, event, ttl, b, m);
        assert BusyTimed(acts, k + 1, event, ttl, b', m);
      } else {
        assert BusyTimed(acts, k + 1, event, ttl, b', k);
      }
    }
  }

  lemma {:induction false} MintStaysTimed(acts: seq<Action>, k: nat, event: string, ttl: nat, x: Minted)
    requires k < |acts| && Inv(After(acts, k, event, ttl)) && forall p :: ProcTimed(acts, k, event, ttl, p)
    requires x in After(acts, k + 1, event, ttl).minted
    requires x in After(acts, k, event, ttl).minted ==> MintTimed(acts, k, event, ttl, x)
    ensures MintTimed(acts, k + 1, event, ttl, x)
  {
    hide Apply, Inv, LastsFrom;
    var s, a := After(acts, k, event, ttl), acts[k];
    if x in s.minted {
      var m: nat :| MintedIn(acts, k, event, ttl, x, m);
      assert MintedIn(acts, k + 1, event, ttl, x, m);
    } else {
      OnlySignMints(s, a, event, ttl);
      assert x == Apply(s, a, event, ttl).minted[|s.minted|];
      assert ProcTimed(acts, k, event, ttl, a.p);
      var m: nat :| BusyTimed(acts, k, event, ttl, ProcOf(s, a.p), m);
      assert MintedIn(acts, k + 1, event, ttl, x, m);
    }
  }

  /** In every run, each pass ever minted was released by one tick of one process, and expires by that
      tick's clock reading. */
  lemma {:induction false} PassesExpireOnTime(acts: seq<Action>, k: nat, event: string, ttl: nat, j: nat)
      returns (m: nat)
    requires k <= |acts| && j < |After(acts, k, event, ttl).minted|
    ensures m < k && acts[m].Pop?
    ensures var x := After(acts, k, event, ttl).minted[j];
      PoppedIn(acts, m, event, ttl, x.entry) && LastsFrom(x.pass, event, acts[m].now, ttl)
  {
    hide PoppedIn, LastsFrom;
    RunIsTimed(acts, k, event, ttl);
    var x := After(acts, k, event, ttl).minted[j];
    assert MintTimed(acts, k, event, ttl, x);
    m :| MintedIn(acts, k, event, ttl, x, m);
  }
}
