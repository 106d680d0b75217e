/** What the interleaved protocol is made of: its queue is a run of the scripts, so every bound on
    those applies to any number of processes; and one process left alone does what admit_once does. */
module ProtocolRuns {
  import opened Wrappers
  import opened SortedSet
  import opened QueueModel
  import opened RateBounds
  import opened PassIssuer
  import opened RedisStore
  import opened AdmissionProtocol

  /** The script an action runs on the event's queue, if any: a process between ticks can start one. */
  function ScriptOf(s: State, a: Action): seq<Event> {
    match a
    case Arrive(t) => [Event.Join(t)]
    case Reconfigure(c) => [Event.Configure(c)]
    case ResetQueue => [Event.Reset]
    case Pop(p, now) => if ProcOf(s, p).Idle? then [Event.Admit(now)] else []
    case _ => []
  }

  function Scripts(acts: seq<Action>, k: nat, event: string, ttl: nat): seq<Event>
    requires k <= |acts|
  {
    if k == 0 then []
    else Scripts(acts, k - 1, event, ttl) + ScriptOf(After(acts, k - 1, event, ttl), acts[k - 1])
  }

  lemma {:induction false} StepRunsScript(s: State, a: Action, event: string, ttl: nat)
    ensures var es := ScriptOf(s, a);
      |es| <= 1 && Apply(s, a, event, ttl).q == if es == [] then s.q else Step(s.q, es[0])
  {
    hide Refill, Grant, Ids, HeldBy;
  }

  lemma {:induction false} OneMore(q: Queue, es: seq<Event>, e: Event)
    ensures At(q, es + [e], |es| + 1) == Step(At(q, es, |es|), e)
    ensures Admissions(q, es + [e], 0, |es| + 1) == Admissions(q, es, 0, |es|) + Popped(At(q, es, |es|), e)
  {
    hide Step, Popped;
    PrefixDecides(q, es, es + [e], |es|);
    AdmissionsPrefix(q, es, es + [e], |es|);
  }

  lemma {:induction false} AdmissionsPrefix(q: Queue, a: seq<Event>, b: seq<Event>, k: nat)
    requires k <= |a| && k <= |b| && a[..k] == b[..k]
    ensures Admissions(q, a, 0, k) == Admissions(q, b, 0, k)
  {
    hide Popped;
    if k > 0 {
      assert a[..k - 1] == a[..k][..k - 1] == b[..k - 1];
      assert a[k - 1] == a[..k][k - 1] == b[k - 1];
      AdmissionsPrefix(q, a, b, k - 1);
      PrefixDecides(q, a, b, k - 1);
    }
  }

  /** The queue of every protocol run is the queue after the scripts its actions ran, in order. */
  lemma {:induction false} QueueIsARun(acts: seq<Action>, k: nat, event: string, ttl: nat)
    requires k <= |acts|
    ensures var es := Scripts(acts, k, event, ttl); After(acts, k, event, ttl).q == At(START.q, es, |es|)
  {
    hide Apply, Step, ScriptOf, At;
    if k > 0 {
      QueueIsARun(acts, k - 1, event, ttl);
      var script := ScriptOf(After(acts, k - 1, event, ttl), acts[k - 1]);
      StepRunsScript(After(acts, k - 1, event, ttl), acts[k - 1], event, ttl);
      if script != [] {
        assert script == [script[0]];
        OneMore(START.q, Scripts(acts, k - 1, event, ttl), script[0]);
      } else {
        assert Scripts(acts, k, event, ttl) == Scripts(acts, k - 1, event, ttl);
      }
    } else {
      NothingRunYet();
    }
  }

  lemma {:induction false} NothingRunYet()
    ensures At(START.q, [], 0) == START.q
  {
  }

  lemma {:induction false} PopsOfStep(s: State, a: Action, event: string, ttl: nat)
    requires Inv(s)
    ensures var es := ScriptOf(s, a);
      EverPopped(Apply(s, a, event, ttl)) == EverPopped(s) + if es == [] then 0 else Popped(s.q, es[0])
  {
    hide Apply, EverPopped, Inv, Refill, Grant;
    PopsAreCounted(s, a, event, ttl);
  }

  /** Everyone ever popped by any process is an admission of that run of scripts. */
  lemma {:induction false} PopsAreAdmissions(acts: seq<Action>, k: nat, event: string, ttl: nat)
    requires k <= |acts|
    ensures var es := Scripts(acts, k, event, ttl);
      EverPopped(After(acts, k, event, ttl)) == Admissions(START.q, es, 0, |es|)
  {
    hide Apply, Popped, Inv, ScriptOf, At, Step;
    if k > 0 {
      PopsAreAdmissions(acts, k - 1, event, ttl);
      EveryRunKeepsInv(acts, k - 1, event, ttl);
      var was := After(acts, k - 1, event, ttl);
      var script := ScriptOf(was, acts[k - 1]);
      StepRunsScript(was, acts[k - 1], event, ttl);
      PopsOfStep(was, acts[k - 1], event, ttl);
      QueueIsARun(acts, k - 1, event, ttl);
      if script != [] {
        assert script == [script[0]];
        OneMore(START.q, Scripts(acts, k - 1, event, ttl), script[0]);
      } else {
        assert Scripts(acts, k, event, ttl) == Scripts(acts, k - 1, event, ttl);
      }
    }
  }

  ghost predicate SaneConfigs(acts: seq<Action>) {
    forall m | 0 <= m < |acts| && acts[m].Reconfigure? :: Sane(acts[m].config)
  }

  lemma {:induction false} ScriptsAreSane(acts: seq<Action>, k: nat, event: string, ttl: nat)
    requires k <= |acts| && SaneConfigs(acts)
    ensures SaneEvents(Scripts(acts, k, event, ttl))
  {
    hide Apply, Sane;
    if k > 0 {
      ScriptsAreSane(acts, k - 1, event, ttl);
    }
  }

  /** No leader is needed: all passes ever minted, by any number of processes through failures, resets and
      config changes, are paid for by what the one bucket was credited. */
  lemma {:induction false} PassesArePaidFor(acts: seq<Action>, k: nat, event: string, ttl: nat)
    requires k <= |acts| && SaneConfigs(acts)
    ensures var es := Scripts(acts, k, event, ttl);
      UNIT * |After(acts, k, event, ttl).minted| <= Credits(START.q, es, 0, |es|)
  {
    hide Apply, Popped, Credit, Inv;
    var es := Scripts(acts, k, event, ttl);
    EveryRunKeepsInv(acts, k, event, ttl);
    MintedFitPopped(After(acts, k, event, ttl));
    PopsAreAdmissions(acts, k, event, ttl);
    ScriptsAreSane(acts, k, event, ttl);
    SpendingIsPaidFor(START.q, es, 0, |es|);
    RunsAreSound(START.q, es, |es|);
  }

  // ---- One process left alone ----

  function SignMany(s: State, p: ProcId, n: nat, event: string, ttl: nat): State {
    if n == 0 then s else Apply(SignMany(s, p, n - 1, event, ttl), Action.Sign(p), event, ttl)
  }

  function StoreMany(s: State, p: ProcId, n: nat, event: string, ttl: nat): State {
    if n == 0 then s else Apply(StoreMany(s, p, n - 1, event, ttl), Action.Store(p), event, ttl)
  }

  /** Pop, sign the whole batch, record the whole batch. */
  function WholeTick(s: State, p: ProcId, now: int, event: string, ttl: nat): State {
    var n := |Batch(s.q, Admit(now))|;
    StoreMany(SignMany(Apply(s, Action.Pop(p, now), event, ttl), p, n, event, ttl), p, n, event, ttl)
  }

  function MintedBatch(lo: nat, passes: seq<IssuedPass>): seq<Minted> {
    seq(|passes|, i requires 0 <= i < |passes| => Minted.Minted(lo + i, passes[i]))
  }

  /** s with the first n passes of p's batch signed. */
  function Signed(s: State, p: ProcId, n: nat, event: string, ttl: nat): State
    requires ProcOf(s, p).Busy? && n <= |ProcOf(s, p).batch|
  {
    var b := ProcOf(s, p);
    var passes := IssueBatch(event, b.batch, b.now, ttl, |s.minted|)[..n];
    s.(minted := s.minted + MintedBatch(b.lo, passes), procs := s.procs[p := b.(passes := passes)])
  }

  lemma {:induction false} SignNext(s: State, p: ProcId, n: nat, event: string, ttl: nat)
    requires ProcOf(s, p).Busy? && n < |ProcOf(s, p).batch|
    ensures Apply(Signed(s, p, n, event, ttl), Action.Sign(p), event, ttl) == Signed(s, p, n + 1, event, ttl)
  {
    hide Batch, Tick;
    var b := ProcOf(s, p);
    var all := IssueBatch(event, b.batch, b.now, ttl, |s.minted|);
    assert all[..n + 1] == all[..n] + [all[n]];
    assert MintedBatch(b.lo, all[..n + 1]) == MintedBatch(b.lo, all[..n]) + [Minted.Minted(b.lo + n, all[n])];
  }

  lemma {:induction false} SigningBatch(s: State, p: ProcId, n: nat, event: string, ttl: nat)
    requires ProcOf(s, p).Busy? && ProcOf(s, p).passes == [] && n <= |ProcOf(s, p).batch|
    ensures SignMany(s, p, n, event, ttl) == Signed(s, p, n, event, ttl)
  {
    hide Apply, Signed;
    if n == 0 {
      NoneSigned(s, p, event, ttl);
    } else {
      SigningBatch(s, p, n - 1, event, ttl);
      SignNext(s, p, n - 1, event, ttl);
    }
  }

  lemma {:induction false} NoneSigned(s: State, p: ProcId, event: string, ttl: nat)
    requires ProcOf(s, p).Busy? && ProcOf(s, p).passes == []
    ensures Signed(s, p, 0, event, ttl) == s
  {
    var b := ProcOf(s, p);
    var all := IssueBatch(event, b.batch, b.now, ttl, |s.minted|);
    assert s.minted + MintedBatch(b.lo, all[..0]) == s.minted;
    assert s.procs[p := b.(passes := all[..0])] == s.procs;
  }

  function KeyAt(s: State, t: Token): Option<IssuedPass> {
    if t in s.keys then Some(s.keys[t]) else None
  }

  /** s' is s after p recorded the first n passes of its batch. */
  ghost predicate HasStored(s: State, s': State, p: ProcId, n: nat)
    requires ProcOf(s, p).Busy? && n <= |ProcOf(s, p).passes|
  {
    var b := ProcOf(s, p);
    && s'.q == s.q && s'.minted == s.minted && s'.history == s.history && s'.lost == s.lost
    && ProcOf(s', p) == (if n == |b.batch| then Idle else b.(stored := n))
    && (forall t :: KeyAt(s', t) == NewestPass(KeyAt(s, t), b.passes[..n], t))
    && (forall e | b.lo <= e < b.lo + n :: e in s'.recorded && s'.recorded[e] == b.passes[e - b.lo].jti)
  }

  lemma {:induction false} StoreNext(s: State, s': State, p: ProcId, n: nat, event: string, ttl: nat)
    requires ProcOf(s, p).Busy? && n < |ProcOf(s, p).passes| == |ProcOf(s, p).batch| && HasStored(s, s', p, n)
    ensures HasStored(s, Apply(s', Action.Store(p), event, ttl), p, n + 1)
  {
    hide Batch, Tick;
    var passes := ProcOf(s, p).passes;
    assert passes[..n + 1][..n] == passes[..n] && passes[..n + 1][n] == passes[n];
    var s2 := Apply(s', Action.Store(p), event, ttl);
    var b := ProcOf(s, p);
    assert ProcOf(s', p) == b.(stored := n);
    forall t ensures KeyAt(s2, t) == NewestPass(KeyAt(s, t), passes[..n + 1], t) {
    }
  }

  lemma {:induction false} StoringBatch(s: State, p: ProcId, n: nat, event: string, ttl: nat)
    requires ProcOf(s, p).Busy? && n <= |ProcOf(s, p).passes| == |ProcOf(s, p).batch|
    requires ProcOf(s, p).stored == 0 && 0 < |ProcOf(s, p).batch|
    ensures HasStored(s, StoreMany(s, p, n, event, ttl), p, n)
  {
    hide Apply;
    if n > 0 {
      StoringBatch(s, p, n - 1, event, ttl);
      StoreNext(s, StoreMany(s, p, n - 1, event, ttl), p, n - 1, event, ttl);
    }
  }

  lemma {:induction false} Popping(s: State, p: ProcId, now: int, event: string, ttl: nat)
    requires ProcOf(s, p).Idle? && s.q.config.Some?
    ensures var s', batch := Apply(s, Action.Pop(p, now), event, ttl), Batch(s.q, Admit(now));
      && s'.q == Step(s.q, Admit(now))
      && s'.minted == s.minted && s'.keys == s.keys && s'.lost == s.lost
      && ProcOf(s', p) == if batch == [] then Idle else Busy(batch, Frontier(s), now, s.q.config.value, [], 0)
  {
    hide Tick, Batch, Ids, HeldBy;
  }

  /** The protocol refines the tick: a process that is not interrupted ends between ticks again, having
      taken the queue's step and left every pass of one IssueBatch minted, recorded and under its key, as
      AdmitOnce does. */
  lemma {:induction false} WholeTickIsAdmitOnce(s: State, p: ProcId, now: int, event: string, ttl: nat)
    requires ProcOf(s, p).Idle? && s.q.config.Some?
    ensures var s', batch := WholeTick(s, p, now, event, ttl), Batch(s.q, Admit(now));
      var passes := IssueBatch(event, batch, now, ttl, |s.minted|);
      && s'.q == Step(s.q, Admit(now)) && ProcOf(s', p).Idle? && s'.lost == s.lost
      && s'.minted == s.minted + MintedBatch(Frontier(s), passes)
      && (forall t :: KeyAt(s', t) == NewestPass(KeyAt(s, t), passes, t))
      && (forall e | Frontier(s) <= e < Frontier(s) + |passes| ::
            e in s'.recorded && s'.recorded[e] == passes[e - Frontier(s)].jti)
  {
    hide Tick, Step, Batch, Apply, StoreMany, SignMany;
    Popping(s, p, now, event, ttl);
    var s1, batch := Apply(s, Action.Pop(p, now), event, ttl), Batch(s.q, Admit(now));
    var n := |batch|;
    var passes := IssueBatch(event, batch, now, ttl, |s.minted|);
    if n > 0 {
      var s2 := SignMany(s1, p, n, event, ttl);
      SigningBatch(s1, p, n, event, ttl);
      assert passes[..n] == passes;
      assert ProcOf(s2, p).passes == passes && s2.keys == s.keys;
      StoringBatch(s2, p, n, event, ttl);
      assert ProcOf(s2, p).passes[..n] == passes;
      assert forall t :: KeyAt(s2, t) == KeyAt(s, t);
    } else {
      NothingToDo(s1, p, event, ttl);
      assert s.minted + MintedBatch(Frontier(s), passes) == s.minted;
    }
  }

  lemma {:induction false} NothingToDo(s: State, p: ProcId, event: string, ttl: nat)
    ensures StoreMany(SignMany(s, p, 0, event, ttl), p, 0, event, ttl) == s
  {
  }
}
