/**
 * Any number of admitter processes over one event's queue, each looping over pop, sign, record,
 * and each able to fail between any two steps. Entries are numbered by their place in the history
 * of everyone ever sequenced, across resets.
 */
module AdmissionProtocol {
  import opened Wrappers
  import opened SortedSet
  import opened WaiterState
  import opened QueueModel
  import opened PassIssuer
  import Counting

  type ProcId = nat

  /** A process is between ticks, or it holds a popped batch: entries `lo`, lo + 1, ...; the first
      |passes| of them are signed and the first `stored` of them recorded. */
  datatype Proc =
    | Idle
    | Busy(batch: seq<Token>, lo: nat, now: int, under: Config, passes: seq<IssuedPass>, stored: nat)

  datatype Minted = Minted(entry: nat, pass: IssuedPass)

  /** The queue, the processes and the pass keys are the system; history, base, holder, recorded,
      lost, dropped and failures are bookkeeping about where each entry went. */
  datatype State = State(
    q: Queue, procs: map<ProcId, Proc>, keys: map<Token, IssuedPass>, minted: seq<Minted>,
    history: seq<Token>, base: nat,
    holder: map<nat, ProcId>, recorded: map<nat, nat>, lost: set<nat>, dropped: set<nat>, failures: nat)

  datatype Action =
    | Arrive(token: Token)
    | Reconfigure(config: Config)
    | ResetQueue
    | Pop(p: ProcId, now: int)
    | Sign(p: ProcId)
    | Store(p: ProcId)
    | Fail(p: ProcId)
    | ExpireKey(token: Token)

  const START := State(QueueData([], 0, Unset, None), map[], map[], [], [], 0, map[], map[], {}, {}, 0)

  function ProcOf(s: State, p: ProcId): Proc {
    if p in s.procs then s.procs[p] else Idle
  }

  function Ids(lo: nat, hi: nat): (ids: set<nat>)
    ensures forall i :: i in ids <==> lo <= i < hi
    ensures |ids| == if lo < hi then hi - lo else 0
  {
    if lo < hi then Ids(lo, hi - 1) + {hi - 1} else {}
  }

  function HeldBy(ids: set<nat>, p: ProcId): map<nat, ProcId> {
    map i | i in ids :: p
  }

  /** Everyone before this entry number has left the queue. */
  function Frontier(s: State): nat {
    s.base + s.q.admitted
  }

  function End(b: Proc): nat
    requires b.Busy?
  {
    b.lo + |b.batch|
  }

  function Apply(s: State, a: Action, event: string, ttl: nat): State {
    match a
    case Arrive(t) =>
      var q' := Step(s.q, Join(t));
      s.(q := q', history := if |q'.log| > |s.q.log| then s.history + [t] else s.history)
    case Reconfigure(c) => s.(q := Step(s.q, Configure(c)))
    case ResetQueue =>
      s.(q := Step(s.q, Reset), base := |s.history|, dropped := s.dropped + Ids(Frontier(s), |s.history|))
    case Pop(p, now) =>
      if ProcOf(s, p).Busy? || s.q.config.None? then s
      else
        var batch := Batch(s.q, Admit(now));
        var s' := s.(q := Step(s.q, Admit(now)));
        if batch == [] then s'
        else s'.(procs := s.procs[p := Busy(batch, Frontier(s), now, s.q.config.value, [], 0)],
                 holder := s.holder + HeldBy(Ids(Frontier(s), Frontier(s) + |batch|), p))
    case Sign(p) =>
      var b := ProcOf(s, p);
      if b.Idle? || |b.passes| >= |b.batch| then s
      else
        var pass := Issue(event, b.batch[|b.passes|], b.now / 1000, ttl, |s.minted|);
        s.(minted := s.minted + [Minted(b.lo + |b.passes|, pass)],
           procs := s.procs[p := b.(passes := b.passes + [pass])])
    case Store(p) =>
      var b := ProcOf(s, p);
      if b.Idle? || |b.passes| < |b.batch| || b.stored >= |b.passes| then s
      else
        var pass := b.passes[b.stored];
        s.(keys := s.keys[pass.token := pass],
           recorded := s.recorded[b.lo + b.stored := pass.jti],
           holder := s.holder - {b.lo + b.stored},
           procs := s.procs[p := if b.stored + 1 == |b.batch| then Idle else b.(stored := b.stored + 1)])
    case Fail(p) =>
      var b := ProcOf(s, p);
      if b.Idle? then s
      else
        var stranded := Ids(b.lo + b.stored, End(b));
        s.(procs := s.procs[p := Idle], holder := s.holder - stranded, lost := s.lost + stranded,
           failures := s.failures + 1)
    case ExpireKey(t) => s.(keys := s.keys - {t})
  }

  function After(acts: seq<Action>, k: nat, event: string, ttl: nat): State
    requires k <= |acts|
  {
    if k == 0 then START else Apply(After(acts, k - 1, event, ttl), acts[k - 1], event, ttl)
  }

  // ---- What every step keeps ----

  ghost predicate QueueOk(s: State) {
    s.base <= |s.history| && s.q.log == s.history[s.base..]
  }

  ghost predicate ProcOk(s: State, p: ProcId) {
    var b := ProcOf(s, p);
    b.Busy? ==>
      && End(b) <= Frontier(s) <= |s.history|
      && b.batch == s.history[b.lo..End(b)]
      && b.stored <= |b.passes| <= |b.batch| && b.stored < |b.batch|
      && (0 < b.stored ==> |b.passes| == |b.batch|)
      && |b.batch| <= Min(b.under.burst, b.under.batchMax)
      && (forall i | 0 <= i < |b.passes| ::
            b.passes[i].jti < |s.minted| && s.minted[b.passes[i].jti] == Minted(b.lo + i, b.passes[i]))
      && (forall i | b.lo + b.stored <= i < End(b) :: i in s.holder && s.holder[i] == p)
  }

  ghost predicate HolderOk(s: State, i: nat) {
    i in s.holder ==>
      var b := ProcOf(s, s.holder[i]);
      b.Busy? && b.lo + b.stored <= i < End(b)
  }

  /** How many places an entry is recorded as having gone to. */
  function Places(s: State, i: nat): nat {
    (if i in s.holder then 1 else 0) + (if i in s.recorded then 1 else 0) +
    (if i in s.lost then 1 else 0) + (if i in s.dropped then 1 else 0)
  }

  /** An entry that has left the queue is in exactly one place, any other in none. */
  ghost predicate PlaceOk(s: State, i: nat) {
    Places(s, i) == if i < Frontier(s) then 1 else 0
  }

  function SignedUpTo(s: State, p: ProcId): nat {
    var b := ProcOf(s, p);
    if b.Busy? then b.lo + |b.passes| else 0
  }

  ghost predicate MintOk(s: State, j: nat)
    requires j < |s.minted|
  {
    var m := s.minted[j];
    && m.pass.jti == j
    && m.entry < Frontier(s) <= |s.history| && m.entry !in s.dropped
    && m.pass.token == s.history[m.entry]
    && (m.entry in s.holder ==> m.entry < SignedUpTo(s, s.holder[m.entry]))
  }

  /** No entry is ever signed a second pass. */
  ghost predicate OnePassEach(s: State) {
    forall i, j | 0 <= i < j < |s.minted| :: s.minted[i].entry != s.minted[j].entry
  }

  ghost predicate RecordOk(s: State, i: nat) {
    i in s.recorded ==> s.recorded[i] < |s.minted| && s.minted[s.recorded[i]].entry == i
  }

  /** A stored pass key holds its own token's pass, minted for an entry that is recorded under that
      very pass, and so is neither held by a process nor lost. */
  ghost predicate KeyOk(s: State, t: Token) {
    t in s.keys ==>
      var pass := s.keys[t];
      && pass.token == t
      && pass.jti < |s.minted| && s.minted[pass.jti].pass == pass
      && var entry := s.minted[pass.jti].entry;
         entry in s.recorded && s.recorded[entry] == pass.jti
  }

  ghost predicate Inv(s: State) {
    EntriesOk(s) && KeysOk(s)
  }

  ghost predicate KeysOk(s: State) {
    forall t :: KeyOk(s, t)
  }

  ghost predicate EntriesOk(s: State) {
    && QueueOk(s)
    && (forall p :: ProcOk(s, p))
    && (forall i: nat :: HolderOk(s, i) && PlaceOk(s, i) && RecordOk(s, i))
    && (forall j | 0 <= j < |s.minted| :: MintOk(s, j))
    && OnePassEach(s)
  }

  lemma {:induction false} BatchCap(q: Queue, now: int)
    requires q.config.Some?
    ensures var c, n := q.config.value, |Batch(q, Admit(now))|; n > 0 ==> n <= Min(c.burst, c.batchMax)
  {
  }

  lemma {:induction false} ArriveKeepsEntries(s: State, t: Token, event: string, ttl: nat)
    requires EntriesOk(s)
    ensures EntriesOk(Apply(s, Arrive(t), event, ttl))
  {
    var s' := Apply(s, Arrive(t), event, ttl);
    assert s.history <= s'.history && Frontier(s') == Frontier(s);
    forall p ensures ProcOk(s', p) { assert ProcOk(s, p); }
    forall i: nat ensures HolderOk(s', i) && PlaceOk(s', i) && RecordOk(s', i) {
      assert HolderOk(s, i) && PlaceOk(s, i) && RecordOk(s, i);
    }
    forall j | 0 <= j < |s'.minted| ensures MintOk(s', j) { assert MintOk(s, j); }
  }

  lemma {:induction false} QueueStepsKeepProc(s: State, a: Action, event: string, ttl: nat, r: ProcId)
    requires EntriesOk(s) && (a.Reconfigure? || a.ResetQueue? || a.ExpireKey?)
    ensures ProcOk(Apply(s, a, event, ttl), r)
  {
    hide HolderOk, PlaceOk, RecordOk, MintOk, OnePassEach, Tick;
    assert ProcOk(s, r);
  }

  lemma {:induction false} QueueStepsKeepEntries(s: State, a: Action, event: string, ttl: nat)
    requires EntriesOk(s) && (a.Reconfigure? || a.ResetQueue? || a.ExpireKey?)
    ensures EntriesOk(Apply(s, a, event, ttl))
  {
    hide ProcOk, Tick;
    var s' := Apply(s, a, event, ttl);
    forall p ensures ProcOk(s', p) { QueueStepsKeepProc(s, a, event, ttl, p); }
    forall i: nat ensures HolderOk(s', i) && PlaceOk(s', i) && RecordOk(s', i) {
      assert HolderOk(s, i) && PlaceOk(s, i) && RecordOk(s, i);
    }
    forall j | 0 <= j < |s'.minted| ensures MintOk(s', j) { assert MintOk(s, j); }
  }

  lemma {:induction false} BatchIsHistory(s: State, now: int)
    requires QueueOk(s)
    ensures var batch := Batch(s.q, Admit(now));
            && Tick(s.q, now).admitted == s.q.admitted + |batch|
            && Tick(s.q, now).log == s.q.log
            && Frontier(s) + |batch| <= |s.history|
            && batch == s.history[Frontier(s)..Frontier(s) + |batch|]
  {
  }

  lemma {:induction false} PopStartsProc(s: State, p: ProcId, now: int, event: string, ttl: nat)
    requires EntriesOk(s) && ProcOf(s, p).Idle? && s.q.config.Some?
    ensures ProcOk(Apply(s, Pop(p, now), event, ttl), p)
  {
    hide Tick, Batch, HolderOk, PlaceOk, RecordOk, MintOk, OnePassEach;
    BatchCap(s.q, now);
    BatchIsHistory(s, now);
  }

  lemma {:induction false} PopKeepsProc(s: State, p: ProcId, now: int, event: string, ttl: nat, r: ProcId)
    requires EntriesOk(s) && ProcOf(s, p).Idle? && s.q.config.Some? && r != p
    ensures ProcOk(Apply(s, Pop(p, now), event, ttl), r)
  {
    hide Tick, Batch, HolderOk, PlaceOk, RecordOk, MintOk, OnePassEach;
    BatchIsHistory(s, now);
    assert ProcOk(s, r);
  }

  lemma {:induction false} PopKeepsEntry(s: State, p: ProcId, now: int, event: string, ttl: nat, i: nat)
    requires EntriesOk(s) && ProcOf(s, p).Idle? && s.q.config.Some?
    ensures var s' := Apply(s, Pop(p, now), event, ttl); HolderOk(s', i) && PlaceOk(s', i) && RecordOk(s', i)
  {
    hide Tick, Batch, ProcOk, MintOk, OnePassEach;
    BatchIsHistory(s, now);
    assert HolderOk(s, i) && PlaceOk(s, i) && RecordOk(s, i);
  }

  lemma {:induction false} PopKeepsEntries(s: State, p: ProcId, now: int, event: string, ttl: nat)
    requires EntriesOk(s)
    ensures EntriesOk(Apply(s, Pop(p, now), event, ttl))
  {
    hide Tick, Batch, ProcOk, HolderOk, PlaceOk, RecordOk, MintOk;
    var s' := Apply(s, Pop(p, now), event, ttl);
    if ProcOf(s, p).Idle? && s.q.config.Some? {
      BatchIsHistory(s, now);
      forall r ensures ProcOk(s', r) {
        if r == p { PopStartsProc(s, p, now, event, ttl); } else { PopKeepsProc(s, p, now, event, ttl, r); }
      }
      forall i: nat ensures HolderOk(s', i) && PlaceOk(s', i) && RecordOk(s', i) {
        PopKeepsEntry(s, p, now, event, ttl, i);
      }
      forall j: nat | j < |s'.minted| ensures MintOk(s', j) { PopKeepsMint(s, p, now, event, ttl, j); }
    }
  }

  lemma {:induction false} PopKeepsMint(s: State, p: ProcId, now: int, event: string, ttl: nat, j: nat)
    requires EntriesOk(s) && ProcOf(s, p).Idle? && s.q.config.Some? && j < |s.minted|
    ensures MintOk(Apply(s, Pop(p, now), event, ttl), j)
  {
    hide Tick, Batch, ProcOk, PlaceOk, RecordOk, OnePassEach;
    BatchIsHistory(s, now);
    assert MintOk(s, j) && HolderOk(s, s.minted[j].entry);
  }

  lemma {:induction false} SignKeepsProc(s: State, p: ProcId, event: string, ttl: nat, r: ProcId)
    requires EntriesOk(s) && ProcOf(s, p).Busy? && |ProcOf(s, p).passes| < |ProcOf(s, p).batch|
    ensures ProcOk(Apply(s, Sign(p), event, ttl), r)
  {
    hide HolderOk, PlaceOk, RecordOk, MintOk, OnePassEach, Tick;
    assert ProcOk(s, p) && ProcOk(s, r);
  }

  lemma {:induction false} SignKeepsMint(s: State, p: ProcId, event: string, ttl: nat, j: nat)
    requires EntriesOk(s) && ProcOf(s, p).Busy? && |ProcOf(s, p).passes| < |ProcOf(s, p).batch| && j <= |s.minted|
    ensures MintOk(Apply(s, Sign(p), event, ttl), j)
    ensures j < |s.minted| ==> s.minted[j].entry != ProcOf(s, p).lo + |ProcOf(s, p).passes|
  {
    hide RecordOk, OnePassEach, Tick;
    var b := ProcOf(s, p);
    var entry := b.lo + |b.passes|;
    assert ProcOk(s, p);
    assert s.holder[entry] == p && PlaceOk(s, entry) && b.batch[|b.passes|] == s.history[entry];
    if j < |s.minted| {
      assert MintOk(s, j);
    }
  }

  lemma {:induction false} SignKeepsEntries(s: State, p: ProcId, event: string, ttl: nat)
    requires EntriesOk(s)
    ensures EntriesOk(Apply(s, Sign(p), event, ttl))
  {
    hide ProcOk, MintOk, Tick;
    var s', b := Apply(s, Sign(p), event, ttl), ProcOf(s, p);
    if b.Busy? && |b.passes| < |b.batch| {
      forall r ensures ProcOk(s', r) { SignKeepsProc(s, p, event, ttl, r); }
      forall i: nat ensures HolderOk(s', i) && PlaceOk(s', i) && RecordOk(s', i) {
        assert HolderOk(s, i) && PlaceOk(s, i) && RecordOk(s, i);
      }
      forall j: nat | j < |s'.minted|
        ensures MintOk(s', j) && (j < |s.minted| ==> s.minted[j].entry != b.lo + |b.passes|)
      {
        SignKeepsMint(s, p, event, ttl, j);
      }
    }
  }

  lemma {:induction false} StoreKeepsProc(s: State, p: ProcId, event: string, ttl: nat, r: ProcId)
    requires EntriesOk(s) && ProcOf(s, p).Busy? && |ProcOf(s, p).passes| == |ProcOf(s, p).batch|
    ensures ProcOk(Apply(s, Store(p), event, ttl), r)
  {
    hide HolderOk, PlaceOk, RecordOk, MintOk, OnePassEach, Tick;
    assert ProcOk(s, p) && ProcOk(s, r);
    assert s.holder[ProcOf(s, p).lo + ProcOf(s, p).stored] == p;
  }

  lemma {:induction false} StoreKeepsEntry(s: State, p: ProcId, event: string, ttl: nat, i: nat)
    requires EntriesOk(s) && ProcOf(s, p).Busy? && |ProcOf(s, p).passes| == |ProcOf(s, p).batch|
    ensures var s' := Apply(s, Store(p), event, ttl); HolderOk(s', i) && PlaceOk(s', i) && RecordOk(s', i)
  {
    hide MintOk, OnePassEach, Tick;
    assert ProcOk(s, p) && HolderOk(s, i) && PlaceOk(s, i) && RecordOk(s, i);
    assert s.holder[ProcOf(s, p).lo + ProcOf(s, p).stored] == p;
  }

  lemma {:induction false} StoreKeepsMint(s: State, p: ProcId, event: string, ttl: nat, j: nat)
    requires EntriesOk(s) && ProcOf(s, p).Busy? && |ProcOf(s, p).passes| == |ProcOf(s, p).batch| && j < |s.minted|
    ensures MintOk(Apply(s, Store(p), event, ttl), j)
  {
    hide PlaceOk, RecordOk, OnePassEach, Tick;
    assert ProcOk(s, p) && MintOk(s, j) && HolderOk(s, s.minted[j].entry);
  }

  lemma {:induction false} StoreKeepsEntries(s: State, p: ProcId, event: string, ttl: nat)
    requires EntriesOk(s)
    ensures EntriesOk(Apply(s, Store(p), event, ttl))
  {
    hide ProcOk, HolderOk, PlaceOk, RecordOk, MintOk, Tick;
    var s', b := Apply(s, Store(p), event, ttl), ProcOf(s, p);
    if b.Busy? && |b.passes| == |b.batch| {
      forall r ensures ProcOk(s', r) { StoreKeepsProc(s, p, event, ttl, r); }
      forall i: nat ensures HolderOk(s', i) && PlaceOk(s', i) && RecordOk(s', i) {
        StoreKeepsEntry(s, p, event, ttl, i);
      }
      forall j: nat | j < |s'.minted| ensures MintOk(s', j) { StoreKeepsMint(s, p, event, ttl, j); }
    } else if b.Busy? {
      SignedWithinBatch(s, p);
    }
  }

  lemma {:induction false} SignedWithinBatch(s: State, p: ProcId)
    requires EntriesOk(s) && ProcOf(s, p).Busy?
    ensures |ProcOf(s, p).passes| <= |ProcOf(s, p).batch|
  {
    assert ProcOk(s, p);
  }

  lemma {:induction false} FailKeepsProc(s: State, p: ProcId, event: string, ttl: nat, r: ProcId)
    requires EntriesOk(s) && ProcOf(s, p).Busy?
    ensures ProcOk(Apply(s, Fail(p), event, ttl), r)
  {
    hide HolderOk, PlaceOk, RecordOk, MintOk, OnePassEach, Tick;
    var s', b, c := Apply(s, Fail(p), event, ttl), ProcOf(s, p), ProcOf(s, r);
    assert ProcOk(s, p) && ProcOk(s, r);
    if r != p && c.Busy? {
      assert ProcOf(s', r) == c;
      forall i | c.lo + c.stored <= i < End(c) ensures i in s'.holder && s'.holder[i] == r {
        assert s.holder[i] == r && i !in Ids(b.lo + b.stored, End(b));
      }
    }
  }

  lemma {:induction false} FailKeepsEntry(s: State, p: ProcId, event: string, ttl: nat, i: nat)
    requires EntriesOk(s) && ProcOf(s, p).Busy?
    ensures var s' := Apply(s, Fail(p), event, ttl); HolderOk(s', i) && PlaceOk(s', i) && RecordOk(s', i)
  {
    hide MintOk, OnePassEach, Tick;
    assert ProcOk(s, p) && HolderOk(s, i) && PlaceOk(s, i) && RecordOk(s, i);
    hide ProcOk;
  }

  lemma {:induction false} FailKeepsEntries(s: State, p: ProcId, event: string, ttl: nat)
    requires EntriesOk(s)
    ensures EntriesOk(Apply(s, Fail(p), event, ttl))
  {
    hide ProcOk, PlaceOk, RecordOk, Tick;
    var s' := Apply(s, Fail(p), event, ttl);
    if ProcOf(s, p).Busy? {
      forall r ensures ProcOk(s', r) { FailKeepsProc(s, p, event, ttl, r); }
      forall i: nat ensures HolderOk(s', i) && PlaceOk(s', i) && RecordOk(s', i) {
        FailKeepsEntry(s, p, event, ttl, i);
      }
      forall j | 0 <= j < |s'.minted| ensures MintOk(s', j) {
        assert MintOk(s, j) && HolderOk(s, s.minted[j].entry);
      }
    }
  }

  lemma {:induction false} StepKeepsEntries(s: State, a: Action, event: string, ttl: nat)
    requires EntriesOk(s)
    ensures EntriesOk(Apply(s, a, event, ttl))
  {
    hide EntriesOk, Apply;
    match a {
      case Arrive(t) => ArriveKeepsEntries(s, t, event, ttl);
      case Reconfigure(_) => QueueStepsKeepEntries(s, a, event, ttl);
      case ResetQueue => QueueStepsKeepEntries(s, a, event, ttl);
      case Pop(p, now) => PopKeepsEntries(s, p, now, event, ttl);
      case Sign(p) => SignKeepsEntries(s, p, event, ttl);
      case Store(p) => StoreKeepsEntries(s, p, event, ttl);
      case Fail(p) => FailKeepsEntries(s, p, event, ttl);
      case ExpireKey(_) => QueueStepsKeepEntries(s, a, event, ttl);
    }
  }

  /** The pass a Store step writes, if it writes one. */
  function Stored(s: State, a: Action): Option<Minted> {
    if !a.Store? || ProcOf(s, a.p).Idle? then None
    else
      var b := ProcOf(s, a.p);
      if |b.passes| < |b.batch| || b.stored >= |b.passes| then None
      else Some(Minted(b.lo + b.stored, b.passes[b.stored]))
  }

  /** Only a Store step and a key's expiry change the keys, and only a Store step records. */
  lemma {:induction false} OnlyStoresRecord(s: State, a: Action, event: string, ttl: nat)
    ensures var s' := Apply(s, a, event, ttl);
      match Stored(s, a)
      case Some(Minted(entry, pass)) =>
        a.Store? && s'.recorded == s.recorded[entry := pass.jti] && s'.keys == s.keys[pass.token := pass]
      case None =>
        s'.recorded == s.recorded && s'.keys == if a.ExpireKey? then s.keys - {a.token} else s.keys
  {
    hide Tick, Batch, Ids, HeldBy, Grant, Issue, End, Frontier;
  }

  lemma {:induction false} RecordsGrow(s: State, a: Action, event: string, ttl: nat)
    ensures s.minted <= Apply(s, a, event, ttl).minted && s.history <= Apply(s, a, event, ttl).history
  {
    hide Tick, Batch, Ids, HeldBy, Grant, End, Frontier;
  }

  /** What a Store step writes was minted for an entry its process holds, which nothing has recorded. */
  lemma {:induction false} StoredIsMinted(s: State, a: Action)
    requires EntriesOk(s) && Stored(s, a).Some?
    ensures var w := Stored(s, a).value;
      && w.pass.jti < |s.minted| && s.minted[w.pass.jti] == w
      && w.entry < |s.history| && w.pass.token == s.history[w.entry]
      && w.entry !in s.recorded
  {
    hide HolderOk, RecordOk, OnePassEach;
    assert ProcOk(s, a.p);
    var w := Stored(s, a).value;
    assert s.holder[w.entry] == a.p && PlaceOk(s, w.entry) && MintOk(s, w.pass.jti);
  }

  lemma {:induction false} StepKeepsKeys(s: State, a: Action, event: string, ttl: nat)
    requires Inv(s)
    ensures KeysOk(Apply(s, a, event, ttl))
  {
    hide Apply, EntriesOk, Stored;
    OnlyStoresRecord(s, a, event, ttl);
    RecordsGrow(s, a, event, ttl);
    if Stored(s, a).Some? {
      StoredIsMinted(s, a);
    }
    forall t ensures KeyOk(Apply(s, a, event, ttl), t) {
      assert KeyOk(s, t);
    }
  }

  lemma {:induction false} StepKeepsInv(s: State, a: Action, event: string, ttl: nat)
    requires Inv(s)
    ensures Inv(Apply(s, a, event, ttl))
  {
    hide Apply, EntriesOk, KeysOk;
    StepKeepsEntries(s, a, event, ttl);
    StepKeepsKeys(s, a, event, ttl);
  }

  lemma {:induction false} EveryRunKeepsInv(acts: seq<Action>, k: nat, event: string, ttl: nat)
    requires k <= |acts|
    ensures Inv(After(acts, k, event, ttl))
  {
    if k > 0 {
      EveryRunKeepsInv(acts, k - 1, event, ttl);
      StepKeepsInv(After(acts, k - 1, event, ttl), acts[k - 1], event, ttl);
    }
  }

  // ---- Theorems about every run ----

  /** Conservation: every entry ever sequenced is in exactly one of waiting, held by one process,
      recorded under its own pass, lost, or dropped by a reset. */
  lemma {:induction false} EveryEntryIsSomewhere(acts: seq<Action>, k: nat, event: string, ttl: nat, i: nat)
    requires k <= |acts| && i < |After(acts, k, event, ttl).history|
    ensures var s := After(acts, k, event, ttl);
      && (if Frontier(s) <= i then 1 else 0) + Places(s, i) == 1
      && (i in s.holder <==> exists p :: Unrecorded(s, p, i))
      && (forall p, r | Unrecorded(s, p, i) && Unrecorded(s, r, i) :: p == r)
      && (i in s.recorded ==> s.recorded[i] < |s.minted| && s.minted[s.recorded[i]].entry == i
                              && s.minted[s.recorded[i]].pass.token == s.history[i])
  {
    EveryRunKeepsInv(acts, k, event, ttl);
    var s := After(acts, k, event, ttl);
    assert HolderOk(s, i) && PlaceOk(s, i) && RecordOk(s, i);
    forall p | Unrecorded(s, p, i) ensures i in s.holder && s.holder[i] == p { assert ProcOk(s, p); }
    if i in s.holder { assert Unrecorded(s, s.holder[i], i); }
    if i in s.recorded { assert MintOk(s, s.recorded[i]); }
  }

  /** Process p holds entry i: popped by it and not yet recorded. */
  ghost predicate Unrecorded(s: State, p: ProcId, i: nat) {
    var b := ProcOf(s, p);
    b.Busy? && b.lo + b.stored <= i < End(b)
  }

  /** Every pass ever minted is for the token of an entry that was popped. */
  lemma {:induction false} PassesAreForPopped(acts: seq<Action>, k: nat, event: string, ttl: nat, j: nat)
    requires k <= |acts| && j < |After(acts, k, event, ttl).minted|
    ensures var s := After(acts, k, event, ttl);
      var m := s.minted[j];
      && m.pass.jti == j
      && m.entry < Frontier(s) <= |s.history| && m.entry !in s.dropped
      && m.pass.token == s.history[m.entry]
  {
    EveryRunKeepsInv(acts, k, event, ttl);
    assert MintOk(After(acts, k, event, ttl), j);
  }

  /** No entry gets two passes, in any run, however many processes and failures. */
  lemma {:induction false} OnePassPerEntry(acts: seq<Action>, k: nat, event: string, ttl: nat, i: nat, j: nat)
    requires k <= |acts| && i < j < |After(acts, k, event, ttl).minted|
    ensures var s := After(acts, k, event, ttl);
      s.minted[i].entry != s.minted[j].entry && s.minted[i].pass.jti != s.minted[j].pass.jti
  {
    EveryRunKeepsInv(acts, k, event, ttl);
    var s := After(acts, k, event, ttl);
    assert MintOk(s, i) && MintOk(s, j);
  }

  /** One failure loses exactly what the process still held, at most min(burst, batch_max) of the
      config it popped under. */
  lemma {:induction false} FailureLosesOneBatch(acts: seq<Action>, k: nat, event: string, ttl: nat, p: ProcId)
    requires k <= |acts| && ProcOf(After(acts, k, event, ttl), p).Busy?
    ensures var s := After(acts, k, event, ttl);
            var s', b := Apply(s, Fail(p), event, ttl), ProcOf(s, p);
      && (forall i :: i in s'.lost <==> i in s.lost || Unrecorded(s, p, i))
      && s'.q == s.q && s'.recorded == s.recorded && s'.keys == s.keys
      && |s'.lost| == |s.lost| + |b.batch| - b.stored
      && |s'.lost| <= |s.lost| + Min(b.under.burst, b.under.batchMax)
  {
    EveryRunKeepsInv(acts, k, event, ttl);
    FailLoses(After(acts, k, event, ttl), p, event, ttl);
  }

  lemma {:induction false} FailLoses(s: State, p: ProcId, event: string, ttl: nat)
    requires Inv(s) && ProcOf(s, p).Busy?
    ensures var s', b := Apply(s, Fail(p), event, ttl), ProcOf(s, p);
      && (forall i :: i in s'.lost <==> i in s.lost || Unrecorded(s, p, i))
      && |s'.lost| == |s.lost| + |b.batch| - b.stored
      && |s'.lost| <= |s.lost| + Min(b.under.burst, b.under.batchMax)
  {
    hide HolderOk, RecordOk, MintOk, OnePassEach;
    var b := ProcOf(s, p);
    assert ProcOk(s, p);
    forall i | i in Ids(b.lo + b.stored, End(b)) ensures i !in s.lost {
      assert PlaceOk(s, i) && s.holder[i] == p;
    }
  }

  ghost predicate ConfigsWithin(acts: seq<Action>, most: nat) {
    forall m | 0 <= m < |acts| && acts[m].Reconfigure? :: Within(acts[m].config, most)
  }

  predicate Within(c: Config, most: nat) {
    Min(c.burst, c.batchMax) <= most
  }

  /** Over a whole run: losses are at most one batch per failure. */
  lemma {:induction false} LossesPerFailure(acts: seq<Action>, k: nat, event: string, ttl: nat, most: nat)
    requires k <= |acts| && ConfigsWithin(acts, most)
    ensures |After(acts, k, event, ttl).lost| <= After(acts, k, event, ttl).failures * most
  {
    LossesBounded(acts, k, event, ttl, most);
  }

  function Budget(failures: nat, most: nat): nat {
    failures * most
  }

  ghost predicate Bounded(s: State, most: nat) {
    && |s.lost| <= Budget(s.failures, most)
    && (s.q.config.Some? ==> Within(s.q.config.value, most))
    && forall p :: ProcBounded(s, p, most)
  }

  ghost predicate ProcBounded(s: State, p: ProcId, most: nat) {
    ProcOf(s, p).Busy? ==> Within(ProcOf(s, p).under, most)
  }

  lemma {:induction false} StepKeepsBound(s: State, a: Action, event: string, ttl: nat, most: nat)
    requires Inv(s) && Bounded(s, most) && (a.Reconfigure? ==> Within(a.config, most))
    ensures Bounded(Apply(s, a, event, ttl), most)
  {
    hide Apply, ProcBounded, Within, Budget, Inv;
    forall p ensures ProcBounded(Apply(s, a, event, ttl), p, most) {
      StepKeepsProcBound(s, a, event, ttl, most, p);
    }
    StepKeepsConfigBound(s, a, event, ttl, most);
    StepKeepsBudget(s, a, event, ttl, most);
  }

  lemma {:induction false} StepKeepsProcBound(s: State, a: Action, event: string, ttl: nat, most: nat, p: ProcId)
    requires ProcBounded(s, p, most) && (s.q.config.Some? ==> Within(s.q.config.value, most))
    ensures ProcBounded(Apply(s, a, event, ttl), p, most)
  {
    hide Tick, Batch, Within, Ids, HeldBy;
  }

  lemma {:induction false} StepKeepsConfigBound(s: State, a: Action, event: string, ttl: nat, most: nat)
    requires (s.q.config.Some? ==> Within(s.q.config.value, most)) && (a.Reconfigure? ==> Within(a.config, most))
    ensures var q' := Apply(s, a, event, ttl).q; q'.config.Some? ==> Within(q'.config.value, most)
  {
    hide Tick, Batch, Within, Ids, HeldBy;
    if a.Pop? {
      TickKeepsLog(s.q, a.now);
    }
  }

  lemma {:induction false} StepKeepsBudget(s: State, a: Action, event: string, ttl: nat, most: nat)
    requires Inv(s) && Bounded(s, most)
    ensures |Apply(s, a, event, ttl).lost| <= Budget(Apply(s, a, event, ttl).failures, most)
  {
    hide Tick, Batch, Inv, Budget, ProcBounded, Ids, HeldBy;
    if a.Fail? && ProcOf(s, a.p).Busy? {
      FailWithinBudget(s, a.p, event, ttl, most);
    }
  }

  lemma {:induction false} FailWithinBudget(s: State, p: ProcId, event: string, ttl: nat, most: nat)
    requires Inv(s) && Bounded(s, most) && ProcOf(s, p).Busy?
    ensures |Apply(s, Fail(p), event, ttl).lost| <= Budget(s.failures + 1, most)
  {
    hide Inv, Apply;
    FailLoses(s, p, event, ttl);
    assert ProcBounded(s, p, most);
    assert (s.failures + 1) * most == s.failures * most + most;
  }

  lemma {:induction false} LossesBounded(acts: seq<Action>, k: nat, event: string, ttl: nat, most: nat)
    requires k <= |acts| && ConfigsWithin(acts, most)
    ensures Bounded(After(acts, k, event, ttl), most)
  {
    hide Apply;
    if k > 0 {
      LossesBounded(acts, k - 1, event, ttl, most);
      EveryRunKeepsInv(acts, k - 1, event, ttl);
      StepKeepsBound(After(acts, k - 1, event, ttl), acts[k - 1], event, ttl, most);
    }
  }

  // ---- How many were popped ----

  /** Everyone ever popped: everyone who left the queue other than by a reset. */
  function EverPopped(s: State): int {
    Frontier(s) - |s.dropped|
  }

  /** It grows by exactly the batches popped and never changes otherwise, not even at a reset. */
  lemma {:induction false} PopsAreCounted(s: State, a: Action, event: string, ttl: nat)
    requires Inv(s)
    ensures EverPopped(Apply(s, a, event, ttl)) == EverPopped(s) +
              if a.Pop? && ProcOf(s, a.p).Idle? && s.q.config.Some? then |Batch(s.q, Admit(a.now))| else 0
  {
    hide Tick, Batch, Inv, Ids, HeldBy;
    if a.Pop? {
      assert QueueOk(s) by { PartsOfInv(s); }
      BatchIsHistory(s, a.now);
    } else if a.ResetQueue? {
      ResetCounts(s);
    }
  }

  lemma {:induction false} PartsOfInv(s: State)
    requires Inv(s)
    ensures QueueOk(s) && forall i: nat :: PlaceOk(s, i)
  {
  }

  lemma {:induction false} ResetCounts(s: State)
    requires Inv(s)
    ensures |s.dropped + Ids(Frontier(s), |s.history|)| == |s.dropped| + |s.history| - Frontier(s)
  {
    hide ProcOk, HolderOk, RecordOk, MintOk, OnePassEach;
    forall i | i in Ids(Frontier(s), |s.history|) ensures i !in s.dropped {
      assert PlaceOk(s, i);
    }
  }

  lemma {:induction false} MintedFitPopped(s: State)
    requires Inv(s)
    ensures |s.minted| <= EverPopped(s)
  {
    hide ProcOk, HolderOk;
    var gone := Ids(0, Frontier(s));
    forall i | i in s.dropped ensures i in gone {
      assert PlaceOk(s, i);
    }
    Counting.SubsetIsSmaller(s.dropped, gone);
    var entries := seq(|s.minted|, j requires 0 <= j < |s.minted| => s.minted[j].entry);
    forall j | 0 <= j < |entries| ensures entries[j] in gone - s.dropped {
      assert MintOk(s, j);
    }
    Counting.DistinctFit(entries, gone - s.dropped);
  }
}
