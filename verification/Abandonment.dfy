/**
 * What becomes of the cheap position arithmetic when waiters may also be removed from the middle of
 * the queue without being admitted. The counters are not told, so the arithmetic drifts; ZRANK
 * does not. This is the law by which the one is reconciled against the other.
 */
module Abandonment {
  import opened SortedSet
  import opened WaiterState
  import Counting
  import QueueModel

  /** The sorted set and its two counters are the system; `popped` and `left` record which
      sequences went by admission and which by abandonment. */
  datatype Line = Line(z: Zset, seqno: nat, admitted: nat, popped: set<int>, left: set<int>)

  datatype Change =
    | Arrive(token: Token)
    | Release(n: nat)    // ZPOPMIN n, INCRBY by as many as there were
    | Leave(token: Token) // ZREM

  const EMPTY := Line(map[], 0, 0, {}, {})

  lemma {:induction false} SomeoneIsFirst(z: Zset)
    requires z != map[]
    ensures exists t :: IsFirst(z, t)
  {
    var t := FirstExists(z);
  }

  ghost function First(z: Zset): (t: Token)
    requires z != map[]
    ensures IsFirst(z, t)
  {
    SomeoneIsFirst(z);
    var t :| IsFirst(z, t);
    t
  }

  ghost function PopOne(l: Line): Line
    requires l.z != map[]
  {
    var t := First(l.z);
    l.(z := l.z - {t}, admitted := l.admitted + 1, popped := l.popped + {l.z[t]})
  }

  ghost function PopMany(l: Line, n: nat): Line
    decreases n
  {
    if n == 0 || l.z == map[] then l else PopMany(PopOne(l), n - 1)
  }

  ghost function Apply(l: Line, a: Change): Line {
    match a
    case Arrive(t) => if t in l.z then l else l.(z := l.z[t := l.seqno + 1], seqno := l.seqno + 1)
    case Release(n) => PopMany(l, n)
    case Leave(t) => if t in l.z then l.(z := l.z - {t}, left := l.left + {l.z[t]}) else l
  }

  ghost function After(changes: seq<Change>, k: nat): Line
    requires k <= |changes|
  {
    if k == 0 then EMPTY else Apply(After(changes, k - 1), changes[k - 1])
  }

  // ---- What every step keeps ----

  ghost predicate InLine(z: Zset, s: int) {
    exists t :: t in z && z[t] == s
  }

  /** Every sequence ever issued is waiting, popped or gone. */
  ghost predicate Whereabouts(l: Line, s: int) {
    1 <= s <= l.seqno <==> InLine(l.z, s) || s in l.popped || s in l.left
  }

  ghost predicate Exclusive(l: Line, s: int) {
    && (s in l.popped ==> s !in l.left)
    && (InLine(l.z, s) ==> s !in l.popped && s !in l.left)
  }

  ghost predicate Ledger(l: Line) {
    && (forall s :: Whereabouts(l, s) && Exclusive(l, s))
    && (forall t, u | t in l.z && u in l.z && t != u :: l.z[t] != l.z[u])
    && (forall s, t | s in l.popped && t in l.z :: s < l.z[t])
    && |l.popped| == l.admitted
  }

  lemma {:induction false} ArriveKeepsLedger(l: Line, t: Token)
    requires Ledger(l) && t !in l.z
    ensures Ledger(Apply(l, Arrive(t)))
  {
    var l' := Apply(l, Arrive(t));
    assert forall u | u in l.z :: l.z[u] <= l.seqno by {
      forall u | u in l.z ensures l.z[u] <= l.seqno { assert InLine(l.z, l.z[u]) && Whereabouts(l, l.z[u]); }
    }
    assert l'.z[t] == l.seqno + 1;
    forall s ensures InLine(l'.z, s) <==> InLine(l.z, s) || s == l.seqno + 1 {
      if InLine(l.z, s) {
        var u :| u in l.z && l.z[u] == s;
        assert u in l'.z && l'.z[u] == s;
      }
    }
    forall s ensures Whereabouts(l', s) && Exclusive(l', s) { assert Whereabouts(l, s) && Exclusive(l, s); }
    forall s, u | s in l'.popped && u in l'.z ensures s < l'.z[u] { assert Whereabouts(l, s); }
  }

  /** Taking one member out, whichever way, moves one sequence from waiting to popped or gone. */
  lemma {:induction false} Without(l: Line, t: Token, s: int)
    requires Ledger(l) && t in l.z
    ensures InLine(l.z - {t}, s) <==> InLine(l.z, s) && s != l.z[t]
  {
    var z' := l.z - {t};
    if InLine(l.z, s) && s != l.z[t] {
      var u :| u in l.z && l.z[u] == s;
      assert u in z' && z'[u] == s;
    }
  }

  lemma {:induction false} LeaveKeepsLedger(l: Line, t: Token)
    requires Ledger(l) && t in l.z
    ensures Ledger(Apply(l, Leave(t)))
  {
    var l' := Apply(l, Leave(t));
    forall s ensures Whereabouts(l', s) && Exclusive(l', s) {
      assert Whereabouts(l, s) && Exclusive(l, s) && InLine(l.z, l.z[t]);
      Without(l, t, s);
    }
  }

  lemma {:induction false} PopKeepsLedger(l: Line)
    requires Ledger(l) && l.z != map[]
    ensures Ledger(PopOne(l)) && PopOne(l).seqno == l.seqno
  {
    var l', t := PopOne(l), First(l.z);
    forall s ensures Whereabouts(l', s) && Exclusive(l', s) {
      assert Whereabouts(l, s) && Exclusive(l, s) && InLine(l.z, l.z[t]);
      Without(l, t, s);
    }
    forall s, u | s in l'.popped && u in l'.z ensures s < l'.z[u] {
      assert Before(l.z, t, u);
    }
    assert l.z[t] !in l.popped by { assert InLine(l.z, l.z[t]) && Exclusive(l, l.z[t]); }
  }

  /** What a change can do to a waiter who stays: nothing, but more may have been admitted or have
      gone before them. */
  ghost predicate Later(l: Line, l': Line) {
    l.admitted <= l'.admitted && l.left <= l'.left
  }

  lemma {:induction false} PopManyKeepsLedger(l: Line, n: nat)
    requires Ledger(l)
    ensures Ledger(PopMany(l, n)) && Later(l, PopMany(l, n))
    ensures forall t | t in PopMany(l, n).z :: t in l.z && PopMany(l, n).z[t] == l.z[t]
    decreases n
  {
    hide Ledger;
    if n > 0 && l.z != map[] {
      PopKeepsLedger(l);
      PopManyKeepsLedger(PopOne(l), n - 1);
    }
  }

  lemma {:induction false} StepKeepsLedger(l: Line, a: Change)
    requires Ledger(l)
    ensures Ledger(Apply(l, a)) && Later(l, Apply(l, a))
  {
    hide Ledger;
    match a {
      case Arrive(t) => if t !in l.z { ArriveKeepsLedger(l, t); }
      case Release(n) => PopManyKeepsLedger(l, n);
      case Leave(t) => if t in l.z { LeaveKeepsLedger(l, t); }
    }
  }

  lemma {:induction false} EveryRunKeepsLedger(changes: seq<Change>, j: nat, k: nat)
    requires j <= k <= |changes|
    ensures Ledger(After(changes, k)) && Later(After(changes, j), After(changes, k))
    decreases k
  {
    hide Ledger, Apply;
    if k > 0 {
      EveryRunKeepsLedger(changes, if j < k then j else k - 1, k - 1);
      StepKeepsLedger(After(changes, k - 1), changes[k - 1]);
    } else {
      EmptyLedger();
    }
  }

  lemma {:induction false} EmptyLedger()
    ensures Ledger(EMPTY)
  {
  }

  // ---- The drift law ----

  ghost function Smaller(xs: set<int>, s: int): set<int> {
    set x | x in xs && x < s
  }

  /** How many sequences smaller than s were removed without being admitted. */
  ghost function GoneBefore(l: Line, s: int): nat {
    |Smaller(l.left, s)|
  }

  ghost function PoppedBefore(l: Line, s: int): nat {
    |Smaller(l.popped, s)|
  }

  ghost function WaitingBefore(l: Line, s: int): nat {
    |set u | u in l.z && l.z[u] < s|
  }

  /** Of the s - 1 sequences before s, each is in exactly one place. */
  lemma {:induction false} EachBeforeIsSomewhere(l: Line, s: int)
    requires Ledger(l) && 1 <= s <= l.seqno + 1
    ensures WaitingBefore(l, s) + PoppedBefore(l, s) + GoneBefore(l, s) == s - 1
    decreases s
  {
    if s == 1 {
      NobodyBeforeFirst(l);
    } else {
      hide Smaller;
      EachBeforeIsSomewhere(l, s - 1);
      assert Whereabouts(l, s - 1) && Exclusive(l, s - 1);
      OneMoreWaiting(l, s);
      OneMoreSmaller(l.popped, s);
      OneMoreSmaller(l.left, s);
    }
  }

  lemma {:induction false} OneMoreSmaller(xs: set<int>, s: int)
    ensures |Smaller(xs, s)| == |Smaller(xs, s - 1)| + if s - 1 in xs then 1 else 0
  {
    assert Smaller(xs, s) == Smaller(xs, s - 1) + if s - 1 in xs then {s - 1} else {};
  }

  lemma {:induction false} NobodyBeforeFirst(l: Line)
    requires Ledger(l)
    ensures WaitingBefore(l, 1) == PoppedBefore(l, 1) == GoneBefore(l, 1) == 0
  {
    forall u | u in l.z ensures l.z[u] >= 1 { assert InLine(l.z, l.z[u]) && Whereabouts(l, l.z[u]); }
    forall s | s in l.popped || s in l.left ensures s >= 1 { assert Whereabouts(l, s); }
    assert (set u | u in l.z && l.z[u] < 1) == {};
    assert Smaller(l.popped, 1) == Smaller(l.left, 1) == {};
  }

  lemma {:induction false} OneMoreWaiting(l: Line, s: int)
    requires Ledger(l)
    ensures WaitingBefore(l, s) == WaitingBefore(l, s - 1) + if InLine(l.z, s - 1) then 1 else 0
  {
    hide Whereabouts, Exclusive;
    var now, before := set u | u in l.z && l.z[u] < s, set u | u in l.z && l.z[u] < s - 1;
    if InLine(l.z, s - 1) {
      var t :| t in l.z && l.z[t] == s - 1;
      assert now == before + {t};
    } else {
      assert now == before;
    }
  }

  lemma {:induction false} RankIsWaitingBefore(l: Line, t: Token)
    requires Ledger(l) && t in l.z
    ensures ZRank(l.z, t) == WaitingBefore(l, l.z[t])
  {
    LexTotal(t, t);
    assert (set u | u in l.z && Before(l.z, u, t)) == (set u | u in l.z && l.z[u] < l.z[t]);
  }

  lemma {:induction false} AllPoppedBefore(l: Line, t: Token)
    requires Ledger(l) && t in l.z
    ensures PoppedBefore(l, l.z[t]) == l.admitted
  {
    assert Smaller(l.popped, l.z[t]) == l.popped;
  }

  lemma {:induction false} LedgerDrift(l: Line, t: Token)
    requires Ledger(l) && t in l.z
    ensures l.z[t] - l.admitted == ZRank(l.z, t) + 1 + GoneBefore(l, l.z[t])
  {
    assert InLine(l.z, l.z[t]) && Whereabouts(l, l.z[t]);
    hide Ledger, WaitingBefore, PoppedBefore, GoneBefore;
    EachBeforeIsSomewhere(l, l.z[t]);
    RankIsWaitingBefore(l, t);
    AllPoppedBefore(l, t);
  }

  /** The drift law: in every run of joins, admissions and abandonments, the subtraction
      overstates a waiter's true position by exactly the number of earlier arrivals who left. */
  lemma {:induction false} DriftLaw(changes: seq<Change>, k: nat, t: Token)
    requires k <= |changes| && t in After(changes, k).z
    ensures var l := After(changes, k);
      && l.z[t] - l.admitted == ZRank(l.z, t) + 1 + GoneBefore(l, l.z[t])
      && PositionFrom(l.z[t], l.admitted) == l.z[t] - l.admitted
  {
    hide Ledger;
    EveryRunKeepsLedger(changes, k, k);
    LedgerDrift(After(changes, k), t);
  }

  /** The arithmetic agrees with ZRANK for a waiter if and only if nobody who arrived before them
      has left. */
  lemma {:induction false} ExactIffNobodyLeft(changes: seq<Change>, k: nat, t: Token)
    requires k <= |changes| && t in After(changes, k).z
    ensures var l := After(changes, k);
      PositionFrom(l.z[t], l.admitted) == ZRank(l.z, t) + 1 <==> forall r | r in l.left :: r > l.z[t]
  {
    hide Ledger;
    var l := After(changes, k);
    DriftLaw(changes, k, t);
    EveryRunKeepsLedger(changes, k, k);
    var gone := Smaller(l.left, l.z[t]);
    forall r | r in l.left ensures r != l.z[t] { StillHere(l, t, r); }
    if forall r | r in l.left :: r > l.z[t] {
      assert gone == {};
    } else {
      var r :| r in l.left && r <= l.z[t];
      assert r in gone;
    }
  }

  lemma {:induction false} StillHere(l: Line, t: Token, r: int)
    requires Ledger(l) && t in l.z && r in l.left
    ensures r != l.z[t]
  {
    assert InLine(l.z, l.z[t]) && Exclusive(l, l.z[t]);
  }

  /** Leaving can only help those behind: between two points of a run at which someone holds the
      same place, their true position never rises, while the drift of the arithmetic never falls. */
  lemma {:induction false} TruePositionNeverRises(changes: seq<Change>, j: nat, k: nat, t: Token)
    requires j <= k <= |changes| && t in After(changes, j).z && t in After(changes, k).z
    requires After(changes, j).z[t] == After(changes, k).z[t]
    ensures var was, now := After(changes, j), After(changes, k);
      && ZRank(now.z, t) <= ZRank(was.z, t)
      && GoneBefore(was, was.z[t]) <= GoneBefore(now, now.z[t])
  {
    hide Ledger;
    var was, now := After(changes, j), After(changes, k);
    EveryRunKeepsLedger(changes, j, k);
    DriftLaw(changes, j, t);
    DriftLaw(changes, k, t);
    Counting.SubsetIsSmaller(Smaller(was.left, was.z[t]), Smaller(now.left, now.z[t]));
  }

  // ---- What each change does to the line ----

  /** Taking t out moves everyone behind it up by one and nobody else. */
  lemma {:induction false} OthersMoveUp(z: Zset, t: Token, u: Token)
    requires t in z && u in z && t != u
    ensures ZRank(z - {t}, u) == ZRank(z, u) - if Before(z, t, u) then 1 else 0
  {
    var before, left := set v | v in z && Before(z, v, u), set v | v in z - {t} && Before(z - {t}, v, u);
    assert before == left + if Before(z, t, u) then {t} else {};
  }

  lemma {:induction false} FirstHasRankZero(z: Zset)
    requires z != map[]
    ensures ZRank(z, First(z)) == 0
  {
    var f := First(z);
    forall v | v in z ensures !Before(z, v, f) {
      LexTotal(v, f);
    }
    assert (set v | v in z && Before(z, v, f)) == {};
  }

  /** Release(n) lets exactly the first n go, or everyone if there are fewer, and counts each of them. */
  lemma {:induction false} ReleaseTakesFront(l: Line, n: nat)
    ensures var l' := Apply(l, Release(n));
      && l'.admitted == l.admitted + Min(n, |l.z|) && |l'.z| == |l.z| - Min(n, |l.z|)
      && (forall t | t in l.z :: t in l'.z <==> n <= ZRank(l.z, t))
      && (forall t | t in l'.z :: t in l.z && l'.z[t] == l.z[t])
      && l'.seqno == l.seqno && l'.left == l.left
    decreases n
  {
    hide ZRank, First;
    if n > 0 && l.z != map[] {
      var f := First(l.z);
      assert f in l.z && IsFirst(l.z, f);
      FirstHasRankZero(l.z);
      assert PopOne(l).z.Keys == l.z.Keys - {f};
      ReleaseTakesFront(PopOne(l), n - 1);
      forall t | t in l.z ensures t in Apply(l, Release(n)).z <==> n <= ZRank(l.z, t) {
        if t != f { OthersMoveUp(l.z, f, t); }
      }
    }
  }

  /** A waiter who leaves moves everyone behind up by one, without the counters being told: the drift of
      exactly those grows by one. */
  lemma {:induction false} LeavingShifts(l: Line, t: Token, u: Token)
    requires Ledger(l) && t in l.z && u in l.z && t != u
    ensures var l', behind := Apply(l, Leave(t)), if l.z[t] < l.z[u] then 1 else 0;
      && t !in l'.z && u in l'.z && l'.z[u] == l.z[u] && l'.admitted == l.admitted && l'.seqno == l.seqno
      && ZRank(l'.z, u) == ZRank(l.z, u) - behind
      && GoneBefore(l', l.z[u]) == GoneBefore(l, l.z[u]) + behind
  {
    OthersMoveUp(l.z, t, u);
    assert l.z[t] != l.z[u];
    assert l.z[t] !in l.left by { assert InLine(l.z, l.z[t]) && Exclusive(l, l.z[t]); }
    hide Ledger;
    assert Smaller(l.left + {l.z[t]}, l.z[u]) == Smaller(l.left, l.z[u]) + if l.z[t] < l.z[u] then {l.z[t]} else {};
  }

  // ---- While nobody leaves, the line is the log and cut of the queue ----

  ghost predicate Stands(l: Line, log: seq<Token>, cut: int) {
    Holds(l.z, log, cut) && l.seqno == |log| && l.admitted == cut
  }

  lemma {:induction false} FirstIsFront(z: Zset, log: seq<Token>, cut: nat)
    requires Holds(z, log, cut) && z != map[]
    ensures cut < |log| && First(z) == log[cut] && Holds(z - {First(z)}, log, cut + 1)
  {
    var f := First(z);
    assert f in z && IsFirst(z, f) && log[z[f] - 1] == f;
    var front := log[cut];
    assert front in z && z[front] == cut + 1;
    OrderIsScore(z, log, cut, f, front);
    assert f == front;
  }

  lemma {:induction false} MembersAreAfterCut(z: Zset, log: seq<Token>, cut: nat, t: Token)
    requires Holds(z, log, cut)
    ensures t in z <==> t in log[cut..]
  {
    if t in z {
      assert log[cut..][z[t] - 1 - cut] == t;
    }
    forall i | cut <= i < |log| ensures log[i] in z {
    }
  }

  lemma {:induction false} PopOneMovesCut(l: Line, log: seq<Token>, cut: nat)
    requires Stands(l, log, cut) && l.z != map[]
    ensures cut < |log| && Stands(PopOne(l), log, cut + 1)
  {
    FirstIsFront(l.z, log, cut);
  }

  lemma {:induction false} EmptyIsAllCut(l: Line, log: seq<Token>, cut: nat)
    requires Stands(l, log, cut) && l.z == map[]
    ensures cut == |log|
  {
    CardIsWaiting(l.z, log, cut);
  }

  lemma {:induction false} ReleaseMovesCut(l: Line, log: seq<Token>, cut: nat, n: nat)
    requires Stands(l, log, cut) && cut <= |log|
    ensures Stands(Apply(l, Release(n)), log, cut + Min(n, |log| - cut))
    decreases n
  {
    hide Stands, PopOne;
    if l.z == map[] {
      EmptyIsAllCut(l, log, cut);
    } else if n > 0 {
      PopOneMovesCut(l, log, cut);
      ReleaseMovesCut(PopOne(l), log, cut + 1, n - 1);
    }
  }

  lemma {:induction false} ArriveAppends(l: Line, log: seq<Token>, cut: nat, t: Token)
    requires Stands(l, log, cut)
    ensures Stands(Apply(l, Arrive(t)), if t in log[cut..] then log else log + [t], cut)
  {
    MembersAreAfterCut(l.z, log, cut, t);
    if t !in l.z {
      AddAppends(l.z, log, cut, t);
    }
  }

  /** Joins and ticks act on the line as they act on the queue's log and cut. */
  lemma {:induction false} LineFollowsQueue(l: Line, q: QueueModel.Queue, e: QueueModel.Event)
    requires q.config.Some? && Stands(l, q.log, q.admitted) && (e.Join? || e.Admit?)
    ensures 0 <= QueueModel.Popped(q, e)
    ensures var l' := Apply(l, if e.Join? then Arrive(e.token) else Release(QueueModel.Popped(q, e)));
      Stands(l', QueueModel.Step(q, e).log, QueueModel.Step(q, e).admitted)
  {
    hide Apply, Stands;
    if e.Join? {
      ArriveAppends(l, q.log, q.admitted, e.token);
    } else {
      ReleaseMovesCut(l, q.log, q.admitted, QueueModel.Popped(q, e));
    }
  }
}
