/** Calls cannot deadlock, cannot go round in circles, and can always all be brought to their end. */
module BookingProgress {
  import opened Booking
  import opened BookingTheorems
  import Counting

  /** No deadlock: whenever some call is unfinished, some call can take a step that changes it. */
  lemma {:induction false} SomeoneCanMove(s: Database, c: CallId) returns (d: CallId)
    requires c in s.calls && !s.calls[c].pc.Done?
    ensures d in s.calls && !s.calls[d].pc.Done? && Apply(s, Advance(d)) != s
  {
    hide TablesOk, Count, Conflicts;
    d := c;
    if s.calls[c].pc.Update? && LockedByOther(s, c, s.calls[c].claims.event) {
      d :| d in s.calls && d != c && InTransaction(s.calls[d].pc) && s.calls[d].claims.event == s.calls[c].claims.event;
    }
    if s.calls[d].pc.Insert? && BlockedByInsert(s, d, s.calls[d].claims) {
      var b := d;
      d :| d in s.calls && d != b && s.calls[d].pc.Commit?;
    }
    assert Apply(s, Advance(d)).calls[d].pc != s.calls[d].pc;
  }

  /** At most how many steps a call can still take. */
  function Ahead(pc: Pc): nat {
    match pc
    case LookupJti => 7
    case LookupUser => 6
    case Update => 5
    case Insert => 4
    case Commit => 3
    case RetryJti => 2
    case RetryUser => 1
    case Done(_) => 0
  }

  /** One element for each step that calls may still have to take. */
  ghost function Todo(s: Database): set<(CallId, nat)> {
    set c, n: nat | c in s.calls && n < Ahead(s.calls[c].pc) :: (c, n)
  }

  /** No step goes back: one that changes anything leaves less to do. */
  lemma {:induction false} StepsRunOut(s: Database, a: Action)
    requires !a.Begin? && Apply(s, a) != s
    ensures Todo(Apply(s, a)) < Todo(s) && |Todo(Apply(s, a))| < |Todo(s)|
  {
    var s' := Apply(s, a);
    MovesForward(s, a);
    forall c, n: nat | c in s'.calls && n < Ahead(s'.calls[c].pc) ensures (c, n) in Todo(s) {
    }
    var gone := (a.c, Ahead(s'.calls[a.c].pc));
    assert gone in Todo(s) && gone !in Todo(s');
    Counting.SubsetIsSmaller(Todo(s'), Todo(s));
    assert gone in Todo(s) - Todo(s');
  }

  lemma {:induction false} MovesForward(s: Database, a: Action)
    requires !a.Begin? && Apply(s, a) != s
    ensures var s' := Apply(s, a);
      && a.c in s.calls && s'.calls.Keys == s.calls.Keys
      && Ahead(s'.calls[a.c].pc) < Ahead(s.calls[a.c].pc)
      && (a.Advance? ==> s'.calls[a.c].pc != Done(Crashed))
      && forall c | c in s.calls && c != a.c :: s'.calls[c] == s.calls[c]
  {
    hide FindJti, FindUser, Conflicts, LockedByOther, BlockedByInsert;
  }

  lemma {:induction false} RunsCompose(s: Database, a: seq<Action>, b: seq<Action>, k: nat)
    requires k <= |b|
    ensures After(s, a + b, |a| + k) == After(After(s, a, |a|), b, k)
  {
    hide Apply;
    if k == 0 {
      PrefixDecides(s, a, a + b, |a|);
    } else {
      RunsCompose(s, a, b, k - 1);
      assert (a + b)[|a| + k - 1] == b[k - 1];
    }
  }

  lemma {:induction false} PrefixDecides(s: Database, a: seq<Action>, b: seq<Action>, k: nat)
    requires k <= |a| && k <= |b| && forall m | 0 <= m < k :: a[m] == b[m]
    ensures After(s, a, k) == After(s, b, k)
  {
    hide Apply;
    if k > 0 {
      PrefixDecides(s, a, b, k - 1);
    }
  }

  ghost predicate AllDone(s: Database) {
    forall c | c in s.calls :: s.calls[c].pc.Done?
  }

  /** From s to s' the same calls are under way, and no further call has crashed. */
  ghost predicate NoNewCrash(s: Database, s': Database) {
    && s'.calls.Keys == s.calls.Keys
    && forall c | c in s'.calls && s'.calls[c].pc == Done(Crashed) :: s.calls[c].pc == Done(Crashed)
  }

  lemma {:induction false} CanFinish(s: Database) returns (more: seq<Action>)
    ensures forall m | 0 <= m < |more| :: more[m].Advance?
    ensures |more| <= |Todo(s)|
    ensures AllDone(After(s, more, |more|)) && NoNewCrash(s, After(s, more, |more|))
    decreases |Todo(s)|
  {
    hide Apply, Todo;
    more := [];
    assert After(s, more, 0) == s;
    if !AllDone(s) {
      var c :| c in s.calls && !s.calls[c].pc.Done?;
      var d := SomeoneCanMove(s, c);
      var first := [Advance(d)];
      StepsRunOut(s, Advance(d));
      MovesForward(s, Advance(d));
      var rest := CanFinish(Apply(s, Advance(d)));
      assert After(s, first, 0) == s && After(s, first, 1) == Apply(s, first[0]);
      RunsCompose(s, first, rest, |rest|);
      more := first + rest;
    }
  }

  /** Whatever has happened, letting the calls run brings every one of them to its end, without a crash
      and within the steps they had left. So the premise of ExactSellThrough can always be met. */
  lemma {:induction false} CallsFinish(s0: Database, acts: seq<Action>) returns (more: seq<Action>)
    ensures forall m | 0 <= m < |more| :: more[m].Advance?
    ensures var s, s' := After(s0, acts, |acts|), After(s0, acts + more, |acts| + |more|);
      && |more| <= |Todo(s)| && AllDone(s') && NoNewCrash(s, s')
      && forall e :: (forall c | c in CallsFor(s', e) :: s.calls[c].pc != Done(Crashed)) ==> AllFinished(s', e)
  {
    hide Apply, Todo;
    more := CanFinish(After(s0, acts, |acts|));
    RunsCompose(s0, acts, more, |more|);
  }
}
