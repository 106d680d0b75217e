/** What holds of every interleaving of concurrent bookings. */
module BookingTheorems {
  import opened Wrappers
  import opened Booking
  import Counting

  /** A database between deployments: sound tables and no call under way. */
  ghost predicate Fresh(s: Database) {
    TablesOk(s) && s.calls == map[]
  }

  lemma {:induction false} Reached(s0: Database, acts: seq<Action>, k: nat)
    requires Fresh(s0) && k <= |acts|
    ensures Inv(After(s0, acts, k))
  {
    EveryRunKeepsInv(s0, acts, k);
  }

  // ---- Safety ----

  /** In every committed state the counter equals the event's rows and is within capacity, no two
      rows share a token, and no user holds two bookings for one event. */
  lemma {:induction false} NeverOversold(s0: Database, acts: seq<Action>, k: nat)
    requires Fresh(s0) && k <= |acts|
    ensures var s := After(s0, acts, k);
      && (forall e | e in s.events :: s.events[e].booked == Count(s.rows, e) <= s.events[e].capacity)
      && (forall i, j | 0 <= i < j < |s.rows| :: s.rows[i].jti != s.rows[j].jti)
      && (forall i, j | 0 <= i < j < |s.rows| && s.rows[i].event == s.rows[j].event :: s.rows[i].user != s.rows[j].user)
  {
    Reached(s0, acts, k);
  }

  /** Sold out means sold: a call is told so only when committed bookings fill the event, never
      because of a claim that was later rolled back. */
  lemma {:induction false} SoldOutMeansSold(s0: Database, acts: seq<Action>, k: nat, c: CallId)
    requires Fresh(s0) && k <= |acts|
    requires var s := After(s0, acts, k); c in s.calls && s.calls[c].pc == Done(SoldOut)
    ensures var s := After(s0, acts, k);
      var e := s.calls[c].claims.event;
      e in s.events && Count(s.rows, e) == s.events[e].capacity
  {
    Reached(s0, acts, k);
    assert CallOk(After(s0, acts, k), c);
  }

  /** A crash or a failed INSERT inside the transaction leaks nothing. Nothing was visible before the
      commit, so the tables stay as they were; and since no two transactions hold one event's row,
      nobody is blocked on it any longer. */
  lemma {:induction false} RollbackLeaksNothing(s0: Database, acts: seq<Action>, k: nat, c: CallId, a: Action)
    requires Fresh(s0) && k <= |acts|
    requires var s := After(s0, acts, k); c in s.calls && InTransaction(s.calls[c].pc)
    requires a == Crash(c) || a == Advance(c)
    ensures var s, s' := After(s0, acts, k), Apply(After(s0, acts, k), a);
      !InTransaction(s'.calls[c].pc) && !(s'.calls[c].pc.Done? && s'.calls[c].pc.outcome.Created?) ==>
        && s'.rows == s.rows && s'.events == s.events
        && forall d | d in s.calls && d != c ::
             s'.calls[d] == s.calls[d] && !LockedByOther(s', d, s.calls[c].claims.event)
  {
    Reached(s0, acts, k);
    var s, s' := After(s0, acts, k), Apply(After(s0, acts, k), a);
    hide Inv, TablesOk, Count, Conflicts;
    if !InTransaction(s'.calls[c].pc) && !(s'.calls[c].pc.Done? && s'.calls[c].pc.outcome.Created?) {
      assert forall d | d in s.calls :: PairOk(s, c, d) by { PairsOf(s); }
    }
  }

  /** A crash ends exactly the call it hits, and an ended call cannot crash. */
  lemma {:induction false} CrashEndsCall(s: Database, c: CallId)
    requires c in s.calls
    ensures var s' := Apply(s, Crash(c));
      && s'.rows == s.rows && s'.events == s.events && s'.calls.Keys == s.calls.Keys
      && s'.calls[c].claims == s.calls[c].claims
      && s'.calls[c].pc == (if s.calls[c].pc.Done? then s.calls[c].pc else Done(Crashed))
      && (forall d | d in s.calls && d != c :: s'.calls[d] == s.calls[d])
      && (forall d | d in s.calls && d != c :: !LockedByOther(s, d, s.calls[c].claims.event) ==>
            !LockedByOther(s', d, s.calls[c].claims.event))
  {
  }

  lemma {:induction false} PairsOf(s: Database)
    requires Inv(s)
    ensures forall c, d | c in s.calls && d in s.calls :: PairOk(s, c, d)
  {
  }

  // ---- The conflict handler and replays ----

  /** After any IntegrityError the second lookup finds a committed booking: the bare raise is never
      reached, and what a replay returns is a booking of that token or of that user. */
  lemma {:induction false} ConflictFindsWinner(s0: Database, acts: seq<Action>, k: nat, c: CallId)
    requires Fresh(s0) && k <= |acts| && c in After(s0, acts, k).calls
    ensures var s := After(s0, acts, k);
      var cl, pc := s.calls[c].claims, s.calls[c].pc;
      && pc != Done(Unhandled)
      && (pc.RetryJti? || pc.RetryUser? ==> exists i :: 0 <= i < |s.rows| && Conflicts(s.rows[i], cl))
      && (pc.Done? && pc.outcome.Replayed? ==> pc.outcome.id < |s.rows| && Conflicts(s.rows[pc.outcome.id], cl))
  {
    Reached(s0, acts, k);
    assert CallOk(After(s0, acts, k), c);
  }

  /** At most one call per token, and per user and event, creates a booking. */
  lemma {:induction false} OneCreator(s0: Database, acts: seq<Action>, k: nat, c: CallId, d: CallId)
    requires Fresh(s0) && k <= |acts| && c != d
    requires var s := After(s0, acts, k); c in s.calls && d in s.calls && Conflict(s.calls[c].claims, s.calls[d].claims)
    ensures var s := After(s0, acts, k); !(HasCreated(s, c) && HasCreated(s, d))
  {
    Reached(s0, acts, k);
    var s := After(s0, acts, k);
    assert CallOk(s, c) && CallOk(s, d) && PairOk(s, c, d);
  }

  predicate Conflict(a: Claims, b: Claims) {
    a.jti == b.jti || (a.event == b.event && a.user == b.user)
  }

  predicate HasCreated(s: Database, c: CallId)
    requires c in s.calls
  {
    s.calls[c].pc.Done? && s.calls[c].pc.outcome.Created?
  }

  lemma {:induction false} RowsGrow(s0: Database, acts: seq<Action>, j: nat, k: nat)
    requires j <= k <= |acts|
    ensures After(s0, acts, j).rows <= After(s0, acts, k).rows
    ensures After(s0, acts, j).calls.Keys <= After(s0, acts, k).calls.Keys
    ensures forall c | c in After(s0, acts, j).calls ::
      After(s0, acts, k).calls[c].claims == After(s0, acts, j).calls[c].claims
    decreases k - j
  {
    if j < k {
      RowsGrow(s0, acts, j, k - 1);
      OneStepGrows(After(s0, acts, k - 1), acts[k - 1]);
    }
  }

  lemma {:induction false} OneStepGrows(s: Database, a: Action)
    ensures s.rows <= Apply(s, a).rows
    ensures s.calls.Keys <= Apply(s, a).calls.Keys
    ensures forall c | c in s.calls :: Apply(s, a).calls[c].claims == s.calls[c].claims
    ensures forall c | c in s.calls && a != Advance(c) && a != Crash(c) :: Apply(s, a).calls[c] == s.calls[c]
  {
    hide FindJti, FindUser, Conflicts, LockedByOther, BlockedByInsert, Found;
  }

  lemma {:induction false} JtiIsUnique(s: Database, id: nat)
    requires TablesOk(s) && id < |s.rows|
    ensures FindJti(s.rows, s.rows[id].jti) == Some(id)
  {
  }

  /** A call that has not looked up yet when its token's booking is committed returns that booking,
      with created=False, whatever else happens. */
  lemma {:induction false} ReplayReturnsSame(s0: Database, acts: seq<Action>, j: nat, k: nat, c: CallId, id: nat)
    requires Fresh(s0) && j <= k <= |acts|
    requires var s := After(s0, acts, j);
      c in s.calls && s.calls[c].pc.LookupJti? && id < |s.rows| && s.rows[id].jti == s.calls[c].claims.jti
    ensures c in After(s0, acts, k).calls
    ensures After(s0, acts, k).calls[c].pc in {LookupJti, Done(Replayed(id)), Done(Crashed)}
    decreases k - j
  {
    hide Apply;
    if j < k {
      ReplayReturnsSame(s0, acts, j, k - 1, c, id);
      Reached(s0, acts, k - 1);
      RowsGrow(s0, acts, j, k - 1);
      ReplayStep(After(s0, acts, k - 1), acts[k - 1], c, id);
    }
  }

  lemma {:induction false} ReplayStep(s: Database, a: Action, c: CallId, id: nat)
    requires TablesOk(s) && c in s.calls && id < |s.rows| && s.rows[id].jti == s.calls[c].claims.jti
    requires s.calls[c].pc in {LookupJti, Done(Replayed(id)), Done(Crashed)}
    ensures c in Apply(s, a).calls && Apply(s, a).calls[c].pc in {LookupJti, Done(Replayed(id)), Done(Crashed)}
  {
    JtiIsUnique(s, id);
    hide TablesOk;
    OneStepGrows(s, a);
  }

  /** What a lookup finds when booking `id` stands in the way of these claims: a booking of the same
      token, or else booking `id` itself. */
  predicate FoundFor(rows: seq<Row>, cl: Claims, id: nat, pc: Pc) {
    && pc.Done? && pc.outcome.Replayed? && pc.outcome.id < |rows|
    && (rows[pc.outcome.id].jti == cl.jti || pc.outcome.id == id)
  }

  lemma {:induction false} UserIsUnique(s: Database, cl: Claims, id: nat)
    requires TablesOk(s) && id < |s.rows| && SameUser(s.rows[id], cl)
    ensures FindUser(s.rows, cl) == Some(id)
  {
  }

  /** A call that starts when its user already holds a booking for the event returns that booking, or
      the one its own token made: it never creates one, and is never told the event is sold out. */
  lemma {:induction false} SecondPassReturnsBooking(s0: Database, acts: seq<Action>, j: nat, k: nat, c: CallId, id: nat)
    requires Fresh(s0) && j <= k <= |acts|
    requires var s := After(s0, acts, j);
      c in s.calls && s.calls[c].pc.LookupJti? && id < |s.rows| && SameUser(s.rows[id], s.calls[c].claims)
    ensures var s := After(s0, acts, k);
      && c in s.calls
      && (s.calls[c].pc in {LookupJti, LookupUser, Done(Crashed)}
          || FoundFor(s.rows, s.calls[c].claims, id, s.calls[c].pc))
    decreases k - j
  {
    hide Apply;
    if j < k {
      SecondPassReturnsBooking(s0, acts, j, k - 1, c, id);
      Reached(s0, acts, k - 1);
      RowsGrow(s0, acts, j, k - 1);
      SecondPassStep(After(s0, acts, k - 1), acts[k - 1], c, id);
    }
  }

  lemma {:induction false} SecondPassStep(s: Database, a: Action, c: CallId, id: nat)
    requires TablesOk(s) && c in s.calls && id < |s.rows| && SameUser(s.rows[id], s.calls[c].claims)
    requires || s.calls[c].pc in {LookupJti, LookupUser, Done(Crashed)}
             || FoundFor(s.rows, s.calls[c].claims, id, s.calls[c].pc)
    ensures var s' := Apply(s, a);
      && c in s'.calls
      && (s'.calls[c].pc in {LookupJti, LookupUser, Done(Crashed)}
          || FoundFor(s'.rows, s'.calls[c].claims, id, s'.calls[c].pc))
  {
    UserIsUnique(s, s.calls[c].claims, id);
    hide TablesOk;
    OneStepGrows(s, a);
  }

  /** Where a duplicate that is past the UPDATE can be: rolling back, or done with the booking it found. */
  predicate OnItsWayBack(rows: seq<Row>, cl: Claims, id: nat, pc: Pc)
    requires id < |rows|
  {
    || pc in {Insert, RetryJti, Done(Crashed)}
    || (pc.RetryUser? && SameUser(rows[id], cl))
    || FoundFor(rows, cl, id, pc)
  }

  /** A duplicate, by token or by user, that looked up too early and reaches the UPDATE after its twin
      committed. It is told the event is sold out if and only if the event is full at that moment;
      otherwise it rolls back and returns the booking of its token, or else its twin's. */
  lemma {:induction false} LateDuplicate(s0: Database, acts: seq<Action>, j: nat, k: nat, c: CallId, id: nat)
    requires Fresh(s0) && j < k <= |acts| && acts[j] == Advance(c)
    requires var s := After(s0, acts, j);
      && c in s.calls && s.calls[c].pc.Update? && !LockedByOther(s, c, s.calls[c].claims.event)
      && id < |s.rows| && Conflicts(s.rows[id], s.calls[c].claims) && s.calls[c].claims.event in s.events
    ensures var s, s' := After(s0, acts, j), After(s0, acts, k);
      var cl, row := s.calls[c].claims, s.events[s.calls[c].claims.event];
      && c in s'.calls && s'.calls[c].claims == cl && id < |s'.rows|
      && (s'.calls[c].pc == Done(SoldOut) <==> row.booked == row.capacity)
      && (row.booked != row.capacity ==> OnItsWayBack(s'.rows, cl, id, s'.calls[c].pc))
    decreases k - j
  {
    hide Apply, OnItsWayBack;
    var s := After(s0, acts, j);
    Reached(s0, acts, j);
    if j + 1 == k {
      assert After(s0, acts, k) == Apply(s, acts[j]);
      DuplicateAtUpdate(s, c, id);
    } else {
      LateDuplicate(s0, acts, j, k - 1, c, id);
      Reached(s0, acts, k - 1);
      RowsGrow(s0, acts, j, k - 1);
      DuplicateStep(After(s0, acts, k - 1), acts[k - 1], c, id);
    }
  }

  lemma {:induction false} DuplicateAtUpdate(s: Database, c: CallId, id: nat)
    requires Inv(s) && c in s.calls && s.calls[c].pc.Update? && !LockedByOther(s, c, s.calls[c].claims.event)
    requires s.calls[c].claims.event in s.events && id < |s.rows|
    ensures var s', row := Apply(s, Advance(c)), s.events[s.calls[c].claims.event];
      && c in s'.calls && s'.calls[c].claims == s.calls[c].claims && id < |s'.rows|
      && (s'.calls[c].pc == Done(SoldOut) <==> row.booked == row.capacity)
      && (row.booked != row.capacity ==> OnItsWayBack(s'.rows, s.calls[c].claims, id, s'.calls[c].pc))
  {
  }

  lemma {:induction false} DuplicateStep(s: Database, a: Action, c: CallId, id: nat)
    requires TablesOk(s) && c in s.calls && id < |s.rows| && Conflicts(s.rows[id], s.calls[c].claims)
    requires s.calls[c].pc == Done(SoldOut) || OnItsWayBack(s.rows, s.calls[c].claims, id, s.calls[c].pc)
    ensures var s' := Apply(s, a);
      && c in s'.calls && s'.calls[c].claims == s.calls[c].claims && id < |s'.rows|
      && (s.calls[c].pc == Done(SoldOut) <==> s'.calls[c].pc == Done(SoldOut))
      && (s.calls[c].pc != Done(SoldOut) ==> OnItsWayBack(s'.rows, s'.calls[c].claims, id, s'.calls[c].pc))
  {
    hide TablesOk, Apply;
    OneStepGrows(s, a);
    if a == Advance(c) {
      DuplicateAdvances(s, c, id);
    } else if a == Crash(c) {
      DuplicateCrashes(s, c);
    }
  }

  lemma {:induction false} DuplicateCrashes(s: Database, c: CallId)
    requires c in s.calls
    ensures Apply(s, Crash(c)) == if s.calls[c].pc.Done? then s else Goto(s, c, Done(Crashed))
  {
  }

  lemma {:induction false} DuplicateAdvances(s: Database, c: CallId, id: nat)
    requires TablesOk(s) && c in s.calls && id < |s.rows| && Conflicts(s.rows[id], s.calls[c].claims)
    requires s.calls[c].pc == Done(SoldOut) || OnItsWayBack(s.rows, s.calls[c].claims, id, s.calls[c].pc)
    ensures var s' := Apply(s, Advance(c));
      && s'.rows == s.rows
      && (s.calls[c].pc == Done(SoldOut) <==> s'.calls[c].pc == Done(SoldOut))
      && (s.calls[c].pc != Done(SoldOut) ==> OnItsWayBack(s'.rows, s.calls[c].claims, id, s'.calls[c].pc))
  {
    var cl := s.calls[c].claims;
    if s.rows[id].jti == cl.jti {
      JtiIsUnique(s, id);
    } else {
      UserIsUnique(s, cl, id);
    }
  }

  // ---- Exact sell-through ----

  ghost function CreatedFor(s: Database, e: string): set<CallId> {
    set c | c in s.calls && s.calls[c].claims.event == e && HasCreated(s, c)
  }

  ghost predicate MadeBy(s: Database, id: nat, c: CallId) {
    c in s.calls && s.calls[c].pc == Done(Created(id))
  }

  ghost predicate HasMaker(s: Database, id: nat) {
    exists c :: MadeBy(s, id, c)
  }

  /** Since s0 every new booking was made by a call, and every call that created one is counted. */
  ghost predicate Tallied(s0: Database, s: Database) {
    && s0.rows <= s.rows && s.events.Keys == s0.events.Keys
    && (forall e | e in s.events ::
          && s.events[e].capacity == s0.events[e].capacity
          && s.events[e].booked == s0.events[e].booked + |CreatedFor(s, e)|)
    && (forall id: nat | |s0.rows| <= id < |s.rows| :: HasMaker(s, id))
  }

  predicate IsCommit(s: Database, a: Action) {
    a.Advance? && a.c in s.calls && s.calls[a.c].pc.Commit?
  }

  lemma {:induction false} OnlyCommitsChangeTables(s: Database, a: Action)
    ensures var s' := Apply(s, a);
      && (IsCommit(s, a) ==> s' == CommitCall(s, a.c))
      && (!IsCommit(s, a) ==> s'.rows == s.rows && s'.events == s.events)
  {
    hide FindJti, FindUser, Conflicts, LockedByOther, BlockedByInsert, Found;
  }

  lemma {:induction false} OnlyCommitsCreate(s: Database, a: Action, c: CallId)
    ensures var s' := Apply(s, a);
      c in s'.calls && HasCreated(s', c) <==> (c in s.calls && HasCreated(s, c)) || (IsCommit(s, a) && a.c == c)
  {
    hide FindJti, FindUser, Conflicts, LockedByOther, BlockedByInsert;
  }

  /** Only a commit writes to the tables, and only a commit creates a booking. */
  lemma {:induction false} OnlyCommitsWrite(s: Database, a: Action, e: string)
    ensures var s' := Apply(s, a);
      && (IsCommit(s, a) ==> s' == CommitCall(s, a.c))
      && (!IsCommit(s, a) ==> s'.rows == s.rows && s'.events == s.events)
      && CreatedFor(s', e) == CreatedFor(s, e) +
           if IsCommit(s, a) && s.calls[a.c].claims.event == e then {a.c} else {}
  {
    hide Apply, HasCreated, CommitCall;
    OnlyCommitsChangeTables(s, a);
    OneStepGrows(s, a);
    forall c { OnlyCommitsCreate(s, a, c); }
  }

  lemma {:induction false} StepKeepsTally(s0: Database, s: Database, a: Action)
    requires Inv(s) && Tallied(s0, s)
    ensures Tallied(s0, Apply(s, a))
  {
    hide CreatedFor, Apply, Inv;
    var s' := Apply(s, a);
    forall e | e in s.events
      ensures e in s'.events && s'.events[e].capacity == s0.events[e].capacity
      ensures s'.events[e].booked == s0.events[e].booked + |CreatedFor(s', e)|
    {
      StepTalliesEvent(s, a, e);
    }
    assert s'.events.Keys == s.events.Keys && s.rows <= s'.rows by { StepKeepsKeys(s, a); }
    forall id: nat | |s0.rows| <= id < |s'.rows| ensures HasMaker(s', id) {
      StepKeepsMaker(s0, s, a, id);
    }
  }

  lemma {:induction false} StepKeepsKeys(s: Database, a: Action)
    requires Inv(s)
    ensures Apply(s, a).events.Keys == s.events.Keys && s.rows <= Apply(s, a).rows
  {
    hide Apply, TablesOk;
    OnlyCommitsWrite(s, a, "");
    if IsCommit(s, a) {
      assert CallOk(s, a.c);
    }
  }

  lemma {:induction false} StepKeepsMaker(s0: Database, s: Database, a: Action, id: nat)
    requires Tallied(s0, s) && |s0.rows| <= id < |Apply(s, a).rows|
    ensures HasMaker(Apply(s, a), id)
  {
    hide Apply, CreatedFor;
    OnlyCommitsWrite(s, a, "");
    if id < |s.rows| {
      assert HasMaker(s, id);
      var c :| MadeBy(s, id, c);
      DoneStaysDone(s, a, c);
      assert MadeBy(Apply(s, a), id, c);
    } else {
      assert MadeBy(Apply(s, a), id, a.c);
    }
  }

  lemma {:induction false} DoneStaysDone(s: Database, a: Action, c: CallId)
    requires c in s.calls && s.calls[c].pc.Done?
    ensures c in Apply(s, a).calls && Apply(s, a).calls[c] == s.calls[c]
  {
  }

  lemma {:induction false} StepTalliesEvent(s: Database, a: Action, e: string)
    requires Inv(s) && e in s.events
    ensures var s' := Apply(s, a);
      && e in s'.events && s'.events[e].capacity == s.events[e].capacity
      && s'.events[e].booked - s.events[e].booked == |CreatedFor(s', e)| - |CreatedFor(s, e)|
  {
    hide Apply, TablesOk;
    OnlyCommitsWrite(s, a, e);
    if IsCommit(s, a) {
      assert CallOk(s, a.c);
      assert a.c !in CreatedFor(s, e);
    }
  }

  lemma {:induction false} EveryRunIsTallied(s0: Database, acts: seq<Action>, k: nat)
    requires Fresh(s0) && k <= |acts|
    ensures Tallied(s0, After(s0, acts, k))
  {
    if k > 0 {
      EveryRunIsTallied(s0, acts, k - 1);
      Reached(s0, acts, k - 1);
      StepKeepsTally(s0, After(s0, acts, k - 1), acts[k - 1]);
    } else {
      assert forall e :: CreatedFor(s0, e) == {};
    }
  }

  ghost function CallsFor(s: Database, e: string): set<CallId> {
    set c | c in s.calls && s.calls[c].claims.event == e
  }

  /** The calls for event e have distinct users and tokens, none of them booked before or used for
      another event. */
  ghost predicate AllDistinct(s0: Database, s: Database, e: string) {
    && (forall c, d | c in CallsFor(s, e) && d in s.calls && c != d :: !Conflict(s.calls[c].claims, s.calls[d].claims))
    && (forall c, i | c in CallsFor(s, e) && 0 <= i < |s0.rows| :: !Conflicts(s0.rows[i], s.calls[c].claims))
  }

  /** Every call has run to its end, none by crashing. */
  ghost predicate AllFinished(s: Database, e: string) {
    forall c | c in CallsFor(s, e) :: s.calls[c].pc.Done? && s.calls[c].pc != Done(Crashed)
  }

  /** The only booking that can stand in the way of a distinct call is its own. */
  lemma {:induction false} OnlyOwnRow(s0: Database, s: Database, e: string, c: CallId, id: nat)
    requires Inv(s) && Tallied(s0, s) && AllDistinct(s0, s, e) && c in CallsFor(s, e)
    requires id < |s.rows| && Conflicts(s.rows[id], s.calls[c].claims)
    ensures MadeBy(s, id, c)
  {
    hide TablesOk, Count, CreatedFor;
    assert forall i | 0 <= i < |s0.rows| :: s0.rows[i] == s.rows[i];
    assert HasMaker(s, id);
    var d :| MadeBy(s, id, d);
    assert CallOk(s, d);
  }

  lemma {:induction false} DistinctCallIsDecided(s0: Database, s: Database, e: string, c: CallId)
    requires Inv(s) && Tallied(s0, s) && e in s.events
    requires AllDistinct(s0, s, e) && AllFinished(s, e) && c in CallsFor(s, e)
    ensures HasCreated(s, c) || s.calls[c].pc == Done(SoldOut)
  {
    hide TablesOk, Count, CreatedFor;
    assert CallOk(s, c);
    if s.calls[c].pc.outcome.Replayed? {
      OnlyOwnRow(s0, s, e, c, s.calls[c].pc.outcome.id);
    }
  }

  /** N finished calls with distinct users and tokens for one event: exactly min(what was left, N)
      created a booking, and every other call was told the event is sold out. */
  lemma {:induction false} ExactSellThrough(s0: Database, acts: seq<Action>, k: nat, e: string)
    requires Fresh(s0) && k <= |acts| && e in s0.events
    requires AllDistinct(s0, After(s0, acts, k), e) && AllFinished(After(s0, acts, k), e)
    ensures var s := After(s0, acts, k);
      var left, n := s0.events[e].capacity - s0.events[e].booked, |CallsFor(s, e)|;
      && |CreatedFor(s, e)| == (if left < n then left else n)
      && forall c | c in CallsFor(s, e) && c !in CreatedFor(s, e) :: s.calls[c].pc == Done(SoldOut)
  {
    var s := After(s0, acts, k);
    Reached(s0, acts, k);
    EveryRunIsTallied(s0, acts, k);
    forall c | c in CallsFor(s, e) ensures HasCreated(s, c) || s.calls[c].pc == Done(SoldOut) {
      DistinctCallIsDecided(s0, s, e, c);
    }
    SellThroughCount(s0, s, e);
  }

  lemma {:induction false} SellThroughCount(s0: Database, s: Database, e: string)
    requires Inv(s) && Tallied(s0, s) && e in s.events && TablesOk(s0)
    requires forall c | c in CallsFor(s, e) :: HasCreated(s, c) || s.calls[c].pc == Done(SoldOut)
    ensures var left, n := s0.events[e].capacity - s0.events[e].booked, |CallsFor(s, e)|;
      |CreatedFor(s, e)| == if left < n then left else n
  {
    hide Inv, TablesOk;
    var calls, created, row := CallsFor(s, e), CreatedFor(s, e), s.events[e];
    RoomIn(s, e);
    assert row.booked == s0.events[e].booked + |created| && row.capacity == s0.events[e].capacity;
    Counting.SubsetIsSmaller(created, calls);
    if calls != created {
      var c :| c in calls - created;
      FullWhenSoldOut(s, c);
    }
  }

  lemma {:induction false} RoomIn(s: Database, e: string)
    requires Inv(s) && e in s.events
    ensures s.events[e].booked <= s.events[e].capacity
  {
  }

  lemma {:induction false} FullWhenSoldOut(s: Database, c: CallId)
    requires Inv(s) && c in s.calls && s.calls[c].pc == Done(SoldOut)
    ensures s.calls[c].claims.event in s.events
    ensures var row := s.events[s.calls[c].claims.event]; row.booked == row.capacity
  {
  }

  // ---- What the rule "a retry returns the original booking" does not cover ----

  const ANN := Claims("ann", "gig", 7)

  const ONE_LEFT := Database(map["gig" := EventRow(1, 0)], [], map[])

  /** Two calls with one token both look up before either claims. */
  const BOTH_LOOK := [Begin(0, ANN), Begin(1, ANN), Advance(0), Advance(0), Advance(1), Advance(1)]

  const FIRST_BOOKS := [Advance(0), Advance(0), Advance(0), Advance(1)]

  const BOTH_AT_UPDATE := ONE_LEFT.(calls := map[0 := Call(ANN, Update), 1 := Call(ANN, Update)])

  lemma {:induction false} BothReachUpdate()
    ensures After(ONE_LEFT, BOTH_LOOK, 6) == BOTH_AT_UPDATE
  {
    assert After(ONE_LEFT, BOTH_LOOK, 0) == ONE_LEFT;
    assert After(ONE_LEFT, BOTH_LOOK, 1) == ONE_LEFT.(calls := map[0 := Call(ANN, LookupJti)]);
    assert After(ONE_LEFT, BOTH_LOOK, 2) ==
      ONE_LEFT.(calls := map[0 := Call(ANN, LookupJti), 1 := Call(ANN, LookupJti)]);
    assert After(ONE_LEFT, BOTH_LOOK, 3) ==
      ONE_LEFT.(calls := map[0 := Call(ANN, LookupUser), 1 := Call(ANN, LookupJti)]);
    assert After(ONE_LEFT, BOTH_LOOK, 4) == ONE_LEFT.(calls := map[0 := Call(ANN, Update), 1 := Call(ANN, LookupJti)]);
    assert After(ONE_LEFT, BOTH_LOOK, 5) == ONE_LEFT.(calls := map[0 := Call(ANN, Update), 1 := Call(ANN, LookupUser)]);
  }

  const ONE_INSERTED := ONE_LEFT.(calls := map[0 := Call(ANN, Commit), 1 := Call(ANN, Update)])

  lemma {:induction false} FirstClaims()
    ensures After(BOTH_AT_UPDATE, FIRST_BOOKS, 2) == ONE_INSERTED
  {
    var s := BOTH_AT_UPDATE;
    assert After(s, FIRST_BOOKS, 0) == s;
    assert !LockedByOther(s, 0, "gig");
    var s1 := ONE_LEFT.(calls := map[0 := Call(ANN, Insert), 1 := Call(ANN, Update)]);
    assert After(s, FIRST_BOOKS, 1) == s1;
    assert !BlockedByInsert(s1, 0, ANN);
  }

  /** One ticket, one token, two concurrent calls: the second is told the event is sold out. */
  lemma {:induction false} ConcurrentDuplicateCanSellOut()
    ensures Fresh(ONE_LEFT)
    ensures var s := After(ONE_LEFT, BOTH_LOOK, 6);
      After(s, FIRST_BOOKS, 4).calls == map[0 := Call(ANN, Done(Created(0))), 1 := Call(ANN, Done(SoldOut))]
  {
    BothReachUpdate();
    FirstClaims();
    var s3 := CommitCall(ONE_INSERTED, 0);
    assert After(BOTH_AT_UPDATE, FIRST_BOOKS, 3) == s3;
    assert s3.events["gig"] == EventRow(1, 1);
    assert !LockedByOther(s3, 1, "gig");
  }
}
