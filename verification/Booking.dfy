/**
 * Any number of concurrent book_ticket calls on one database. Each call goes through the steps
 * the code takes: two lookups, the conditional UPDATE (which takes the event's row lock), the
 * INSERT under two unique constraints, commit or rollback, and after a rollback two lookups again.
 */
module Booking {
  import opened Wrappers

  type CallId = nat

  datatype Claims = Claims(user: string, event: string, jti: nat)

  datatype EventRow = EventRow(capacity: nat, booked: nat)

  /** A committed booking; its primary key is its place in the table. */
  datatype Row = Row(event: string, user: string, jti: nat)

  datatype Outcome =
    | Created(id: nat)
    | Replayed(id: nat)
    | SoldOut
    | EventNotFound
    | Unhandled // the bare `raise`
    | Crashed   // the connection or the process died; an open transaction is rolled back

  datatype Pc =
    | LookupJti
    | LookupUser
    | Update
    | Insert // the UPDATE claimed a ticket: row lock held, increment not yet visible to others
    | Commit // the INSERT was accepted, not yet visible to others
    | RetryJti // rolled back after an IntegrityError
    | RetryUser
    | Done(outcome: Outcome)

  datatype Call = Call(claims: Claims, pc: Pc)

  datatype Database = Database(events: map<string, EventRow>, rows: seq<Row>, calls: map<CallId, Call>)

  datatype Action =
    | Begin(c: CallId, claims: Claims)
    | Advance(c: CallId)
    | Crash(c: CallId)

  // ---- The table ----

  predicate SameUser(r: Row, cl: Claims) {
    r.event == cl.event && r.user == cl.user
  }

  /** filter(token_jti=...).first() */
  function FindJti(rows: seq<Row>, jti: nat): (r: Option<nat>)
    ensures r.None? ==> forall i | 0 <= i < |rows| :: rows[i].jti != jti
    ensures r.Some? ==>
      r.value < |rows| && rows[r.value].jti == jti && forall i | 0 <= i < r.value :: rows[i].jti != jti
  {
    if rows == [] then None
    else
      var first := FindJti(rows[..|rows| - 1], jti);
      if first.Some? then first
      else if rows[|rows| - 1].jti == jti then Some(|rows| - 1) else None
  }

  /** filter(event_id=..., user_id=...).first() */
  function FindUser(rows: seq<Row>, cl: Claims): (r: Option<nat>)
    ensures r.None? ==> forall i | 0 <= i < |rows| :: !SameUser(rows[i], cl)
    ensures r.Some? ==>
      r.value < |rows| && SameUser(rows[r.value], cl) && forall i | 0 <= i < r.value :: !SameUser(rows[i], cl)
  {
    if rows == [] then None
    else
      var first := FindUser(rows[..|rows| - 1], cl);
      if first.Some? then first
      else if SameUser(rows[|rows| - 1], cl) then Some(|rows| - 1) else None
  }

  /** Either unique constraint. */
  predicate Conflicts(r: Row, cl: Claims) {
    r.jti == cl.jti || SameUser(r, cl)
  }

  function Count(rows: seq<Row>, event: string): nat {
    if rows == [] then 0
    else Count(rows[..|rows| - 1], event) + if rows[|rows| - 1].event == event then 1 else 0
  }

  // ---- One step of one call ----

  predicate InTransaction(pc: Pc) {
    pc.Insert? || pc.Commit?
  }

  /** Another call's open transaction has updated this event's row. */
  ghost predicate LockedByOther(s: Database, c: CallId, event: string) {
    exists d :: d in s.calls && d != c && InTransaction(s.calls[d].pc) && s.calls[d].claims.event == event
  }

  /** Another call has inserted, but not committed, a row the new one would collide with. */
  ghost predicate BlockedByInsert(s: Database, c: CallId, cl: Claims) {
    exists d :: d in s.calls && d != c && s.calls[d].pc.Commit?
      && Conflicts(Row(s.calls[d].claims.event, s.calls[d].claims.user, s.calls[d].claims.jti), cl)
  }

  function Goto(s: Database, c: CallId, pc: Pc): Database
    requires c in s.calls
  {
    s.(calls := s.calls[c := s.calls[c].(pc := pc)])
  }

  /** A blocked step leaves everything as it is. */
  ghost function Apply(s: Database, a: Action): Database {
    match a
    case Begin(c, claims) => if c in s.calls then s else s.(calls := s.calls[c := Call(claims, LookupJti)])
    case Crash(c) => if c !in s.calls || s.calls[c].pc.Done? then s else Goto(s, c, Done(Crashed))
    case Advance(c) => if c !in s.calls then s else Next(s, c)
  }

  ghost function Next(s: Database, c: CallId): Database
    requires c in s.calls
  {
    var cl := s.calls[c].claims;
    match s.calls[c].pc
    case LookupJti => Goto(s, c, Found(FindJti(s.rows, cl.jti), LookupUser))
    case LookupUser => Goto(s, c, Found(FindUser(s.rows, cl), Update))
    case Update =>
      if LockedByOther(s, c, cl.event) then s
      else if cl.event !in s.events then Goto(s, c, Done(EventNotFound))
      else if s.events[cl.event].booked < s.events[cl.event].capacity then Goto(s, c, Insert)
      else Goto(s, c, Done(SoldOut))
    case Insert =>
      if BlockedByInsert(s, c, cl) then s
      else if exists i :: 0 <= i < |s.rows| && Conflicts(s.rows[i], cl) then Goto(s, c, RetryJti)
      else Goto(s, c, Commit)
    case Commit => CommitCall(s, c)
    case RetryJti => Goto(s, c, Found(FindJti(s.rows, cl.jti), RetryUser))
    case RetryUser => Goto(s, c, Found(FindUser(s.rows, cl), Done(Unhandled)))
    case Done(_) => s
  }

  function Found(id: Option<nat>, otherwise: Pc): Pc {
    if id.Some? then Done(Replayed(id.value)) else otherwise
  }

  /** The increment and the new row become visible together. */
  function CommitCall(s: Database, c: CallId): Database
    requires c in s.calls
  {
    var cl := s.calls[c].claims;
    Goto(s, c, Done(Created(|s.rows|))).(
      rows := s.rows + [Row(cl.event, cl.user, cl.jti)],
      events := if cl.event in s.events
                then s.events[cl.event := s.events[cl.event].(booked := s.events[cl.event].booked + 1)]
                else s.events)
  }

  ghost function After(s: Database, acts: seq<Action>, k: nat): Database
    requires k <= |acts|
  {
    if k == 0 then s else Apply(After(s, acts, k - 1), acts[k - 1])
  }

  // ---- What every step keeps ----

  /** The committed tables: both unique constraints, the foreign key, the check constraint, and a
      counter that equals the number of rows. */
  ghost predicate TablesOk(s: Database) {
    && (forall i, j | 0 <= i < j < |s.rows| ::
          s.rows[i].jti != s.rows[j].jti && !(s.rows[i].event == s.rows[j].event && s.rows[i].user == s.rows[j].user))
    && (forall i | 0 <= i < |s.rows| :: s.rows[i].event in s.events)
    && (forall e | e in s.events :: Count(s.rows, e) == s.events[e].booked <= s.events[e].capacity)
  }

  ghost predicate Free(s: Database, cl: Claims) {
    forall i | 0 <= i < |s.rows| :: !Conflicts(s.rows[i], cl)
  }

  ghost predicate CallOk(s: Database, c: CallId)
    requires c in s.calls
  {
    var cl := s.calls[c].claims;
    match s.calls[c].pc
    case Insert => cl.event in s.events && s.events[cl.event].booked < s.events[cl.event].capacity
    case Commit => cl.event in s.events && s.events[cl.event].booked < s.events[cl.event].capacity && Free(s, cl)
    case RetryJti => !Free(s, cl)
    case RetryUser => exists i :: 0 <= i < |s.rows| && SameUser(s.rows[i], cl)
    case Done(Created(id)) => id < |s.rows| && s.rows[id] == Row(cl.event, cl.user, cl.jti)
    case Done(Replayed(id)) => id < |s.rows| && Conflicts(s.rows[id], cl)
    case Done(SoldOut) => cl.event in s.events && s.events[cl.event].booked == s.events[cl.event].capacity
    case Done(EventNotFound) => cl.event !in s.events
    case Done(Unhandled) => false
    case _ => true
  }

  /** Two calls never hold the same event's row, nor insert colliding rows, nor create one booking. */
  ghost predicate PairOk(s: Database, c: CallId, d: CallId)
    requires c in s.calls && d in s.calls
  {
    var x, y := s.calls[c], s.calls[d];
    c != d ==>
      && (InTransaction(x.pc) && InTransaction(y.pc) ==> x.claims.event != y.claims.event)
      && (x.pc.Commit? && y.pc.Commit? ==> x.claims.jti != y.claims.jti)
      && (x.pc.Done? && x.pc.outcome.Created? && y.pc.Done? && y.pc.outcome.Created? ==>
            x.pc.outcome.id != y.pc.outcome.id)
  }

  ghost predicate Inv(s: Database) {
    && TablesOk(s)
    && (forall c | c in s.calls :: CallOk(s, c))
    && (forall c, d | c in s.calls && d in s.calls :: PairOk(s, c, d))
  }

  lemma {:induction false} CountAppend(rows: seq<Row>, r: Row, event: string)
    ensures Count(rows + [r], event) == Count(rows, event) + if r.event == event then 1 else 0
  {
  }

  /** A committing call keeps the tables: there is room, and nothing to collide with. */
  lemma {:induction false} CommitKeepsTables(s: Database, c: CallId)
    requires Inv(s) && c in s.calls && s.calls[c].pc.Commit?
    ensures TablesOk(CommitCall(s, c))
  {
    hide PairOk;
    var s', cl := CommitCall(s, c), s.calls[c].claims;
    assert CallOk(s, c);
    forall e | e in s'.events ensures Count(s'.rows, e) == s'.events[e].booked <= s'.events[e].capacity {
      CountAppend(s.rows, Row(cl.event, cl.user, cl.jti), e);
    }
  }

  lemma {:induction false} CommitKeepsCall(s: Database, c: CallId, d: CallId)
    requires Inv(s) && c in s.calls && s.calls[c].pc.Commit? && d in s.calls
    ensures CallOk(CommitCall(s, c), d)
  {
    hide TablesOk, Count;
    var s' := CommitCall(s, c);
    assert CallOk(s, c) && CallOk(s, d) && PairOk(s, c, d);
    assert forall i | 0 <= i < |s.rows| :: s'.rows[i] == s.rows[i];
    match s.calls[d].pc {
      case RetryJti =>
        var i :| 0 <= i < |s.rows| && Conflicts(s.rows[i], s.calls[d].claims);
        assert Conflicts(s'.rows[i], s.calls[d].claims);
      case RetryUser =>
        var i :| 0 <= i < |s.rows| && SameUser(s.rows[i], s.calls[d].claims);
        assert SameUser(s'.rows[i], s.calls[d].claims);
      case _ =>
    }
  }

  lemma {:induction false} CommitKeepsPair(s: Database, c: CallId, d: CallId, e: CallId)
    requires Inv(s) && c in s.calls && s.calls[c].pc.Commit? && d in s.calls && e in s.calls
    ensures PairOk(CommitCall(s, c), d, e)
  {
    hide TablesOk, Count;
    assert PairOk(s, d, e) && CallOk(s, d) && CallOk(s, e);
  }

  /** Every other step changes nothing but the pc of one call. */
  lemma {:induction false} MoveKeepsInv(s: Database, c: CallId, pc: Pc)
    requires Inv(s) && c in s.calls
    requires CallOk(Goto(s, c, pc), c)
    requires forall d | d in s.calls :: PairOk(Goto(s, c, pc), c, d) && PairOk(Goto(s, c, pc), d, c)
    ensures Inv(Goto(s, c, pc))
  {
    hide TablesOk, Count;
    var s' := Goto(s, c, pc);
    assert TablesOk(s') by { TablesAlone(s, s'); }
    forall d | d in s'.calls ensures CallOk(s', d) {
      if d != c { assert CallOk(s, d); }
    }
    forall d, e | d in s'.calls && e in s'.calls ensures PairOk(s', d, e) {
      if d != c && e != c { assert PairOk(s, d, e); }
    }
  }

  lemma {:induction false} TablesAlone(s: Database, s': Database)
    requires TablesOk(s) && s'.rows == s.rows && s'.events == s.events
    ensures TablesOk(s')
  {
  }

  lemma {:induction false} AdvanceKeepsInv(s: Database, c: CallId)
    requires Inv(s) && c in s.calls
    ensures Inv(Next(s, c))
  {
    hide TablesOk, Count;
    var cl, s' := s.calls[c].claims, Next(s, c);
    assert CallOk(s, c);
    if s.calls[c].pc.Commit? {
      CommitKeepsTables(s, c);
      forall d | d in s'.calls ensures CallOk(s', d) { CommitKeepsCall(s, c, d); }
      forall d, e | d in s'.calls && e in s'.calls ensures PairOk(s', d, e) { CommitKeepsPair(s, c, d, e); }
    } else if s' != s {
      var pc := s'.calls[c].pc;
      assert s' == Goto(s, c, pc);
      MovedCallOk(s, c);
      forall d | d in s.calls ensures PairOk(s', c, d) && PairOk(s', d, c) { MovedPairOk(s, c, d); }
      MoveKeepsInv(s, c, pc);
    }
  }

  lemma {:induction false} MovedCallOk(s: Database, c: CallId)
    requires Inv(s) && c in s.calls && !s.calls[c].pc.Commit?
    ensures CallOk(Next(s, c), c)
  {
    assert CallOk(s, c);
  }

  lemma {:induction false} MovedPairOk(s: Database, c: CallId, d: CallId)
    requires Inv(s) && c in s.calls && d in s.calls && !s.calls[c].pc.Commit?
    ensures PairOk(Next(s, c), c, d) && PairOk(Next(s, c), d, c)
  {
    hide TablesOk, Count, CallOk;
    assert PairOk(s, c, d) && PairOk(s, d, c);
  }

  lemma {:induction false} StepKeepsInv(s: Database, a: Action)
    requires Inv(s)
    ensures Inv(Apply(s, a))
  {
    hide TablesOk, Count;
    match a {
      case Begin(c, claims) =>
        var s' := Apply(s, a);
        assert TablesOk(s') by { TablesAlone(s, s'); }
        forall d | d in s'.calls ensures CallOk(s', d) {
          if d in s.calls { assert CallOk(s, d); }
        }
        forall d, e | d in s'.calls && e in s'.calls ensures PairOk(s', d, e) {
          if d in s.calls && e in s.calls { assert PairOk(s, d, e); }
        }
      case Crash(c) =>
        if c in s.calls && !s.calls[c].pc.Done? {
          MoveKeepsInv(s, c, Done(Crashed));
        }
      case Advance(c) =>
        if c in s.calls {
          AdvanceKeepsInv(s, c);
        }
    }
  }

  lemma {:induction false} EveryRunKeepsInv(s: Database, acts: seq<Action>, k: nat)
    requires Inv(s) && k <= |acts|
    ensures Inv(After(s, acts, k))
  {
    hide Apply, Inv;
    if k > 0 {
      EveryRunKeepsInv(s, acts, k - 1);
      StepKeepsInv(After(s, acts, k - 1), acts[k - 1]);
    }
  }
}
