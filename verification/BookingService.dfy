/** book_ticket as one caller sees it, and why the step-by-step protocol agrees with it. */
module BookingService {
  import opened Wrappers
  import opened Booking

  /** _find_existing: the booking of this token, or else of this user and event. */
  function FindExisting(rows: seq<Row>, cl: Claims): (r: Option<nat>)
    ensures r.None? <==> forall i | 0 <= i < |rows| :: !Conflicts(rows[i], cl)
    ensures r.Some? ==> r.value < |rows| && Conflicts(rows[r.value], cl)
  {
    match FindJti(rows, cl.jti)
    case Some(id) => Some(id)
    case None => FindUser(rows, cl)
  }

  /** What a call returns when no other call is in the middle of a transaction. */
  function Alone(events: map<string, EventRow>, rows: seq<Row>, cl: Claims): Outcome {
    match FindExisting(rows, cl)
    case Some(id) => Replayed(id)
    case None =>
      if cl.event !in events then EventNotFound
      else if events[cl.event].booked < events[cl.event].capacity then Created(|rows|)
      else SoldOut
  }

  class Service {
    var events: map<string, EventRow>
    var rows: seq<Row>

    ghost predicate Valid()
      reads this
    {
      TablesOk(Database(events, rows, map[]))
    }

    method BookTicket(cl: Claims) returns (r: Outcome)
      requires Valid()
      modifies this
      ensures Valid()
      ensures r == Alone(old(events), old(rows), cl)
      ensures !r.Created? ==> events == old(events) && rows == old(rows)
      ensures r.Created? ==>
        && rows == old(rows) + [Row(cl.event, cl.user, cl.jti)]
        && events == old(events)[cl.event := old(events)[cl.event].(booked := old(events)[cl.event].booked + 1)]
    {
      var existing := FindExisting(rows, cl);
      if existing.Some? {
        r := Replayed(existing.value);
        return;
      }
      if cl.event in events && events[cl.event].booked < events[cl.event].capacity {
        events := events[cl.event := events[cl.event].(booked := events[cl.event].booked + 1)];
      } else if cl.event !in events {
        r := EventNotFound;
        return;
      } else {
        r := SoldOut;
        return;
      }
      // Nothing was inserted since the lookups, so the INSERT cannot collide and no handler runs.
      assert forall i | 0 <= i < |rows| :: !Conflicts(rows[i], cl);
      rows := rows + [Row(cl.event, cl.user, cl.jti)];
      r := Created(|rows| - 1);
      forall e | e in events ensures Count(rows, e) == events[e].booked <= events[e].capacity {
        CountAppend(old(rows), Row(cl.event, cl.user, cl.jti), e);
      }
    }
  }

  /** A call that starts on a fresh token and runs undisturbed. */
  function Undisturbed(c: CallId, cl: Claims): seq<Action> {
    [Begin(c, cl), Advance(c), Advance(c), Advance(c), Advance(c), Advance(c)]
  }

  /** The interleaved protocol refines the sequential call: run without interference while nobody
      else is in a transaction, it returns the same outcome and leaves the same tables. */
  lemma {:induction false} UndisturbedIsAlone(s: Database, c: CallId, cl: Claims)
    requires Inv(s) && c !in s.calls
    requires forall d | d in s.calls :: !InTransaction(s.calls[d].pc)
    ensures var s', r := After(s, Undisturbed(c, cl), 6), Alone(s.events, s.rows, cl);
      && c in s'.calls && s'.calls[c] == Call(cl, Done(r))
      && (!r.Created? ==> s'.events == s.events && s'.rows == s.rows)
      && (r.Created? ==>
            && s'.rows == s.rows + [Row(cl.event, cl.user, cl.jti)]
            && s'.events == s.events[cl.event := s.events[cl.event].(booked := s.events[cl.event].booked + 1)])
  {
    hide Inv, Apply;
    var acts := Undisturbed(c, cl);
    var s1 := After(s, acts, 1);
    assert s1 == At(s, c, cl, LookupJti) by { assert After(s, acts, 0) == s; Begins(s, c, cl); }
    var s2, s3 := After(s, acts, 2), After(s, acts, 3);
    var s4, s5 := After(s, acts, 4), After(s, acts, 5);
    assert s2 == Apply(s1, Advance(c)) && s3 == Apply(s2, Advance(c)) && s4 == Apply(s3, Advance(c));
    assert s5 == Apply(s4, Advance(c)) && After(s, acts, 6) == Apply(s5, Advance(c));
    LooksUp(s, c, cl);
    Writes(s, c, cl);
    forall r { Stays(s, c, cl, r); }
  }

  function At(s: Database, c: CallId, cl: Claims, pc: Pc): Database {
    s.(calls := s.calls[c := Call(cl, pc)])
  }

  lemma {:induction false} Begins(s: Database, c: CallId, cl: Claims)
    requires c !in s.calls
    ensures Apply(s, Begin(c, cl)) == At(s, c, cl, LookupJti)
  {
  }

  lemma {:induction false} Stays(s: Database, c: CallId, cl: Claims, r: Outcome)
    ensures Apply(At(s, c, cl, Done(r)), Advance(c)) == At(s, c, cl, Done(r))
  {
  }

  lemma {:induction false} LooksUp(s: Database, c: CallId, cl: Claims)
    ensures Apply(At(s, c, cl, LookupJti), Advance(c)) == At(s, c, cl, Found(FindJti(s.rows, cl.jti), LookupUser))
    ensures Apply(At(s, c, cl, LookupUser), Advance(c)) == At(s, c, cl, Found(FindUser(s.rows, cl), Update))
  {
  }

  lemma {:induction false} Writes(s: Database, c: CallId, cl: Claims)
    requires c !in s.calls && forall d | d in s.calls :: !InTransaction(s.calls[d].pc)
    ensures Apply(At(s, c, cl, Update), Advance(c)) == At(s, c, cl,
              if cl.event !in s.events then Done(EventNotFound)
              else if s.events[cl.event].booked < s.events[cl.event].capacity then Insert
              else Done(SoldOut))
    ensures Apply(At(s, c, cl, Insert), Advance(c)) == At(s, c, cl,
              if exists i :: 0 <= i < |s.rows| && Conflicts(s.rows[i], cl) then RetryJti else Commit)
    ensures Apply(At(s, c, cl, Commit), Advance(c)) == CommitCall(At(s, c, cl, Commit), c)
  {
    assert !LockedByOther(At(s, c, cl, Update), c, cl.event);
    assert !BlockedByInsert(At(s, c, cl, Insert), c, cl);
  }
}
