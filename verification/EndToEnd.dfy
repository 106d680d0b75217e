/**
 * Queue and booking together, joined only by the passes: the booking side accepts a claim for the
 * event only if the queue side minted it.
 */
module EndToEnd {
  import opened AdmissionProtocol
  import opened PassIssuer
  import Booking
  import BookingProgress
  import Counting

  datatype System = System(queue: State, db: Booking.Database)

  datatype Action = QueueSide(qa: AdmissionProtocol.Action) | BookingSide(ba: Booking.Action)

  /** The claims carry a signature only the issuer can make: these are the claims of pass jti. */
  ghost predicate IsMinted(s: State, event: string, cl: Booking.Claims) {
    && cl.jti < |s.minted|
    && s.minted[cl.jti].pass.token == cl.user && s.minted[cl.jti].pass.event == event
  }

  ghost predicate Refused(s: System, ba: Booking.Action, event: string) {
    ba.Begin? && ba.claims.event == event && !IsMinted(s.queue, event, ba.claims)
  }

  ghost function Apply(s: System, a: Action, event: string, ttl: nat): System {
    match a
    case QueueSide(qa) => s.(queue := AdmissionProtocol.Apply(s.queue, qa, event, ttl))
    case BookingSide(ba) =>
      if Refused(s, ba, event) then s
      else s.(db := Booking.Apply(s.db, ba))
  }

  ghost function After(db: Booking.Database, acts: seq<Action>, k: nat, event: string, ttl: nat): System
    requires k <= |acts|
  {
    if k == 0 then System(START, db) else Apply(After(db, acts, k - 1, event, ttl), acts[k - 1], event, ttl)
  }

  ghost predicate CallsMinted(s: System, event: string) {
    forall c | c in s.db.calls && s.db.calls[c].claims.event == event :: IsMinted(s.queue, event, s.db.calls[c].claims)
  }

  ghost predicate RowsMinted(s: System, event: string) {
    forall i | 0 <= i < |s.db.rows| && s.db.rows[i].event == event ::
      IsMinted(s.queue, event, Booking.Claims(s.db.rows[i].user, event, s.db.rows[i].jti))
  }

  ghost predicate Linked(s: System, event: string) {
    && AdmissionProtocol.Inv(s.queue) && Booking.Inv(s.db)
    && CallsMinted(s, event) && RowsMinted(s, event)
  }

  lemma {:induction false} MintedGrows(s: State, a: AdmissionProtocol.Action, event: string, ttl: nat)
    ensures s.minted <= AdmissionProtocol.Apply(s, a, event, ttl).minted
  {
  }

  lemma {:induction false} BookingStepOrigins(db: Booking.Database, a: Booking.Action)
    ensures var db' := Booking.Apply(db, a);
      && (forall c | c in db'.calls ::
            (c in db.calls && db'.calls[c].claims == db.calls[c].claims)
            || (a.Begin? && a.c == c && db'.calls[c].claims == a.claims))
      && |db.rows| <= |db'.rows| && db'.rows[..|db.rows|] == db.rows
      && (forall i | |db.rows| <= i < |db'.rows| ::
            a.Advance? && a.c in db.calls
            && var cl := db.calls[a.c].claims; db'.rows[i] == Booking.Row(cl.event, cl.user, cl.jti))
  {
  }

  lemma {:induction false} BookingSideKeepsLinked(s: System, a: Booking.Action, event: string)
    requires Linked(s, event)
    requires a.Begin? && a.claims.event == event ==> IsMinted(s.queue, event, a.claims)
    ensures Linked(s.(db := Booking.Apply(s.db, a)), event)
  {
    hide Booking.Apply, Booking.Inv, AdmissionProtocol.Inv;
    var s' := s.(db := Booking.Apply(s.db, a));
    Booking.StepKeepsInv(s.db, a);
    BookingStepOrigins(s.db, a);
    forall i | 0 <= i < |s'.db.rows| && s'.db.rows[i].event == event
      ensures IsMinted(s'.queue, event, Booking.Claims(s'.db.rows[i].user, event, s'.db.rows[i].jti))
    {
      if i < |s.db.rows| {
        assert s'.db.rows[i] == s'.db.rows[..|s.db.rows|][i];
      }
    }
  }

  lemma {:induction false} StepKeepsLinked(s: System, a: Action, event: string, ttl: nat)
    requires Linked(s, event)
    ensures Linked(Apply(s, a, event, ttl), event)
  {
    hide Booking.Apply, Booking.Inv, AdmissionProtocol.Inv, AdmissionProtocol.Apply;
    match a {
      case QueueSide(qa) =>
        AdmissionProtocol.StepKeepsInv(s.queue, qa, event, ttl);
        MintedGrows(s.queue, qa, event, ttl);
      case BookingSide(ba) =>
        if !Refused(s, ba, event) {
          BookingSideKeepsLinked(s, ba, event);
        }
    }
  }

  lemma {:induction false} EveryRunIsLinked(db: Booking.Database, acts: seq<Action>, k: nat, event: string, ttl: nat)
    requires Booking.TablesOk(db) && db.calls == map[] && Booking.Count(db.rows, event) == 0
    requires k <= |acts|
    ensures Linked(After(db, acts, k, event, ttl), event)
  {
    hide Apply;
    if k > 0 {
      EveryRunIsLinked(db, acts, k - 1, event, ttl);
      StepKeepsLinked(After(db, acts, k - 1, event, ttl), acts[k - 1], event, ttl);
    } else {
      NoneCounted(db.rows, event);
    }
  }

  lemma {:induction false} NoneCounted(rows: seq<Booking.Row>, event: string)
    requires Booking.Count(rows, event) == 0
    ensures forall i | 0 <= i < |rows| :: rows[i].event != event
  {
    if rows != [] {
      NoneCounted(rows[..|rows| - 1], event);
    }
  }

  predicate IsJti(rows: seq<Booking.Row>, event: string, jti: nat, i: nat) {
    i < |rows| && rows[i].event == event && rows[i].jti == jti
  }

  function JtisOf(rows: seq<Booking.Row>, event: string): set<nat> {
    if rows == [] then {}
    else
      var last := rows[|rows| - 1];
      JtisOf(rows[..|rows| - 1], event) + if last.event == event then {last.jti} else {}
  }

  lemma {:induction false} JtiComesFromRow(rows: seq<Booking.Row>, event: string, jti: nat) returns (i: nat)
    requires jti in JtisOf(rows, event)
    ensures IsJti(rows, event, jti, i)
  {
    var last := |rows| - 1;
    if IsJti(rows, event, jti, last) {
      i := last;
    } else {
      i := JtiComesFromRow(rows[..last], event, jti);
    }
  }

  lemma {:induction false} OneJtiPerRow(rows: seq<Booking.Row>, event: string)
    requires forall i, j | 0 <= i < j < |rows| :: rows[i].jti != rows[j].jti
    ensures |JtisOf(rows, event)| == Booking.Count(rows, event)
  {
    if rows != [] {
      var fewer, last := rows[..|rows| - 1], rows[|rows| - 1];
      OneJtiPerRow(fewer, event);
      if last.jti in JtisOf(fewer, event) {
        var _ := JtiComesFromRow(fewer, event, last.jti);
      }
    }
  }

  /** An event's bookings never exceed its capacity, nor the number of people ever popped from its
      queue, however the two services' steps interleave. */
  lemma {:induction false} BookingsWithinAdmissions(db: Booking.Database, acts: seq<Action>, k: nat,
        event: string, ttl: nat)
    requires Booking.TablesOk(db) && db.calls == map[] && Booking.Count(db.rows, event) == 0
    requires k <= |acts|
    ensures var s := After(db, acts, k, event, ttl);
      && Booking.Count(s.db.rows, event) <= EverPopped(s.queue)
      && (event in s.db.events ==> Booking.Count(s.db.rows, event) <= s.db.events[event].capacity)
  {
    var s := After(db, acts, k, event, ttl);
    EveryRunIsLinked(db, acts, k, event, ttl);
    OneJtiPerRow(s.db.rows, event);
    var jtis := JtisOf(s.db.rows, event);
    forall jti | jti in jtis ensures jti in Ids(0, |s.queue.minted|) {
      var _ := JtiComesFromRow(s.db.rows, event, jti);
    }
    Counting.SubsetIsSmaller(jtis, Ids(0, |s.queue.minted|));
    MintedFitPopped(s.queue);
  }

  // ---- The two services are the real ones, and genuine passes get through ----

  /** The queue-side actions among the first k. */
  ghost function QueueActions(acts: seq<Action>, k: nat): seq<AdmissionProtocol.Action>
    requires k <= |acts|
  {
    if k == 0 then []
    else if acts[k - 1].QueueSide? then QueueActions(acts, k - 1) + [acts[k - 1].qa]
    else QueueActions(acts, k - 1)
  }

  /** The booking-side actions among the first k, without the calls that were refused. */
  ghost function BookingActions(db: Booking.Database, acts: seq<Action>, k: nat, event: string, ttl: nat)
    : seq<Booking.Action>
    requires k <= |acts|
  {
    if k == 0 then []
    else
      var fewer := BookingActions(db, acts, k - 1, event, ttl);
      if acts[k - 1].BookingSide? && !Refused(After(db, acts, k - 1, event, ttl), acts[k - 1].ba, event)
      then fewer + [acts[k - 1].ba] else fewer
  }

  /** Whatever the interleaving, each service on its own has gone through a run of its own protocol. */
  lemma {:induction false} EachServiceRuns(db: Booking.Database, acts: seq<Action>, k: nat, event: string, ttl: nat)
    requires k <= |acts|
    ensures var s, qas := After(db, acts, k, event, ttl), QueueActions(acts, k);
      s.queue == AdmissionProtocol.After(qas, |qas|, event, ttl)
    ensures var s, bas := After(db, acts, k, event, ttl), BookingActions(db, acts, k, event, ttl);
      s.db == Booking.After(db, bas, |bas|)
  {
    hide AdmissionProtocol.Apply, Booking.Apply, Refused;
    if k > 0 {
      EachServiceRuns(db, acts, k - 1, event, ttl);
      match acts[k - 1] {
        case QueueSide(qa) =>
          var qas := QueueActions(acts, k - 1);
          QueuePrefix(qas, qas + [qa], |qas|, event, ttl);
        case BookingSide(ba) =>
          var bas := BookingActions(db, acts, k - 1, event, ttl);
          BookingProgress.PrefixDecides(db, bas, bas + [ba], |bas|);
      }
    }
  }

  lemma {:induction false} QueuePrefix(a: seq<AdmissionProtocol.Action>, b: seq<AdmissionProtocol.Action>, k: nat,
        event: string, ttl: nat)
    requires k <= |a| && k <= |b| && forall m | 0 <= m < k :: a[m] == b[m]
    ensures AdmissionProtocol.After(a, k, event, ttl) == AdmissionProtocol.After(b, k, event, ttl)
  {
    hide AdmissionProtocol.Apply;
    if k > 0 {
      QueuePrefix(a, b, k - 1, event, ttl);
    }
  }

  /** The claims a pass carries to the booking side. */
  function ClaimsOf(pass: IssuedPass): Booking.Claims {
    Booking.Claims(pass.token, pass.event, pass.jti)
  }

  /** A call with claims for the event is let in exactly when some minted pass carries them: every genuine
      pass starts its call, and nothing else does. */
  lemma {:induction false} GenuinePassesGetIn(db: Booking.Database, acts: seq<Action>, k: nat, event: string, ttl: nat,
        c: Booking.CallId, cl: Booking.Claims)
    requires Booking.TablesOk(db) && db.calls == map[] && Booking.Count(db.rows, event) == 0
    requires k <= |acts| && cl.event == event && c !in After(db, acts, k, event, ttl).db.calls
    ensures var s := After(db, acts, k, event, ttl);
      var s' := Apply(s, BookingSide(Booking.Begin(c, cl)), event, ttl);
      if exists j :: 0 <= j < |s.queue.minted| && ClaimsOf(s.queue.minted[j].pass) == cl
      then s' == s.(db := s.db.(calls := s.db.calls[c := Booking.Call(cl, Booking.LookupJti)]))
      else s' == s
  {
    EveryRunIsLinked(db, acts, k, event, ttl);
    var s := After(db, acts, k, event, ttl);
    forall j | 0 <= j < |s.queue.minted| ensures s.queue.minted[j].pass.jti == j {
      assert MintOk(s.queue, j);
    }
    hide AdmissionProtocol.Inv, Booking.Inv;
    if IsMinted(s.queue, event, cl) {
      assert ClaimsOf(s.queue.minted[cl.jti].pass) == cl;
    }
  }

  /** Each booking traces back to one popped queue entry of its holder. */
  lemma {:induction false} BookingTracesToEntry(db: Booking.Database, acts: seq<Action>, k: nat, event: string,
        ttl: nat, i: nat)
    requires Booking.TablesOk(db) && db.calls == map[] && Booking.Count(db.rows, event) == 0
    requires k <= |acts|
    requires var rows := After(db, acts, k, event, ttl).db.rows; i < |rows| && rows[i].event == event
    ensures var s := After(db, acts, k, event, ttl);
      var row, minted := s.db.rows[i], s.queue.minted;
      && row.jti < |minted| && minted[row.jti].pass.jti == row.jti
      && var entry := minted[row.jti].entry;
         && entry < Frontier(s.queue) <= |s.queue.history| && entry !in s.queue.dropped
         && s.queue.history[entry] == row.user
  {
    var s := After(db, acts, k, event, ttl);
    EveryRunIsLinked(db, acts, k, event, ttl);
    assert MintOk(s.queue, s.db.rows[i].jti);
  }

  /** No two bookings trace back to the same entry. */
  lemma {:induction false} BookingsTraceApart(db: Booking.Database, acts: seq<Action>, k: nat, event: string, ttl: nat,
                                              i: nat, j: nat)
    requires Booking.TablesOk(db) && db.calls == map[] && Booking.Count(db.rows, event) == 0
    requires k <= |acts|
    requires var rows := After(db, acts, k, event, ttl).db.rows;
      i < j < |rows| && rows[i].event == event && rows[j].event == event
    ensures var s := After(db, acts, k, event, ttl);
      var rows, minted := s.db.rows, s.queue.minted;
      && rows[i].jti < |minted| && rows[j].jti < |minted|
      && minted[rows[i].jti].entry != minted[rows[j].jti].entry
  {
    EveryRunIsLinked(db, acts, k, event, ttl);
  }
}
