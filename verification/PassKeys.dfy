/** What the stored pass keys say about the queue's entries, and for how long. */
module PassKeys {
  import opened SortedSet
  import opened AdmissionProtocol

  /** A pass a waiter can collect is their own, minted for an entry of theirs that is recorded under it:
      never for one that was lost, and never for one a process still holds. */
  lemma {:induction false} KeysAreRecorded(acts: seq<Action>, k: nat, event: string, ttl: nat, t: Token)
    requires k <= |acts| && t in After(acts, k, event, ttl).keys
    ensures var s := After(acts, k, event, ttl);
      var pass := s.keys[t];
      && pass.jti < |s.minted| && s.minted[pass.jti].pass == pass
      && var entry := s.minted[pass.jti].entry;
         && entry < Frontier(s) <= |s.history| && s.history[entry] == t
         && entry in s.recorded && s.recorded[entry] == pass.jti
         && entry !in s.lost && entry !in s.holder && entry !in s.dropped
  {
    EveryRunKeepsInv(acts, k, event, ttl);
    var s := After(acts, k, event, ttl);
    assert KeyOk(s, t);
    var entry := s.minted[s.keys[t].jti].entry;
    assert MintOk(s, s.keys[t].jti) && PlaceOk(s, entry);
  }

  /** Entry i is recorded and its own pass is under its token's key. */
  ghost predicate Parked(s: State, i: nat) {
    && i in s.recorded && i < |s.history|
    && s.history[i] in s.keys && s.keys[s.history[i]].jti == s.recorded[i]
  }

  /** The key of t expires, or a pass is written to it. */
  predicate Touches(s: State, a: Action, t: Token) {
    a == ExpireKey(t) || (Stored(s, a).Some? && Stored(s, a).value.pass.token == t)
  }

  /** A recorded entry is never recorded again, and its token's key never gets its pass back. */
  lemma {:induction false} StepParks(s: State, a: Action, event: string, ttl: nat, i: nat)
    requires Inv(s) && i in s.recorded && i < |s.history|
    ensures var s' := Apply(s, a, event, ttl);
      && i in s'.recorded && s'.recorded[i] == s.recorded[i]
      && i < |s'.history| && s'.history[i] == s.history[i]
      && (Parked(s', i) <==> Parked(s, i) && !Touches(s, a, s.history[i]))
  {
    hide Apply, Stored, QueueOk, ProcOk, HolderOk, PlaceOk, MintOk, KeyOk, OnePassEach;
    OnlyStoresRecord(s, a, event, ttl);
    RecordsGrow(s, a, event, ttl);
    if Stored(s, a).Some? {
      StoredIsMinted(s, a);
      assert RecordOk(s, i);
    }
  }

  lemma {:induction false} StoringParks(s: State, a: Action, event: string, ttl: nat, i: nat)
    requires Inv(s) && i !in s.recorded && i in Apply(s, a, event, ttl).recorded
    ensures Parked(Apply(s, a, event, ttl), i)
  {
    hide Apply, Stored, EntriesOk, KeysOk;
    OnlyStoresRecord(s, a, event, ttl);
    RecordsGrow(s, a, event, ttl);
    StoredIsMinted(s, a);
  }

  /** From the SET on, an entry's pass stays collectable until its key expires or another pass is
      written for the same token; from then on it is gone for good. */
  lemma {:induction false} ParkedUntilTouched(acts: seq<Action>, j: nat, k: nat, event: string, ttl: nat, i: nat)
    requires j < k <= |acts|
    requires i !in After(acts, j, event, ttl).recorded && i in After(acts, j + 1, event, ttl).recorded
    ensures var s := After(acts, k, event, ttl);
      && i in s.recorded && i < |s.history|
      && (Parked(s, i) <==> forall m | j < m < k :: !Touches(After(acts, m, event, ttl), acts[m], s.history[i]))
  {
    hide Apply, Inv, Parked, Touches;
    EveryRunKeepsInv(acts, k - 1, event, ttl);
    var was := After(acts, k - 1, event, ttl);
    if j + 1 == k {
      StoringParks(was, acts[j], event, ttl, i);
      ParkedIsRecorded(After(acts, k, event, ttl), i);
    } else {
      ParkedUntilTouched(acts, j, k - 1, event, ttl, i);
      StepParks(was, acts[k - 1], event, ttl, i);
    }
  }

  lemma {:induction false} ParkedIsRecorded(s: State, i: nat)
    requires Parked(s, i)
    ensures i in s.recorded && i < |s.history|
  {
  }
}
