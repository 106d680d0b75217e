/** Who is popped more than once: exactly the tokens that join again after their turn and come to the
    front a second time. */
module Rejoins {
  import opened SortedSet
  import opened QueueModel

  lemma {:induction false} OccursAt(s: seq<Token>, t: Token) returns (i: nat)
    requires Occurrences(s, t) >= 1
    ensures i < |s| && s[i] == t
    ensures Occurrences(s[..i], t) == Occurrences(s, t) - 1
  {
    i := |s| - 1;
    if s[i] != t {
      i := OccursAt(s[..|s| - 1], t);
      assert s[..|s| - 1][..i] == s[..i];
    }
  }

  lemma {:induction false} OccursTwice(s: seq<Token>, t: Token, i: nat, j: nat)
    requires i < j < |s| && s[i] == s[j] == t
    ensures Occurrences(s, t) >= 2
  {
    if j == |s| - 1 {
      OccursOnce(s[..j], t, i);
    } else {
      OccursTwice(s[..|s| - 1], t, i, j);
    }
  }

  lemma {:induction false} OccursOnce(s: seq<Token>, t: Token, i: nat)
    requires i < |s| && s[i] == t
    ensures Occurrences(s, t) >= 1
  {
    if i < |s| - 1 {
      OccursOnce(s[..|s| - 1], t, i);
    }
  }

  /** Event m of the run gives t a new entry. */
  ghost predicate Places(q: Queue, es: seq<Event>, m: nat, t: Token) {
    m < |es| && es[m] == Join(t) && At(q, es, m).config.Some? && t !in Waiting(At(q, es, m))
  }

  /** Every entry was made by a join that found its token not waiting. */
  lemma {:induction false} MadeByJoin(q: Queue, es: seq<Event>, k: nat, i: nat) returns (m: nat)
    requires NoReset(es) && k <= |es| && q.log == [] && i < |At(q, es, k).log|
    ensures m < k && Places(q, es, m, At(q, es, k).log[i]) && |At(q, es, m).log| == i
  {
    hide Tick;
    TickKeepsLog(At(q, es, k - 1), if es[k - 1].Admit? then es[k - 1].now else 0);
    if i < |At(q, es, k - 1).log| {
      m := MadeByJoin(q, es, k - 1, i);
    } else {
      m := k - 1;
    }
  }

  lemma {:induction false} PlacingStays(q: Queue, es: seq<Event>, m: nat, k: nat, t: Token)
    requires NoReset(es) && m < k <= |es| && Places(q, es, m, t)
    ensures var i := |At(q, es, m).log|; i < |At(q, es, k).log| && At(q, es, k).log[i] == t
  {
    RunGrows(q, es, m + 1, k);
    assert At(q, es, m + 1).log == At(q, es, m).log + [t];
  }

  /** Event m is a join of t after an earlier entry of t was popped, and by event k the new entry has
      been popped too. */
  ghost predicate RejoinsInTime(q: Queue, es: seq<Event>, m: nat, k: nat, t: Token)
    requires k <= |es|
  {
    && m < k && Places(q, es, m, t)
    && t in At(q, es, m).log[..At(q, es, m).admitted]
    && |At(q, es, m).log| < At(q, es, k).admitted
  }

  /** A token is popped more than once if and only if join.lua took its INCR branch for it after it
      had been popped, and that later entry has come up as well. */
  lemma {:induction false} PoppedAgainIff(q: Queue, es: seq<Event>, k: nat, t: Token)
    requires NoReset(es) && k <= |es| && q.log == []
    ensures Occurrences(Batches(q, es, k), t) >= 2 <==> exists m: nat :: RejoinsInTime(q, es, m, k, t)
  {
    hide RejoinsInTime, Occurrences, Batches, At;
    PoppedOncePerEntry(q, es, k, t);
    if Occurrences(Batches(q, es, k), t) >= 2 {
      var m := SecondEntryRejoins(q, es, k, t);
    }
    forall m: nat | RejoinsInTime(q, es, m, k, t) ensures Occurrences(Batches(q, es, k), t) >= 2 {
      RejoinIsPopped(q, es, m, k, t);
    }
  }

  lemma {:induction false} EntriesWait(q: Queue)
    ensures forall i | q.admitted <= i < |q.log| :: q.log[i] in Waiting(q)
  {
    forall i | q.admitted <= i < |q.log| ensures q.log[i] in Waiting(q) {
      assert Waiting(q)[i - q.admitted] == q.log[i];
    }
  }

  lemma {:induction false} SecondEntryRejoins(q: Queue, es: seq<Event>, k: nat, t: Token) returns (m: nat)
    requires NoReset(es) && k <= |es| && q.log == []
    requires Occurrences(At(q, es, k).log[..At(q, es, k).admitted], t) >= 2
    ensures RejoinsInTime(q, es, m, k, t)
  {
    var now := At(q, es, k);
    var popped := now.log[..now.admitted];
    var j := OccursAt(popped, t);
    var i := OccursAt(popped[..j], t);
    m := MadeByJoin(q, es, k, j);
    RunGrows(q, es, m, k);
    var was := At(q, es, m);
    assert was.log[i] == now.log[i] == t;
    EntriesWait(was);
    assert was.log[..was.admitted][i] == t;
  }

  lemma {:induction false} RejoinIsPopped(q: Queue, es: seq<Event>, m: nat, k: nat, t: Token)
    requires NoReset(es) && k <= |es| && RejoinsInTime(q, es, m, k, t)
    ensures Occurrences(At(q, es, k).log[..At(q, es, k).admitted], t) >= 2
  {
    var was, now := At(q, es, m), At(q, es, k);
    var i :| 0 <= i < was.admitted && was.log[..was.admitted][i] == t;
    RunGrows(q, es, m, k);
    PlacingStays(q, es, m, k, t);
    assert now.log[i] == was.log[i] == t;
    OccursTwice(now.log[..now.admitted], t, i, |was.log|);
  }
}
