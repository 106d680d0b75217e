/** The names of the Redis keys of one event. */
module EventKeys {
  const NAMESPACE := "qf"

  /** The one consequence of id validation the key encoding relies on. */
  predicate NoColon(s: string) {
    forall i | 0 <= i < |s| :: s[i] != ':'
  }

  function Key(event: string, suffix: string): string {
    NAMESPACE + ":" + event + ":" + suffix
  }

  function QueueKey(event: string): string { Key(event, "queue") }

  function SeqKey(event: string): string { Key(event, "seq") }

  function AdmittedKey(event: string): string { Key(event, "admitted") }

  function BucketKey(event: string): string { Key(event, "bucket") }

  function ConfigKey(event: string): string { Key(event, "config") }

  function PassKey(event: string, token: string): string { Key(event, "pass:" + token) }

  /** The names other clients and operators of the same Redis go by. */
  lemma {:induction false} KeyLayout()
    ensures QueueKey("gig") == "qf:gig:queue" && SeqKey("gig") == "qf:gig:seq"
    ensures AdmittedKey("gig") == "qf:gig:admitted" && BucketKey("gig") == "qf:gig:bucket"
    ensures ConfigKey("gig") == "qf:gig:config" && PassKey("gig", "0a") == "qf:gig:pass:0a"
  {
  }

  /** A key names its event and its suffix: two events never share one. */
  lemma {:induction false} KeyIsInjective(e: string, s: string, f: string, t: string)
    requires NoColon(e) && NoColon(f)
    requires Key(e, s) == Key(f, t)
    ensures e == f && s == t
  {
    var k, l := Key(e, s), Key(f, t);
    assert k[..3] == "qf:" && k[3..3 + |e|] == e && k[3 + |e|] == ':' && k[4 + |e|..] == s;
    assert l[3..3 + |f|] == f && l[3 + |f|] == ':' && l[4 + |f|..] == t;
    assert forall i | 3 <= i < 3 + |e| :: k[i] == e[i - 3];
    assert forall i | 3 <= i < 3 + |f| :: l[i] == f[i - 3];
    assert |e| == |f|;
  }

  /** The keys that belong to an event, and to no other. */
  predicate Mine(event: string, key: string) {
    Key(event, "") <= key
  }

  lemma {:induction false} EventsApart(e: string, f: string)
    requires NoColon(e) && NoColon(f) && e != f
    ensures forall t :: !Mine(e, Key(f, t))
  {
    forall t ensures !Mine(e, Key(f, t)) {
      if Mine(e, Key(f, t)) {
        var k := Key(f, t);
        assert k == Key(e, k[|Key(e, "")|..]);
        KeyIsInjective(e, k[|Key(e, "")|..], f, t);
      }
    }
  }

  lemma {:induction false} SuffixDecides(e: string, s: string, t: string)
    ensures Key(e, s) == Key(e, t) ==> s == t
    ensures Mine(e, Key(e, s))
  {
    var n := |Key(e, "")|;
    assert Key(e, s)[n..] == s && Key(e, t)[n..] == t;
    assert Key(e, s) == Key(e, "") + s;
  }

  /** The keys of one event are pairwise different, and so are the pass keys of its waiters. */
  lemma {:induction false} KeysApart(e: string)
    requires NoColon(e)
    ensures QueueKey(e) !in {SeqKey(e), AdmittedKey(e), BucketKey(e), ConfigKey(e)}
    ensures SeqKey(e) !in {AdmittedKey(e), BucketKey(e), ConfigKey(e)}
    ensures AdmittedKey(e) !in {BucketKey(e), ConfigKey(e)} && BucketKey(e) != ConfigKey(e)
    ensures forall t :: PassKey(e, t) !in {QueueKey(e), SeqKey(e), AdmittedKey(e), BucketKey(e), ConfigKey(e)}
    ensures forall t, u :: PassKey(e, t) == PassKey(e, u) ==> t == u
    ensures Mine(e, QueueKey(e)) && Mine(e, SeqKey(e)) && Mine(e, AdmittedKey(e))
    ensures Mine(e, BucketKey(e)) && Mine(e, ConfigKey(e))
    ensures forall t :: Mine(e, PassKey(e, t))
  {
    hide Key, Mine;
    forall s, t ensures (Key(e, s) == Key(e, t) ==> s == t) && Mine(e, Key(e, s)) {
      SuffixDecides(e, s, t);
    }
    assert "queue"[0] == 'q' && "seq"[0] == 's' && "admitted"[0] == 'a' && "bucket"[0] == 'b' && "config"[0] == 'c';
    forall t ensures ("pass:" + t)[0] == 'p' && ("pass:" + t)[5..] == t {
    }
  }

  lemma {:induction false} KeyRest(e: string, s: string)
    ensures Key(e, s)[|NAMESPACE| + 1..] == e + ":" + s
  {
    assert Key(e, s) == NAMESPACE + ":" + (e + ":" + s);
  }

  /** Without the check on event ids, two events have a key in common exactly when one id, closed by
      its colon, begins the other. */
  lemma {:induction false} KeyspacesMeetIff(e: string, f: string)
    ensures (exists s, t :: Key(e, s) == Key(f, t)) <==> e + ":" <= f + ":" || f + ":" <= e + ":"
  {
    forall s, t | Key(e, s) == Key(f, t) ensures e + ":" <= f + ":" || f + ":" <= e + ":" {
      KeyRest(e, s);
      KeyRest(f, t);
      SharePrefix(e + ":", s, f + ":", t);
    }
    if e + ":" <= f + ":" {
      PrefixMeets(e, f);
    } else if f + ":" <= e + ":" {
      PrefixMeets(f, e);
    }
  }

  lemma {:induction false} SharePrefix(a: string, s: string, b: string, t: string)
    requires a + s == b + t
    ensures a <= b || b <= a
  {
    assert (a + s)[..|a|] == a && (b + t)[..|b|] == b;
    if |a| <= |b| {
      assert b[..|a|] == (a + s)[..|b|][..|a|] == a;
    } else {
      assert a[..|b|] == (b + t)[..|a|][..|b|] == b;
    }
  }

  lemma {:induction false} PrefixMeets(e: string, f: string)
    requires e + ":" <= f + ":"
    ensures Key(e, (f + ":")[|e + ":"|..]) == Key(f, "")
  {
    var n := |e + ":"|;
    assert f + ":" == e + ":" + (f + ":")[n..];
    assert Key(e, (f + ":")[n..]) == NAMESPACE + ":" + (e + ":" + (f + ":")[n..]);
    assert Key(f, "") == NAMESPACE + ":" + (f + ":");
  }

  /** So without it the encoding is ambiguous: one event's queue key can be
      another event's pass key. */
  lemma {:induction false} UnvalidatedIdsCollide()
    ensures QueueKey("a:pass") == PassKey("a", "queue")
  {
  }
}
