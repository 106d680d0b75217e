/** A Redis sorted set: members with integer scores, ordered by score and then by member. */
module SortedSet {
  type Token = string
  type Zset = map<Token, int>

  /** The byte order Redis falls back to when two members share a score. */
  predicate LexLess(a: string, b: string) {
    if b == [] then false
    else if a == [] then true
    else a[0] < b[0] || (a[0] == b[0] && LexLess(a[1..], b[1..]))
  }

  lemma {:induction false} LexTotal(a: string, b: string)
    ensures a == b || LexLess(a, b) || LexLess(b, a)
    ensures !(LexLess(a, b) && LexLess(b, a))
  {
    if a != [] && b != [] && a[0] == b[0] {
      LexTotal(a[1..], b[1..]);
      assert a == [a[0]] + a[1..] && b == [b[0]] + b[1..];
    }
  }

  lemma {:induction false} LexTransitive(a: string, b: string, c: string)
    requires LexLess(a, b) && LexLess(b, c)
    ensures LexLess(a, c)
  {
    if a != [] && a[0] == b[0] == c[0] {
      LexTransitive(a[1..], b[1..], c[1..]);
    }
  }

  predicate Before(z: Zset, a: Token, b: Token)
    requires a in z && b in z
  {
    z[a] < z[b] || (z[a] == z[b] && LexLess(a, b))
  }

  ghost predicate IsFirst(z: Zset, t: Token) {
    t in z && forall u | u in z && u != t :: Before(z, t, u)
  }

  /** Every nonempty sorted set has a first member, so ZPOPMIN always has something to pop. */
  lemma {:induction false} FirstExists(z: Zset) returns (t: Token)
    requires z != map[]
    ensures IsFirst(z, t)
    decreases |z|
  {
    var x :| x in z;
    var rest := z - {x};
    t := x;
    if rest == map[] {
      assert forall u | u in z && u != x :: u in rest;
    } else {
      var r := FirstExists(rest);
      LexTotal(r, x);
      if Before(z, r, x) {
        forall u | u in z && u != r ensures Before(z, r, u) {
          assert u != x ==> Before(rest, r, u);
        }
        t := r;
      } else {
        forall u | u in z && u != x ensures Before(z, x, u) {
          if u != r {
            assert Before(rest, r, u);
            if z[x] == z[r] == z[u] {
              LexTransitive(x, r, u);
            }
          }
        }
      }
    }
  }

  /** ZRANK: how many members come before `t`. */
  function ZRank(z: Zset, t: Token): nat
    requires t in z
  {
    |set u | u in z && Before(z, u, t)|
  }

  ghost predicate InOrder(z: Zset, popped: seq<(Token, int)>) {
    && (forall k | 0 <= k < |popped| :: popped[k].0 in z && popped[k].1 == z[popped[k].0])
    && (forall i, j | 0 <= i < j < |popped| :: Before(z, popped[i].0, popped[j].0))
  }

  ghost predicate AllBefore(z: Zset, popped: seq<(Token, int)>, rest: Zset) {
    && rest.Keys <= z.Keys
    && (forall t | t in rest :: rest[t] == z[t])
    && (forall k | 0 <= k < |popped| :: popped[k].0 in z && popped[k].0 !in rest)
    && (forall k, u | 0 <= k < |popped| && u in rest :: Before(z, popped[k].0, u))
    && (forall t {:trigger Accounted(popped, rest, t)} | t in z :: Accounted(popped, rest, t))
  }

  ghost predicate Accounted(popped: seq<(Token, int)>, rest: Zset, t: Token) {
    t in rest || exists k :: 0 <= k < |popped| && popped[k].0 == t
  }

  /** ZPOPMIN key n: extract the first member, up to n times. */
  method ZPopMin(z: Zset, n: nat) returns (popped: seq<(Token, int)>, rest: Zset)
    ensures |popped| == if n <= |z| then n else |z|
    ensures InOrder(z, popped)
    ensures AllBefore(z, popped, rest)
  {
    popped, rest := [], z;
    while |popped| < n && rest != map[]
      invariant |popped| <= n
      invariant |popped| + |rest| == |z|
      invariant InOrder(z, popped)
      invariant AllBefore(z, popped, rest)
      decreases |rest|
    {
      ghost var w := FirstExists(rest);
      assert IsFirst(rest, w);
      var t :| t in rest && forall u | u in rest && u != t :: Before(rest, t, u);
      var smaller := rest - {t};
      ghost var was, wasRest := popped, rest;
      assert |smaller| == |rest| - 1 by { assert smaller.Keys == rest.Keys - {t}; }
      popped, rest := popped + [(t, rest[t])], smaller;
      forall i, j | 0 <= i < j < |popped| ensures Before(z, popped[i].0, popped[j].0) {
        if j == |was| { assert popped[i] == was[i]; }
      }
      forall k, u | 0 <= k < |popped| && u in rest ensures Before(z, popped[k].0, u) {
        if k == |was| { assert Before(wasRest, t, u); }
      }
      forall u | u in z ensures Accounted(popped, rest, u) {
        assert Accounted(was, wasRest, u);
        if u == t {
          assert popped[|was|].0 == u;
        } else if u !in wasRest {
          var k :| 0 <= k < |was| && was[k].0 == u;
          assert popped[k].0 == u;
        }
      }
    }
  }

  /**
   * The sorted set stands for the part of a join log after a cut point: entry i of the log is
   * a member with score i + 1, for every i from the cut on, and there are no other members.
   */
  ghost predicate Holds(z: Zset, log: seq<Token>, cut: int) {
    && 0 <= cut <= |log|
    && (forall i | cut <= i < |log| :: log[i] in z && z[log[i]] == i + 1)
    && (forall t | t in z :: cut < z[t] <= |log| && log[z[t] - 1] == t)
  }

  /** Scores are dense: exactly s - 1 - cut members have a score below s. */
  lemma {:induction false} ScoresAreDense(z: Zset, log: seq<Token>, cut: nat, s: nat)
    requires Holds(z, log, cut)
    requires cut < s <= |log| + 1
    ensures |set u | u in z && z[u] < s| == s - 1 - cut
    decreases s
  {
    var below := set u | u in z && z[u] < s;
    if s == cut + 1 {
      assert below == {};
    } else {
      ScoresAreDense(z, log, cut, s - 1);
      var fewer := set u | u in z && z[u] < s - 1;
      assert log[s - 2] in z && log[s - 2] !in fewer;
      assert below == fewer + {log[s - 2]};
    }
  }

  lemma {:induction false} CardIsWaiting(z: Zset, log: seq<Token>, cut: nat)
    requires Holds(z, log, cut)
    ensures |z| == |log| - cut
  {
    ScoresAreDense(z, log, cut, |log| + 1);
    assert (set u | u in z && z[u] < |log| + 1) == z.Keys;
  }

  /** ZRANK, which counts members, agrees with the score arithmetic. */
  lemma {:induction false} RankIsArithmetic(z: Zset, log: seq<Token>, cut: nat, t: Token)
    requires Holds(z, log, cut) && t in z
    ensures ZRank(z, t) == z[t] - cut - 1
  {
    ScoresAreDense(z, log, cut, z[t]);
    forall u | u in z ensures Before(z, u, t) <==> z[u] < z[t] {
      LexTotal(t, t);
      assert z[u] == z[t] ==> u == t;
    }
    assert (set u | u in z && Before(z, u, t)) == (set u | u in z && z[u] < z[t]);
  }

  /** ZADD of a new member with the next sequence appends to the log. */
  lemma {:induction false} AddAppends(z: Zset, log: seq<Token>, cut: nat, t: Token)
    requires Holds(z, log, cut) && t !in z
    ensures Holds(z[t := |log| + 1], log + [t], cut)
  {
  }

  lemma {:induction false} OrderIsScore(z: Zset, log: seq<Token>, cut: nat, a: Token, b: Token)
    requires Holds(z, log, cut) && a in z && b in z
    ensures Before(z, a, b) <==> z[a] < z[b]
  {
    LexTotal(a, b);
    assert z[a] == z[b] ==> a == b;
  }

  /** InOrder and AllBefore once scores are known to be distinct: no tie-breaking is left. */
  ghost predicate Ascending(z: Zset, popped: seq<(Token, int)>, rest: Zset) {
    && (forall k | 0 <= k < |popped| :: popped[k].0 in z && popped[k].1 == z[popped[k].0])
    && (forall i, j | 0 <= i < j < |popped| :: popped[i].1 < popped[j].1)
    && (forall k, u | 0 <= k < |popped| && u in rest :: popped[k].1 < rest[u])
    && (forall t {:trigger Accounted(popped, rest, t)} | t in z :: Accounted(popped, rest, t))
    && (forall t | t in rest :: t in z && rest[t] == z[t])
  }

  lemma {:induction false} PopAscends(z: Zset, log: seq<Token>, cut: nat, popped: seq<(Token, int)>, rest: Zset)
    requires Holds(z, log, cut)
    requires InOrder(z, popped) && AllBefore(z, popped, rest)
    ensures Ascending(z, popped, rest)
  {
    forall i, j | 0 <= i < j < |popped| ensures popped[i].1 < popped[j].1 {
      OrderIsScore(z, log, cut, popped[i].0, popped[j].0);
    }
    forall k, u | 0 <= k < |popped| && u in rest ensures popped[k].1 < rest[u] {
      OrderIsScore(z, log, cut, popped[k].0, u);
    }
  }

  /** What ZPOPMIN returns is the front of the log, in order, and it moves the cut. */
  lemma {:induction false} PopIsFront(z: Zset, log: seq<Token>, cut: nat, popped: seq<(Token, int)>, rest: Zset)
    requires Holds(z, log, cut)
    requires InOrder(z, popped) && AllBefore(z, popped, rest)
    requires |popped| <= |log| - cut
    ensures forall k | 0 <= k < |popped| :: popped[k] == (log[cut + k], cut + k + 1)
    ensures Holds(rest, log, cut + |popped|)
  {
    PopAscends(z, log, cut, popped, rest);
    PopPrefix(z, log, cut, popped, rest, |popped|);
    PopRest(z, log, cut, popped, rest);
  }

  lemma {:induction false} PopRest(z: Zset, log: seq<Token>, cut: nat, popped: seq<(Token, int)>, rest: Zset)
    requires Holds(z, log, cut)
    requires Ascending(z, popped, rest)
    requires |popped| <= |log| - cut
    requires forall k | 0 <= k < |popped| :: popped[k] == (log[cut + k], cut + k + 1)
    ensures Holds(rest, log, cut + |popped|)
  {
    forall i | cut + |popped| <= i < |log| ensures log[i] in rest && rest[log[i]] == i + 1 {
      assert z[log[i]] == i + 1 && Accounted(popped, rest, log[i]);
    }
    forall t | t in rest ensures cut + |popped| < rest[t] <= |log| && log[rest[t] - 1] == t {
      assert log[z[t] - 1] == t;
      assert |popped| > 0 ==> popped[|popped| - 1].1 < rest[t];
    }
  }

  lemma {:induction false} PopPrefix(z: Zset, log: seq<Token>, cut: nat, popped: seq<(Token, int)>, rest: Zset, n: nat)
    requires Holds(z, log, cut)
    requires Ascending(z, popped, rest)
    requires n <= |popped| <= |log| - cut
    ensures forall k | 0 <= k < n :: popped[k] == (log[cut + k], cut + k + 1)
  {
    if n > 0 {
      PopPrefix(z, log, cut, popped, rest, n - 1);
      var front, score := log[cut + n - 1], popped[n - 1].1;
      assert cut + n <= score by {
        assert n > 1 ==> popped[n - 2].1 < score;
      }
      assert z[front] == cut + n;
      assert score <= cut + n by {
        assert Accounted(popped, rest, front);
      }
    }
  }
}
