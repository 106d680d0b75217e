/** A freshly opened event, and any number of different people who join before its first tick. */
module OpeningCrowd {
  import opened Wrappers
  import opened SortedSet
  import opened QueueModel

  function Open(c: Config): Queue {
    QueueData([], 0, Unset, Some(c))
  }

  function Names(n: nat): (s: seq<Token>)
    ensures |s| == n && forall m | 0 <= m < n :: |s[m]| == m
  {
    if n == 0 then [] else Names(n - 1) + [seq(n - 1, _ => 'a')]
  }

  function Crowd(n: nat): (es: seq<Event>)
    ensures |es| == n && forall m | 0 <= m < n :: es[m].Join?
  {
    if n == 0 then [] else Crowd(n - 1) + [Join(seq(n - 1, _ => 'a'))]
  }

  lemma {:induction false} CrowdArrives(c: Config, n: nat)
    ensures At(Open(c), Crowd(n), n) == QueueData(Names(n), 0, Unset, Some(c))
  {
    if n > 0 {
      CrowdArrives(c, n - 1);
      assert Crowd(n)[..n - 1] == Crowd(n - 1)[..n - 1];
      PrefixDecides(Open(c), Crowd(n - 1), Crowd(n), n - 1);
      var t := seq(n - 1, _ => 'a');
      assert Crowd(n)[n - 1] == Join(t);
      assert t !in Names(n - 1);
    }
  }
}
