/**
 * What one event's Redis keys stand for: a join log, a cut point, a token bucket and a config.
 * Entry i of the log holds arrival sequence i + 1; the first `admitted` entries have been popped.
 *
 * Bucket levels are scaled by 60000 (milliseconds per minute), so that refilling by
 * elapsed_ms * rate / 60000 tokens is exact integer arithmetic.
 */
module QueueModel {
  import opened Wrappers
  import opened SortedSet
  import opened WaiterState

  const UNIT := 60000

  datatype Config = Config(rate: int, burst: int, batchMax: int)

  datatype Bucket = Unset | Level(level: int, last: int)

  datatype QueueData = QueueData(log: seq<Token>, admitted: nat, bucket: Bucket, config: Option<Config>)

  type Queue = q: QueueData | q.admitted <= |q.log| witness QueueData([], 0, Unset, None)

  /** The operator's ranges. The scripts do not check them. */
  predicate Sane(c: Config) {
    0 <= c.rate && 0 <= c.burst && 1 <= c.batchMax
  }

  function Waiting(q: Queue): seq<Token> {
    q.log[q.admitted..]
  }

  /** The bucket level once `now` is known: start full, ignore a clock that went backwards, cap at burst. */
  function Refill(c: Config, b: Bucket, now: int): int {
    match b
    case Unset => UNIT * c.burst
    case Level(level, last) => Min(UNIT * c.burst, level + c.rate * Max(0, now - last))
  }

  /** How many may go: whole tokens, at most one batch, at most the people there. */
  function Grant(c: Config, b: Bucket, waiting: nat, now: int): int {
    Min(waiting, Min(c.batchMax, Refill(c, b, now) / UNIT))
  }

  function Enqueue(q: Queue, t: Token): Queue {
    if q.config.None? || t in Waiting(q) then q else q.(log := q.log + [t])
  }

  predicate Running(q: Queue) {
    q.config.Some? && 0 < q.config.value.rate
  }

  function Tick(q: Queue, now: int): Queue {
    if !Running(q) then q
    else
      var c := q.config.value;
      var n := Grant(c, q.bucket, |q.log| - q.admitted, now);
      q.(bucket := Level(Refill(c, q.bucket, now) - UNIT * n, now),
         admitted := if n <= 0 then q.admitted else q.admitted + n)
  }

  datatype Event =
    | Join(token: Token)
    | Admit(now: int)
    | Configure(config: Config)
    | Reset

  function Step(q: Queue, e: Event): Queue {
    match e
    case Join(t) => Enqueue(q, t)
    case Admit(now) => Tick(q, now)
    case Configure(c) => q.(config := Some(c))
    case Reset => QueueData([], 0, Unset, q.config)
  }

  /** The queue after the first k events of a run. */
  function At(q: Queue, es: seq<Event>, k: nat): Queue
    requires k <= |es|
  {
    if k == 0 then q else Step(At(q, es, k - 1), es[k - 1])
  }

  /** How many waiters one event releases. */
  function Popped(q: Queue, e: Event): int {
    if e.Admit? then Tick(q, e.now).admitted - q.admitted else 0
  }

  /** Who one event releases. */
  function Batch(q: Queue, e: Event): seq<Token> {
    if e.Admit? then q.log[q.admitted..Tick(q, e.now).admitted] else []
  }

  /** How many waiters the events i, ..., k - 1 of a run release. */
  function Admissions(q: Queue, es: seq<Event>, i: nat, k: nat): int
    requires k <= |es|
  {
    if k <= i then 0 else Admissions(q, es, i, k - 1) + Popped(At(q, es, k - 1), es[k - 1])
  }

  /** Every batch of a run so far, concatenated in execution order. */
  function Batches(q: Queue, es: seq<Event>, k: nat): seq<Token>
    requires k <= |es|
  {
    if k == 0 then [] else Batches(q, es, k - 1) + Batch(At(q, es, k - 1), es[k - 1])
  }

  ghost predicate NoReset(es: seq<Event>) {
    forall m | 0 <= m < |es| :: !es[m].Reset?
  }

  /** Only joins and admission ticks: the config stays as it is. */
  ghost predicate Steady(es: seq<Event>) {
    forall m | 0 <= m < |es| :: es[m].Join? || es[m].Admit?
  }

  /** The clock value of the latest tick among events i, ..., k - 1. */
  function LastTick(es: seq<Event>, i: nat, k: nat): Option<int>
    requires k <= |es|
  {
    if k <= i then None
    else if es[k - 1].Admit? then Some(es[k - 1].now)
    else LastTick(es, i, k - 1)
  }

  ghost predicate Nondecreasing(es: seq<Event>) {
    forall m, n | 0 <= m <= n < |es| && es[m].Admit? && es[n].Admit? :: es[m].now <= es[n].now
  }

  // ---- Runs ----

  lemma {:induction false} RunsCompose(q: Queue, a: seq<Event>, b: seq<Event>, k: nat)
    requires k <= |b|
    ensures At(q, a + b, |a| + k) == At(At(q, a, |a|), b, k)
  {
    if k == 0 {
      PrefixDecides(q, a, a + b, |a|);
    } else {
      RunsCompose(q, a, b, k - 1);
      assert (a + b)[|a| + k - 1] == b[k - 1];
    }
  }

  lemma {:induction false} PrefixDecides(q: Queue, a: seq<Event>, b: seq<Event>, k: nat)
    requires k <= |a| && k <= |b| && a[..k] == b[..k]
    ensures At(q, a, k) == At(q, b, k)
  {
    if k > 0 {
      assert a[..k - 1] == a[..k][..k - 1] == b[..k - 1];
      assert a[k - 1] == a[..k][k - 1] == b[k - 1];
      PrefixDecides(q, a, b, k - 1);
    }
  }

  lemma {:induction false} SteadyConfig(q: Queue, es: seq<Event>, k: nat)
    requires Steady(es) && k <= |es|
    ensures At(q, es, k).config == q.config
  {
    if k > 0 {
      SteadyConfig(q, es, k - 1);
    }
  }

  /** Without a reset the log only grows and the cut only moves forward. */
  lemma {:induction false} RunGrows(q: Queue, es: seq<Event>, j: nat, k: nat)
    requires NoReset(es) && j <= k <= |es|
    ensures At(q, es, j).log <= At(q, es, k).log
    ensures At(q, es, j).admitted <= At(q, es, k).admitted
    decreases k - j
  {
    if j < k {
      RunGrows(q, es, j, k - 1);
    }
  }

  lemma {:induction false} AdmissionsTelescope(q: Queue, es: seq<Event>, i: nat, k: nat)
    requires NoReset(es) && i <= k <= |es|
    ensures Admissions(q, es, i, k) == At(q, es, k).admitted - At(q, es, i).admitted
    decreases k - i
  {
    hide Refill;
    if i < k {
      AdmissionsTelescope(q, es, i, k - 1);
    }
  }

  // ---- First in, first out ----

  /** Concatenating every popped batch gives exactly the stretch of the log the cut moved over. */
  lemma {:induction false} FirstInFirstOut(q: Queue, es: seq<Event>, k: nat)
    requires NoReset(es) && k <= |es|
    ensures q.admitted <= At(q, es, k).admitted
    ensures Batches(q, es, k) == At(q, es, k).log[q.admitted..At(q, es, k).admitted]
  {
    hide Tick, Step, Batch;
    RunGrows(q, es, 0, k);
    if k > 0 {
      FirstInFirstOut(q, es, k - 1);
      RunGrows(q, es, k - 1, k);
      BatchIsCut(At(q, es, k - 1), es[k - 1]);
      Splice(At(q, es, k - 1).log, At(q, es, k).log, q.admitted, At(q, es, k - 1).admitted, At(q, es, k).admitted);
    }
  }

  lemma {:induction false} BatchIsCut(q: Queue, e: Event)
    requires !e.Reset?
    ensures Batch(q, e) == Step(q, e).log[q.admitted..Step(q, e).admitted]
    ensures |Batch(q, e)| == Popped(q, e)
  {
  }

  lemma {:induction false} TickKeepsLog(q: Queue, now: int)
    ensures Tick(q, now).log == q.log && Tick(q, now).config == q.config
    ensures Tick(q, now).admitted == q.admitted + |Batch(q, Admit(now))|
    ensures forall j | 0 <= j < |Batch(q, Admit(now))| :: Batch(q, Admit(now))[j] == q.log[q.admitted + j]
  {
  }

  lemma {:induction false} Splice<T>(a: seq<T>, b: seq<T>, i: nat, j: nat, k: nat)
    requires a <= b && i <= j <= |a| && j <= k <= |b|
    ensures a[i..j] + b[j..k] == b[i..k]
  {
  }

  /** No token is ever waiting twice. */
  ghost predicate NoDuplicates(s: seq<Token>) {
    forall i, j | 0 <= i < j < |s| :: s[i] != s[j]
  }

  lemma {:induction false} WaitersAreDistinct(q: Queue, es: seq<Event>, k: nat)
    requires k <= |es| && NoDuplicates(Waiting(q))
    ensures NoDuplicates(Waiting(At(q, es, k)))
  {
    if k > 0 {
      WaitersAreDistinct(q, es, k - 1);
      var was, now := At(q, es, k - 1), At(q, es, k);
      match es[k - 1] {
        case Join(t) =>
          assert now.log != was.log ==> Waiting(now) == Waiting(was) + [t];
        case Admit(_) =>
          assert Waiting(now) == Waiting(was)[now.admitted - was.admitted..];
        case Configure(_) =>
        case Reset =>
      }
    }
  }

  // ---- Positions ----

  /** The position of log entry i, which is its rank among the waiters plus one. */
  function PositionOf(q: Queue, i: nat): int
    requires q.admitted <= i < |q.log|
  {
    i - q.admitted + 1
  }

  /** From join until pop a waiter keeps its entry and its position never rises; and a position
      computed from any earlier admitted total is never below the true one. */
  lemma {:induction false} PositionsNeverRise(q: Queue, es: seq<Event>, j: nat, k: nat, i: nat)
    requires NoReset(es) && j <= k <= |es|
    requires i < |At(q, es, j).log| && At(q, es, k).admitted <= i
    ensures At(q, es, j).admitted <= i < |At(q, es, k).log|
    ensures At(q, es, k).log[i] == At(q, es, j).log[i]
    ensures PositionOf(At(q, es, k), i) <= PositionOf(At(q, es, j), i)
    ensures PositionFrom(i + 1, At(q, es, k).admitted) == PositionOf(At(q, es, k), i)
    ensures PositionFrom(i + 1, At(q, es, j).admitted) >= PositionOf(At(q, es, k), i)
  {
    RunGrows(q, es, j, k);
  }

  /** The clamp: whatever the totals, nobody is shown a position below 1, and exactly those at the front or
      already let go are shown 1. */
  lemma {:induction false} PoppedShowsOne(q: Queue, i: nat)
    requires i < |q.log|
    ensures 1 <= PositionFrom(i + 1, q.admitted)
    ensures i <= q.admitted <==> PositionFrom(i + 1, q.admitted) == 1
  {
  }

  /** The joins among the first k events. */
  function OnlyJoins(es: seq<Event>, k: nat): seq<Event>
    requires k <= |es|
  {
    if k == 0 then [] else if es[k - 1].Join? then OnlyJoins(es, k - 1) + [es[k - 1]] else OnlyJoins(es, k - 1)
  }

  /** Pausing leaves no trace: however long a pause lasts, whoever joins and however often processes
      tick during it, resuming finds the queue and the bucket as if the pause had never been configured
      and only the joins had happened. */
  lemma {:induction false} PauseLeavesNoTrace(q: Queue, paused: Config, resumed: Config, during: seq<Event>)
    requires paused.rate <= 0 && Steady(during)
    ensures var pausing := [Configure(paused)] + during + [Configure(resumed)];
            var straight := [Configure(resumed)] + OnlyJoins(during, |during|);
            At(q, pausing, |pausing|) == At(q, straight, |straight|)
  {
    hide Tick, Enqueue;
    var pausing, joins := [Configure(paused)] + during, OnlyJoins(during, |during|);
    PausedRun(q, paused, resumed, during, |during|);
    ConfigureFirst(q, paused, during);
    ConfigureFirst(q, resumed, joins);
    SteadyJoins(during, |during|);
    SteadyConfig(q.(config := Some(resumed)), joins, |joins|);
    RunsCompose(q, pausing, [Configure(resumed)], 1);
    OneEvent(At(q, pausing, |pausing|), Configure(resumed));
  }

  lemma {:induction false} OneEvent(q: Queue, e: Event)
    ensures At(q, [e], 1) == Step(q, e)
  {
    assert At(q, [e], 0) == q;
  }

  lemma {:induction false} ConfigureFirst(q: Queue, c: Config, es: seq<Event>)
    ensures At(q, [Configure(c)] + es, 1 + |es|) == At(q.(config := Some(c)), es, |es|)
  {
    RunsCompose(q, [Configure(c)], es, |es|);
    OneEvent(q, Configure(c));
  }

  lemma {:induction false} SteadyJoins(es: seq<Event>, k: nat)
    requires k <= |es|
    ensures Steady(OnlyJoins(es, k))
  {
    if k > 0 {
      SteadyJoins(es, k - 1);
    }
  }

  lemma {:induction false} PausedStep(q: Queue, paused: Config, e: Event)
    requires paused.rate <= 0 && q.config.Some? && (e.Join? || e.Admit?)
    ensures Step(q.(config := Some(paused)), e) == (if e.Join? then Step(q, e) else q).(config := Some(paused))
  {
  }

  lemma {:induction false} PausedRun(q: Queue, paused: Config, resumed: Config, es: seq<Event>, k: nat)
    requires paused.rate <= 0 && Steady(es) && k <= |es|
    ensures var joins := OnlyJoins(es, k);
            At(q.(config := Some(paused)), es, k)
            == At(q.(config := Some(resumed)), joins, |joins|).(config := Some(paused))
  {
    hide Step;
    if k > 0 {
      PausedRun(q, paused, resumed, es, k - 1);
      var fewer, joins := OnlyJoins(es, k - 1), OnlyJoins(es, k);
      SteadyJoins(es, k - 1);
      SteadyConfig(q.(config := Some(resumed)), fewer, |fewer|);
      PausedStep(At(q.(config := Some(resumed)), fewer, |fewer|), paused, es[k - 1]);
      if es[k - 1].Join? {
        assert joins[..|fewer|] == fewer[..|fewer|];
        PrefixDecides(q.(config := Some(resumed)), fewer, joins, |fewer|);
      }
    }
  }

  // ---- Once per entry, not once per token ----

  function Occurrences(s: seq<Token>, t: Token): nat {
    if s == [] then 0 else Occurrences(s[..|s| - 1], t) + if s[|s| - 1] == t then 1 else 0
  }

  /** A token is popped exactly as often as it has an entry before the cut: once per entry. */
  lemma {:induction false} PoppedOncePerEntry(q: Queue, es: seq<Event>, k: nat, t: Token)
    requires NoReset(es) && k <= |es| && q.admitted == 0
    ensures Occurrences(Batches(q, es, k), t)
         == Occurrences(At(q, es, k).log[..At(q, es, k).admitted], t)
  {
    FirstInFirstOut(q, es, k);
    var now := At(q, es, k);
    assert now.log[0..now.admitted] == now.log[..now.admitted];
  }

  /** "Popped exactly once, ever" fails for a token that joins again after its turn. */
  lemma {:induction false} RejoinIsPoppedTwice()
    ensures var q := QueueData([], 0, Unset, Some(Config(100, 20, 50)));
            var es := [Join("a"), Admit(0), Join("a"), Admit(600)];
            Batches(q, es, 4) == ["a", "a"]
  {
    var q: Queue := QueueData([], 0, Unset, Some(Config(100, 20, 50)));
    var es := [Join("a"), Admit(0), Join("a"), Admit(600)];
    assert At(q, es, 1).log == ["a"];
    var q2 := At(q, es, 2);
    assert q2 == QueueData(["a"], 1, Level(UNIT * 19, 0), q.config);
    var q3 := At(q, es, 3);
    assert q3.log == ["a", "a"] && q3.admitted == 1;
    var q4 := At(q, es, 4);
    assert q4.admitted == 2;
    FirstInFirstOut(q, es, 4);
  }
}
