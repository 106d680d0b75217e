/**
 * The three scripts over one flat, string-keyed Redis, and the repository that decodes their
 * replies. Each event's five keys stand for a QueueModel queue; a script run on one event takes
 * that queue's step and leaves every other event's queue and passes as they were.
 */
module RedisStore {
  import opened Wrappers
  import opened EventKeys
  import opened SortedSet
  import opened WaiterState
  import opened QueueModel
  import opened PassIssuer

  datatype Value =
    | SortedSetValue(zset: Zset)
    | CounterValue(count: int)
    | BucketValue(level: int, last: int)
    | ConfigValue(config: Config)
    | PassValue(pass: IssuedPass)

  type Store = map<string, Value>

  // ---- Reading keys; a missing sorted set is empty and a missing counter is zero ----

  function ZsetAt(kv: Store, key: string): Zset {
    if key in kv && kv[key].SortedSetValue? then kv[key].zset else map[]
  }

  function CounterAt(kv: Store, key: string): int {
    if key in kv && kv[key].CounterValue? then kv[key].count else 0
  }

  function BucketAt(kv: Store, key: string): Bucket {
    if key in kv && kv[key].BucketValue? then Level(kv[key].level, kv[key].last) else Unset
  }

  function ConfigAt(kv: Store, key: string): Option<Config> {
    if key in kv && kv[key].ConfigValue? then Some(kv[key].config) else None
  }

  function PassAt(kv: Store, event: string, token: Token): Option<IssuedPass> {
    var key := PassKey(event, token);
    if key in kv && kv[key].PassValue? then Some(kv[key].pass) else None
  }

  // ---- Replies, and what the repository makes of them ----

  datatype JoinReply =
    | NoSuchEvent
    | Placed(seqno: int, joined: int, waiting: int, admitted: int, rate: int)

  datatype PositionReply =
    | UnknownEvent
    | UnknownToken
    | InLine(position: int, waiting: int, admitted: int, rate: int)
    | PassReady(pass: IssuedPass, waiting: int, admitted: int)

  datatype Bulk = Member(token: Token) | Score(score: int)

  datatype AdmitReply = NotConfigured | Admitted(count: int, total: int, members: seq<Bulk>)

  datatype AdmissionBatch = AdmissionBatch(tokens: seq<Token>, admittedTotal: int)

  function DecodeJoin(r: JoinReply): Option<JoinOutcome> {
    match r
    case NoSuchEvent => None
    case Placed(s, joined, waiting, admitted, rate) => Some(JoinOutcome(s, joined != 0, waiting, admitted, rate))
  }

  /** What a position reply shows; None where the repository raises. */
  function ShownPosition(r: PositionReply): Option<QueueState> {
    match r
    case UnknownEvent => None
    case UnknownToken => None
    case InLine(position, waiting, admitted, rate) =>
      Some(StateFromPosition(PositionOutcome(position, waiting, admitted, rate)))
    case PassReady(_, waiting, admitted) => Some(StateFromAdmission(waiting, admitted))
  }

  /** ZPOPMIN's flat reply: member, score, member, score, ... */
  function Flat(popped: seq<(Token, int)>): seq<Bulk> {
    if popped == [] then []
    else Flat(popped[..|popped| - 1]) + [Member(popped[|popped| - 1].0), Score(popped[|popped| - 1].1)]
  }

  function EveryOther(members: seq<Bulk>): seq<Bulk> {
    seq((|members| + 1) / 2, i requires 0 <= i < (|members| + 1) / 2 => members[2 * i])
  }

  /** None where the repository returns None or its assertion on the count fails. */
  function DecodeAdmit(r: AdmitReply): Option<AdmissionBatch> {
    match r
    case NotConfigured => None
    case Admitted(count, total, members) =>
      var every := EveryOther(members);
      if |every| != count || exists i | 0 <= i < |every| :: every[i].Score? then None
      else Some(AdmissionBatch(seq(|every|, i requires 0 <= i < |every| => every[i].token), total))
  }

  lemma {:induction false} FlatAlternates(popped: seq<(Token, int)>)
    ensures |Flat(popped)| == 2 * |popped|
    ensures forall i | 0 <= i < |popped| :: Flat(popped)[2 * i] == Member(popped[i].0)
  {
    if popped != [] {
      FlatAlternates(popped[..|popped| - 1]);
    }
  }

  /** Decoding a flat pop reply gives back the tokens in arrival order if the reported count is theirs,
      and the assertion fails otherwise. */
  lemma {:induction false} DecodeInvertsFlat(popped: seq<(Token, int)>, tokens: seq<Token>, count: int, total: int)
    requires |tokens| == |popped| && forall i | 0 <= i < |popped| :: popped[i].0 == tokens[i]
    ensures DecodeAdmit(Admitted(count, total, Flat(popped)))
         == if count == |popped| then Some(AdmissionBatch(tokens, total)) else None
  {
    FlatAlternates(popped);
    var every := EveryOther(Flat(popped));
    assert forall i | 0 <= i < |every| :: every[i] == Member(tokens[i]);
    assert seq(|every|, i requires 0 <= i < |every| => every[i].token) == tokens;
  }

  // ---- position.lua ----

  function PositionScript(kv: Store, event: string, token: Token): PositionReply {
    var config := ConfigAt(kv, ConfigKey(event));
    var zset := ZsetAt(kv, QueueKey(event));
    var admitted := CounterAt(kv, AdmittedKey(event));
    if config.None? then UnknownEvent
    else if token !in zset then
      match PassAt(kv, event, token)
      case Some(pass) => PassReady(pass, |zset|, admitted)
      case None => UnknownToken
    else InLine(ZRank(zset, token) + 1, |zset|, admitted, config.value.rate)
  }

  // ---- What the keys of an event stand for ----

  ghost function LogAt(logs: map<string, seq<Token>>, event: string): seq<Token> {
    if event in logs then logs[event] else []
  }

  /** The five keys hold values of their own types. */
  ghost predicate Typed(kv: Store, event: string) {
    && (QueueKey(event) in kv ==> kv[QueueKey(event)].SortedSetValue?)
    && (SeqKey(event) in kv ==> kv[SeqKey(event)].CounterValue?)
    && (AdmittedKey(event) in kv ==> kv[AdmittedKey(event)].CounterValue?)
    && (BucketKey(event) in kv ==> kv[BucketKey(event)].BucketValue?)
    && (ConfigKey(event) in kv ==> kv[ConfigKey(event)].ConfigValue?)
  }

  ghost predicate EventOk(kv: Store, logs: map<string, seq<Token>>, event: string) {
    && Typed(kv, event)
    && Holds(ZsetAt(kv, QueueKey(event)), LogAt(logs, event), CounterAt(kv, AdmittedKey(event)))
    && CounterAt(kv, SeqKey(event)) == |LogAt(logs, event)|
  }

  ghost function QueueAt(kv: Store, logs: map<string, seq<Token>>, event: string): Queue
    requires EventOk(kv, logs, event)
  {
    QueueData(LogAt(logs, event), CounterAt(kv, AdmittedKey(event)),
              BucketAt(kv, BucketKey(event)), ConfigAt(kv, ConfigKey(event)))
  }

  predicate SameAt(kv: Store, kv': Store, key: string) {
    (key in kv <==> key in kv') && (key in kv ==> kv[key] == kv'[key])
  }

  /** Only keys of `event` may differ. */
  ghost predicate OnlyTouches(kv: Store, kv': Store, event: string) {
    forall k | !Mine(event, k) :: SameAt(kv, kv', k)
  }

  lemma {:induction false} OtherEventUntouched(kv: Store, kv': Store, logs: map<string, seq<Token>>,
        logs': map<string, seq<Token>>, event: string, other: string)
    requires NoColon(event) && NoColon(other) && event != other
    requires OnlyTouches(kv, kv', event) && LogAt(logs, other) == LogAt(logs', other)
    requires EventOk(kv, logs, other)
    ensures EventOk(kv', logs', other) && QueueAt(kv', logs', other) == QueueAt(kv, logs, other)
    ensures forall t :: PassAt(kv', other, t) == PassAt(kv, other, t)
  {
    EventsApart(event, other);
    forall s ensures SameAt(kv, kv', Key(other, s)) {
    }
  }

  /** A waiter is exactly a token in the log after the cut. */
  lemma {:induction false} MembersAreWaiting(kv: Store, logs: map<string, seq<Token>>, event: string, t: Token)
    requires EventOk(kv, logs, event)
    ensures var q, z := QueueAt(kv, logs, event), ZsetAt(kv, QueueKey(event));
            && (t in z <==> t in Waiting(q))
            && |z| == |Waiting(q)|
            && (t in z ==> q.admitted < z[t] <= |q.log| && q.log[z[t] - 1] == t)
  {
    var q, z := QueueAt(kv, logs, event), ZsetAt(kv, QueueKey(event));
    CardIsWaiting(z, q.log, q.admitted);
    if t in z {
      assert Waiting(q)[z[t] - 1 - q.admitted] == t;
    }
    if t in Waiting(q) {
      var i :| 0 <= i < |Waiting(q)| && Waiting(q)[i] == t;
      assert q.log[q.admitted + i] == t;
    }
  }

  /** What position.lua answers, in terms of the log: the true position to a waiter, the pass to
      whoever has left the queue and has one, and nothing to anybody else. */
  lemma {:induction false} PositionIsAuthoritative(kv: Store, logs: map<string, seq<Token>>, event: string, t: Token)
    requires EventOk(kv, logs, event)
    ensures var q, r := QueueAt(kv, logs, event), PositionScript(kv, event, t);
            && (r.UnknownEvent? <==> q.config.None?)
            && (r.InLine? <==> q.config.Some? && t in Waiting(q))
            && (r.InLine? ==>
                  && r.waiting == |Waiting(q)| && r.admitted == q.admitted && r.rate == q.config.value.rate
                  && 1 <= r.position <= |Waiting(q)| && Waiting(q)[r.position - 1] == t)
            && (r.PassReady? <==> q.config.Some? && t !in Waiting(q) && PassAt(kv, event, t).Some?)
            && (r.PassReady? ==> Some(r.pass) == PassAt(kv, event, t))
  {
    var q, z := QueueAt(kv, logs, event), ZsetAt(kv, QueueKey(event));
    MembersAreWaiting(kv, logs, event, t);
    if t in z {
      RankIsArithmetic(z, q.log, q.admitted, t);
    }
  }

  /** What the position endpoint shows is true of the queue: a waiter sees their own place and, unless
      the drop is paused, the estimate for it; someone let in sees place 0 and no estimate. */
  lemma {:induction false} ShownIsTrue(kv: Store, logs: map<string, seq<Token>>, event: string, t: Token)
    requires EventOk(kv, logs, event) && ShownPosition(PositionScript(kv, event, t)).Some?
    ensures var q, shown := QueueAt(kv, logs, event), ShownPosition(PositionScript(kv, event, t)).value;
            && shown.totalWaiting == |Waiting(q)| && shown.admittedTotal == q.admitted
            && 0 <= shown.position <= |Waiting(q)|
            && (shown.phase.InQueue? <==> t in Waiting(q))
            && (shown.phase.InQueue? <==> shown.position > 0)
            && (shown.position > 0 ==> Waiting(q)[shown.position - 1] == t)
            && (shown.etaSeconds.Some? <==> shown.position > 0 && Running(q))
            && (shown.etaSeconds.Some? ==>
                  var eta, rate := shown.etaSeconds.value, q.config.value.rate;
                  rate * (eta - 1) < 60 * shown.position <= rate * eta)
  {
    hide ZRank, Holds, EtaSecondsFor;
    PositionIsAuthoritative(kv, logs, event, t);
    MembersAreWaiting(kv, logs, event, t);
  }

  /** The subtraction on two integers equals the counted rank for every waiter, and its clamp at 1
      never fires: both builders show the waiter the same state. */
  lemma {:induction false} FastPositionIsExact(kv: Store, logs: map<string, seq<Token>>, event: string,
        t: Token, joined: bool)
    requires EventOk(kv, logs, event) && ConfigAt(kv, ConfigKey(event)).Some? && t in ZsetAt(kv, QueueKey(event))
    ensures var z, admitted := ZsetAt(kv, QueueKey(event)), CounterAt(kv, AdmittedKey(event));
            && PositionFrom(z[t], admitted) == z[t] - admitted == ZRank(z, t) + 1
            && ShownPosition(PositionScript(kv, event, t))
               == Some(StateFrom(JoinOutcome(z[t], joined, |z|, admitted, ConfigAt(kv, ConfigKey(event)).value.rate)))
  {
    var q, z := QueueAt(kv, logs, event), ZsetAt(kv, QueueKey(event));
    RankIsArithmetic(z, q.log, q.admitted, t);
  }

  ghost predicate PassesSame(kv: Store, kv': Store, event: string) {
    forall t :: PassAt(kv', event, t) == PassAt(kv, event, t)
  }

  /** The writes join.lua makes for a new waiter append to the log. */
  lemma {:induction false} PlacingAppends(kv: Store, kv': Store, logs: map<string, seq<Token>>,
        logs': map<string, seq<Token>>, event: string, t: Token)
    requires NoColon(event) && EventOk(kv, logs, event) && t !in ZsetAt(kv, QueueKey(event))
    requires var seqno := CounterAt(kv, SeqKey(event)) + 1;
             kv' == kv[SeqKey(event) := CounterValue(seqno)]
                      [QueueKey(event) := SortedSetValue(ZsetAt(kv, QueueKey(event))[t := seqno])]
    requires logs' == logs[event := LogAt(logs, event) + [t]]
    ensures EventOk(kv', logs', event) && OnlyTouches(kv, kv', event) && PassesSame(kv, kv', event)
    ensures QueueAt(kv', logs', event) == QueueAt(kv, logs, event).(log := LogAt(logs, event) + [t])
  {
    hide Key, Mine, Holds;
    KeysApart(event);
    var q := QueueAt(kv, logs, event);
    AddAppends(ZsetAt(kv, QueueKey(event)), q.log, q.admitted, t);
  }

  /** The writes admit_batch.lua makes after popping n waiters move the cut. */
  lemma {:induction false} PoppingMovesCut(kv: Store, kv': Store, logs: map<string, seq<Token>>, event: string,
        bucket: Value, n: nat, rest: Zset)
    requires NoColon(event) && EventOk(kv, logs, event) && bucket.BucketValue?
    requires Holds(rest, LogAt(logs, event), CounterAt(kv, AdmittedKey(event)) + n)
    requires kv' == (if rest == map[] then kv[BucketKey(event) := bucket] - {QueueKey(event)}
                     else kv[BucketKey(event) := bucket][QueueKey(event) := SortedSetValue(rest)])
                    [AdmittedKey(event) := CounterValue(CounterAt(kv, AdmittedKey(event)) + n)]
    ensures EventOk(kv', logs, event) && OnlyTouches(kv, kv', event) && PassesSame(kv, kv', event)
    ensures var q := QueueAt(kv, logs, event);
            QueueAt(kv', logs, event)
            == QueueData(q.log, q.admitted + n, Level(bucket.level, bucket.last), q.config)
  {
    hide Key, Mine, Holds;
    KeysApart(event);
  }

  /** What ZPOPMIN replied is what the tick releases, once decoded. */
  lemma {:induction false} PopDecodes(q: Queue, z: Zset, popped: seq<(Token, int)>, rest: Zset, total: int)
    requires Holds(z, q.log, q.admitted)
    requires InOrder(z, popped) && AllBefore(z, popped, rest) && |popped| <= |q.log| - q.admitted
    ensures Holds(rest, q.log, q.admitted + |popped|)
    ensures DecodeAdmit(Admitted(|popped|, total, Flat(popped)))
         == Some(AdmissionBatch(q.log[q.admitted..q.admitted + |popped|], total))
  {
    hide Holds, InOrder, AllBefore, DecodeAdmit;
    PopIsFront(z, q.log, q.admitted, popped, rest);
    DecodeInvertsFlat(popped, q.log[q.admitted..q.admitted + |popped|], |popped|, total);
  }

  /** The write admit_batch.lua makes when it releases nobody. */
  lemma {:induction false} BankingKeepsWaiters(kv: Store, kv': Store, logs: map<string, seq<Token>>,
        event: string, bucket: Value)
    requires NoColon(event) && EventOk(kv, logs, event) && bucket.BucketValue?
    requires kv' == kv[BucketKey(event) := bucket]
    ensures EventOk(kv', logs, event) && OnlyTouches(kv, kv', event) && PassesSame(kv, kv', event)
    ensures QueueAt(kv', logs, event) == QueueAt(kv, logs, event).(bucket := Level(bucket.level, bucket.last))
  {
    hide Key, Mine, Holds;
    KeysApart(event);
  }

  lemma {:induction false} EmptyBatch(total: int)
    ensures DecodeAdmit(Admitted(0, total, [])) == Some(AdmissionBatch([], total))
  {
    DecodeInvertsFlat([], [], 0, total);
  }

  /** The arithmetic of admit_batch.lua: refill, then the three ceilings. */
  method TakeTokens(cfg: Config, bucket: Bucket, waiting: nat, now: int) returns (n: int, left: int)
    ensures n == Grant(cfg, bucket, waiting, now)
    ensures UNIT * n + left == Refill(cfg, bucket, now)
  {
    var tokens, lastRefill := UNIT * cfg.burst, now;
    if bucket.Level? {
      tokens, lastRefill := bucket.level, bucket.last;
    }
    var elapsed := now - lastRefill;
    if elapsed < 0 {
      elapsed := 0;
    }
    tokens := Min(UNIT * cfg.burst, tokens + cfg.rate * elapsed);
    n := tokens / UNIT;
    if n > cfg.batchMax {
      n := cfg.batchMax;
    }
    if n > waiting {
      n := waiting;
    }
    left := tokens - UNIT * n;
  }

  /** Taking n tokens and leaving `left` is the tick of the model. */
  lemma {:induction false} TakenIsTick(q: Queue, now: int, n: int, left: int)
    requires Running(q)
    requires n == Grant(q.config.value, q.bucket, |q.log| - q.admitted, now)
    requires UNIT * n + left == Refill(q.config.value, q.bucket, now)
    ensures var released := if n <= 0 then 0 else n;
            && Tick(q, now) == QueueData(q.log, q.admitted + released, Level(left, now), q.config)
            && Batch(q, Admit(now)) == q.log[q.admitted..q.admitted + released]
  {
  }

  lemma {:induction false} PausedIsIdle(q: Queue, now: int)
    requires !Running(q)
    ensures Tick(q, now) == q && Batch(q, Admit(now)) == []
  {
  }

  /** What a holder finds after a list of passes was recorded: the last one of their own, if any. */
  function NewestPass(before: Option<IssuedPass>, passes: seq<IssuedPass>, t: Token): Option<IssuedPass> {
    if passes == [] then before
    else if passes[|passes| - 1].token == t then Some(passes[|passes| - 1])
    else NewestPass(before, passes[..|passes| - 1], t)
  }

  predicate NoneFor(passes: seq<IssuedPass>, t: Token) {
    forall i | 0 <= i < |passes| :: passes[i].token != t
  }

  predicate IsLastFor(passes: seq<IssuedPass>, i: int) {
    0 <= i < |passes| && forall j | i < j < |passes| :: passes[j].token != passes[i].token
  }

  lemma {:induction false} NewestOfNone(before: Option<IssuedPass>, passes: seq<IssuedPass>, t: Token)
    requires NoneFor(passes, t)
    ensures NewestPass(before, passes, t) == before
  {
    if passes != [] {
      NewestOfNone(before, passes[..|passes| - 1], t);
    }
  }

  lemma {:induction false} NewestIsLast(before: Option<IssuedPass>, passes: seq<IssuedPass>, i: int)
    requires IsLastFor(passes, i)
    ensures NewestPass(before, passes, passes[i].token) == Some(passes[i])
  {
    if i < |passes| - 1 {
      var fewer := passes[..|passes| - 1];
      assert fewer[i] == passes[i];
      NewestIsLast(before, fewer, i);
    }
  }

  /** A join reply is right about the queue, and shows what the position endpoint would show. */
  ghost predicate ToldRight(r: JoinReply, q: Queue, token: Token, shown: Option<QueueState>)
    requires r.Placed?
  {
    var o := DecodeJoin(r).value;
    && q.admitted < o.sequence <= |q.log| && q.log[o.sequence - 1] == token
    && o.totalWaiting == |Waiting(q)| && o.admittedTotal == q.admitted
    && q.config.Some? && o.ratePerMin == q.config.value.rate
    && Some(StateFrom(o)) == shown
  }

  lemma {:induction false} JoinIsToldRight(kv: Store, logs: map<string, seq<Token>>, event: string,
        token: Token, joined: int)
    requires EventOk(kv, logs, event) && ConfigAt(kv, ConfigKey(event)).Some? && token in ZsetAt(kv, QueueKey(event))
    ensures var z := ZsetAt(kv, QueueKey(event));
            ToldRight(Placed(z[token], joined, |z|, CounterAt(kv, AdmittedKey(event)),
                             ConfigAt(kv, ConfigKey(event)).value.rate),
                      QueueAt(kv, logs, event), token, ShownPosition(PositionScript(kv, event, token)))
  {
    hide ZRank, Holds, PositionScript, StateFrom, Key;
    MembersAreWaiting(kv, logs, event, token);
    FastPositionIsExact(kv, logs, event, token, joined != 0);
  }

  class Redis {
    var kv: Store
    ghost var logs: map<string, seq<Token>>

    ghost predicate Valid()
      reads this
    {
      forall e | NoColon(e) :: EventOk(kv, logs, e)
    }

    /** The queue an event's keys stand for. */
    ghost function Abs(event: string): Queue
      reads this
      requires Valid() && NoColon(event)
    {
      QueueAt(kv, logs, event)
    }

    twostate predicate OthersUnchanged(event: string)
      reads this
      requires old(Valid()) && Valid()
    {
      forall other | NoColon(other) && other != event ::
        Abs(other) == old(Abs(other)) && forall t :: PassAt(kv, other, t) == PassAt(old(kv), other, t)
    }

    twostate predicate PassesUnchanged(event: string)
      reads this
    {
      forall t :: PassAt(kv, event, t) == PassAt(old(kv), event, t)
    }

    twostate lemma {:induction false} Framed(event: string)
      requires old(Valid()) && NoColon(event)
      requires EventOk(kv, logs, event)
      requires OnlyTouches(old(kv), kv, event)
      requires forall other | other != event :: LogAt(logs, other) == LogAt(old(logs), other)
      ensures Valid() && OthersUnchanged(event)
    {
      forall other | NoColon(other) && other != event
        ensures EventOk(kv, logs, other) && QueueAt(kv, logs, other) == QueueAt(old(kv), old(logs), other)
        ensures forall t :: PassAt(kv, other, t) == PassAt(old(kv), other, t)
      {
        OtherEventUntouched(old(kv), kv, old(logs), logs, event, other);
      }
    }

    constructor ()
      ensures Valid() && kv == map[]
      ensures forall e | NoColon(e) :: Abs(e) == QueueData([], 0, Unset, None)
    {
      kv, logs := map[], map[];
    }

    /** join.lua */
    method Join(event: string, token: Token) returns (r: JoinReply)
      requires Valid() && NoColon(event)
      modifies this
      ensures Valid() && OthersUnchanged(event) && PassesUnchanged(event)
      ensures Abs(event) == Step(old(Abs(event)), QueueModel.Join(token))
      ensures r.NoSuchEvent? <==> Abs(event).config.None?
      ensures r.NoSuchEvent? || token in old(Waiting(Abs(event))) ==> kv == old(kv)
      ensures r.Placed? && token !in old(Waiting(Abs(event))) ==>
        Abs(event) == old(Abs(event)).(log := old(Abs(event)).log + [token])
      ensures r.Placed? ==>
        && ToldRight(r, Abs(event), token, ShownPosition(PositionScript(kv, event, token)))
        && (DecodeJoin(r).value.joined <==> token !in old(Waiting(Abs(event))))
    {
      hide Key, Mine, Holds, PositionScript, PassAt, ToldRight, Tick;
      KeysApart(event);
      MembersAreWaiting(kv, logs, event, token);
      if ConfigKey(event) !in kv {
        r := NoSuchEvent;
        Framed(event);
        return;
      }
      var joined := 0;
      var seqno;
      var zset := ZsetAt(kv, QueueKey(event));
      if token in zset {
        seqno := zset[token];
      } else {
        seqno := CounterAt(kv, SeqKey(event)) + 1;
        kv := kv[SeqKey(event) := CounterValue(seqno)];
        kv := kv[QueueKey(event) := SortedSetValue(zset[token := seqno])];
        logs := logs[event := LogAt(logs, event) + [token]];
        joined := 1;
        PlacingAppends(old(kv), kv, old(logs), logs, event, token);
      }
      Framed(event);
      JoinIsToldRight(kv, logs, event, token, joined);
      r := Placed(seqno, joined, |ZsetAt(kv, QueueKey(event))|, CounterAt(kv, AdmittedKey(event)),
                  kv[ConfigKey(event)].config.rate);
    }

    /** admit_batch.lua */
    method AdmitBatch(event: string, now: int) returns (r: AdmitReply)
      requires Valid() && NoColon(event)
      modifies this
      ensures Valid() && OthersUnchanged(event) && PassesUnchanged(event)
      ensures Abs(event) == Step(old(Abs(event)), Admit(now))
      ensures r.NotConfigured? <==> Abs(event).config.None?
      ensures !Running(old(Abs(event))) ==> kv == old(kv)
      ensures r.Admitted? ==>
        DecodeAdmit(r) == Some(AdmissionBatch(Batch(old(Abs(event)), Admit(now)), Abs(event).admitted))
    {
      hide Key, Mine, Holds, PassAt, DecodeAdmit, InOrder, AllBefore, Refill, Grant, Tick, Batch;
      KeysApart(event);
      if ConfigKey(event) !in kv {
        r := NotConfigured;
        PausedIsIdle(Abs(event), now);
        Framed(event);
        return;
      }
      var cfg := kv[ConfigKey(event)].config;
      ghost var q := Abs(event);
      if cfg.rate <= 0 {
        r := Admitted(0, CounterAt(kv, AdmittedKey(event)), []);
        EmptyBatch(r.total);
        PausedIsIdle(q, now);
        Framed(event);
        return;
      }
      var zset := ZsetAt(kv, QueueKey(event));
      var n, left := TakeTokens(cfg, BucketAt(kv, BucketKey(event)), |zset|, now);
      CardIsWaiting(zset, q.log, q.admitted);
      TakenIsTick(q, now, n, left);
      var bucket := BucketValue(left, now);
      kv := kv[BucketKey(event) := bucket];
      if n <= 0 {
        r := Admitted(0, CounterAt(kv, AdmittedKey(event)), []);
        BankingKeepsWaiters(old(kv), kv, logs, event, bucket);
        EmptyBatch(r.total);
        Framed(event);
        return;
      }
      var popped, rest := ZPopMin(zset, n);
      kv := if rest == map[] then kv - {QueueKey(event)} else kv[QueueKey(event) := SortedSetValue(rest)];
      var total := CounterAt(kv, AdmittedKey(event)) + n;
      kv := kv[AdmittedKey(event) := CounterValue(total)];
      r := Admitted(n, total, Flat(popped));
      PopDecodes(q, zset, popped, rest, total);
      PoppingMovesCut(old(kv), kv, logs, event, bucket, n, rest);
      Framed(event);
    }

    /** HSET of the config hash, by create_event. */
    method Configure(event: string, config: Config)
      requires Valid() && NoColon(event)
      modifies this
      ensures Valid() && OthersUnchanged(event) && PassesUnchanged(event)
      ensures Abs(event) == Step(old(Abs(event)), QueueModel.Configure(config))
      ensures Abs(event) == old(Abs(event)).(config := Some(config))
    {
      hide Key, Mine;
      KeysApart(event);
      kv := kv[ConfigKey(event) := ConfigValue(config)];
      Framed(event);
    }

    /** The DEL that create_event --reset issues before it writes the config. */
    method Reset(event: string)
      requires Valid() && NoColon(event)
      modifies this
      ensures Valid() && OthersUnchanged(event) && PassesUnchanged(event)
      ensures Abs(event) == Step(old(Abs(event)), QueueModel.Reset)
      ensures Abs(event) == QueueData([], 0, Unset, old(Abs(event)).config)
    {
      hide Key, Mine;
      KeysApart(event);
      kv := kv - {QueueKey(event), SeqKey(event), AdmittedKey(event), BucketKey(event)};
      logs := logs[event := []];
      Framed(event);
    }

    /** record_admissions: park each pass under its holder's key. */
    method RecordAdmissions(event: string, passes: seq<IssuedPass>)
      requires Valid() && NoColon(event)
      modifies this
      ensures Valid() && OthersUnchanged(event)
      ensures Abs(event) == old(Abs(event))
      ensures forall t :: PassAt(kv, event, t) == NewestPass(PassAt(old(kv), event, t), passes, t)
      ensures forall t | NoneFor(passes, t) :: PassAt(kv, event, t) == PassAt(old(kv), event, t)
      ensures forall i | 0 <= i < |passes| && IsLastFor(passes, i) ::
        PassAt(kv, event, passes[i].token) == Some(passes[i])
    {
      hide Key, Mine, Holds, NoneFor, IsLastFor;
      KeysApart(event);
      Framed(event);
      var i := 0;
      while i < |passes|
        invariant 0 <= i <= |passes|
        invariant Valid() && OthersUnchanged(event) && Abs(event) == old(Abs(event))
        invariant OnlyTouches(old(kv), kv, event) && logs == old(logs)
        invariant forall t :: PassAt(kv, event, t) == NewestPass(PassAt(old(kv), event, t), passes[..i], t)
      {
        kv := kv[PassKey(event, passes[i].token) := PassValue(passes[i])];
        assert passes[..i + 1][..i] == passes[..i];
        Framed(event);
        i := i + 1;
      }
      assert passes[..i] == passes;
      hide PassAt, NewestPass;
      forall t | NoneFor(passes, t) ensures PassAt(kv, event, t) == PassAt(old(kv), event, t) {
        NewestOfNone(PassAt(old(kv), event, t), passes, t);
      }
      forall j | 0 <= j < |passes| && IsLastFor(passes, j)
        ensures PassAt(kv, event, passes[j].token) == Some(passes[j])
      {
        NewestIsLast(PassAt(old(kv), event, passes[j].token), passes, j);
      }
    }

    /** Redis drops a pass key when its TTL runs out. */
    method Expire(event: string, token: Token)
      requires Valid() && NoColon(event)
      modifies this
      ensures Valid() && OthersUnchanged(event) && Abs(event) == old(Abs(event))
      ensures forall t :: PassAt(kv, event, t) == if t == token then None else PassAt(old(kv), event, t)
    {
      hide Key, Mine;
      KeysApart(event);
      kv := kv - {PassKey(event, token)};
      Framed(event);
    }
  }
}
