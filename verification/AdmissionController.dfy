/** One admission tick that runs to its end: pop, sign, record. */
module AdmissionController {
  import opened Wrappers
  import opened EventKeys
  import opened SortedSet
  import opened QueueModel
  import opened PassIssuer
  import opened RedisStore

  lemma {:induction false} WaitersOnce(z: Zset, log: seq<Token>, cut: nat, i: nat, j: nat)
    requires Holds(z, log, cut) && cut <= i < |log| && cut <= j < |log|
    ensures log[i] == log[j] ==> i == j
  {
  }

  lemma {:induction false} UnconfiguredDecodesToNone()
    ensures DecodeAdmit(NotConfigured) == None
  {
  }

  class Controller {
    const redis: Redis
    const ttl: nat
    var nextJti: nat

    constructor (redis: Redis, ttl: nat)
      ensures this.redis == redis && this.ttl == ttl && nextJti == 0
    {
      this.redis, this.ttl, nextJti := redis, ttl, 0;
    }

    /** None stands for UnknownEventError. */
    method AdmitOnce(event: string, now: int) returns (r: Option<seq<IssuedPass>>)
      requires redis.Valid() && NoColon(event)
      modifies this, redis
      ensures redis.Valid() && redis.OthersUnchanged(event)
      ensures redis.Abs(event) == Step(old(redis.Abs(event)), Admit(now))
      ensures r.None? <==> redis.Abs(event).config.None?
      ensures r.Some? ==>
        && r.value == IssueBatch(event, Batch(old(redis.Abs(event)), Admit(now)), now, ttl, old(nextJti))
        && nextJti == old(nextJti) + |r.value|
        && forall i | 0 <= i < |r.value| ::
             PositionScript(redis.kv, event, r.value[i].token)
             == PassReady(r.value[i], |Waiting(redis.Abs(event))|, redis.Abs(event).admitted)
      ensures r.Some? ==>
        && (forall i | 0 <= i < |r.value| :: old(nextJti) <= r.value[i].jti < nextJti)
        && (forall i, j | 0 <= i < j < |r.value| :: r.value[i].jti != r.value[j].jti)
      ensures r.None? ==> nextJti == old(nextJti)
      ensures var passes := if r.Some? then r.value else [];
        forall t | NoneFor(passes, t) :: PassAt(redis.kv, event, t) == PassAt(old(redis.kv), event, t)
    {
      hide Key, Tick, Holds, PositionScript, PassAt, NewestPass, DecodeAdmit, NoneFor, IsLastFor;
      ghost var q := redis.Abs(event);
      ghost var zset := ZsetAt(redis.kv, QueueKey(event));
      var reply := redis.AdmitBatch(event, now);
      var batch := DecodeAdmit(reply);
      UnconfiguredDecodesToNone();
      TickKeepsLog(q, now);
      if batch.None? {
        r := None;
        return;
      }
      var tokens := batch.value.tokens;
      if tokens == [] {
        r := Some([]);
        assert IssueBatch(event, [], now, ttl, nextJti) == [];
        return;
      }
      var passes := IssueBatch(event, tokens, now, ttl, nextJti);
      JtisAreFresh(event, tokens, now, ttl, nextJti);
      nextJti := nextJti + |passes|;
      redis.RecordAdmissions(event, passes);
      r := Some(passes);
      forall i | 0 <= i < |passes|
        ensures PositionScript(redis.kv, event, passes[i].token)
             == PassReady(passes[i], |Waiting(redis.Abs(event))|, redis.Abs(event).admitted)
      {
        ReleasedSeePass(redis.kv, redis.logs, event, zset, q, Tick(q, now), passes, i);
      }
    }
  }

  /** A waiter who was just popped and whose pass was recorded is told so, not "unknown". */
  lemma {:induction false} ReleasedSeePass(kv: Store, logs: map<string, seq<Token>>, event: string, zset: Zset,
        was: Queue, now: Queue, passes: seq<IssuedPass>, i: nat)
    requires EventOk(kv, logs, event) && QueueAt(kv, logs, event) == now && now.config.Some?
    requires Holds(zset, was.log, was.admitted)
    requires now.log == was.log && now.admitted == was.admitted + |passes|
    requires forall j | 0 <= j < |passes| :: passes[j].token == was.log[was.admitted + j]
    requires forall j | 0 <= j < |passes| && IsLastFor(passes, j) ::
      PassAt(kv, event, passes[j].token) == Some(passes[j])
    requires i < |passes|
    ensures PositionScript(kv, event, passes[i].token) == PassReady(passes[i], |Waiting(now)|, now.admitted)
  {
    var t := passes[i].token;
    forall j, k | 0 <= j < k < |passes| ensures passes[j].token != passes[k].token {
      WaitersOnce(zset, was.log, was.admitted, was.admitted + j, was.admitted + k);
    }
    assert IsLastFor(passes, i);
    MembersAreWaiting(kv, logs, event, t);
    forall k | now.admitted <= k < |now.log| ensures now.log[k] != t {
      WaitersOnce(zset, was.log, was.admitted, was.admitted + i, k);
    }
  }
}
