/** What one tick owes the waiters: it releases as many as its three ceilings allow, and it loses
    nothing of what the bucket was credited except above the cap. Also what a reset does. */
module TickLaws {
  import opened Wrappers
  import opened WaiterState
  import opened SortedSet
  import opened QueueModel
  import opened RateBounds

  /** x waiters may go: they are there, fit in one batch, and the credited bucket pays for them. */
  predicate Allowed(q: Queue, now: int, x: int)
    requires Running(q)
  {
    && x <= |Waiting(q)| && x <= q.config.value.batchMax
    && UNIT * x <= LevelOf(q.bucket) + Credit(q, Admit(now))
    && x <= q.config.value.burst
  }

  /** A tick releases the largest number allowed. */
  lemma {:induction false} TickIsGreedy(q: Queue, now: int)
    requires Sound(q) && Running(q)
    ensures Allowed(q, now, Popped(q, Admit(now)))
    ensures forall x | Allowed(q, now, x) :: x <= Popped(q, Admit(now))
  {
    TickLaw(q, now);
  }

  /** So it never holds anyone back without a reason: nobody is left, the batch is full, or less than a
      whole token remains. */
  lemma {:induction false} NobodyHeldBack(q: Queue, now: int)
    requires Sound(q) && Running(q)
    ensures var n := Popped(q, Admit(now));
      n == |Waiting(q)| || n == q.config.value.batchMax || LevelOf(Tick(q, now).bucket) < UNIT
  {
    TickLaw(q, now);
  }

  /** What a tick leaves in the bucket and what it releases add up to what was there and what was
      credited, cut off at the cap. In particular a clock that went backwards takes no token away. */
  lemma {:induction false} TickBalances(q: Queue, now: int)
    requires Sound(q) && Running(q)
    ensures UNIT * Popped(q, Admit(now)) + LevelOf(Tick(q, now).bucket)
         == Min(UNIT * q.config.value.burst, LevelOf(q.bucket) + Credit(q, Admit(now)))
    ensures Tick(q, now).bucket.Level? && Tick(q, now).bucket.last == now
  {
    TickLaw(q, now);
  }

  /** No tick finds more credited than the bucket can hold. */
  ghost predicate Unclipped(q: Queue, es: seq<Event>, i: nat, k: nat) {
    forall m | i <= m < k <= |es| && es[m].Admit? && Running(At(q, es, m)) ::
      LevelOf(At(q, es, m).bucket) + Credit(At(q, es, m), es[m]) <= UNIT * At(q, es, m).config.value.burst
  }

  /** Nothing is wasted: where SpendingIsPaidFor says no more is released than was credited, this says
      no less, through pauses, config changes and clocks that jump either way. */
  lemma {:induction false} NothingIsWasted(q: Queue, es: seq<Event>, i: nat, k: nat)
    requires Sound(q) && SaneEvents(es) && NoReset(es) && i <= k <= |es| && Unclipped(q, es, i, k)
    ensures UNIT * Admissions(q, es, i, k) + LevelOf(At(q, es, k).bucket)
         == LevelOf(At(q, es, i).bucket) + Credits(q, es, i, k)
    decreases k - i
  {
    hide Tick, Credit, Popped;
    if i < k {
      NothingIsWasted(q, es, i, k - 1);
      RunsAreSound(q, es, k - 1);
      StepBalances(At(q, es, k - 1), es[k - 1]);
    }
  }

  lemma {:induction false} StepBalances(q: Queue, e: Event)
    requires Sound(q) && !e.Reset?
    requires e.Admit? && Running(q) ==> LevelOf(q.bucket) + Credit(q, e) <= UNIT * q.config.value.burst
    ensures UNIT * Popped(q, e) + LevelOf(Step(q, e).bucket) == LevelOf(q.bucket) + Credit(q, e)
  {
    if e.Admit? && Running(q) {
      TickBalances(q, e.now);
    }
  }

  // ---- Reset ----

  function JoinAll(names: seq<Token>): seq<Event> {
    seq(|names|, i requires 0 <= i < |names| => Join(names[i]))
  }

  /** After a reset, sequences start again at 1 for whoever joins, on the config that was in force. */
  lemma {:induction false} ResetStartsOver(q: Queue, names: seq<Token>, k: nat)
    requires q.config.Some? && NoDuplicates(names) && k <= |names|
    ensures At(q, [Reset] + JoinAll(names), 1 + k) == QueueData(names[..k], 0, Unset, q.config)
  {
    var es := [Reset] + JoinAll(names);
    if k == 0 {
      assert At(q, es, 0) == q;
    } else {
      ResetStartsOver(q, names, k - 1);
      assert es[k] == Join(names[k - 1]);
      var before: Queue := QueueData(names[..k - 1], 0, Unset, q.config);
      assert Waiting(before) == names[..k - 1];
      assert names[k - 1] !in names[..k - 1];
      assert names[..k] == names[..k - 1] + [names[k - 1]];
    }
  }

  lemma {:induction false} OpeningTick(c: Config, names: seq<Token>, now: int)
    requires Sane(c) && 0 < c.rate
    ensures var start, n := QueueData(names, 0, Unset, Some(c)), Min(|names|, Min(c.batchMax, c.burst));
      Tick(start, now).admitted == n && Batch(start, Admit(now)) == names[..n]
  {
    TickLaw(QueueData(names, 0, Unset, Some(c)), now);
  }

  /** A reset reopens the drop: whatever the bucket held before, the first tick after it releases a full
      burst, as far as the batch limit and the new arrivals allow, in their order of arrival. */
  lemma {:induction false} ResetReopens(q: Queue, names: seq<Token>, now: int)
    requires q.config.Some? && Sane(q.config.value) && 0 < q.config.value.rate && NoDuplicates(names)
    ensures var c, es := q.config.value, [Reset] + JoinAll(names) + [Admit(now)];
      var n := Min(|names|, Min(c.batchMax, c.burst));
      && At(q, es, |es|).admitted == n
      && Batch(At(q, es, 1 + |names|), Admit(now)) == names[..n]
  {
    hide Tick, Batch;
    var es := [Reset] + JoinAll(names);
    ResetStartsOver(q, names, |names|);
    assert names[..|names|] == names;
    PrefixDecides(q, es, es + [Admit(now)], 1 + |names|);
    assert (es + [Admit(now)])[1 + |names|] == Admit(now);
    OpeningTick(q.config.value, names, now);
  }
}
