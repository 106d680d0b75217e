/** What a waiter is told: the arithmetic of core/state.py. */
module WaiterState {
  import opened Wrappers

  datatype Phase = InQueue | LetIn

  datatype JoinOutcome = JoinOutcome(sequence: int, joined: bool, totalWaiting: int, admittedTotal: int,
        ratePerMin: int)

  datatype PositionOutcome = PositionOutcome(position: int, totalWaiting: int, admittedTotal: int, ratePerMin: int)

  datatype QueueState = QueueState(position: int, totalWaiting: int, admittedTotal: int,
        etaSeconds: Option<int>, phase: Phase)

  function Max(a: int, b: int): int { if a < b then b else a }

  function Min(a: int, b: int): int { if a < b then a else b }

  function PositionFrom(sequence: int, admittedTotal: int): int {
    Max(1, sequence - admittedTotal)
  }

  /** The least whole number of seconds in which `position` waiters fit at the given rate. */
  function EtaSecondsFor(position: int, ratePerMin: int): (eta: Option<int>)
    ensures eta.None? <==> ratePerMin <= 0
    ensures eta.Some? ==> ratePerMin * (eta.value - 1) < 60 * position <= ratePerMin * eta.value
  {
    if ratePerMin <= 0 then None
    else
      CeilingBounds(position * 60, ratePerMin);
      Some(-((-(position * 60)) / ratePerMin))
  }

  lemma {:induction false} CeilingBounds(a: int, d: int)
    requires d > 0
    ensures var c := -((-a) / d); d * (c - 1) < a <= d * c
  {
  }

  function StateFrom(o: JoinOutcome): QueueState {
    var position := PositionFrom(o.sequence, o.admittedTotal);
    QueueState(position, o.totalWaiting, o.admittedTotal, EtaSecondsFor(position, o.ratePerMin), InQueue)
  }

  function StateFromPosition(o: PositionOutcome): QueueState {
    QueueState(o.position, o.totalWaiting, o.admittedTotal, EtaSecondsFor(o.position, o.ratePerMin), InQueue)
  }

  function StateFromAdmission(totalWaiting: int, admittedTotal: int): QueueState {
    QueueState(0, totalWaiting, admittedTotal, None, LetIn)
  }
}
