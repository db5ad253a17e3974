/**
 * The order-tracking view: a fixed four-step display sequence, the step the
 * displayed status stands at, and the rule by which its timer advances the
 * displayed status one step at a time.
 */
module OrderTracking {
  import opened Arrays
  import opened Types

  const StatusSteps: seq<OrderStatus> := [Confirmed, Preparing, OutForDelivery, Delivered]

  /** Whether a step holds status `s`. */
  function StepIs(s: OrderStatus): OrderStatus -> bool {
    (x: OrderStatus) => x == s
  }

  /** The first step holding the status, or -1 for a status outside the sequence. */
  function StepIndex(s: OrderStatus): int {
    FindIndex(StatusSteps, StepIs(s))
  }

  /**
   * The status after one timer tick: delivered stays delivered, each other
   * step moves to the next, and a status outside the sequence restarts at
   * confirmed.
   */
  function NextStatus(s: OrderStatus): OrderStatus {
    match s
    case Confirmed => Preparing
    case Preparing => OutForDelivery
    case OutForDelivery => Delivered
    case Delivered => Delivered
    case _ => Confirmed
  }

  /** The status after `n` ticks. */
  function Advance(s: OrderStatus, n: nat): OrderStatus
    decreases n
  {
    if n == 0 then s else Advance(NextStatus(s), n - 1)
  }

  predicate IsCompleted(index: int, current: OrderStatus) {
    index <= StepIndex(current)
  }

  predicate IsCurrent(index: int, current: OrderStatus) {
    index == StepIndex(current)
  }

  /** The position of each status in the step sequence, written out, or -1. */
  function StepPosition(s: OrderStatus): int {
    match s
    case Confirmed => 0
    case Preparing => 1
    case OutForDelivery => 2
    case Delivered => 3
    case _ => -1
  }

  /**
   * The step index is the status's position in the sequence, or -1 exactly
   * when it is not there (pending, ready, picked up, cancelled).
   */
  lemma StepIndexSpec(s: OrderStatus)
    ensures StepIndex(s) == StepPosition(s)
    ensures -1 <= StepIndex(s) < |StatusSteps|
    ensures 0 <= StepIndex(s) ==> StatusSteps[StepIndex(s)] == s
    ensures StepIndex(s) == -1 <==> s !in StatusSteps
    ensures s == Pending || s == Ready || s == PickedUp || s == Cancelled ==> StepIndex(s) == -1
  {
    assert StatusSteps == [Confirmed, Preparing, OutForDelivery, Delivered];
  }

  /** Every tick from a status other than delivered raises the step index by exactly one. */
  lemma NextRaisesIndex(s: OrderStatus)
    requires s != Delivered
    ensures StepIndex(NextStatus(s)) == StepIndex(s) + 1
  {
    StepIndexSpec(s);
    StepIndexSpec(NextStatus(s));
  }

  lemma {:induction false} AdvancePosition(s: OrderStatus, n: nat)
    requires 0 <= StepPosition(s) && StepPosition(s) + n <= 3
    ensures StepPosition(Advance(s, n)) == StepPosition(s) + n
    decreases n
  {
    if n > 0 {
      AdvancePosition(NextStatus(s), n - 1);
    }
  }

  /** Ticking from a step advances the index by the number of ticks, up to the last step. */
  lemma AdvanceIndex(s: OrderStatus, n: nat)
    requires 0 <= StepIndex(s) && StepIndex(s) + n < |StatusSteps|
    ensures StepIndex(Advance(s, n)) == StepIndex(s) + n
  {
    StepIndexSpec(s);
    StepIndexSpec(Advance(s, n));
    AdvancePosition(s, n);
  }

  /** Delivered never advances. */
  lemma {:induction false} DeliveredIsFinal(n: nat)
    ensures Advance(Delivered, n) == Delivered
  {
    if n > 0 {
      DeliveredIsFinal(n - 1);
    }
  }

  /** From confirmed, delivered is reached after exactly three ticks and not before. */
  lemma ConfirmedDeliveredInThree()
    ensures Advance(Confirmed, 3) == Delivered
    ensures forall n :: 0 <= n < 3 ==> Advance(Confirmed, n) != Delivered
  {
    forall n | 0 <= n < 3
      ensures Advance(Confirmed, n) != Delivered
    {
      AdvanceIndex(Confirmed, n);
      StepIndexSpec(Delivered);
    }
  }

  /** Whatever status the view starts from, four ticks reach delivered. */
  lemma {:induction false} EveryStatusDeliveredInFour(s: OrderStatus)
    ensures Advance(s, 4) == Delivered
  {
    var t := NextStatus(s);
    assert Advance(s, 4) == Advance(t, 3);
    if t == Delivered {
      DeliveredIsFinal(3);
    } else {
      NextRaisesIndex(s);
      assert Advance(t, 3) == Advance(NextStatus(t), 2);
      if NextStatus(t) == Delivered {
        DeliveredIsFinal(2);
      } else if NextStatus(NextStatus(t)) == Delivered {
        DeliveredIsFinal(1);
      }
    }
  }

  /**
   * The timeline flags: the completed steps are a prefix ending at the
   * current one, and at most one step is current.
   */
  lemma StepFlags(current: OrderStatus)
    ensures forall i, j :: 0 <= i <= j < |StatusSteps| && IsCompleted(j, current) ==> IsCompleted(i, current)
    ensures forall i, j :: IsCurrent(i, current) && IsCurrent(j, current) ==> i == j
    ensures forall i :: IsCurrent(i, current) ==> IsCompleted(i, current)
    ensures current in StatusSteps <==> exists i :: 0 <= i < |StatusSteps| && IsCurrent(i, current)
  {
    StepIndexSpec(current);
    if current in StatusSteps {
      assert IsCurrent(StepIndex(current), current);
    }
  }

  /** The view's displayed status, which its timer overwrites. */
  class Tracker {
    var currentStatus: OrderStatus

    /** The view starts from the order's own status. */
    constructor (order: Order)
      ensures currentStatus == order.status
    {
      currentStatus := order.status;
    }

    function CurrentStepIndex(): (i: int)
      reads this
      ensures -1 <= i < |StatusSteps|
      ensures 0 <= i ==> StatusSteps[i] == currentStatus
      ensures i == -1 <==> currentStatus !in StatusSteps
    {
      StepIndexSpec(currentStatus);
      StepIndex(currentStatus)
    }

    /** One timer firing: nothing once delivered, otherwise the step after the current index. */
    method Tick()
      modifies this
      ensures currentStatus == NextStatus(old(currentStatus))
    {
      if currentStatus == Delivered {
        return;
      }
      var nextIndex := StepIndex(currentStatus) + 1;
      StepIndexSpec(currentStatus);
      StepIndexSpec(NextStatus(currentStatus));
      if nextIndex < |StatusSteps| {
        currentStatus := StatusSteps[nextIndex];
      }
    }
  }
}
