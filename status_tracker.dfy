/**
 * The order-status tracker (src/components/order-status-tracker.tsx): a
 * status that a timer moves one stage forward, and the stage list whose
 * entries up to the current status are drawn active.
 */
module StatusTracker {
  import opened Wrappers
  import opened Records
  import opened SeqUtil
  import CartStore

  /** The stages drawn, in order; `Completed` is not one of them. */
  const Statuses: seq<OrderStatus> := [New, Preparing, ReadyForPickup]

  /** `statuses.indexOf(status)`: -1 for a status that is not a stage. */
  function StageIndex(status: OrderStatus): (r: int)
    ensures r == -1 <==> status !in Statuses
    ensures 0 <= r ==> r < |Statuses| && Statuses[r] == status
  {
    IndexOf(Statuses, status)
  }

  /** Stage i is drawn active when `index <= currentStatusIndex`. */
  predicate IsActive(i: nat, current: OrderStatus) {
    i <= StageIndex(current)
  }

  /** The `isActive` flag of every stage: a stage is active once the order has reached it. */
  function ActiveStages(current: OrderStatus): (flags: seq<bool>)
    ensures |flags| == |Statuses|
    ensures forall i :: 0 <= i < |flags| ==> (flags[i] <==> current in Statuses[i..])
  {
    seq(|Statuses|, i requires 0 <= i < |Statuses| => IsActive(i, current))
  }

  /** The status the effect schedules a timer for, if any. */
  function Scheduled(current: OrderStatus): Option<OrderStatus> {
    if current == New then Some(Preparing)
    else if current == Preparing then Some(ReadyForPickup)
    else None
  }

  /** Status after `n` timer firings (a firing with no timer pending changes nothing). */
  function Run(status: OrderStatus, n: nat): OrderStatus
    decreases n
  {
    if n == 0 then status
    else
      match Scheduled(status)
      case None => status
      case Some(next) => Run(next, n - 1)
  }

  /** The timer moves exactly one stage forward, and only `Ready for Pickup` schedules nothing. */
  lemma ScheduledIsNextStage(status: OrderStatus)
    requires status in Statuses
    ensures Scheduled(status).None? <==> status == ReadyForPickup
    ensures Scheduled(status).Some? ==> StageIndex(Scheduled(status).value) == StageIndex(status) + 1
  {
  }

  /** The status never moves backward. */
  lemma {:induction false} RunMonotone(status: OrderStatus, m: nat, n: nat)
    requires status in Statuses && m <= n
    ensures Run(status, m) in Statuses
    ensures StageIndex(Run(status, m)) <= StageIndex(Run(status, n))
    decreases n
  {
    if n > 0 && Scheduled(status).Some? {
      var next := Scheduled(status).value;
      ScheduledIsNextStage(status);
      RunMonotone(next, if m > 0 then m - 1 else 0, n - 1);
    }
  }

  /** From any stage, two firings reach `Ready for Pickup`, and it stays there. */
  lemma {:induction false} RunReachesReady(status: OrderStatus, n: nat)
    requires status in Statuses && n >= 2
    ensures Run(status, n) == ReadyForPickup
    decreases n
  {
    match Scheduled(status)
    case None =>
    case Some(next) =>
      if n - 1 >= 2 {
        RunReachesReady(next, n - 1);
      } else {
        assert next == Preparing ==> Run(next, 1) == ReadyForPickup;
      }
  }

  /** The active stages are a prefix of the list: exactly the first `StageIndex(current) + 1`. */
  lemma ActiveIsPrefix(current: OrderStatus, i: nat, j: nat)
    requires j <= i && IsActive(i, current)
    ensures IsActive(j, current)
  {
  }

  /** A status that is not a stage (`Completed`) marks nothing active. */
  lemma UnrecognisedMarksNothing(current: OrderStatus)
    requires current !in Statuses
    ensures forall i: nat :: !IsActive(i, current)
    ensures ActiveStages(current) == [false, false, false]
  {
  }

  /** With `Preparing`, the first two stages are active and `Ready for Pickup` is not. */
  lemma PreparingStages()
    ensures ActiveStages(Preparing) == [true, true, false]
  {
  }

  class Tracker {
    var currentStatus: OrderStatus

    /** Mounting starts at `New` and clears the cart. */
    constructor (cart: CartStore.Cart)
      requires cart.Valid()
      modifies cart
      ensures currentStatus == New
      ensures cart.Valid() && cart.cartItems == []
      ensures cart.userPhone == old(cart.userPhone) && cart.cookie == old(cart.cookie) && cart.isLoadingUser == old(cart.isLoadingUser)
    {
      currentStatus := New;
      new;
      cart.ClearCart();
    }

    /** The pending timer fires: the status becomes the scheduled one. */
    method TimerFires()
      modifies this
      ensures currentStatus == Run(old(currentStatus), 1)
      ensures old(currentStatus) in Statuses ==> StageIndex(old(currentStatus)) <= StageIndex(currentStatus)
    {
      if currentStatus in Statuses {
        RunMonotone(currentStatus, 0, 1);
      }
      match Scheduled(currentStatus) {
        case None =>
        case Some(next) => currentStatus := next;
      }
    }
  }
}
