/** The order gate: circuit breaker, then rate limiter, then the reservation ledger. */
module RiskManager {
  import opened Types
  import OrderRateLimiter
  import DrawdownGuard
  import PM = PositionManager

  datatype Order = Order(symbol: string, quantity: real, price: real)

  datatype EvalResult = EvalResult(decision: RiskDecision, approvedQty: real, code: ErrorCode, reservationId: nat)

  /** What the gate needs to know of a reservation. */
  lemma ReserveShape(l: PM.Ledger, lim: PM.Limits, order: Order)
    ensures
      var (l', r) := PM.Reserve(l, lim, order.symbol, order.quantity, order.price);
      && r.id == l.nextReservation && l'.nextReservation == l.nextReservation + 1
      && (r.decision == Rejected <==> !r.approved)
      && (r.approved ==> r.code == NoError && l'.pending == l.pending[r.id := PM.Pending(order.symbol, r.reservedNotional, r.approvedQty)])
      && (!r.approved ==> r.approvedQty == 0.0 && r.code == PositionLimitHit && l'.pending == l.pending)
  {
  }

  class Gate {
    const positions: PM.Manager
    const guard: DrawdownGuard.CircuitBreaker
    const limiter: OrderRateLimiter.Limiter

    constructor (positions: PM.Manager, guard: DrawdownGuard.CircuitBreaker, limiter: OrderRateLimiter.Limiter)
      ensures this.positions == positions && this.guard == guard && this.limiter == limiter
    {
      this.positions, this.guard, this.limiter := positions, guard, limiter;
    }

    /** Reservation ids start at 1, so 0 can stand for "none". */
    ghost predicate Valid()
      reads this, positions
    {
      positions.nextReservationId > 0
    }

    /** A halted gate takes no token and reserves nothing; a refused token reserves
        nothing; and the result carries a reservation id, which is then the ledger's
        one new entry, exactly when the order was not rejected. */
    method EvaluateOrder(order: Order, nowNs: int, refillFails: bool, acquireFails: nat)
      returns (result: EvalResult)
      requires Valid()
      modifies positions, limiter`tokens, limiter`lastRefillNs
      ensures Valid()
      ensures guard.halted ==>
                && result == EvalResult(Rejected, 0.0, guard.haltReason, 0)
                && limiter.State() == old(limiter.State())
                && positions.State() == old(positions.State())
      ensures result.decision == Rejected <==> result.reservationId == 0
      ensures result.decision == Rejected ==>
                result.approvedQty == 0.0 && positions.pending == old(positions.pending)
      ensures result.decision != Rejected ==>
                && result.code == NoError
                && result.reservationId == old(positions.nextReservationId)
                && positions.pending.Keys == old(positions.pending.Keys) + {result.reservationId}
                && positions.pending[result.reservationId].symbol == order.symbol
                && positions.pending[result.reservationId].qty == result.approvedQty
                && (forall id <- old(positions.pending) :: id != result.reservationId ==>
                      positions.pending[id] == old(positions.pending)[id])
      ensures !guard.halted ==>
                var r := if refillFails then old(limiter.State())
                         else OrderRateLimiter.Refill(old(limiter.State()), limiter.maxRate, limiter.burstCapacity, nowNs);
                if r.tokens >= 1.0 && acquireFails < OrderRateLimiter.MAX_RETRIES
                then limiter.State() == r.(tokens := r.tokens - 1.0) && result.code != RateLimitHit
                else limiter.State() == r && result.code == RateLimitHit && positions.State() == old(positions.State())
      ensures !guard.halted && result.code != RateLimitHit ==>
                var (l, r) := PM.Reserve(old(positions.State()), positions.limits, order.symbol, order.quantity, order.price);
                && positions.State() == l
                && result.decision == r.decision && result.approvedQty == r.approvedQty && result.code == r.code
    {
      hide PM.Reserve, PM.Decide, OrderRateLimiter.Refill;
      ReserveShape(positions.State(), positions.limits, order);
      if guard.halted {
        return EvalResult(Rejected, 0.0, guard.haltReason, 0);
      }
      var acquired := limiter.TryAcquire(nowNs, refillFails, acquireFails);
      if !acquired {
        return EvalResult(Rejected, 0.0, RateLimitHit, 0);
      }
      var reservation := positions.ReserveNotional(order.symbol, order.quantity, order.price);
      result := EvalResult(reservation.decision, reservation.approvedQty, reservation.code,
                           if reservation.approved then reservation.id else 0);
    }
  }
}
