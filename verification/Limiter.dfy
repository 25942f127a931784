/**
  The resizable limiter as an object, used by one caller at a time. The semaphore
  is library code, assumed to be a counter of which an acquire that does not wait
  takes all of its units or none, and of which `forget` takes whatever is
  available up to the amount asked for. Waiting is a matter of the limiter protocol.
 */
module Limiters {
  import opened Machine

  class Limiter {
    /** Units in the semaphore. */
    var available: nat
    var limit: nat
    /** Units a shrink still owes because they were out with requests. */
    var debt: nat
    /** Units out with permits. */
    ghost var inFlight: nat
    var queueDepth: nat
    var queueMax: nat

    /**
      At rest the counters are a function of the ceiling and of what is in
      flight, whatever sequence of resizes led here.
     */
    ghost predicate Valid()
      reads this
    {
      available == Max(0, limit - inFlight) && debt == Max(0, inFlight - limit)
    }

    constructor (limit: nat, queueMax: nat)
      ensures Valid() && this.limit == limit && inFlight == 0
      ensures this.queueMax == queueMax && queueDepth == 0
    {
      available, this.limit, debt, inFlight := limit, limit, 0, 0;
      queueDepth, this.queueMax := 0, queueMax;
    }

    method Forget(n: nat) returns (forgotten: nat)
      modifies this`available
      ensures forgotten == Min(old(available), n) && available == old(available) - forgotten
    {
      forgotten := Min(available, n);
      available := available - forgotten;
    }

    /** Move the ceiling without disturbing requests in flight. */
    method Resize(newLimit: nat)
      requires Valid()
      modifies this`available, this`limit, this`debt
      ensures Valid() && limit == newLimit
    {
      var before := limit;
      limit := newLimit;
      if newLimit > before {
        var grant := newLimit - before;
        var cancelled := Min(debt, grant);
        debt := debt - cancelled;
        grant := grant - cancelled;
        available := available + grant;
      } else if newLimit < before {
        var owed := before - newLimit;
        var forgotten := Forget(owed);
        if forgotten < owed {
          debt := debt + (owed - forgotten);
        }
      }
    }

    /** The fast path of `acquire`: a weight of zero counts as one. */
    method TryAcquire(weight: nat) returns (ok: bool)
      requires Valid()
      modifies this`available, this`inFlight
      ensures Valid()
      ensures ok <==> old(inFlight) + Max(weight, 1) <= limit
      ensures inFlight == old(inFlight) + (if ok then Max(weight, 1) else 0)
    {
      var units := Max(weight, 1);
      if available >= units {
        available := available - units;
        inFlight := inFlight + units;
        return true;
      }
      return false;
    }

    /** A permit of `units` comes back: it settles debt first and returns the rest. */
    method Return(units: nat)
      requires Valid() && units <= inFlight
      modifies this`available, this`debt, this`inFlight
      ensures Valid() && inFlight == old(inFlight) - units
    {
      var absorbed := Min(debt, units);
      debt := debt - absorbed;
      inFlight := inFlight - units;
      if absorbed == units {
      } else if absorbed > 0 {
        available := available + (units - absorbed);
      } else {
        available := available + units;
      }
    }

    /** Take a queue slot, or refuse at once when the queue is absent or full. */
    method EnterQueue() returns (refused: bool)
      modifies this`queueDepth
      ensures refused <==> old(queueDepth) >= queueMax
      ensures queueDepth == old(queueDepth) + (if refused then 0 else 1)
    {
      if queueMax == 0 {
        return true;
      }
      var depth := queueDepth;
      queueDepth := queueDepth + 1;
      if depth >= queueMax {
        queueDepth := queueDepth - 1;
        return true;
      }
      return false;
    }

    method SetQueue(max: nat)
      modifies this`queueMax
      ensures queueMax == max
    {
      queueMax := max;
    }
  }
}
