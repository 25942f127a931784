/** The origin-wide retry budget. */
module Retries {
  import opened Machine
  import opened Windows

  datatype Decision = Ineligible | AttemptsExhausted | BudgetExhausted | Allowed

  /** How many retries a window with this many origin requests may hold. */
  function Quota(total: nat, percent: nat, minimum: nat): nat {
    Max(SatMul(total, percent) / 100, minimum)
  }

  /** It is the percentage of them rounded down, or the floor if that is more; the product saturates. */
  lemma QuotaExact(total: nat, percent: nat, minimum: nat, q: nat)
    ensures q == Quota(total, percent, minimum)
       <==> var product := if total * percent <= WORD_MAX then total * percent else WORD_MAX;
            (100 * q <= product < 100 * q + 100 && q >= minimum) || (product < 100 * minimum && q == minimum)
  {}

  class RetryBudget {
    const enabled: bool
    const maxAttempts: nat
    const percent: nat
    const minimum: nat
    const window: RollingRatio

    ghost predicate Valid()
      reads this, window, window.buckets
    {
      window.Valid()
    }

    constructor (enabled: bool, maxAttempts: nat, percent: nat, minimum: nat, windowMs: nat)
      ensures Valid() && window.View() == Blanks() && fresh(window.buckets) && fresh(window)
      ensures (this.enabled, this.maxAttempts, this.percent, this.minimum) == (enabled, maxAttempts, percent, minimum)
    {
      this.enabled, this.maxAttempts, this.percent, this.minimum := enabled, maxAttempts, percent, minimum;
      window := new RollingRatio(windowMs);
    }

    method RecordAttempt(now: nat)
      requires Valid()
      modifies window.buckets, window`log
      ensures Valid()
      ensures window.View()
           == if enabled then Updated(old(window.View()), window.Epoch(now), Count(false)) else old(window.View())
    {
      if enabled {
        window.Record(now, false);
      }
    }

    method Allowance(now: nat) returns (n: nat)
      requires Valid()
      ensures n == Quota(Window(window.View(), window.Epoch(now)).total, percent, minimum)
    {
      var t := window.ReadTotals(now);
      n := Max(SatMul(t.total, percent) / 100, minimum);
    }

    /** An allowed charge is flagged and, itself included, within quota; a refused one leaves every counter as it was. */
    method Charge(now: nat, attemptsUsed: nat) returns (d: Decision)
      requires Valid()
      modifies window.buckets, window`log
      ensures Valid()
      ensures d.Ineligible? <==> !enabled
      ensures d.AttemptsExhausted? <==> enabled && attemptsUsed >= maxAttempts
      ensures d.Ineligible? || d.AttemptsExhausted? ==> window.View() == old(window.View())
      ensures var epoch := window.Epoch(now);
              var charged := Updated(old(window.View()), epoch, Flag);
              var fits := Window(charged, epoch).flagged <= Quota(Window(charged, epoch).total, percent, minimum);
              && (d.Allowed? ==> fits && window.View() == charged)
              && (d.BudgetExhausted? ==>
                    !fits && window.View() == old(window.View())[epoch % BUCKETS := Current(old(window.View()), epoch)])
    {
      if !enabled {
        return Ineligible;
      }
      if attemptsUsed >= maxAttempts {
        return AttemptsExhausted;
      }
      var spent := window.FlagOne(now);
      var quota := Allowance(now);
      if spent > quota {
        Refund(old(window.View()), window.Epoch(now));
        window.UnflagOne(now);
        return BudgetExhausted;
      }
      return Allowed;
    }
  }

  /** Flagging and giving back does no more than turn the bucket to the current epoch. */
  lemma Refund(ring: Ring, epoch: nat)
    ensures Updated(Updated(ring, epoch, Flag), epoch, Unflag) == ring[epoch % BUCKETS := Current(ring, epoch)]
  {}
}
