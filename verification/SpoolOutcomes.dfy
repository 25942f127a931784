/** When a spool goes on holding, and why it stops, told by the bytes offered to it. */
module SpoolOutcomes {
  import opened Machine
  import opened Options
  import opened Spools

  /** Bytes offered by the first `k` offers. */
  function Fed(offers: seq<Offer>, k: nat): nat
    requires k <= |offers|
  {
    |Concat(Chunks(offers[..k]))|
  }

  /** The buffer once the first `k` offers have been made. */
  function After(maxBody: nat, offers: seq<Offer>, k: nat): Buffer
    requires k <= |offers|
  {
    Replay(Empty(maxBody), offers[..k]).0
  }

  predicate Active(maxBody: nat, offers: seq<Offer>, k: nat)
    requires k <= |offers|
  {
    After(maxBody, offers, k).outcome.None?
  }

  // ---- One offer, told by what has been fed ------------------------------

  lemma FedNext(offers: seq<Offer>, k: nat)
    requires k < |offers|
    ensures Fed(offers, k + 1) == Fed(offers, k) + |Payload(offers[k].chunk)|
  {
    assert offers[..k + 1][..k] == offers[..k];
    ConcatPush(Chunks(offers[..k]), offers[k].chunk);
  }

  lemma AfterNext(maxBody: nat, offers: seq<Offer>, k: nat)
    requires k < |offers|
    ensures After(maxBody, offers, k + 1)
         == Offered(After(maxBody, offers, k), offers[k].chunk, offers[k].eos, offers[k].granted).0
  {
    assert offers[..k + 1][..k] == offers[..k];
  }

  lemma ActiveHolds(maxBody: nat, offers: seq<Offer>, k: nat)
    requires k <= |offers| && Active(maxBody, offers, k)
    ensures |After(maxBody, offers, k).held| == Fed(offers, k)
    ensures After(maxBody, offers, k).maxBody == maxBody
  {
    StreamPreserved(maxBody, offers[..k]);
    MaxBodyKept(maxBody, offers[..k]);
  }

  lemma {:induction false} MaxBodyKept(maxBody: nat, offers: seq<Offer>)
    ensures Replay(Empty(maxBody), offers).0.maxBody == maxBody
    decreases |offers|
  {
    if offers != [] {
      MaxBodyKept(maxBody, offers[..|offers| - 1]);
    }
  }

  /** Why an offer ends a spool that holds `fed` bytes, if it does. */
  lemma OfferOutcome(b: Buffer, chunk: Option<Bytes>, eos: bool, granted: bool)
    requires b.outcome.None? && |b.held| <= b.maxBody && b.reserved <= b.maxBody
    ensures var fed := |b.held| + |Payload(chunk)|;
            var bytes := |Payload(chunk)| > 0;
            Offered(b, chunk, eos, granted).0.outcome
            == if fed > b.maxBody then Some(BodyTooLarge)
               else if bytes && fed > b.reserved && !granted then Some(BudgetExhausted)
               else if eos then Some(Complete)
               else None
  {
    ClaimPositive(b, |b.held| + |Payload(chunk)|);
  }

  lemma ClaimPositive(b: Buffer, needed: nat)
    requires b.reserved <= b.maxBody
    ensures needed <= b.maxBody ==> (Claim(b, needed) > 0 <==> needed > b.reserved)
  {
    if b.reserved < needed <= b.maxBody {
      assert SatAdd(needed - b.reserved, RESERVE_STEP - 1) >= RESERVE_STEP;
      AtLeastOneStep(SatAdd(needed - b.reserved, RESERVE_STEP - 1));
    }
  }

  lemma AtLeastOneStep(n: nat)
    requires n >= RESERVE_STEP
    ensures n / RESERVE_STEP * RESERVE_STEP >= RESERVE_STEP
  {}

  // ---- Whole bodies ------------------------------------------------------

  /** The `k`th offer takes an active spool past its body limit. */
  predicate TooLargeAt(maxBody: nat, offers: seq<Offer>, k: nat)
    requires k < |offers|
  {
    Active(maxBody, offers, k) && Fed(offers, k + 1) > maxBody
  }

  /** It fits, but more of the shared budget is needed and refused. */
  predicate RefusedAt(maxBody: nat, offers: seq<Offer>, k: nat)
    requires k < |offers|
  {
    && Active(maxBody, offers, k) && Fed(offers, k + 1) <= maxBody
    && Payload(offers[k].chunk) != [] && Fed(offers, k + 1) > After(maxBody, offers, k).reserved
    && !offers[k].granted
  }

  /** It fits, nothing is refused, and it is the end. */
  predicate EndsAt(maxBody: nat, offers: seq<Offer>, k: nat)
    requires k < |offers|
  {
    && Active(maxBody, offers, k) && Fed(offers, k + 1) <= maxBody
    && !RefusedAt(maxBody, offers, k) && offers[k].eos
  }

  function WhyAt(maxBody: nat, offers: seq<Offer>, k: nat): Option<Spools.Outcome>
    requires k < |offers|
  {
    if TooLargeAt(maxBody, offers, k) then Some(BodyTooLarge)
    else if RefusedAt(maxBody, offers, k) then Some(BudgetExhausted)
    else if EndsAt(maxBody, offers, k) then Some(Complete)
    else None
  }

  lemma ReservedWithin(maxBody: nat, offers: seq<Offer>, k: nat)
    requires k <= |offers|
    ensures After(maxBody, offers, k).reserved <= maxBody
  {
    ReplayReserved(maxBody, offers[..k]);
  }

  lemma {:induction false} ReplayReserved(maxBody: nat, offers: seq<Offer>)
    ensures Replay(Empty(maxBody), offers).0.reserved <= maxBody
    decreases |offers|
  {
    if offers != [] {
      var n := |offers| - 1;
      ReplayReserved(maxBody, offers[..n]);
      MaxBodyKept(maxBody, offers[..n]);
    }
  }

  lemma {:induction false} FedWithin(maxBody: nat, offers: seq<Offer>, k: nat)
    requires k <= |offers| && Active(maxBody, offers, k)
    ensures Fed(offers, k) <= maxBody
    decreases k
  {
    if k > 0 {
      AfterNext(maxBody, offers, k - 1);
      FedNext(offers, k - 1);
      ActiveBefore(maxBody, offers, k - 1);
      FedWithin(maxBody, offers, k - 1);
      ActiveHolds(maxBody, offers, k - 1);
      ReservedWithin(maxBody, offers, k - 1);
      var o := offers[k - 1];
      OfferOutcome(After(maxBody, offers, k - 1), o.chunk, o.eos, o.granted);
    }
  }

  /** Once stopped, a spool stays stopped, for the same reason. */
  lemma ActiveBefore(maxBody: nat, offers: seq<Offer>, k: nat)
    requires k < |offers|
    ensures Active(maxBody, offers, k + 1) ==> Active(maxBody, offers, k)
    ensures !Active(maxBody, offers, k) ==>
              After(maxBody, offers, k + 1).outcome == After(maxBody, offers, k).outcome
  {
    AfterNext(maxBody, offers, k);
  }

  /** An active spool is stopped by its next offer exactly for the reason that holds then, or not at all. */
  lemma StopsFor(maxBody: nat, offers: seq<Offer>, k: nat)
    requires k < |offers| && Active(maxBody, offers, k)
    ensures After(maxBody, offers, k + 1).outcome == WhyAt(maxBody, offers, k)
  {
    FedWithin(maxBody, offers, k);
    FedNext(offers, k);
    ActiveHolds(maxBody, offers, k);
    ReservedWithin(maxBody, offers, k);
    AfterNext(maxBody, offers, k);
    OfferOutcome(After(maxBody, offers, k), offers[k].chunk, offers[k].eos, offers[k].granted);
  }

  ghost predicate SomeTime(maxBody: nat, offers: seq<Offer>, n: nat, why: Spools.Outcome)
    requires n <= |offers|
  {
    exists k :: 0 <= k < n && WhyAt(maxBody, offers, k) == Some(why)
  }

  /** A spool has stopped for a reason exactly if the reason held at one of its offers. */
  lemma {:induction false} StoppedIff(maxBody: nat, offers: seq<Offer>, n: nat, why: Spools.Outcome)
    requires n <= |offers|
    ensures After(maxBody, offers, n).outcome == Some(why) <==> SomeTime(maxBody, offers, n, why)
    decreases n
  {
    if n > 0 {
      StoppedIff(maxBody, offers, n - 1, why);
      ActiveBefore(maxBody, offers, n - 1);
      if Active(maxBody, offers, n - 1) {
        StopsFor(maxBody, offers, n - 1);
      }
      SomeTimeNext(maxBody, offers, n - 1, why);
    }
  }

  lemma SomeTimeNext(maxBody: nat, offers: seq<Offer>, n: nat, why: Spools.Outcome)
    requires n < |offers|
    ensures SomeTime(maxBody, offers, n + 1, why)
       <==> SomeTime(maxBody, offers, n, why) || WhyAt(maxBody, offers, n) == Some(why)
  {}

  function Outcome(maxBody: nat, offers: seq<Offer>): Option<Spools.Outcome> {
    Replay(Empty(maxBody), offers).0.outcome
  }

  lemma OutcomeAfter(maxBody: nat, offers: seq<Offer>)
    ensures Outcome(maxBody, offers) == After(maxBody, offers, |offers|).outcome
  {
    assert offers[..|offers|] == offers;
  }

  /** A spool gives up as too large exactly if an offer took it past its body limit while it was active. */
  lemma TooLargeIff(maxBody: nat, offers: seq<Offer>)
    ensures Outcome(maxBody, offers) == Some(BodyTooLarge)
       <==> exists k :: 0 <= k < |offers| && TooLargeAt(maxBody, offers, k)
  {
    OutcomeAfter(maxBody, offers);
    StoppedIff(maxBody, offers, |offers|, BodyTooLarge);
    assert forall k :: 0 <= k < |offers| ==>
        (WhyAt(maxBody, offers, k) == Some(BodyTooLarge) <==> TooLargeAt(maxBody, offers, k));
  }

  /** It gives up for want of budget exactly if a claim it needed was refused while it was active. */
  lemma ExhaustedIff(maxBody: nat, offers: seq<Offer>)
    ensures Outcome(maxBody, offers) == Some(BudgetExhausted)
       <==> exists k :: 0 <= k < |offers| && RefusedAt(maxBody, offers, k)
  {
    OutcomeAfter(maxBody, offers);
    StoppedIff(maxBody, offers, |offers|, BudgetExhausted);
    assert forall k :: 0 <= k < |offers| ==>
        (WhyAt(maxBody, offers, k) == Some(BudgetExhausted) <==> RefusedAt(maxBody, offers, k));
  }

  /** It completes exactly if the end came while it was active, with everything fitting and nothing refused. */
  lemma CompleteIff(maxBody: nat, offers: seq<Offer>)
    ensures Outcome(maxBody, offers) == Some(Complete)
       <==> exists k :: 0 <= k < |offers| && EndsAt(maxBody, offers, k)
  {
    OutcomeAfter(maxBody, offers);
    StoppedIff(maxBody, offers, |offers|, Complete);
    assert forall k :: 0 <= k < |offers| ==>
        (WhyAt(maxBody, offers, k) == Some(Complete) <==> EndsAt(maxBody, offers, k));
  }

  /** A body that has not ended, fits, and is refused nothing is held back whole. */
  lemma {:induction false} HoldsWhileItFits(maxBody: nat, offers: seq<Offer>)
    requires |Concat(Chunks(offers))| <= maxBody
    requires forall i :: 0 <= i < |offers| ==> !offers[i].eos && offers[i].granted
    ensures var (b, outs) := Replay(Empty(maxBody), offers);
            && b.outcome.None? && b.held == Concat(Chunks(offers))
            && forall i :: 0 <= i < |outs| ==> outs[i].None?
    decreases |offers|
  {
    StreamPreserved(maxBody, offers);
    if offers != [] {
      var n := |offers| - 1;
      assert offers[..|offers|] == offers;
      FedNext(offers, n);
      HoldsWhileItFits(maxBody, offers[..n]);
      StopsFor(maxBody, offers, n);
    }
  }
}
