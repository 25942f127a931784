/** A bounded buffer that holds a response back until the origin has finished. */
module Spools {
  import opened Machine
  import opened Options

  const RESERVE_STEP: nat := 65536

  datatype Outcome = Complete | BodyTooLarge | BudgetExhausted

  /** One request's buffer; `outcome` is set once it has stopped absorbing. */
  datatype Buffer = Buffer(held: Bytes, reserved: nat, maxBody: nat, outcome: Option<Outcome>)

  function Empty(maxBody: nat): Buffer {
    Buffer([], 0, maxBody, None)
  }

  function Payload(chunk: Option<Bytes>): Bytes {
    if chunk.Some? then chunk.value else []
  }

  function NonEmpty(bytes: Bytes): Option<Bytes> {
    if bytes == [] then None else Some(bytes)
  }

  // ---- Specification of one offer ----------------------------------------

  /** How much more of the shared budget a buffer asks for, in whole steps unless its own ceiling is nearer. */
  function Claim(b: Buffer, needed: nat): nat {
    if needed <= b.reserved then 0
    else Min(SatAdd(needed - b.reserved, RESERVE_STEP - 1) / RESERVE_STEP * RESERVE_STEP, SatSub(b.maxBody, b.reserved))
  }

  function Drained(b: Buffer, why: Outcome): Buffer {
    b.(held := [], outcome := Some(why))
  }

  predicate Fits(b: Buffer, bytes: Bytes) {
    |b.held| + |bytes| <= b.maxBody
  }

  function Absorbed(b: Buffer, bytes: Bytes): Buffer {
    b.(held := b.held + bytes, reserved := b.reserved + Claim(b, |b.held| + |bytes|))
  }

  function Finished(b: Buffer, eos: bool): (Buffer, Option<Bytes>) {
    if eos then (Drained(b, Complete), NonEmpty(b.held)) else (b, None)
  }

  /** What an offer leaves behind and sends on, given whether the shared budget granted its claim. */
  function Offered(b: Buffer, chunk: Option<Bytes>, eos: bool, granted: bool): (Buffer, Option<Bytes>) {
    var bytes := Payload(chunk);
    if b.outcome.Some? then (b, chunk)
    else if bytes == [] then Finished(b, eos)
    else if !Fits(b, bytes) then (Drained(b, BodyTooLarge), NonEmpty(b.held + bytes))
    else if Claim(b, |b.held| + |bytes|) > 0 && !granted then (Drained(b, BudgetExhausted), NonEmpty(b.held + bytes))
    else Finished(Absorbed(b, bytes), eos)
  }

  // ---- The buffer and its budget, updated in place -----------------------

  class SpoolBudget {
    const limit: nat
    var used: nat

    ghost predicate Valid()
      reads this
    {
      used <= limit <= WORD_MAX
    }

    constructor (limit: nat)
      requires limit <= WORD_MAX
      ensures Valid() && this.limit == limit && used == 0
    {
      this.limit := limit;
      used := 0;
    }

    /** A weak compare-and-swap, which may fail without cause. */
    method CompareExchangeWeak(expected: nat, next: nat, spurious: bool) returns (ok: bool, observed: nat)
      modifies this`used
      ensures observed == old(used) && ok == (observed == expected && !spurious)
      ensures used == if ok then next else old(used)
    {
      observed := used;
      ok := observed == expected && !spurious;
      if ok {
        used := next;
      }
    }

    /** Claim `bytes` or refuse, whatever number of spurious failures comes first; a refusal leaves no trace. */
    method Reserve(bytes: nat, failures: nat) returns (granted: bool)
      requires Valid()
      modifies this`used
      ensures Valid()
      ensures granted <==> old(used) + bytes <= limit
      ensures used == if granted then old(used) + bytes else old(used)
    {
      var seen, tries := used, 0;
      while true
        invariant seen == used == old(used) && tries <= failures
        decreases failures - tries
      {
        if seen + bytes > WORD_MAX || seen + bytes > limit {
          return false;
        }
        var ok, observed := CompareExchangeWeak(seen, seen + bytes, tries < failures);
        if ok {
          return true;
        }
        seen, tries := observed, tries + 1;
      }
    }

    method Release(bytes: nat)
      requires Valid() && bytes <= used
      modifies this`used
      ensures Valid() && used == old(used) - bytes
    {
      used := used - bytes;
    }
  }

  class Spool {
    const budget: SpoolBudget
    const maxBody: nat
    var buffer: Bytes
    var reserved: nat
    var gaveUp: Option<Outcome>

    function View(): Buffer
      reads this
    {
      Buffer(buffer, reserved, maxBody, gaveUp)
    }

    ghost predicate Valid()
      reads this, budget
    {
      budget.Valid() && reserved <= budget.used && reserved <= maxBody <= WORD_MAX && |buffer| <= maxBody
    }

    constructor (budget: SpoolBudget, maxBody: nat)
      requires budget.Valid() && maxBody <= WORD_MAX
      ensures Valid() && this.budget == budget && View() == Empty(maxBody)
    {
      this.budget, this.maxBody := budget, maxBody;
      buffer, reserved, gaveUp := [], 0, None;
    }

    method Offer(chunk: Option<Bytes>, eos: bool, failures: nat) returns (out: Option<Bytes>, ghost granted: bool)
      requires Valid()
      modifies this, budget`used
      ensures Valid()
      ensures granted <==> old(budget.used) + Claim(old(View()), |old(buffer)| + |Payload(chunk)|) <= budget.limit
      ensures (View(), out) == Offered(old(View()), chunk, eos, granted)
      ensures budget.used - old(budget.used) == reserved - old(reserved)
    {
      granted := budget.used + Claim(View(), |buffer| + |Payload(chunk)|) <= budget.limit;
      if gaveUp.Some? {
        return chunk, granted;
      }
      var incoming := if chunk.Some? then |chunk.value| else 0;
      if incoming > 0 {
        if |buffer| + incoming > maxBody {
          out := GiveUp(BodyTooLarge, chunk);
          return;
        }
        var ensured := EnsureReserved(|buffer| + incoming, failures);
        if !ensured {
          out := GiveUp(BudgetExhausted, chunk);
          return;
        }
        buffer := buffer + chunk.value;
      }
      if eos {
        gaveUp := Some(Complete);
        out := Drain();
        return;
      }
      return None, granted;
    }

    /** Everything buffered, then the chunk that did not fit. */
    method GiveUp(why: Outcome, chunk: Option<Bytes>) returns (out: Option<Bytes>)
      modifies this`buffer, this`gaveUp
      ensures View() == Drained(old(View()), why)
      ensures out == NonEmpty(old(buffer) + Payload(chunk))
    {
      gaveUp := Some(why);
      var drained := Drain();
      var all := Payload(drained);
      if chunk.Some? {
        all := all + chunk.value;
      }
      assert all == old(buffer) + Payload(chunk);
      out := if all == [] then None else Some(all);
    }

    /** Hand the buffer on, keeping the reservation. */
    method Drain() returns (out: Option<Bytes>)
      modifies this`buffer
      ensures buffer == [] && out == NonEmpty(old(buffer))
    {
      out := if buffer == [] then None else Some(buffer);
      buffer := [];
    }

    method EnsureReserved(needed: nat, failures: nat) returns (ok: bool)
      requires Valid() && needed <= maxBody
      modifies this`reserved, budget`used
      ensures Valid()
      ensures var claim := Claim(old(View()), needed);
              && (ok <==> claim == 0 || old(budget.used) + claim <= budget.limit)
              && reserved == old(reserved) + (if ok then claim else 0)
              && budget.used == old(budget.used) + (if ok then claim else 0)
    {
      if needed <= reserved {
        return true;
      }
      var unreserved := needed - reserved;
      var rounded := SatAdd(unreserved, RESERVE_STEP - 1) / RESERVE_STEP * RESERVE_STEP;
      var step := Min(rounded, SatSub(maxBody, reserved));
      var granted := budget.Reserve(step, failures);
      if !granted {
        return false;
      }
      reserved := reserved + step;
      return true;
    }

    /** The end of the request gives back everything it still holds. */
    method ReleaseAll()
      requires Valid()
      modifies this`reserved, budget`used
      ensures Valid() && reserved == 0
      ensures budget.used == old(budget.used) - old(reserved)
    {
      if reserved > 0 {
        budget.Release(reserved);
        reserved := 0;
      }
    }
  }

  // ---- Whole bodies ------------------------------------------------------

  datatype Offer = Offer(chunk: Option<Bytes>, eos: bool, granted: bool)

  /** The buffer after a sequence of offers, and what each one sent on. */
  function Replay(b: Buffer, offers: seq<Offer>): (r: (Buffer, seq<Option<Bytes>>))
    ensures |r.1| == |offers|
  {
    if offers == [] then (b, [])
    else
      var (mid, outs) := Replay(b, offers[..|offers| - 1]);
      var last := offers[|offers| - 1];
      var (end, out) := Offered(mid, last.chunk, last.eos, last.granted);
      (end, outs + [out])
  }

  function Concat(chunks: seq<Option<Bytes>>): Bytes {
    if chunks == [] then [] else Concat(chunks[..|chunks| - 1]) + Payload(chunks[|chunks| - 1])
  }

  function Chunks(offers: seq<Offer>): (r: seq<Option<Bytes>>)
    ensures |r| == |offers|
  {
    if offers == [] then [] else Chunks(offers[..|offers| - 1]) + [offers[|offers| - 1].chunk]
  }

  predicate Ended(offers: seq<Offer>) {
    exists i :: 0 <= i < |offers| && offers[i].eos
  }

  lemma ConcatPush(chunks: seq<Option<Bytes>>, last: Option<Bytes>)
    ensures Concat(chunks + [last]) == Concat(chunks) + Payload(last)
  {
    assert (chunks + [last])[..|chunks|] == chunks;
  }

  /** An active buffer holds everything fed; an inactive one has passed on everything fed. */
  predicate Balanced(b: Buffer, fed: Bytes, emitted: Bytes) {
    if b.outcome.None? then emitted == [] && b.held == fed else b.held == [] && emitted == fed
  }

  lemma OfferedBalances(b: Buffer, chunk: Option<Bytes>, eos: bool, granted: bool, fed: Bytes, emitted: Bytes)
    requires Balanced(b, fed, emitted)
    ensures var (after, out) := Offered(b, chunk, eos, granted);
            && Balanced(after, fed + Payload(chunk), emitted + Payload(out))
            && (after.outcome.None? ==> out.None?)
            && (eos || b.outcome.Some? ==> after.outcome.Some?)
  {
    assert Payload(NonEmpty(b.held)) == b.held;
    assert Payload(NonEmpty(b.held + Payload(chunk))) == b.held + Payload(chunk);
  }

  /** What has come out so far, given what went in. */
  ghost predicate Preserved(b: Buffer, outs: seq<Option<Bytes>>, offers: seq<Offer>) {
    && Balanced(b, Concat(Chunks(offers)), Concat(outs))
    && (b.outcome.None? ==> forall i :: 0 <= i < |outs| ==> outs[i].None?)
    && (Ended(offers) ==> b.outcome.Some? && Concat(outs) == Concat(Chunks(offers)))
  }

  /**
    However a body is cut into chunks and wherever the body limit or the shared
    budget runs out: nothing leaves while the spool is active, and once the body
    has ended the client has been sent exactly the bytes that were offered.
   */
  lemma {:induction false} StreamPreserved(maxBody: nat, offers: seq<Offer>)
    ensures var (b, outs) := Replay(Empty(maxBody), offers); Preserved(b, outs, offers)
    decreases |offers|
  {
    if offers != [] {
      StreamPreserved(maxBody, offers[..|offers| - 1]);
      var (mid, outs) := Replay(Empty(maxBody), offers[..|offers| - 1]);
      PreservedStep(mid, outs, offers);
    }
  }

  lemma PreservedStep(mid: Buffer, outs: seq<Option<Bytes>>, offers: seq<Offer>)
    requires offers != [] && Preserved(mid, outs, offers[..|offers| - 1])
    ensures var last := offers[|offers| - 1];
            var (end, out) := Offered(mid, last.chunk, last.eos, last.granted);
            Preserved(end, outs + [out], offers)
  {
    var before, last := offers[..|offers| - 1], offers[|offers| - 1];
    var (end, out) := Offered(mid, last.chunk, last.eos, last.granted);
    OfferedBalances(mid, last.chunk, last.eos, last.granted, Concat(Chunks(before)), Concat(outs));
    ConcatPush(outs, out);
    ConcatPush(Chunks(before), last.chunk);
    EndedBefore(offers);
  }

  lemma EndedBefore(offers: seq<Offer>)
    requires offers != []
    ensures Ended(offers) ==> Ended(offers[..|offers| - 1]) || offers[|offers| - 1].eos
  {
    if Ended(offers) && !offers[|offers| - 1].eos {
      var i :| 0 <= i < |offers| && offers[i].eos;
      assert offers[..|offers| - 1][i].eos;
    }
  }

  // ---- Rounding ----------------------------------------------------------

  /** The longest slice of memory there can be, and so the longest chunk. */
  const SLICE_MAX: nat := 0x7FFF_FFFF_FFFF_FFFF

  /** The buffer never outgrows its reservation, nor the reservation its ceiling. */
  predicate Covered(b: Buffer) {
    |b.held| <= b.reserved <= b.maxBody
  }

  lemma RoundUp(n: nat)
    ensures n <= (n + (RESERVE_STEP - 1)) / RESERVE_STEP * RESERVE_STEP
  {}

  /**
    A claim is in whole steps unless the body limit is nearer, and less than a step more than needed; it
    covers what it was made for exactly when rounding it up does not saturate.
   */
  lemma ClaimCoversIff(b: Buffer, needed: nat)
    requires b.reserved <= needed <= b.maxBody <= WORD_MAX
    ensures needed <= b.reserved + Claim(b, needed) <==> needed - b.reserved <= WORD_MAX - (RESERVE_STEP - 1)
    ensures b.reserved + Claim(b, needed) <= b.maxBody
    ensures Claim(b, needed) < needed - b.reserved + RESERVE_STEP
    ensures b.reserved + Claim(b, needed) == b.maxBody || Claim(b, needed) % RESERVE_STEP == 0
  {
    if needed > b.reserved {
      RoundUp(needed - b.reserved);
    }
  }

  /** It never does for a real chunk: whatever the body limit, a covered buffer stays covered. */
  lemma OfferedCovered(b: Buffer, chunk: Option<Bytes>, eos: bool, granted: bool)
    requires Covered(b) && b.maxBody <= WORD_MAX && |Payload(chunk)| <= SLICE_MAX
    ensures Covered(Offered(b, chunk, eos, granted).0)
  {
    if Fits(b, Payload(chunk)) {
      var needed := |b.held| + |Payload(chunk)|;
      if b.reserved <= needed {
        ClaimCoversIff(b, needed);
      }
    }
  }
}
