/** A ratio over a sliding window: a ring of ten buckets standing for a log of events. */
module Windows {
  import opened Machine

  const BUCKETS: nat := 10

  /** The counters of one slice of time, named by its epoch. */
  datatype Bucket = Bucket(epoch: nat, total: nat, flagged: nat)

  const BLANK: Bucket := Bucket(0, 0, 0)

  type Ring = r: seq<Bucket> | |r| == BUCKETS witness seq(BUCKETS, _ => BLANK)

  datatype Totals = Totals(total: nat, flagged: nat)

  function Add(a: Totals, b: Totals): Totals {
    Totals(a.total + b.total, a.flagged + b.flagged)
  }

  lemma AddAssociates(a: Totals, b: Totals, c: Totals)
    ensures Add(Add(a, b), c) == Add(a, Add(b, c))
  {}

  // ---- Specification of the ring -----------------------------------------

  /** The bucket an event of this epoch lands in, cleared if it belongs to another. */
  function Current(ring: Ring, epoch: nat): Bucket {
    var b := ring[epoch % BUCKETS];
    if b.epoch == epoch then b else Bucket(epoch, 0, 0)
  }

  datatype Event = Count(flagged: bool) | Flag | Unflag

  function Bumped(b: Bucket, e: Event): Bucket {
    match e
    case Count(flagged) => b.(total := b.total + 1, flagged := b.flagged + if flagged then 1 else 0)
    case Flag => b.(flagged := b.flagged + 1)
    case Unflag => b.(flagged := SatSub(b.flagged, 1))
  }

  function Updated(ring: Ring, epoch: nat, e: Event): Ring {
    ring[epoch % BUCKETS := Bumped(Current(ring, epoch), e)]
  }

  function Blanks(): Ring {
    seq(BUCKETS, _ => BLANK)
  }

  function Oldest(epoch: nat): nat {
    SatSub(epoch, BUCKETS - 1)
  }

  predicate Within(b: Bucket, epoch: nat) {
    Oldest(epoch) <= b.epoch <= epoch
  }

  function Share(b: Bucket, epoch: nat): Totals {
    if Within(b, epoch) then Totals(b.total, b.flagged) else Totals(0, 0)
  }

  /** What the first `n` buckets contribute to the window ending at `epoch`. */
  function Sum(ring: Ring, n: nat, epoch: nat): Totals
    requires n <= BUCKETS
  {
    if n == 0 then Totals(0, 0) else Add(Sum(ring, n - 1, epoch), Share(ring[n - 1], epoch))
  }

  /** `(total, flagged)` still inside the window ending at `epoch`. */
  function Window(ring: Ring, epoch: nat): Totals {
    Sum(ring, |ring|, epoch)
  }

  // ---- The ring, updated in place ----------------------------------------

  class RollingRatio {
    const bucketMs: nat
    const buckets: array<Bucket>
    /** Everything recorded so far. */
    ghost var log: seq<Entry>

    ghost predicate Shaped() {
      bucketMs > 0 && buckets.Length == BUCKETS
    }

    /** The buckets hold what the log leaves in them. */
    ghost predicate Valid()
      reads this, buckets
    {
      Shaped() && View() == Replay(log)
    }

    function Epoch(now: nat): nat
      requires Shaped()
    {
      now / bucketMs
    }

    ghost function View(): Ring
      requires Shaped()
      reads buckets
    {
      buckets[..]
    }

    constructor (windowMs: nat)
      ensures Valid() && fresh(buckets) && View() == Blanks() && log == []
      ensures bucketMs == Max(windowMs / BUCKETS, 1)
    {
      bucketMs := if windowMs / BUCKETS > 1 then windowMs / BUCKETS else 1;
      buckets := new Bucket[BUCKETS](_ => BLANK);
      log := [];
    }

    method Roll(now: nat) returns (i: nat)
      requires Shaped()
      modifies buckets
      ensures i == Epoch(now) % BUCKETS
      ensures View() == old(View())[i := Current(old(View()), Epoch(now))]
    {
      var epoch := now / bucketMs;
      i := epoch % BUCKETS;
      if buckets[i].epoch != epoch {
        buckets[i] := Bucket(epoch, 0, 0);
      }
    }

    method Record(now: nat, flagged: bool)
      requires Valid()
      modifies buckets, this`log
      ensures Valid() && log == old(log) + [At(Epoch(now), Count(flagged))]
      ensures View() == Updated(old(View()), Epoch(now), Count(flagged))
    {
      var i := Roll(now);
      buckets[i] := buckets[i].(total := buckets[i].total + 1);
      if flagged {
        buckets[i] := buckets[i].(flagged := buckets[i].flagged + 1);
      }
      ReplayPush(log, At(Epoch(now), Count(flagged)));
      log := log + [At(Epoch(now), Count(flagged))];
    }

    /** The flagged total this returns already includes the new flag. */
    method FlagOne(now: nat) returns (spent: nat)
      requires Valid()
      modifies buckets, this`log
      ensures Valid() && log == old(log) + [At(Epoch(now), Flag)]
      ensures View() == Updated(old(View()), Epoch(now), Flag)
      ensures spent == Window(View(), Epoch(now)).flagged
    {
      var i := Roll(now);
      buckets[i] := buckets[i].(flagged := buckets[i].flagged + 1);
      ReplayPush(log, At(Epoch(now), Flag));
      log := log + [At(Epoch(now), Flag)];
      var t := ReadTotals(now);
      spent := t.flagged;
    }

    method UnflagOne(now: nat)
      requires Valid()
      modifies buckets, this`log
      ensures Valid() && log == old(log) + [At(Epoch(now), Unflag)]
      ensures View() == Updated(old(View()), Epoch(now), Unflag)
    {
      var i := Roll(now);
      buckets[i] := buckets[i].(flagged := SatSub(buckets[i].flagged, 1));
      ReplayPush(log, At(Epoch(now), Unflag));
      log := log + [At(Epoch(now), Unflag)];
    }

    method ReadTotals(now: nat) returns (t: Totals)
      requires Valid()
      ensures t == Window(View(), Epoch(now))
    {
      var epoch := now / bucketMs;
      var oldest := SatSub(epoch, BUCKETS - 1);
      t := Totals(0, 0);
      for i := 0 to BUCKETS
        invariant t == Sum(View(), i, Epoch(now))
      {
        var b := buckets[i];
        if oldest <= b.epoch <= epoch {
          t := Totals(t.total + b.total, t.flagged + b.flagged);
        }
      }
    }

    method Reset()
      requires Valid()
      modifies buckets, this`log
      ensures Valid() && log == old(log) + [Forget] && View() == Blanks()
    {
      for i := 0 to BUCKETS
        invariant log == old(log) && forall j :: 0 <= j < i ==> buckets[j] == BLANK
      {
        buckets[i] := BLANK;
      }
      assert View() == Blanks();
      ReplayPush(log, Forget);
      log := log + [Forget];
    }
  }

  // ---- The log it stands for ---------------------------------------------

  datatype Entry = At(epoch: nat, event: Event) | Forget

  /** What the log holds for one epoch. */
  function Tally(log: seq<Entry>, epoch: nat): Totals {
    if log == [] then Totals(0, 0)
    else
      var before, last := Tally(log[..|log| - 1], epoch), log[|log| - 1];
      match last
      case Forget => Totals(0, 0)
      case At(e, event) =>
        if e != epoch then before
        else
          var b := Bumped(Bucket(epoch, before.total, before.flagged), event);
          Totals(b.total, b.flagged)
  }

  /** The tallies of epochs from `lo` up to but excluding `hi`. */
  function Span(log: seq<Entry>, lo: nat, hi: nat): Totals
    requires lo <= hi
    decreases hi
  {
    if lo == hi then Totals(0, 0) else Add(Span(log, lo, hi - 1), Tally(log, hi - 1))
  }

  function Latest(log: seq<Entry>): nat {
    if log == [] then 0
    else match log[|log| - 1]
         case Forget => Latest(log[..|log| - 1])
         case At(e, _) => e
  }

  /** A log written under a clock that never goes back. */
  predicate Monotone(log: seq<Entry>) {
    log == []
    || (Monotone(log[..|log| - 1])
        && (log[|log| - 1].At? ==> Latest(log[..|log| - 1]) <= log[|log| - 1].epoch))
  }

  /** The ring after the operations a log records. */
  function Replay(log: seq<Entry>): Ring {
    if log == [] then Blanks()
    else
      var before := Replay(log[..|log| - 1]);
      match log[|log| - 1]
      case Forget => Blanks()
      case At(e, event) => Updated(before, e, event)
  }

  lemma ReplayPush(log: seq<Entry>, last: Entry)
    ensures Replay(log + [last]) == match last
                                    case Forget => Blanks()
                                    case At(e, event) => Updated(Replay(log), e, event)
  {
    assert (log + [last])[..|log|] == log;
  }

  function Slot(ring: Ring, epoch: nat): Totals {
    var b := Current(ring, epoch);
    Totals(b.total, b.flagged)
  }

  /** Every bucket sits where its epoch belongs, and none is ahead of the clock. */
  predicate Placed(ring: Ring, latest: nat) {
    forall i :: 0 <= i < BUCKETS ==> ring[i].epoch <= latest && (ring[i] == BLANK || ring[i].epoch % BUCKETS == i)
  }

  predicate Agrees(ring: Ring, log: seq<Entry>, epoch: nat) {
    Slot(ring, epoch) == Tally(log, epoch)
  }

  lemma {:induction false} ReplayPlaced(log: seq<Entry>)
    requires Monotone(log)
    ensures Placed(Replay(log), Latest(log))
    decreases |log|
  {
    if log != [] {
      ReplayPlaced(log[..|log| - 1]);
    }
  }

  /** Ring and log agree on every epoch the window can still reach. */
  lemma {:induction false} ReplayAgrees(log: seq<Entry>, epoch: nat)
    requires Monotone(log) && Latest(log) < epoch + BUCKETS
    ensures Agrees(Replay(log), log, epoch)
    decreases |log|
  {
    if log != [] {
      var before, last := log[..|log| - 1], log[|log| - 1];
      ReplayPlaced(before);
      if last.At? {
        ReplayAgrees(before, epoch);
        if last.epoch != epoch {
          OtherEpoch(Replay(before), last.epoch, last.event, epoch, Latest(before));
        }
      }
    }
  }

  /** Reusing a slot only loses an epoch that has left the window. */
  lemma OtherEpoch(ring: Ring, now: nat, event: Event, epoch: nat, latest: nat)
    requires Placed(ring, latest) && latest <= now && epoch != now && now < epoch + BUCKETS
    ensures Slot(Updated(ring, now, event), epoch) == Slot(ring, epoch)
  {
    if epoch % BUCKETS == now % BUCKETS {
      assert epoch > now;
      assert ring[epoch % BUCKETS].epoch < epoch;
    }
  }

  // ---- Totals are sums over the last ten epochs --------------------------

  function Stretch(ring: Ring, lo: nat, hi: nat, epoch: nat): Totals
    requires lo <= hi <= BUCKETS
    decreases hi
  {
    if lo == hi then Totals(0, 0) else Add(Stretch(ring, lo, hi - 1, epoch), Share(ring[hi - 1], epoch))
  }

  lemma {:induction false} SumSplits(ring: Ring, mid: nat, n: nat, epoch: nat)
    requires mid <= n <= BUCKETS
    ensures Sum(ring, n, epoch) == Add(Sum(ring, mid, epoch), Stretch(ring, mid, n, epoch))
    decreases n
  {
    if mid < n {
      SumSplits(ring, mid, n - 1, epoch);
      AddAssociates(Sum(ring, mid, epoch), Stretch(ring, mid, n - 1, epoch), Share(ring[n - 1], epoch));
    }
  }

  lemma {:induction false} SumIsStretch(ring: Ring, n: nat, epoch: nat)
    requires n <= BUCKETS
    ensures Sum(ring, n, epoch) == Stretch(ring, 0, n, epoch)
    decreases n
  {
    if n > 0 {
      SumIsStretch(ring, n - 1, epoch);
    }
  }

  lemma {:induction false} SpanSplits(log: seq<Entry>, lo: nat, mid: nat, hi: nat)
    requires lo <= mid <= hi
    ensures Span(log, lo, hi) == Add(Span(log, lo, mid), Span(log, mid, hi))
    decreases hi
  {
    if mid < hi {
      SpanSplits(log, lo, mid, hi - 1);
      AddAssociates(Span(log, lo, mid), Span(log, mid, hi - 1), Tally(log, hi - 1));
    }
  }

  /** If each bucket of a stretch holds its epoch's tally, the stretch holds the span. */
  lemma {:induction false} StretchIsSpan(log: seq<Entry>, ring: Ring, lo: nat, hi: nat, first: nat, epoch: nat)
    requires lo <= hi <= BUCKETS
    requires forall k :: lo <= k < hi ==> Share(ring[k], epoch) == Tally(log, first + (k - lo))
    ensures Stretch(ring, lo, hi, epoch) == Span(log, first, first + (hi - lo))
    decreases hi
  {
    if lo < hi {
      StretchIsSpan(log, ring, lo, hi - 1, first, epoch);
      assert Share(ring[hi - 1], epoch) == Tally(log, first + (hi - 1 - lo));
      OneBucketMore(log, ring, lo, hi, first, first + (hi - lo), epoch);
    }
  }

  lemma {:induction false} OneBucketMore(
      log: seq<Entry>, ring: Ring, lo: nat, hi: nat, first: nat, last: nat, epoch: nat)
    requires lo < hi <= BUCKETS && first < last
    requires Stretch(ring, lo, hi - 1, epoch) == Span(log, first, last - 1)
    requires Share(ring[hi - 1], epoch) == Tally(log, last - 1)
    ensures Stretch(ring, lo, hi, epoch) == Span(log, first, last)
  {}

  /** A run of buckets holds a run of epochs, some whole turns further on. */
  lemma AlignedStretch(log: seq<Entry>, lo: nat, hi: nat, first: nat, last: nat, epoch: nat)
    requires Monotone(log) && Latest(log) <= epoch && lo <= hi <= BUCKETS && last == first + (hi - lo)
    requires first % BUCKETS == lo % BUCKETS && Oldest(epoch) <= first && last <= epoch + 1
    ensures Stretch(Replay(log), lo, hi, epoch) == Span(log, first, last)
  {
    var ring := Replay(log);
    forall k | lo <= k < hi ensures Share(ring[k], epoch) == Tally(log, first + (k - lo)) {
      AlignedBucket(log, lo, k, first, first + (k - lo), epoch);
    }
    StretchIsSpan(log, ring, lo, hi, first, epoch);
  }

  lemma AlignedBucket(log: seq<Entry>, lo: nat, k: nat, first: nat, e: nat, epoch: nat)
    requires Monotone(log) && Latest(log) <= epoch && lo <= k < BUCKETS && e - first == k - lo
    requires first % BUCKETS == lo % BUCKETS && Oldest(epoch) <= first && e <= epoch
    ensures Share(Replay(log)[k], epoch) == Tally(log, e)
  {
    Residue(lo, k, first, e);
    ShareIsTally(log, k, e, epoch);
  }

  lemma Residue(lo: nat, i: nat, first: nat, e: nat)
    requires lo <= i < BUCKETS && first % BUCKETS == lo && e - first == i - lo
    ensures e % BUCKETS == i
  {}

  lemma ShareIsTally(log: seq<Entry>, i: nat, e: nat, epoch: nat)
    requires Monotone(log) && Latest(log) <= epoch
    requires Oldest(epoch) <= e <= epoch && e % BUCKETS == i
    ensures Share(Replay(log)[i], epoch) == Tally(log, e)
  {
    ReplayPlaced(log);
    ReplayAgrees(log, e);
    var b := Replay(log)[i];
    if b != BLANK && Within(b, epoch) {
      SameResidue(b.epoch, e, epoch);
    }
  }

  lemma SameResidue(a: nat, b: nat, epoch: nat)
    requires a % BUCKETS == b % BUCKETS
    requires Oldest(epoch) <= a <= epoch && Oldest(epoch) <= b <= epoch
    ensures a == b
  {}

  /** Before the first full turn, the buckets past the current one are untouched. */
  lemma UntouchedStretch(log: seq<Entry>, lo: nat, hi: nat, epoch: nat)
    requires Monotone(log) && Latest(log) <= epoch < lo <= hi <= BUCKETS
    ensures Stretch(Replay(log), lo, hi, epoch) == Totals(0, 0)
  {
    ReplayPlaced(log);
    forall k | lo <= k < hi ensures Share(Replay(log)[k], epoch) == Totals(0, 0) {
      AheadIsBlank(Replay(log)[k], k, epoch);
    }
    EmptyStretch(Replay(log), lo, hi, epoch);
  }

  lemma AheadIsBlank(b: Bucket, k: nat, epoch: nat)
    requires epoch < k < BUCKETS && b.epoch <= epoch && (b == BLANK || b.epoch % BUCKETS == k)
    ensures b == BLANK
  {}

  lemma {:induction false} EmptyStretch(ring: Ring, lo: nat, hi: nat, epoch: nat)
    requires lo <= hi <= BUCKETS && forall k :: lo <= k < hi ==> Share(ring[k], epoch) == Totals(0, 0)
    ensures Stretch(ring, lo, hi, epoch) == Totals(0, 0)
    decreases hi
  {
    if lo < hi {
      EmptyStretch(ring, lo, hi - 1, epoch);
    }
  }

  /**
    As long as the clock never goes back, the ring reports exactly the last ten
    epochs of the log, whatever was recorded, flagged, given back or forgotten.
   */
  lemma TotalsAreWindow(log: seq<Entry>, epoch: nat)
    requires Monotone(log) && Latest(log) <= epoch
    ensures Window(Replay(log), epoch) == Span(log, Oldest(epoch), epoch + 1)
  {
    WindowFrom(log, Oldest(epoch), epoch - epoch % BUCKETS, epoch + 1, epoch % BUCKETS + 1, epoch);
  }

  lemma WindowFrom(log: seq<Entry>, lo: nat, mid: nat, hi: nat, n: nat, epoch: nat)
    requires Monotone(log) && Latest(log) <= epoch
    requires lo == Oldest(epoch) && mid == epoch - epoch % BUCKETS && hi == epoch + 1 && n == epoch % BUCKETS + 1
    ensures Window(Replay(log), epoch) == Span(log, lo, hi)
  {
    AlignedStretch(log, 0, n, mid, hi, epoch);
    EarlierTurn(log, lo, mid, n, epoch);
    JoinStretches(log, Replay(log), lo, mid, hi, n, epoch);
  }

  /** The buckets past the current one hold the end of the turn before, if there was one. */
  lemma EarlierTurn(log: seq<Entry>, lo: nat, mid: nat, n: nat, epoch: nat)
    requires Monotone(log) && Latest(log) <= epoch && lo == Oldest(epoch)
    requires mid == epoch - epoch % BUCKETS && n == epoch % BUCKETS + 1
    ensures lo <= mid && Stretch(Replay(log), n, |Replay(log)|, epoch) == Span(log, lo, mid)
  {
    if mid == 0 {
      UntouchedStretch(log, n, |Replay(log)|, epoch);
    } else {
      TurnBefore(lo, mid, n, epoch);
      AlignedStretch(log, n, |Replay(log)|, lo, mid, epoch);
    }
  }

  lemma TurnBefore(lo: nat, mid: nat, n: nat, epoch: nat)
    requires lo == Oldest(epoch) && mid == epoch - epoch % BUCKETS && n == epoch % BUCKETS + 1 && mid > 0
    ensures lo == mid + n - BUCKETS && lo % BUCKETS == n % BUCKETS
  {}

  lemma JoinStretches(log: seq<Entry>, ring: Ring, lo: nat, mid: nat, hi: nat, n: nat, epoch: nat)
    requires lo <= mid <= hi && n <= |ring|
    requires Stretch(ring, 0, n, epoch) == Span(log, mid, hi)
    requires Stretch(ring, n, |ring|, epoch) == Span(log, lo, mid)
    ensures Window(ring, epoch) == Span(log, lo, hi)
  {
    SumSplits(ring, n, |ring|, epoch);
    SumIsStretch(ring, n, epoch);
    SpanSplits(log, lo, mid, hi);
  }

  // ---- Outcomes in the window --------------------------------------------

  /** Within the last ten epochs, the current one included. */
  predicate Recent(e: nat, epoch: nat) {
    e <= epoch < e + BUCKETS
  }

  /** How many outcomes were counted in the last ten epochs, since anything was last forgotten. */
  function Outcomes(log: seq<Entry>, epoch: nat): nat {
    if log == [] then 0
    else match log[|log| - 1]
         case Forget => 0
         case At(e, event) =>
           Outcomes(log[..|log| - 1], epoch) + if Recent(e, epoch) && event.Count? then 1 else 0
  }

  /** How many of them were flagged. */
  function Flagged(log: seq<Entry>, epoch: nat): nat {
    if log == [] then 0
    else match log[|log| - 1]
         case Forget => 0
         case At(e, event) =>
           Flagged(log[..|log| - 1], epoch) + if Recent(e, epoch) && event == Count(true) then 1 else 0
  }

  /** Nothing but outcomes and resets. */
  predicate CountsOnly(log: seq<Entry>) {
    forall i :: 0 <= i < |log| ==> log[i].Forget? || log[i].event.Count?
  }

  lemma {:induction false} SpanPush(log: seq<Entry>, e: nat, flagged: bool, lo: nat, hi: nat)
    requires lo <= hi
    ensures Span(log + [At(e, Count(flagged))], lo, hi)
         == Add(Span(log, lo, hi), if lo <= e < hi then Totals(1, if flagged then 1 else 0) else Totals(0, 0))
    decreases hi
  {
    if lo < hi {
      SpanPush(log, e, flagged, lo, hi - 1);
      assert (log + [At(e, Count(flagged))])[..|log|] == log;
    }
  }

  lemma {:induction false} SpanForgets(log: seq<Entry>, lo: nat, hi: nat)
    requires lo <= hi && (log == [] || log[|log| - 1].Forget?)
    ensures Span(log, lo, hi) == Totals(0, 0)
    decreases hi
  {
    if lo < hi {
      SpanForgets(log, lo, hi - 1);
    }
  }

  /** The contribution of one outcome. */
  function One(counted: bool, flagged: bool): Totals {
    if counted then Totals(1, if flagged then 1 else 0) else Totals(0, 0)
  }

  function Recents(log: seq<Entry>, epoch: nat): Totals {
    Totals(Outcomes(log, epoch), Flagged(log, epoch))
  }

  lemma {:induction false} SpanAddsOne(log: seq<Entry>, e: nat, flagged: bool, lo: nat, hi: nat, counted: bool)
    requires lo <= hi && (counted <==> lo <= e < hi)
    ensures Span(log + [At(e, Count(flagged))], lo, hi) == Add(Span(log, lo, hi), One(counted, flagged))
  {
    SpanPush(log, e, flagged, lo, hi);
  }

  lemma {:induction false} OutcomesPush(log: seq<Entry>, last: Entry, epoch: nat)
    requires last.At? && last.event.Count?
    ensures Outcomes(log + [last], epoch) == Outcomes(log, epoch) + One(Recent(last.epoch, epoch), false).total
  {
    assert (log + [last])[..|log|] == log;
  }

  lemma {:induction false} FlaggedPush(log: seq<Entry>, last: Entry, epoch: nat)
    requires last.At? && last.event.Count?
    ensures Flagged(log + [last], epoch)
         == Flagged(log, epoch) + One(Recent(last.epoch, epoch), last.event.flagged).flagged
  {
    assert (log + [last])[..|log|] == log;
  }

  lemma {:induction false} RecentsAddOne(log: seq<Entry>, e: nat, flagged: bool, epoch: nat, counted: bool)
    requires counted <==> Recent(e, epoch)
    ensures Recents(log + [At(e, Count(flagged))], epoch) == Add(Recents(log, epoch), One(counted, flagged))
  {
    OutcomesPush(log, At(e, Count(flagged)), epoch);
    FlaggedPush(log, At(e, Count(flagged)), epoch);
  }

  lemma {:induction false} SpanCounts(log: seq<Entry>, epoch: nat, lo: nat, hi: nat)
    requires CountsOnly(log) && lo == Oldest(epoch) && hi == epoch + 1
    ensures Span(log, lo, hi) == Recents(log, epoch)
    decreases |log|
  {
    if log == [] || log[|log| - 1].Forget? {
      SpanForgets(log, lo, hi);
    } else {
      var before, last := log[..|log| - 1], log[|log| - 1];
      assert log == before + [At(last.epoch, Count(last.event.flagged))];
      SpanCounts(before, epoch, lo, hi);
      RecentIff(last.epoch, epoch, lo, hi);
      SpanAddsOne(before, last.epoch, last.event.flagged, lo, hi, Recent(last.epoch, epoch));
      RecentsAddOne(before, last.epoch, last.event.flagged, epoch, Recent(last.epoch, epoch));
    }
  }

  lemma RecentIff(e: nat, epoch: nat, lo: nat, hi: nat)
    requires lo == Oldest(epoch) && hi == epoch + 1
    ensures lo <= e < hi <==> Recent(e, epoch)
  {}

  /** What the ring reports is the number of recent outcomes and of recent failures among them. */
  lemma WindowCounts(log: seq<Entry>, epoch: nat)
    requires CountsOnly(log) && Monotone(log) && Latest(log) <= epoch
    ensures Window(Replay(log), epoch) == Totals(Outcomes(log, epoch), Flagged(log, epoch))
  {
    TotalsAreWindow(log, epoch);
    SpanCounts(log, epoch, Oldest(epoch), epoch + 1);
  }
}
