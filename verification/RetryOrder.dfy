/**
  When the retry share holds. Charges carry the stamp their caller took before
  flagging, so flags need not arrive in stamp order. The share is kept in every
  run with a given sequence of flag stamps exactly when that sequence is in order.
 */
module RetryOrder {
  import opened Retries
  import opened RetryProtocol
  import opened Windows

  /** The stamps of the flags made in a run, oldest first, given back or not. */
  function Flags(tr: Trace): seq<nat> {
    match tr
    case Start(_) => []
    case Then(before, l, _) => if l.Flag? then Flags(before) + [l.b] else Flags(before)
  }

  predicate InWindow(stamps: seq<nat>) {
    forall i :: 0 <= i < |stamps| ==> stamps[i] < BUCKETS
  }

  /** Every run that flags with these stamps stays within its share, whatever the share is. */
  ghost predicate ShareKept(stamps: seq<nat>) {
    forall tr :: Run(tr) && Flags(tr) == stamps ==>
      WithinShare(Retried(tr.state.live), Load(tr.state), tr.state.percent, tr.state.minimum)
  }

  lemma ShareKeptIff(stamps: seq<nat>)
    requires InWindow(stamps)
    ensures ShareKept(stamps) <==> Sorted(stamps)
  {
    if Sorted(stamps) {
      forall tr | Run(tr) && Flags(tr) == stamps
        ensures WithinShare(Retried(tr.state.live), Load(tr.state), tr.state.percent, tr.state.minimum)
      {
        SortedIsInOrder(tr);
        RetriesWithinShare(tr);
      }
    } else {
      var tr := StaleStampOverspends(stamps);
    }
  }

  /** Every such run with no minimum and a share below one keeps the load within its factor of the demand. */
  ghost predicate LoadKept(stamps: seq<nat>) {
    forall tr :: Run(tr) && Flags(tr) == stamps && tr.state.minimum == 0 && tr.state.percent < 100 ==>
      Amplifies(Load(tr.state), tr.state.first, tr.state.percent)
  }

  lemma LoadKeptIff(stamps: seq<nat>)
    requires InWindow(stamps)
    ensures LoadKept(stamps) <==> Sorted(stamps)
  {
    if Sorted(stamps) {
      forall tr | Run(tr) && Flags(tr) == stamps && tr.state.minimum == 0 && tr.state.percent < 100
        ensures Amplifies(Load(tr.state), tr.state.first, tr.state.percent)
      {
        SortedIsInOrder(tr);
        AmplificationBounded(tr);
      }
    } else {
      var tr := StaleStampOverspends(stamps);
      Rearranged(tr.state.first, Retried(tr.state.live), Load(tr.state), tr.state.percent);
    }
  }

  // ---- In order ----------------------------------------------------------

  lemma {:induction false} StampsAreFlags(tr: Trace)
    requires Run(tr)
    ensures forall b :: b in tr.state.stamps ==> b in Flags(tr)
  {
    if tr.Then? {
      StampsAreFlags(tr.before);
    }
  }

  lemma {:induction false} SortedIsInOrder(tr: Trace)
    requires Run(tr) && Sorted(Flags(tr))
    ensures InOrder(tr)
  {
    if tr.Then? {
      var earlier := Flags(tr.before);
      assert forall i :: 0 <= i < |earlier| ==> Flags(tr)[i] == earlier[i];
      SortedIsInOrder(tr.before);
      if tr.step.Flag? {
        StampsAreFlags(tr.before);
        LastIsLargest(earlier, tr.step.b);
      }
    }
  }

  lemma LastIsLargest(earlier: seq<nat>, last: nat)
    requires Sorted(earlier + [last])
    ensures forall b :: b in earlier ==> b <= last
  {
    forall b | b in earlier ensures b <= last {
      var i :| 0 <= i < |earlier| && earlier[i] == b;
      assert (earlier + [last])[i] == b && (earlier + [last])[|earlier|] == last;
    }
  }

  // ---- Out of order ------------------------------------------------------

  lemma {:induction false} Inversion(stamps: seq<nat>) returns (k: nat)
    requires !Sorted(stamps)
    ensures k + 1 < |stamps| && stamps[k] > stamps[k + 1]
    decreases |stamps|
  {
    var n := |stamps| - 1;
    if stamps[n - 1] > stamps[n] {
      k := n - 1;
    } else {
      assert !Sorted(stamps[..n]) by {
        if Sorted(stamps[..n]) {
          SortedPush(stamps, n);
        }
      }
      k := Inversion(stamps[..n]);
    }
  }

  lemma SortedPush(stamps: seq<nat>, n: nat)
    requires 0 < n == |stamps| - 1 && Sorted(stamps[..n]) && stamps[n - 1] <= stamps[n]
    ensures Sorted(stamps)
  {
    forall i, j | 0 <= i < j < |stamps| ensures stamps[i] <= stamps[j] {
      assert stamps[..n][i] == stamps[i] && stamps[..n][n - 1] == stamps[n - 1];
      if j < n {
        assert stamps[..n][j] == stamps[j];
      }
    }
  }

  /** A run goes on by any enabled step. */
  lemma Step(before: Trace, l: Label, after: Sys) returns (tr: Trace)
    requires Run(before) && Enabled(before.state, l) && Next(before.state, l) == after
    ensures Run(tr) && tr.state == after
    ensures Flags(tr) == if l.Flag? then Flags(before) + [l.b] else Flags(before)
  {
    tr := Then(before, l, after);
  }

  /** The same state with charge `i` elsewhere in its course. */
  function At(s: Sys, i: nat, c: Charge): Sys
    requires i < |s.live|
  {
    s.(live := s.live[i := c])
  }

  lemma CountOne(s: Sys, i: nat, n: nat)
    requires Live(s, i) && n <= s.stamps[i]
    ensures var now := At(s, i, Counting(Upto(n), Prefix(s.flagged, n)));
            Enabled(now, ReadFlagged(i, n))
            && Next(now, ReadFlagged(i, n)) == At(s, i, Counting(Upto(n + 1), Prefix(s.flagged, n + 1)))
  {}

  lemma TallyOne(s: Sys, i: nat, spent: nat, n: nat)
    requires Live(s, i) && n <= s.stamps[i]
    ensures var now := At(s, i, Tallying(spent, Upto(n), Prefix(s.total, n)));
            Enabled(now, ReadTotal(i, n))
            && Next(now, ReadTotal(i, n)) == At(s, i, Tallying(spent, Upto(n + 1), Prefix(s.total, n + 1)))
  {}

  lemma {:induction false} CountUpto(before: Trace, i: nat, n: nat) returns (tr: Trace)
    requires Run(before) && Live(before.state, i) && before.state.live[i] == Counting({}, 0)
    requires n <= before.state.stamps[i] + 1
    ensures Run(tr) && Flags(tr) == Flags(before)
    ensures tr.state == At(before.state, i, Counting(Upto(n), Prefix(before.state.flagged, n)))
    decreases n
  {
    var s := before.state;
    if n == 0 {
      tr := before;
    } else {
      tr := CountUpto(before, i, n - 1);
      CountOne(s, i, n - 1);
      tr := Step(tr, ReadFlagged(i, n - 1), At(s, i, Counting(Upto(n), Prefix(s.flagged, n))));
    }
  }

  lemma {:induction false} TallyUpto(before: Trace, i: nat, spent: nat, n: nat) returns (tr: Trace)
    requires Run(before) && Live(before.state, i) && before.state.live[i] == Tallying(spent, {}, 0)
    requires n <= before.state.stamps[i] + 1
    ensures Run(tr) && Flags(tr) == Flags(before)
    ensures tr.state == At(before.state, i, Tallying(spent, Upto(n), Prefix(before.state.total, n)))
    decreases n
  {
    var s := before.state;
    if n == 0 {
      tr := before;
    } else {
      tr := TallyUpto(before, i, spent, n - 1);
      TallyOne(s, i, spent, n - 1);
      tr := Step(tr, ReadTotal(i, n - 1), At(s, i, Tallying(spent, Upto(n), Prefix(s.total, n))));
    }
  }

  function Outcome(spent: nat, seen: nat, percent: nat, minimum: nat): Charge {
    if spent > Quota(seen, percent, minimum) then Refused else Granted(spent, false)
  }

  /** The state after one charge has run to its decision undisturbed. */
  function Charged(s: Sys, b: nat): Sys
    requires b < BUCKETS
  {
    s.(flagged := Bump(s.flagged, b), stamps := s.stamps + [b],
       live := s.live
               + [Outcome(Prefix(Bump(s.flagged, b), b + 1), Prefix(s.total, b + 1), s.percent, s.minimum)])
  }

  lemma ChargeThrough(before: Trace, b: nat) returns (tr: Trace)
    requires Run(before) && |before.state.live| == |before.state.stamps| && b < BUCKETS
    ensures Run(tr) && Flags(tr) == Flags(before) + [b] && tr.state == Charged(before.state, b)
  {
    var s, i := before.state, |before.state.live|;
    tr := Step(before, Label.Flag(b), Next(s, Label.Flag(b)));
    tr := Settle(tr, i, b);
    assert tr.state.live == s.live + [tr.state.live[i]];
  }

  lemma Settle(before: Trace, i: nat, b: nat) returns (tr: Trace)
    requires Run(before) && Live(before.state, i) && before.state.stamps[i] == b
    requires before.state.live[i] == Counting({}, 0)
    ensures Run(tr) && Flags(tr) == Flags(before)
    ensures var s := before.state;
            tr.state == At(s, i, Outcome(Prefix(s.flagged, b + 1), Prefix(s.total, b + 1), s.percent, s.minimum))
  {
    var s := before.state;
    var spent := Prefix(s.flagged, b + 1);
    tr := CountUpto(before, i, b + 1);
    tr := Step(tr, StartTally(i), At(s, i, Tallying(spent, {}, 0)));
    tr := Decided(tr, i, spent, b);
    assert tr.state.live == At(s, i, tr.state.live[i]).live;
  }

  lemma Decided(before: Trace, i: nat, spent: nat, b: nat) returns (tr: Trace)
    requires Run(before) && Live(before.state, i) && before.state.stamps[i] == b
    requires before.state.live[i] == Tallying(spent, {}, 0)
    ensures Run(tr) && Flags(tr) == Flags(before)
    ensures var s := before.state;
            tr.state == At(s, i, Outcome(spent, Prefix(s.total, b + 1), s.percent, s.minimum))
  {
    var s := before.state;
    tr := TallyUpto(before, i, spent, b + 1);
    tr := Step(tr, Decide(i), At(s, i, Outcome(spent, Prefix(s.total, b + 1), s.percent, s.minimum)));
  }

  const NONE: Counters := [0, 0, 0, 0, 0, 0, 0, 0, 0, 0]

  function Idle(first: nat, total: Counters): Sys {
    Sys(34, 0, first, total, NONE, [], [])
  }

  /** Before any attempt there is no quota: every flag is refused and given back. */
  lemma {:induction false} AllRefused(stamps: seq<nat>) returns (tr: Trace)
    requires InWindow(stamps)
    ensures Run(tr) && Flags(tr) == stamps && tr.state == Idle(0, NONE)
    decreases |stamps|
  {
    if stamps == [] {
      tr := Start(Idle(0, NONE));
    } else {
      var n := |stamps| - 1;
      tr := AllRefused(stamps[..n]);
      tr := RefusedOnce(tr, stamps[n]);
      Snoc([], stamps, n);
    }
  }

  lemma RefusedOnce(before: Trace, b: nat) returns (tr: Trace)
    requires Run(before) && before.state == Idle(0, NONE) && b < BUCKETS
    ensures Run(tr) && Flags(tr) == Flags(before) + [b] && tr.state == Idle(0, NONE)
  {
    tr := ChargeThrough(before, b);
    PrefixBump(NONE, b, b + 1);
    PrefixZero(NONE, b + 1);
    assert tr.state.live == [Refused];
    assert Bump(NONE, b)[b := 0] == NONE;
    tr := Step(tr, GiveBack(0), Idle(0, NONE));
  }

  function Three(): Counters {
    Bump(Bump(Bump(NONE, 0), 0), 0)
  }

  lemma ThreeSeen(n: nat)
    requires 0 < n <= BUCKETS
    ensures Prefix(Three(), n) == 3
  {
    PrefixZero(NONE, n);
    PrefixBump(NONE, 0, n);
    PrefixBump(Bump(NONE, 0), 0, n);
    PrefixBump(Bump(Bump(NONE, 0), 0), 0, n);
  }

  lemma ThreeAttempts(before: Trace) returns (tr: Trace)
    requires Run(before) && before.state == Idle(0, NONE)
    ensures Run(tr) && Flags(tr) == Flags(before) && tr.state == Idle(3, Three())
  {
    var one, two := Bump(NONE, 0), Bump(Bump(NONE, 0), 0);
    tr := Attempted(before, 0, NONE, one);
    tr := Attempted(tr, 1, one, two);
    tr := Attempted(tr, 2, two, Three());
  }

  lemma Attempted(before: Trace, first: nat, total: Counters, after: Counters) returns (tr: Trace)
    requires Run(before) && before.state == Idle(first, total) && after == Bump(total, 0)
    ensures Run(tr) && Flags(tr) == Flags(before) && tr.state == Idle(first + 1, after)
  {
    tr := Step(before, FirstAttempt(0), Idle(first + 1, after));
  }

  /** One retry fits three requests at 34 percent; a charge that sees only itself is granted. */
  lemma SoloGranted(before: Trace, b: nat) returns (tr: Trace)
    requires Run(before) && |before.state.live| == |before.state.stamps| && b < BUCKETS
    requires (before.state.percent, before.state.minimum, before.state.total) == (34, 0, Three())
    requires Prefix(before.state.flagged, b + 1) == 0
    ensures Run(tr) && Flags(tr) == Flags(before) + [b]
    ensures var s := before.state;
            tr.state == s.(flagged := Bump(s.flagged, b), stamps := s.stamps + [b], live := s.live + [Granted(1, false)])
  {
    tr := ChargeThrough(before, b);
    SoloOutcome(before.state, b);
  }

  lemma SoloOutcome(s: Sys, b: nat)
    requires b < BUCKETS && (s.percent, s.minimum, s.total) == (34, 0, Three()) && Prefix(s.flagged, b + 1) == 0
    ensures Charged(s, b)
         == s.(flagged := Bump(s.flagged, b), stamps := s.stamps + [b], live := s.live + [Granted(1, false)])
  {
    PrefixBump(s.flagged, b, b + 1);
    ThreeSeen(b + 1);
    OneFits();
  }

  lemma OneFits()
    ensures Outcome(1, 3, 34, 0) == Granted(1, false)
  {}

  lemma FlagOne(before: Trace, b: nat) returns (tr: Trace)
    requires Run(before) && b < BUCKETS
    ensures Run(tr) && Flags(tr) == Flags(before) + [b] && SameRetries(before.state, tr.state)
  {
    tr := Step(before, Label.Flag(b), Next(before.state, Label.Flag(b)));
    assert tr.state.live[..|before.state.live|] == before.state.live;
  }

  predicate SameRetries(s: Sys, t: Sys) {
    && (t.percent, t.minimum, t.first) == (s.percent, s.minimum, s.first)
    && Retried(t.live) == Retried(s.live)
  }

  lemma {:induction false} FlagRest(before: Trace, stamps: seq<nat>) returns (tr: Trace)
    requires Run(before) && InWindow(stamps)
    ensures Run(tr) && Flags(tr) == Flags(before) + stamps && SameRetries(before.state, tr.state)
    decreases |stamps|
  {
    if stamps == [] {
      tr := before;
    } else {
      var n := |stamps| - 1;
      tr := FlagRest(before, stamps[..n]);
      tr := FlagOne(tr, stamps[n]);
      Snoc(Flags(before), stamps, n);
    }
  }

  lemma Snoc(flags: seq<nat>, stamps: seq<nat>, n: nat)
    requires n == |stamps| - 1
    ensures flags + stamps[..n] + [stamps[n]] == flags + stamps
  {}

  /**
    Two neighbouring flags out of order: the first, stamped later, is granted the one
    retry allowed; the second does not count the first one's bucket, and is granted
    another.
   */
  lemma StaleStampOverspends(stamps: seq<nat>) returns (tr: Trace)
    requires !Sorted(stamps) && InWindow(stamps)
    ensures Run(tr) && Flags(tr) == stamps && tr.state.minimum == 0 && tr.state.percent == 34
    ensures !WithinShare(Retried(tr.state.live), Load(tr.state), tr.state.percent, tr.state.minimum)
  {
    var k := Inversion(stamps);
    tr := AllRefused(stamps[..k]);
    tr := ThreeAttempts(tr);
    tr := BothGranted(tr, stamps[k], stamps[k + 1]);
    tr := FlagRest(tr, stamps[k + 2..]);
    Cut(stamps, k);
  }

  lemma Cut(stamps: seq<nat>, k: nat)
    requires k + 1 < |stamps|
    ensures stamps[..k] + [stamps[k]] + [stamps[k + 1]] + stamps[k + 2..] == stamps
  {}

  lemma BothGranted(before: Trace, late: nat, early: nat) returns (tr: Trace)
    requires Run(before) && before.state == Idle(3, Three()) && early < late < BUCKETS
    ensures Run(tr) && Flags(tr) == Flags(before) + [late] + [early]
    ensures (tr.state.percent, tr.state.minimum, tr.state.first) == (34, 0, 3) && Retried(tr.state.live) == 2
  {
    PrefixZero(NONE, late + 1);
    tr := SoloGranted(before, late);
    PrefixZero(NONE, early + 1);
    PrefixBump(NONE, late, early + 1);
    tr := SoloGranted(tr, early);
    AllGranted(tr.state.live);
  }
}
