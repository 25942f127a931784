/**
  Concurrent charges against one budget window, step by step. A charge flags its
  bucket first, then reads the flagged counts bucket by bucket, then the attempts
  bucket by bucket, decides, and gives its flag back if it was refused. Any two
  steps of different charges may interleave, so the sums a charge reads need not
  have been true at any one moment. Within one window no bucket expires; buckets
  are numbered in time, and a reader counts those up to its own stamp, each once
  and in any order, since the ring may start anywhere.
 */
module RetryProtocol {
  import opened Machine
  import opened Retries
  import opened Windows

  /** How far a charge whose flag is still counted has got. */
  datatype Charge =
    | Counting(read: set<nat>, sum: nat)               // flagged counts read so far
    | Tallying(spent: nat, read: set<nat>, sum: nat)   // attempts read so far
    | Granted(spent: nat, sent: bool)
    | Refused

  type Counters = c: seq<nat> | |c| == BUCKETS witness seq(BUCKETS, _ => 0)

  /**
    `live` holds the charges whose flags are counted, oldest first, and `stamps` the
    bucket each flagged; `first` counts requests, `total` every attempt.
   */
  datatype Sys = Sys(
    percent: nat, minimum: nat, first: nat, total: Counters, flagged: Counters,
    live: seq<Charge>, stamps: seq<nat>)

  datatype Label =
    | FirstAttempt(b: nat)
    | Flag(b: nat)
    | ReadFlagged(i: nat, b: nat)
    | StartTally(i: nat)
    | ReadTotal(i: nat, b: nat)
    | Decide(i: nat)
    | Resend(i: nat, b: nat)
    | GiveBack(i: nat)

  predicate Init(s: Sys) {
    && s.first == 0 && s.live == [] && s.stamps == []
    && s.total == s.flagged && forall b :: 0 <= b < BUCKETS ==> s.total[b] == 0
  }

  predicate Enabled(s: Sys, l: Label) {
    match l
    case FirstAttempt(b) => b < BUCKETS
    case Flag(b) => b < BUCKETS
    case ReadFlagged(i, b) => Live(s, i) && s.live[i].Counting? && b <= s.stamps[i] && b !in s.live[i].read
    case StartTally(i) => Live(s, i) && s.live[i].Counting? && Upto(s.stamps[i] + 1) <= s.live[i].read
    case ReadTotal(i, b) => Live(s, i) && s.live[i].Tallying? && b <= s.stamps[i] && b !in s.live[i].read
    case Decide(i) => Live(s, i) && s.live[i].Tallying? && Upto(s.stamps[i] + 1) <= s.live[i].read
    case Resend(i, b) => Live(s, i) && s.live[i].Granted? && !s.live[i].sent && b < BUCKETS
    case GiveBack(i) => Live(s, i) && s.live[i].Refused?
  }

  /** The buckets before `n`. */
  function Upto(n: nat): (r: set<nat>)
    ensures forall b :: b in r <==> 0 <= b < n
  {
    if n == 0 then {} else Upto(n - 1) + {n - 1}
  }

  predicate Live(s: Sys, i: nat) {
    i < |s.live| == |s.stamps| && s.stamps[i] < BUCKETS
  }

  function Bump(c: Counters, b: nat): Counters
    requires b < BUCKETS
  {
    c[b := c[b] + 1]
  }

  function Without(s: seq<nat>, i: nat): seq<nat>
    requires i < |s|
  {
    s[..i] + s[i + 1..]
  }

  function Next(s: Sys, l: Label): Sys
    requires Enabled(s, l)
  {
    match l
    case FirstAttempt(b) => s.(first := s.first + 1, total := Bump(s.total, b))
    case Flag(b) =>
      s.(flagged := Bump(s.flagged, b), live := s.live + [Counting({}, 0)], stamps := s.stamps + [b])
    case ReadFlagged(i, b) =>
      var c := s.live[i];
      s.(live := s.live[i := Counting(c.read + {b}, c.sum + s.flagged[b])])
    case StartTally(i) => s.(live := s.live[i := Tallying(s.live[i].sum, {}, 0)])
    case ReadTotal(i, b) =>
      var c := s.live[i];
      s.(live := s.live[i := Tallying(c.spent, c.read + {b}, c.sum + s.total[b])])
    case Decide(i) =>
      var c := s.live[i];
      s.(live := s.live[i := if c.spent > Quota(c.sum, s.percent, s.minimum) then Refused else Granted(c.spent, false)])
    case Resend(i, b) => s.(total := Bump(s.total, b), live := s.live[i := s.live[i].(sent := true)])
    case GiveBack(i) =>
      var b := s.stamps[i];
      s.(flagged := s.flagged[b := SatSub(s.flagged[b], 1)],
         live := s.live[..i] + s.live[i + 1..], stamps := Without(s.stamps, i))
  }

  datatype Trace = Start(state: Sys) | Then(before: Trace, step: Label, state: Sys)

  ghost predicate Run(tr: Trace) {
    match tr
    case Start(s) => Init(s)
    case Then(before, l, t) => Run(before) && Enabled(before.state, l) && t == Next(before.state, l)
  }

  /** Each flag's stamp is at least those of the flags still counted, as under a clock that never goes back. */
  ghost predicate InOrder(tr: Trace) {
    tr.Then? ==>
      && InOrder(tr.before)
      && (tr.step.Flag? ==> forall b :: b in tr.before.state.stamps ==> b <= tr.step.b)
  }

  predicate Sorted(stamps: seq<nat>) {
    forall i, j :: 0 <= i < j < |stamps| ==> stamps[i] <= stamps[j]
  }

  // ---- Counting charges --------------------------------------------------

  /** Retries allowed so far. */
  function Retried(live: seq<Charge>): nat {
    if live == [] then 0 else Retried(live[..|live| - 1]) + if live[|live| - 1].Granted? then 1 else 0
  }

  function Sent(live: seq<Charge>): nat {
    if live == [] then 0
    else Sent(live[..|live| - 1]) + if live[|live| - 1].Granted? && live[|live| - 1].sent then 1 else 0
  }

  lemma {:induction false} SentIsAllowed(live: seq<Charge>)
    ensures Sent(live) <= Retried(live) <= |live|
    decreases |live|
  {
    if live != [] {
      SentIsAllowed(live[..|live| - 1]);
    }
  }

  lemma {:induction false} SentUpdate(live: seq<Charge>, i: nat, c: Charge)
    requires i < |live|
    ensures Sent(live[i := c])
         == Sent(live) + (if c.Granted? && c.sent then 1 else 0) - (if live[i].Granted? && live[i].sent then 1 else 0)
    decreases |live|
  {
    var n := |live| - 1;
    if i < n {
      SentUpdate(live[..n], i, c);
      assert live[i := c][..n] == live[..n][i := c];
    } else {
      assert live[i := c][..n] == live[..n];
    }
  }

  lemma {:induction false} SentRemove(live: seq<Charge>, i: nat)
    requires i < |live| && !live[i].Granted?
    ensures Sent(live[..i] + live[i + 1..]) == Sent(live)
    decreases |live|
  {
    var n, rest := |live| - 1, live[..i] + live[i + 1..];
    if i < n {
      SentRemove(live[..n], i);
      assert rest[..n - 1] == live[..n][..i] + live[..n][i + 1..];
      assert rest[n - 1] == live[n];
    } else {
      assert rest == live[..n];
    }
  }

  // ---- Counting buckets --------------------------------------------------

  /** The first `n` counters together. */
  function Prefix(c: Counters, n: nat): nat
    requires n <= BUCKETS
  {
    if n == 0 then 0 else Prefix(c, n - 1) + c[n - 1]
  }

  function All(c: Counters): nat {
    Prefix(c, |c|)
  }

  lemma {:induction false} PrefixBump(c: Counters, b: nat, n: nat)
    requires b < BUCKETS && n <= BUCKETS
    ensures Prefix(Bump(c, b), n) == Prefix(c, n) + if b < n then 1 else 0
    decreases n
  {
    if n > 0 {
      PrefixBump(c, b, n - 1);
    }
  }

  lemma {:induction false} PrefixZero(c: Counters, n: nat)
    requires n <= BUCKETS && forall b :: 0 <= b < BUCKETS ==> c[b] == 0
    ensures Prefix(c, n) == 0
    decreases n
  {
    if n > 0 {
      PrefixZero(c, n - 1);
    }
  }

  /** The counters of the listed buckets before `n` together. */
  function Part(c: Counters, read: set<nat>, n: nat): nat
    requires n <= BUCKETS
  {
    if n == 0 then 0 else Part(c, read, n - 1) + if n - 1 in read then c[n - 1] else 0
  }

  lemma {:induction false} PartMore(c: Counters, read: set<nat>, b: nat, n: nat)
    requires n <= BUCKETS && b < BUCKETS && b !in read
    ensures Part(c, read + {b}, n) == Part(c, read, n) + if b < n then c[b] else 0
    decreases n
  {
    if n > 0 {
      PartMore(c, read, b, n - 1);
    }
  }

  lemma {:induction false} PartBump(c: Counters, read: set<nat>, b: nat, n: nat)
    requires n <= BUCKETS && b < BUCKETS
    ensures Part(c, read, n) <= Part(Bump(c, b), read, n)
    decreases n
  {
    if n > 0 {
      PartBump(c, read, b, n - 1);
    }
  }

  lemma {:induction false} PartOfAll(c: Counters, read: set<nat>, n: nat)
    requires n <= BUCKETS
    ensures Part(c, read, n) <= Prefix(c, n)
    decreases n
  {
    if n > 0 {
      PartOfAll(c, read, n - 1);
    }
  }

  /** How many of these stamps name a listed bucket before `n`. */
  function Seen(stamps: multiset<nat>, read: set<nat>, n: nat): nat {
    if n == 0 then 0 else Seen(stamps, read, n - 1) + if n - 1 in read then stamps[n - 1] else 0
  }

  lemma {:induction false} SeenNothing(stamps: multiset<nat>, n: nat)
    ensures Seen(stamps, {}, n) == 0
    decreases n
  {
    if n > 0 {
      SeenNothing(stamps, n - 1);
    }
  }

  lemma {:induction false} SeenMore(stamps: multiset<nat>, read: set<nat>, b: nat, n: nat)
    requires b !in read
    ensures Seen(stamps, read + {b}, n) == Seen(stamps, read, n) + if b < n then stamps[b] else 0
    decreases n
  {
    if n > 0 {
      SeenMore(stamps, read, b, n - 1);
    }
  }

  lemma {:induction false} SeenMonotone(a: multiset<nat>, b: multiset<nat>, read: set<nat>, n: nat)
    requires a <= b
    ensures Seen(a, read, n) <= Seen(b, read, n)
    decreases n
  {
    if n > 0 {
      SeenMonotone(a, b, read, n - 1);
    }
  }

  lemma {:induction false} SeenPush(a: multiset<nat>, x: nat, read: set<nat>, n: nat)
    ensures Seen(a + multiset{x}, read, n) == Seen(a, read, n) + if x in read && x < n then 1 else 0
    decreases n
  {
    if n > 0 {
      SeenPush(a, x, read, n - 1);
    }
  }

  lemma {:induction false} SeenNobody(read: set<nat>, n: nat)
    ensures Seen(multiset{}, read, n) == 0
    decreases n
  {
    if n > 0 {
      SeenNobody(read, n - 1);
    }
  }

  lemma {:induction false} SeenAll(stamps: seq<nat>, read: set<nat>, n: nat)
    requires forall i :: 0 <= i < |stamps| ==> stamps[i] < n && stamps[i] in read
    ensures Seen(multiset(stamps), read, n) == |stamps|
    decreases |stamps|
  {
    if stamps == [] {
      SeenNobody(read, n);
    } else {
      var k := |stamps| - 1;
      SeenAll(stamps[..k], read, n);
      SeenPush(multiset(stamps[..k]), stamps[k], read, n);
      assert stamps == stamps[..k] + [stamps[k]];
    }
  }

  // ---- Invariant ---------------------------------------------------------

  /**
    A charge in place `i` has seen, in the buckets it has read, at least the flags
    up to and including its own that are still counted there.
   */
  ghost predicate ChargeOk(s: Sys, i: nat)
    requires i < |s.live| == |s.stamps|
  {
    match s.live[i]
    case Counting(read, sum) => Seen(multiset(s.stamps[..i + 1]), read, |s.flagged|) <= sum
    case Tallying(spent, read, sum) => i < spent && sum <= Part(s.total, read, |s.total|)
    case Granted(spent, _) => i < spent <= Quota(All(s.total), s.percent, s.minimum)
    case Refused => true
  }

  predicate StampsOk(s: Sys) {
    && |s.live| == |s.stamps|
    && (forall i :: 0 <= i < |s.stamps| ==> s.stamps[i] < BUCKETS)
    && (forall b :: 0 <= b < BUCKETS ==> s.flagged[b] == multiset(s.stamps)[b])
  }

  ghost predicate Inv(s: Sys) {
    && StampsOk(s) && Sorted(s.stamps) && All(s.total) == s.first + Sent(s.live)
    && forall i :: 0 <= i < |s.live| ==> ChargeOk(s, i)
  }

  lemma QuotaMonotone(a: nat, b: nat, percent: nat, minimum: nat)
    requires a <= b
    ensures Quota(a, percent, minimum) <= Quota(b, percent, minimum)
  {
    assert a * percent <= b * percent;
  }

  lemma WithoutCounts(stamps: seq<nat>, i: nat)
    requires i < |stamps|
    ensures multiset(stamps) == multiset(Without(stamps, i)) + multiset{stamps[i]}
  {
    assert stamps == stamps[..i] + [stamps[i]] + stamps[i + 1..];
  }

  lemma StampsStep(s: Sys, l: Label)
    requires StampsOk(s) && Enabled(s, l)
    ensures StampsOk(Next(s, l))
  {
    if l.GiveBack? {
      WithoutCounts(s.stamps, l.i);
    }
  }

  lemma SortedStep(s: Sys, l: Label)
    requires Sorted(s.stamps) && Enabled(s, l)
    requires l.Flag? ==> forall b :: b in s.stamps ==> b <= l.b
    ensures Sorted(Next(s, l).stamps)
  {
    var t := Next(s, l);
    if l.GiveBack? {
      assert forall k :: 0 <= k < |t.stamps| ==> t.stamps[k] == s.stamps[if k < l.i then k else k + 1];
    } else if l.Flag? {
      assert forall k :: 0 <= k < |s.stamps| ==> t.stamps[k] == s.stamps[k] && s.stamps[k] in s.stamps;
    }
  }

  /** Flags and counters agree in every run, whatever the stamps. */
  lemma {:induction false} RunStamps(tr: Trace)
    requires Run(tr)
    ensures StampsOk(tr.state)
  {
    if tr.Then? {
      RunStamps(tr.before);
      StampsStep(tr.before.state, tr.step);
    }
  }

  lemma TotalsStep(s: Sys, l: Label)
    requires StampsOk(s) && All(s.total) == s.first + Sent(s.live) && Enabled(s, l)
    ensures var t := Next(s, l); All(t.total) == t.first + Sent(t.live)
  {
    match l
    case FirstAttempt(b) => PrefixBump(s.total, b, |s.total|);
    case Flag(_) => assert (s.live + [Counting({}, 0)])[..|s.live|] == s.live;
    case Resend(i, b) =>
      PrefixBump(s.total, b, |s.total|);
      SentUpdate(s.live, i, s.live[i].(sent := true));
    case GiveBack(i) => SentRemove(s.live, i);
    case _ => SentUpdate(s.live, l.i, Next(s, l).live[l.i]);
  }

  /** Attempts only grow, so what was read of them is never too much. */
  lemma TotalsGrow(s: Sys, l: Label, read: set<nat>)
    requires Enabled(s, l)
    ensures All(s.total) <= All(Next(s, l).total)
    ensures Part(s.total, read, |s.total|) <= Part(Next(s, l).total, read, |s.total|)
  {
    if l.FirstAttempt? || l.Resend? {
      PrefixBump(s.total, l.b, |s.total|);
      PartBump(s.total, read, l.b, |s.total|);
    }
  }

  /** A charge that is not the one acting, and keeps its place. */
  lemma OtherCharge(s: Sys, l: Label, i: nat)
    requires StampsOk(s) && Enabled(s, l) && i < |s.live| && ChargeOk(s, i)
    requires !l.GiveBack? && (l.FirstAttempt? || l.Flag? || l.i != i)
    ensures i < |Next(s, l).live| == |Next(s, l).stamps| && ChargeOk(Next(s, l), i)
  {
    var t := Next(s, l);
    TotalsGrow(s, l, if s.live[i].Tallying? then s.live[i].read else {});
    QuotaMonotone(All(s.total), All(t.total), s.percent, s.minimum);
    assert t.stamps[..i + 1] == s.stamps[..i + 1];
  }

  lemma ActingCharge(s: Sys, l: Label)
    requires StampsOk(s) && Sorted(s.stamps) && Enabled(s, l)
    requires !l.FirstAttempt? && !l.Flag? && !l.GiveBack? && ChargeOk(s, l.i)
    ensures l.i < |Next(s, l).live| == |Next(s, l).stamps| && ChargeOk(Next(s, l), l.i)
  {
    match l
    case ReadFlagged(i, b) => CountBucket(s, i, b);
    case StartTally(i) => CountedAll(s, i);
    case ReadTotal(i, b) => PartMore(s.total, s.live[i].read, b, |s.total|);
    case Decide(i) =>
      PartOfAll(s.total, s.live[i].read, |s.total|);
      QuotaMonotone(s.live[i].sum, All(s.total), s.percent, s.minimum);
    case Resend(i, b) =>
      TotalsGrow(s, l, {});
      QuotaMonotone(All(s.total), All(Next(s, l).total), s.percent, s.minimum);
  }

  lemma PrefixOfStamps(stamps: seq<nat>, n: nat)
    requires n <= |stamps|
    ensures multiset(stamps[..n]) <= multiset(stamps)
  {
    assert stamps == stamps[..n] + stamps[n..];
  }

  /** A bucket is read with every flag still counted in it, older flags included. */
  lemma CountBucket(s: Sys, i: nat, b: nat)
    requires StampsOk(s) && Enabled(s, ReadFlagged(i, b)) && ChargeOk(s, i)
    ensures ChargeOk(Next(s, ReadFlagged(i, b)), i)
  {
    PrefixOfStamps(s.stamps, i + 1);
    assert multiset(s.stamps[..i + 1])[b] <= s.flagged[b];
    SeenMore(multiset(s.stamps[..i + 1]), s.live[i].read, b, |s.flagged|);
  }

  /** With stamps in order, the buckets a reader counts hold every flag up to its own. */
  lemma CountedAll(s: Sys, i: nat)
    requires StampsOk(s) && Sorted(s.stamps) && Enabled(s, StartTally(i)) && ChargeOk(s, i)
    ensures i < s.live[i].sum
  {
    forall j | 0 <= j <= i ensures s.stamps[j] in s.live[i].read {
      assert s.stamps[j] in Upto(s.stamps[i] + 1);
    }
    SeenAll(s.stamps[..i + 1], s.live[i].read, |s.flagged|);
  }

  /** Flags behind the one given back move up, so what they saw still covers them. */
  lemma GiveBackCharge(s: Sys, i: nat, j: nat)
    requires Inv(s) && Enabled(s, GiveBack(i)) && j < |s.live| - 1
    ensures var t := Next(s, GiveBack(i)); j < |t.live| == |t.stamps| && ChargeOk(t, j)
  {
    var k := if j < i then j else j + 1;
    assert ChargeOk(s, k);
    FewerStamps(s.stamps, i, j);
    MovedUp(s, Next(s, GiveBack(i)), k, j);
  }

  lemma MovedUp(s: Sys, t: Sys, k: nat, j: nat)
    requires k < |s.live| == |s.stamps| && ChargeOk(s, k) && j < |t.live| == |t.stamps|
    requires (t.percent, t.minimum, t.total) == (s.percent, s.minimum, s.total)
    requires j <= k && t.live[j] == s.live[k] && multiset(t.stamps[..j + 1]) <= multiset(s.stamps[..k + 1])
    ensures ChargeOk(t, j)
  {
    if s.live[k].Counting? {
      SeenMonotone(multiset(t.stamps[..j + 1]), multiset(s.stamps[..k + 1]), s.live[k].read, |s.flagged|);
    }
  }

  lemma FewerStamps(stamps: seq<nat>, i: nat, j: nat)
    requires i < |stamps| && j < |stamps| - 1
    ensures multiset(Without(stamps, i)[..j + 1]) <= multiset(stamps[..(if j < i then j else j + 1) + 1])
  {
    if j < i {
      assert Without(stamps, i)[..j + 1] == stamps[..j + 1];
    } else {
      WithoutCounts(stamps[..j + 2], i);
      assert Without(stamps, i)[..j + 1] == Without(stamps[..j + 2], i);
    }
  }

  lemma NewCharge(s: Sys, b: nat)
    requires StampsOk(s) && b < BUCKETS
    ensures ChargeOk(Next(s, Label.Flag(b)), |s.live|)
  {
    SeenNothing(multiset(Next(s, Label.Flag(b)).stamps[..|s.live| + 1]), |s.flagged|);
  }

  lemma ChargesStep(s: Sys, l: Label)
    requires Inv(s) && Enabled(s, l) && StampsOk(Next(s, l))
    ensures var t := Next(s, l); forall j :: 0 <= j < |t.live| ==> ChargeOk(t, j)
  {
    var t := Next(s, l);
    forall j | 0 <= j < |t.live| ensures ChargeOk(t, j) {
      if l.GiveBack? {
        GiveBackCharge(s, l.i, j);
      } else if j == |s.live| {
        NewCharge(s, l.b);
      } else if l.FirstAttempt? || l.Flag? || l.i != j {
        OtherCharge(s, l, j);
      } else {
        ActingCharge(s, l);
      }
    }
  }

  lemma {:induction false} RunInv(tr: Trace)
    requires Run(tr) && InOrder(tr)
    ensures Inv(tr.state)
  {
    if tr.Then? {
      RunInv(tr.before);
      StampsStep(tr.before.state, tr.step);
      SortedStep(tr.before.state, tr.step);
      TotalsStep(tr.before.state, tr.step);
      ChargesStep(tr.before.state, tr.step);
    } else {
      PrefixZero(tr.state.total, |tr.state.total|);
    }
  }

  // ---- The bound ---------------------------------------------------------

  /** If every allowed charge sits below `cap`, there are at most `cap` of them. */
  lemma {:induction false} AllowedBelow(live: seq<Charge>, cap: nat)
    requires forall i :: 0 <= i < |live| && live[i].Granted? ==> i < cap
    ensures Retried(live) <= cap
    decreases |live|
  {
    if live != [] {
      var n := |live| - 1;
      if live[n].Granted? {
        SentIsAllowed(live);
      } else {
        AllowedBelow(live[..n], cap);
      }
    }
  }

  lemma RetriedWithinQuota(s: Sys)
    requires Inv(s)
    ensures Retried(s.live) <= Quota(All(s.total), s.percent, s.minimum)
  {
    var quota := Quota(All(s.total), s.percent, s.minimum);
    forall i | 0 <= i < |s.live| && s.live[i].Granted? ensures i < quota {
      assert ChargeOk(s, i);
    }
    AllowedBelow(s.live, quota);
  }

  /** Every attempt the origin has seen, or will once the retries already allowed are sent. */
  function Load(s: Sys): nat {
    s.first + Retried(s.live)
  }

  predicate WithinShare(retried: nat, load: nat, percent: nat, minimum: nat) {
    100 * retried <= Max(percent * load, 100 * minimum)
  }

  /** Whatever the interleaving, allowed retries stay within the quota of all the attempts they lead to. */
  lemma RetriesWithinShare(tr: Trace)
    requires Run(tr) && InOrder(tr)
    ensures All(tr.state.total) <= Load(tr.state)
    ensures WithinShare(Retried(tr.state.live), Load(tr.state), tr.state.percent, tr.state.minimum)
  {
    RunInv(tr);
    var s := tr.state;
    SentIsAllowed(s.live);
    RetriedWithinQuota(s);
    QuotaBound(Retried(s.live), All(s.total), Load(s), s.percent, s.minimum);
  }

  lemma QuotaBound(retried: nat, total: nat, load: nat, percent: nat, minimum: nat)
    requires total <= load && retried <= Quota(total, percent, minimum)
    ensures WithinShare(retried, load, percent, minimum)
  {
    assert total * percent <= load * percent;
  }

  /** The load is at most `100 / (100 - percent)` times the demand. */
  predicate Amplifies(load: nat, first: nat, percent: nat) {
    load * (100 - percent) <= 100 * first
  }

  /** With no minimum and a share below one, the origin's load stays within a constant factor of the demand. */
  lemma AmplificationBounded(tr: Trace)
    requires Run(tr) && InOrder(tr) && tr.state.minimum == 0 && tr.state.percent < 100
    ensures var s := tr.state;
            All(s.total) <= Load(s) && Amplifies(Load(s), s.first, s.percent)
  {
    RetriesWithinShare(tr);
    Rearranged(tr.state.first, Retried(tr.state.live), Load(tr.state), tr.state.percent);
  }

  lemma Rearranged(first: nat, retried: nat, load: nat, percent: nat)
    requires load == first + retried && percent < 100
    ensures WithinShare(retried, load, percent, 0) <==> Amplifies(load, first, percent)
  {
    assert load * (100 - percent) == 100 * load - percent * load;
    assert percent * load >= 0;
  }

  /** Once every charge has been settled, the flagged count is the number of allowed retries: refusals left no trace. */
  lemma RefusalsLeaveNoTrace(tr: Trace)
    requires Run(tr) && forall c :: c in tr.state.live ==> c.Granted?
    ensures All(tr.state.flagged) == Retried(tr.state.live)
  {
    RunStamps(tr);
    AllGranted(tr.state.live);
    FlaggedIsLive(tr.state, |tr.state.flagged|);
    SeenAll(tr.state.stamps, Upto(BUCKETS), |tr.state.flagged|);
  }

  lemma {:induction false} FlaggedIsLive(s: Sys, n: nat)
    requires StampsOk(s) && n <= BUCKETS
    ensures Prefix(s.flagged, n) == Seen(multiset(s.stamps), Upto(BUCKETS), n)
    decreases n
  {
    if n > 0 {
      FlaggedIsLive(s, n - 1);
    }
  }

  lemma {:induction false} AllGranted(live: seq<Charge>)
    requires forall c :: c in live ==> c.Granted?
    ensures Retried(live) == |live|
    decreases |live|
  {
    if live != [] {
      assert live[|live| - 1] in live;
      AllGranted(live[..|live| - 1]);
    }
  }
}
