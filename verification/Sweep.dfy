/**
  Making room: what one `reserve` call does to the shelf. The eviction loop is
  described in closed form by how far it scanned and how many victims it took.
 */
module Sweeps {
  import opened Machine
  import opened Sums
  import opened Shelves

  /** Victims in the order one sweep would take them: cold keys, then hot keys. */
  function Candidates(q: seq<Key>, hot: set<Key>): seq<Key> {
    Without(q, hot) + Keep(q, hot)
  }

  lemma CandidatesPermute(q: seq<Key>, hot: set<Key>)
    ensures |Candidates(q, hot)| == |q|
    ensures multiset(Candidates(q, hot)) == multiset(q)
  {
    FilterLengths(q, hot);
    forall k ensures multiset(Candidates(q, hot))[k] == multiset(q)[k] {
      FilterCounts(q, hot, k);
    }
  }

  /** Length of the shortest prefix of `c` that frees `need` bytes, or of all of `c`. */
  function Shortest(cached: map<Key, Stored>, c: seq<Key>, need: int): nat {
    if need <= 0 || c == [] then 0
    else 1 + Shortest(cached, c[1..], need - SizeAt(cached, c[0]))
  }

  function SizeAt(cached: map<Key, Stored>, k: Key): nat {
    if k in cached then Size(cached[k]) else 0
  }

  /** Length of the shortest prefix of `q` holding `k` keys outside `hot`, or of all of `q`. */
  function ScanEnd(q: seq<Key>, hot: set<Key>, k: nat): nat {
    if k == 0 || q == [] then 0
    else 1 + ScanEnd(q[1..], hot, if q[0] in hot then k else k - 1)
  }

  ghost predicate InSweep(sh: Shelf, hot: set<Key>, i: nat, m: nat) {
    && i <= |sh.order|
    && m <= |Candidates(sh.order, hot)|
    && |Without(sh.order[..i], hot)| <= m
    && (i < |sh.order| ==> |Without(sh.order[..i], hot)| == m)
  }

  /** The shelf after examining `i` queue positions once and discarding `m` candidates. */
  ghost function Swept(sh: Shelf, hot: set<Key>, i: nat, m: nat): Shelf
    requires WellFormed(sh) && InSweep(sh, hot, i, m)
  {
    var gone := Elements(Candidates(sh.order, hot)[..m]);
    CompletedShrinks(sh.cached, gone);
    Shelf(sh.cached - gone,
          sh.visited - hot * Elements(sh.order[..i]) - gone,
          SweptOrder(sh.order, hot, i, m),
          sh.used - (Completed(sh.cached) - Completed(sh.cached - gone)))
  }

  ghost function SweptOrder(q: seq<Key>, hot: set<Key>, i: nat, m: nat): seq<Key>
    requires i <= |q| && m <= |Candidates(q, hot)|
    requires |Without(q[..i], hot)| <= m && (i < |q| ==> |Without(q[..i], hot)| == m)
  {
    SweepLengths(q, hot, i, m);
    (q[i..] + Keep(q[..i], hot))[m - |Without(q[..i], hot)|..]
  }

  lemma SweepLengths(q: seq<Key>, hot: set<Key>, i: nat, m: nat)
    requires i <= |q| && m <= |Candidates(q, hot)|
    requires |Without(q[..i], hot)| <= m && (i < |q| ==> |Without(q[..i], hot)| == m)
    ensures m - |Without(q[..i], hot)| <= |q[i..] + Keep(q[..i], hot)|
  {
    if i == |q| {
      assert q[..i] == q;
    }
  }

  ghost function Hot(sh: Shelf, policy: Eviction): set<Key> {
    if policy.Clock? then sh.visited else {}
  }

  /** How many victims a reservation of `n` bytes takes. */
  ghost function VictimCount(sh: Shelf, policy: Eviction, max: nat, n: nat): (k: nat)
    requires WellFormed(sh)
    ensures k <= |Candidates(sh.order, Hot(sh, policy))|
  {
    var c := Candidates(sh.order, Hot(sh, policy));
    ShortestBound(sh.cached, c, sh.used + n - max);
    Shortest(sh.cached, c, sh.used + n - max)
  }

  /** The critical section of `reserve`: the shelf it leaves and whether it succeeded. */
  ghost function Reserve(sh: Shelf, policy: Eviction, max: nat, n: nat): (Shelf, bool)
    requires WellFormed(sh)
  {
    if n > max then (sh, false) else
      var hot := Hot(sh, policy);
      var k := VictimCount(sh, policy, max, n);
      ScanEndInSweep(sh, hot, k);
      var swept := Swept(sh, hot, ScanEnd(sh.order, hot, k), k);
      if swept.used + n <= max then (swept.(used := swept.used + n), true) else (swept, false)
  }

  lemma {:induction false} ShortestBound(cached: map<Key, Stored>, c: seq<Key>, need: int)
    ensures Shortest(cached, c, need) <= |c|
    decreases |c|
  {
    if need > 0 && c != [] {
      ShortestBound(cached, c[1..], need - SizeAt(cached, c[0]));
    }
  }

  lemma {:induction false} ScanEndCounts(q: seq<Key>, hot: set<Key>, k: nat)
    ensures ScanEnd(q, hot, k) <= |q|
    ensures k <= |Without(q, hot)| ==> |Without(q[..ScanEnd(q, hot, k)], hot)| == k
    ensures k > |Without(q, hot)| ==> ScanEnd(q, hot, k) == |q|
    decreases |q|
  {
    if k > 0 && q != [] {
      var k' := if q[0] in hot then k else k - 1;
      ScanEndCounts(q[1..], hot, k');
      WithoutHead(q, hot);
      var e := ScanEnd(q[1..], hot, k');
      WithoutHead(q[..e + 1], hot);
      TailOfPrefix(q, e);
    }
  }

  lemma TailOfPrefix(q: seq<Key>, i: nat)
    requires i < |q|
    ensures q[..i + 1][1..] == q[1..][..i]
  {
    assert forall j :: 0 <= j < i ==> q[..i + 1][1..][j] == q[j + 1] == q[1..][..i][j];
  }

  lemma ScanEndInSweep(sh: Shelf, hot: set<Key>, k: nat)
    requires k <= |Candidates(sh.order, hot)|
    ensures InSweep(sh, hot, ScanEnd(sh.order, hot, k), k)
  {
    var q := sh.order;
    ScanEndCounts(q, hot, k);
    if k > |Without(q, hot)| {
      assert q[..|q|] == q;
    }
  }

  /** Where a scan stands once it has just taken its latest victim. */
  lemma {:induction false} ScanEndAt(q: seq<Key>, hot: set<Key>, i: nat)
    requires i < |q| && q[i] !in hot
    ensures ScanEnd(q, hot, |Without(q[..i + 1], hot)|) == i + 1
    decreases |q|
  {
    WithoutHead(q[..i + 1], hot);
    TailOfPrefix(q, i);
    if i > 0 {
      ScanEndAt(q[1..], hot, i - 1);
      WithoutLast(q[1..][..i], hot);
    }
  }

  lemma WithoutLast(q: seq<Key>, s: set<Key>)
    requires q != [] && q[|q| - 1] !in s
    ensures |Without(q, s)| > 0
  {}

  lemma WithoutHead(q: seq<Key>, s: set<Key>)
    requires q != []
    ensures Without(q, s) == (if q[0] in s then [] else [q[0]]) + Without(q[1..], s)
  {
    WithoutConcat([q[0]], q[1..], s);
    assert [q[0]] + q[1..] == q;
    WithoutOne(q[0], s);
  }

  lemma WithoutOne(k: Key, s: set<Key>)
    ensures Without([k], s) == if k in s then [] else [k]
  {
    assert [k][..0] == [];
  }

  // ---- One turn of the eviction loop -------------------------------------

  /** A hot key at the front loses its bit and goes to the back. */
  lemma SpareStep(sh: Shelf, hot: set<Key>, i: nat, m: nat)
    requires WellFormed(sh) && InSweep(sh, hot, i, m)
    requires i < |sh.order| && sh.order[i] in hot
    ensures InSweep(sh, hot, i + 1, m)
    ensures var a := Swept(sh, hot, i, m);
            && a.order != [] && a.order[0] == sh.order[i]
            && Swept(sh, hot, i + 1, m)
               == a.(visited := a.visited - {a.order[0]}, order := a.order[1..] + [a.order[0]])
  {
    var q := sh.order;
    PrefixPush(q, hot, i);
    var a := Swept(sh, hot, i, m);
    assert a.order == q[i..] + Keep(q[..i], hot);
    assert Swept(sh, hot, i + 1, m).order == a.order[1..] + [a.order[0]];
    assert Elements(q[..i + 1]) == Elements(q[..i]) + {q[i]};
  }

  /** A cold key at the front is the next candidate and is discarded. */
  lemma EvictColdStep(sh: Shelf, hot: set<Key>, i: nat, m: nat)
    requires WellFormed(sh) && InSweep(sh, hot, i, m)
    requires i < |sh.order| && sh.order[i] !in hot
    ensures InSweep(sh, hot, i + 1, m + 1)
    ensures m < |Candidates(sh.order, hot)|
    ensures var a := Swept(sh, hot, i, m);
            && a.order != [] && a.order[0] == sh.order[i] == Candidates(sh.order, hot)[m]
            && a.order[0] in a.cached && Size(a.cached[a.order[0]]) <= a.used
            && Swept(sh, hot, i + 1, m + 1) == DiscardFront(a)
  {
    var q := sh.order;
    SweptOrderCold(q, hot, i);
    TakeCandidate(sh, hot, i, m);
    assert q[..i + 1] == q[..i] + [q[i]];
    assert hot * Elements(q[..i + 1]) == hot * Elements(q[..i]);
  }

  /** Once the whole queue was examined, the spared keys go in queue order. */
  lemma EvictHotStep(sh: Shelf, hot: set<Key>, m: nat)
    requires WellFormed(sh) && InSweep(sh, hot, |sh.order|, m)
    requires m < |Candidates(sh.order, hot)|
    ensures InSweep(sh, hot, |sh.order|, m + 1)
    ensures var a := Swept(sh, hot, |sh.order|, m);
            && a.order == Candidates(sh.order, hot)[m..]
            && a.order[0] in a.cached && Size(a.cached[a.order[0]]) <= a.used
            && Swept(sh, hot, |sh.order|, m + 1) == DiscardFront(a)
  {
    SweptOrderHot(sh.order, hot, m);
    TakeCandidate(sh, hot, |sh.order|, m);
  }

  ghost function DiscardFront(a: Shelf): Shelf
    requires a.order != [] && a.order[0] in a.cached && Size(a.cached[a.order[0]]) <= a.used
  {
    var k := a.order[0];
    Shelf(a.cached - {k}, a.visited - {k}, a.order[1..], a.used - Size(a.cached[k]))
  }

  lemma PrefixPush(q: seq<Key>, hot: set<Key>, i: nat)
    requires i < |q|
    ensures Keep(q[..i + 1], hot) == Keep(q[..i], hot) + (if q[i] in hot then [q[i]] else [])
    ensures Without(q[..i + 1], hot) == Without(q[..i], hot) + (if q[i] in hot then [] else [q[i]])
  {
    FilterPush(q[..i], q[i], hot);
    assert q[..i] + [q[i]] == q[..i + 1];
  }

  /** Discarding one more candidate removes exactly that entry and its bytes. */
  lemma TakeCandidate(sh: Shelf, hot: set<Key>, i: nat, m: nat)
    requires WellFormed(sh) && InSweep(sh, hot, i, m)
    requires m < |Candidates(sh.order, hot)|
    ensures var c := Candidates(sh.order, hot);
            var a := Swept(sh, hot, i, m);
            && c[m] in a.cached
            && Elements(c[..m + 1]) == Elements(c[..m]) + {c[m]}
            && sh.cached - Elements(c[..m + 1]) == a.cached - {c[m]}
            && Completed(a.cached) == Size(a.cached[c[m]]) + Completed(a.cached - {c[m]})
            && Size(a.cached[c[m]]) <= a.used
  {
    var c := Candidates(sh.order, hot);
    CandidatesPermute(sh.order, hot);
    OccursOnce(c, m);
    ElementsPush(c, m);
    assert c[m] in multiset(sh.cached.Keys);
    CompletedRemove(sh.cached - Elements(c[..m]), c[m]);
    assert sh.cached - Elements(c[..m + 1]) == sh.cached - Elements(c[..m]) - {c[m]};
  }

  lemma ElementsPush(c: seq<Key>, m: nat)
    requires m < |c|
    ensures Elements(c[..m + 1]) == Elements(c[..m]) + {c[m]}
  {
    assert c[..m + 1] == c[..m] + [c[m]];
  }

  lemma SweptOrderCold(q: seq<Key>, hot: set<Key>, i: nat)
    requires i < |q| && q[i] !in hot
    ensures var m := |Without(q[..i], hot)|;
            && m + 1 <= |Candidates(q, hot)| && Candidates(q, hot)[m] == q[i]
            && |Without(q[..i + 1], hot)| == m + 1
            && SweptOrder(q, hot, i, m) != [] && SweptOrder(q, hot, i, m)[0] == q[i]
            && SweptOrder(q, hot, i + 1, m + 1) == SweptOrder(q, hot, i, m)[1..]
  {
    PrefixPush(q, hot, i);
    FirstColdIsCandidate(q, hot, i);
  }

  lemma SweptOrderHot(q: seq<Key>, hot: set<Key>, m: nat)
    requires |Without(q[..|q|], hot)| <= m < |Candidates(q, hot)|
    ensures SweptOrder(q, hot, |q|, m) == Candidates(q, hot)[m..]
    ensures SweptOrder(q, hot, |q|, m + 1) == Candidates(q, hot)[m..][1..]
  {
    assert q[..|q|] == q;
  }

  lemma FirstColdIsCandidate(q: seq<Key>, hot: set<Key>, i: nat)
    requires i < |q| && q[i] !in hot
    ensures var m := |Without(q[..i], hot)|;
            m + 1 <= |Candidates(q, hot)| && Candidates(q, hot)[m] == q[i]
  {
    PrefixPush(q, hot, i);
    FilterConcat(q[..i + 1], q[i + 1..], hot);
    assert q[..i + 1] + q[i + 1..] == q;
  }

  /** What the loop finds at the front of the queue, and what each choice leads to. */
  ghost predicate TurnLeads(sh: Shelf, policy: Eviction, i: nat, m: nat)
    requires WellFormed(sh) && InSweep(sh, Hot(sh, policy), i, m)
  {
    var hot := Hot(sh, policy);
    var c := Candidates(sh.order, hot);
    var a := Swept(sh, hot, i, m);
    var warm := i < |sh.order| && sh.order[i] in hot;
    var i' := if i < |sh.order| then i + 1 else i;
    && |c| == |sh.order|
    && (a.order == [] ==> i == |sh.order| && m == |c|)
    && (a.order != [] ==> (warm <==> policy.Clock? && a.order[0] in a.visited))
    && (warm ==>
          && a.order != [] && InSweep(sh, hot, i + 1, m)
          && Swept(sh, hot, i + 1, m)
             == a.(visited := a.visited - {a.order[0]}, order := a.order[1..] + [a.order[0]]))
    && (a.order != [] && !warm ==>
          && m < |c| && a.order[0] == c[m] && InSweep(sh, hot, i', m + 1)
          && a.order[0] in a.cached && Size(a.cached[a.order[0]]) <= a.used
          && Swept(sh, hot, i', m + 1) == DiscardFront(a))
  }

  lemma SweepTurn(sh: Shelf, policy: Eviction, i: nat, m: nat)
    requires WellFormed(sh) && InSweep(sh, Hot(sh, policy), i, m)
    ensures TurnLeads(sh, policy, i, m)
  {
    if i < |sh.order| {
      FirstPassTurn(sh, policy, i, m);
    } else {
      LastPassTurn(sh, policy, m);
    }
  }

  lemma FirstPassTurn(sh: Shelf, policy: Eviction, i: nat, m: nat)
    requires WellFormed(sh) && InSweep(sh, Hot(sh, policy), i, m) && i < |sh.order|
    ensures TurnLeads(sh, policy, i, m)
  {
    var hot := Hot(sh, policy);
    CandidatesPermute(sh.order, hot);
    FrontBit(sh, policy, i, m);
    if sh.order[i] in hot {
      SpareStep(sh, hot, i, m);
    } else {
      EvictColdStep(sh, hot, i, m);
    }
  }

  lemma LastPassTurn(sh: Shelf, policy: Eviction, m: nat)
    requires WellFormed(sh) && InSweep(sh, Hot(sh, policy), |sh.order|, m)
    ensures TurnLeads(sh, policy, |sh.order|, m)
  {
    var hot := Hot(sh, policy);
    CandidatesPermute(sh.order, hot);
    if policy.Clock? {
      BitsSpent(sh, m);
    }
    if m < |Candidates(sh.order, hot)| {
      EvictHotStep(sh, hot, m);
    } else {
      LastPassOrder(sh.order, hot, m);
    }
  }

  /** Under Clock, once the whole queue was examined no bit is left. */
  lemma BitsSpent(sh: Shelf, m: nat)
    requires WellFormed(sh) && InSweep(sh, sh.visited, |sh.order|, m)
    ensures Swept(sh, sh.visited, |sh.order|, m).visited == {}
  {
    assert sh.order[..|sh.order|] == sh.order;
    forall k | k in sh.visited ensures k in Elements(sh.order) {
      assert k in multiset(sh.cached.Keys);
    }
  }

  /** During the first pass the front key still has the bit it started with. */
  lemma FrontBit(sh: Shelf, policy: Eviction, i: nat, m: nat)
    requires WellFormed(sh) && InSweep(sh, Hot(sh, policy), i, m) && i < |sh.order|
    ensures var a := Swept(sh, Hot(sh, policy), i, m);
            && a.order != [] && a.order[0] == sh.order[i]
            && (a.order[0] in a.visited <==> sh.order[i] in sh.visited)
  {
    var q, hot := sh.order, Hot(sh, policy);
    ScannedVictims(q, hot, i);
    assert multiset(q)[q[i]] <= 1;
    OccursOnce(q, i);
    NotAmong(q[..i], hot, q[i]);
  }

  lemma NotAmong(q: seq<Key>, hot: set<Key>, k: Key)
    requires k !in q
    ensures k !in Without(q, hot)
  {
    WithoutCounts(q, hot, k);
    assert k !in multiset(q);
    assert k !in multiset(Without(q, hot));
  }

  /** The victims of a first pass are the cold keys scanned so far. */
  lemma ScannedVictims(q: seq<Key>, hot: set<Key>, i: nat)
    requires i <= |q|
    ensures |Without(q[..i], hot)| <= |Candidates(q, hot)|
    ensures Candidates(q, hot)[..|Without(q[..i], hot)|] == Without(q[..i], hot)
  {
    FilterConcat(q[..i], q[i..], hot);
    assert q == q[..i] + q[i..];
  }

  /** A sweep that emptied the queue scanned all of it. */
  lemma SweepEnds(sh: Shelf, hot: set<Key>)
    requires WellFormed(sh)
    ensures ScanEnd(sh.order, hot, |Candidates(sh.order, hot)|) == |sh.order|
  {
    var q, k := sh.order, |Candidates(sh.order, hot)|;
    CandidatesPermute(q, hot);
    ScanEndCounts(q, hot, k);
    FilterLengths(q[..ScanEnd(q, hot, k)], hot);
  }

  /** The eviction loop's invariant: `now` is the shelf after `i` examinations and `m` victims. */
  ghost predicate Sweeping(sh: Shelf, policy: Eviction, max: nat, n: nat, i: nat, m: nat, now: Shelf)
    requires WellFormed(sh)
  {
    var hot := Hot(sh, policy);
    var c := Candidates(sh.order, hot);
    && InSweep(sh, hot, i, m) && now == Swept(sh, hot, i, m)
    && VictimCount(sh, policy, max, n) == m + Shortest(sh.cached, c[m..], now.used + n - max)
    && (now.used + n <= max ==> i == ScanEnd(sh.order, hot, m))
  }

  lemma SweepStarts(sh: Shelf, policy: Eviction, max: nat, n: nat)
    requires WellFormed(sh)
    ensures Sweeping(sh, policy, max, n, 0, 0, sh)
  {
    var c := Candidates(sh.order, Hot(sh, policy));
    NothingSwept(sh, Hot(sh, policy));
    assert c[0..] == c;
  }

  lemma NothingSwept(sh: Shelf, hot: set<Key>)
    requires WellFormed(sh)
    ensures InSweep(sh, hot, 0, 0) && Swept(sh, hot, 0, 0) == sh
  {
    assert Without(sh.order[..0], hot) == [] && Keep(sh.order[..0], hot) == [];
    assert SweptOrder(sh.order, hot, 0, 0) == sh.order;
    assert Elements(Candidates(sh.order, hot)[..0]) == {} && Elements(sh.order[..0]) == {};
    assert sh.cached - {} == sh.cached;
  }

  lemma SweepSpares(sh: Shelf, policy: Eviction, max: nat, n: nat, i: nat, m: nat, now: Shelf)
    requires WellFormed(sh) && Sweeping(sh, policy, max, n, i, m, now)
    requires now.used + n > max
    requires now.order != [] && policy.Clock? && now.order[0] in now.visited
    ensures i < |sh.order|
    ensures Sweeping(sh, policy, max, n, i + 1, m,
              now.(visited := now.visited - {now.order[0]}, order := now.order[1..] + [now.order[0]]))
  {
    SweepTurn(sh, policy, i, m);
  }

  lemma SweepEvicts(sh: Shelf, policy: Eviction, max: nat, n: nat, i: nat, m: nat, now: Shelf)
    requires WellFormed(sh) && Sweeping(sh, policy, max, n, i, m, now)
    requires now.used + n > max
    requires now.order != [] && !(policy.Clock? && now.order[0] in now.visited)
    ensures now.order[0] in now.cached && Size(now.cached[now.order[0]]) <= now.used
    ensures Sweeping(sh, policy, max, n, if i < |sh.order| then i + 1 else i, m + 1, DiscardFront(now))
  {
    SweepTurn(sh, policy, i, m);
    SweepCounts(sh, policy, max, n, i, m, now, if i < |sh.order| then i + 1 else i, m + 1, DiscardFront(now));
  }

  lemma SweepCounts(
      sh: Shelf, policy: Eviction, max: nat, n: nat, i: nat, m: nat, now: Shelf, i': nat, m': nat, after: Shelf)
    requires WellFormed(sh) && Sweeping(sh, policy, max, n, i, m, now) && TurnLeads(sh, policy, i, m)
    requires now.used + n > max && now.order != [] && !(policy.Clock? && now.order[0] in now.visited)
    requires now.order[0] in now.cached && Size(now.cached[now.order[0]]) <= now.used && after == DiscardFront(now)
    requires i' == (if i < |sh.order| then i + 1 else i) && m' == m + 1
    ensures Sweeping(sh, policy, max, n, i', m', after)
  {
    var hot := Hot(sh, policy);
    VictimSize(sh, hot, i, m, now, after);
    CountNext(sh.cached, Candidates(sh.order, hot), VictimCount(sh, policy, max, n), m, m', now.used, after.used, n, max);
    ScanEndNext(sh, policy, i, m);
  }

  lemma VictimSize(sh: Shelf, hot: set<Key>, i: nat, m: nat, now: Shelf, after: Shelf)
    requires WellFormed(sh) && InSweep(sh, hot, i, m) && now == Swept(sh, hot, i, m)
    requires m < |Candidates(sh.order, hot)| && now.order != [] && now.order[0] == Candidates(sh.order, hot)[m]
    requires now.order[0] in now.cached && Size(now.cached[now.order[0]]) <= now.used && after == DiscardFront(now)
    ensures after.used == now.used - SizeAt(sh.cached, Candidates(sh.order, hot)[m])
  {
    TakeCandidate(sh, hot, i, m);
  }

  lemma CountNext(
      cached: map<Key, Stored>, c: seq<Key>, count: nat, m: nat, m': nat, used: int, used': int, n: nat, max: nat)
    requires m < |c| && m' == m + 1 && used + n > max && used' == used - SizeAt(cached, c[m])
    requires count == m + Shortest(cached, c[m..], used + n - max)
    ensures count == m' + Shortest(cached, c[m'..], used' + n - max)
  {
    ShortestTail(cached, c, m, m', used + n - max, used' + n - max);
  }

  lemma ShortestTail(cached: map<Key, Stored>, c: seq<Key>, m: nat, m': nat, need: int, rest: int)
    requires m < |c| && m' == m + 1 && need > 0 && rest == need - SizeAt(cached, c[m])
    ensures m + Shortest(cached, c[m..], need) == m' + Shortest(cached, c[m'..], rest)
  {
    assert c[m..][0] == c[m];
    assert c[m..][1..] == c[m'..];
  }

  lemma ScanEndNext(sh: Shelf, policy: Eviction, i: nat, m: nat)
    requires WellFormed(sh) && InSweep(sh, Hot(sh, policy), i, m)
    requires i < |sh.order| ==> sh.order[i] !in Hot(sh, policy)
    ensures ScanEnd(sh.order, Hot(sh, policy), m + 1) == if i < |sh.order| then i + 1 else i
  {
    var q, hot := sh.order, Hot(sh, policy);
    if i < |q| {
      PrefixPush(q, hot, i);
      ScanEndAt(q, hot, i);
    } else {
      assert q[..i] == q;
      ScanEndCounts(q, hot, m + 1);
    }
  }

  /**
    One turn of the source's eviction loop on a non-empty queue. `chances` bounds
    how many keys may be spared; a queued key with no entry is dropped.
   */
  function Turn(now: Shelf, chances: nat): (Shelf, nat)
    requires now.order != []
  {
    var k, rest := now.order[0], now.order[1..];
    if chances > 0 && k in now.visited then
      (now.(visited := now.visited - {k}, order := rest + [k]), chances - 1)
    else
      (Shelf(now.cached - {k}, now.visited - {k}, rest, SatSub(now.used, SizeAt(now.cached, k))), chances)
  }

  function Chances(policy: Eviction, order: seq<Key>): nat {
    if policy.Clock? then |order| + 1 else 0
  }

  function SweepLoop(now: Shelf, max: nat, n: nat, chances: nat): (Shelf, bool)
    decreases chances + |now.order|
  {
    if now.used + n <= max then (now.(used := now.used + n), true)
    else if now.order == [] then (now, false)
    else
      var (next, left) := Turn(now, chances);
      SweepLoop(next, max, n, left)
  }

  lemma SweepFits(sh: Shelf, policy: Eviction, max: nat, n: nat, i: nat, m: nat, now: Shelf)
    requires WellFormed(sh) && Sweeping(sh, policy, max, n, i, m, now)
    requires n <= max && now.used + n <= max
    ensures Reserve(sh, policy, max, n) == (now.(used := now.used + n), true)
  {}

  lemma SweepFails(sh: Shelf, policy: Eviction, max: nat, n: nat, i: nat, m: nat, now: Shelf)
    requires WellFormed(sh) && Sweeping(sh, policy, max, n, i, m, now)
    requires n <= max && now.used + n > max && now.order == []
    ensures Reserve(sh, policy, max, n) == (now, false)
  {
    SweepTurn(sh, policy, i, m);
    SweepEnds(sh, Hot(sh, policy));
  }

  /** Under Clock the chances always outlast the scan. */
  ghost predicate Chanced(sh: Shelf, policy: Eviction, i: nat, chances: nat) {
    if policy.Clock? then chances + i > |sh.order| else chances == 0
  }

  lemma TurnSpares(sh: Shelf, policy: Eviction, max: nat, n: nat, i: nat, m: nat, now: Shelf, chances: nat)
    requires WellFormed(sh) && Sweeping(sh, policy, max, n, i, m, now) && Chanced(sh, policy, i, chances)
    requires now.used + n > max && now.order != []
    requires policy.Clock? && now.order[0] in now.visited
    ensures chances > 0
    ensures Sweeping(sh, policy, max, n, i + 1, m, Turn(now, chances).0)
    ensures Chanced(sh, policy, i + 1, Turn(now, chances).1)
  {
    SweepSpares(sh, policy, max, n, i, m, now);
  }

  lemma TurnEvicts(sh: Shelf, policy: Eviction, max: nat, n: nat, i: nat, m: nat, now: Shelf, chances: nat)
    requires WellFormed(sh) && Sweeping(sh, policy, max, n, i, m, now) && Chanced(sh, policy, i, chances)
    requires now.used + n > max && now.order != []
    requires !(policy.Clock? && now.order[0] in now.visited)
    ensures var i' := if i < |sh.order| then i + 1 else i;
            && Sweeping(sh, policy, max, n, i', m + 1, Turn(now, chances).0)
            && Chanced(sh, policy, i', Turn(now, chances).1)
  {
    SweepEvicts(sh, policy, max, n, i, m, now);
    assert Turn(now, chances).0 == DiscardFront(now);
  }

  /** The loop reaches the closed form from every state of the sweep. */
  lemma {:induction false} LoopReaches(
      sh: Shelf, policy: Eviction, max: nat, n: nat, i: nat, m: nat, now: Shelf, chances: nat)
    requires WellFormed(sh) && n <= max
    requires Sweeping(sh, policy, max, n, i, m, now) && Chanced(sh, policy, i, chances)
    ensures SweepLoop(now, max, n, chances) == Reserve(sh, policy, max, n)
    decreases chances + |now.order|
  {
    if now.used + n <= max {
      SweepFits(sh, policy, max, n, i, m, now);
    } else if now.order == [] {
      SweepFails(sh, policy, max, n, i, m, now);
    } else {
      var (next, left) := Turn(now, chances);
      if policy.Clock? && now.order[0] in now.visited {
        TurnSpares(sh, policy, max, n, i, m, now, chances);
        LoopReaches(sh, policy, max, n, i + 1, m, next, left);
      } else {
        TurnEvicts(sh, policy, max, n, i, m, now, chances);
        LoopReaches(sh, policy, max, n, if i < |sh.order| then i + 1 else i, m + 1, next, left);
      }
    }
  }

  lemma SweepLoopIsReserve(sh: Shelf, policy: Eviction, max: nat, n: nat)
    requires WellFormed(sh) && n <= max
    ensures SweepLoop(sh, max, n, Chances(policy, sh.order))
         == Reserve(sh, policy, max, n)
  {
    SweepStarts(sh, policy, max, n);
    LoopReaches(sh, policy, max, n, 0, 0, sh, Chances(policy, sh.order));
  }

  lemma VisitedFits(sh: Shelf)
    requires WellFormed(sh)
    ensures |sh.visited| <= |sh.order|
  {
    SubsetSize(sh.visited, sh.cached.Keys);
    assert |multiset(sh.order)| == |multiset(sh.cached.Keys)|;
  }

  // ---- What a reservation guarantees -------------------------------------

  /** Bytes held by the listed entries. */
  ghost function Freed(cached: map<Key, Stored>, c: seq<Key>): nat {
    if c == [] then 0
    else SizeAt(cached, c[0]) + Freed(cached, c[1..])
  }

  lemma {:induction false} FreedIsDifference(cached: map<Key, Stored>, c: seq<Key>)
    requires multiset(c) <= multiset(cached.Keys)
    ensures Completed(cached) == Freed(cached, c) + Completed(cached - Elements(c))
    decreases |c|
  {
    if c == [] {
      assert cached - Elements(c) == cached;
    } else {
      var k, rest := c[0], c[1..];
      assert c == [k] + rest;
      assert k in multiset(c);
      CompletedRemove(cached, k);
      KeysMinusOne(cached.Keys, k, rest);
      assert (cached - {k}).Keys == cached.Keys - {k};
      FreedIsDifference(cached - {k}, rest);
      FreedElsewhere(cached, k, rest);
      assert cached - {k} - Elements(rest) == cached - Elements(c);
    }
  }

  lemma KeysMinusOne(keys: set<Key>, k: Key, rest: seq<Key>)
    requires multiset([k] + rest) <= multiset(keys)
    ensures k in keys && k !in multiset(rest)
    ensures multiset(rest) <= multiset(keys - {k})
  {
    assert multiset([k] + rest) == multiset{k} + multiset(rest);
    assert multiset([k] + rest)[k] <= multiset(keys)[k] <= 1;
    forall x ensures multiset(rest)[x] <= multiset(keys - {k})[x] {
      assert multiset([k] + rest)[x] <= multiset(keys)[x];
    }
  }

  lemma {:induction false} FreedElsewhere(cached: map<Key, Stored>, k: Key, c: seq<Key>)
    requires k !in multiset(c)
    ensures Freed(cached - {k}, c) == Freed(cached, c)
    decreases |c|
  {
    if c != [] {
      assert c == [c[0]] + c[1..];
      FreedElsewhere(cached, k, c[1..]);
    }
  }

  /** Stopping one victim earlier would not have been enough. */
  lemma {:induction false} ShortestIsLeast(cached: map<Key, Stored>, c: seq<Key>, need: int, j: nat)
    requires j <= Shortest(cached, c, need) <= |c|
    ensures j < Shortest(cached, c, need) ==> Freed(cached, c[..j]) < need
    ensures j == Shortest(cached, c, need) < |c| ==> need <= Freed(cached, c[..j])
    decreases |c|
  {
    if j > 0 {
      ShortestIsLeast(cached, c[1..], need - SizeAt(cached, c[0]), j - 1);
      assert c[..j][1..] == c[1..][..j - 1];
    }
  }

  /** Nothing is lost or duplicated by the rotation: the queue keeps what was not taken. */
  lemma SweptOrderCounts(q: seq<Key>, hot: set<Key>, i: nat, m: nat)
    requires i <= |q| && m <= |Candidates(q, hot)|
    requires |Without(q[..i], hot)| <= m && (i < |q| ==> |Without(q[..i], hot)| == m)
    ensures multiset(SweptOrder(q, hot, i, m)) + multiset(Candidates(q, hot)[..m]) == multiset(q)
  {
    if i == |q| {
      var c := Candidates(q, hot);
      LastPassOrder(q, hot, m);
      CandidatesPermute(q, hot);
      assert c == c[..m] + c[m..];
    } else {
      FirstPassCounts(q, hot, i);
    }
  }

  lemma LastPassOrder(q: seq<Key>, hot: set<Key>, m: nat)
    requires |Without(q[..|q|], hot)| <= m <= |Candidates(q, hot)|
    ensures SweptOrder(q, hot, |q|, m) == Candidates(q, hot)[m..]
  {
    assert q[..|q|] == q;
  }

  lemma FirstPassCounts(q: seq<Key>, hot: set<Key>, i: nat)
    requires i < |q|
    ensures var m := |Without(q[..i], hot)|;
            && m <= |Candidates(q, hot)|
            && SweptOrder(q, hot, i, m) == q[i..] + Keep(q[..i], hot)
            && multiset(SweptOrder(q, hot, i, m)) + multiset(Candidates(q, hot)[..m]) == multiset(q)
  {
    var cold, warm := Without(q[..i], hot), Keep(q[..i], hot);
    ScannedVictims(q, hot, i);
    CandidatesPermute(q[..i], hot);
    assert q == q[..i] + q[i..];
    Repartition(q[..i], q[i..], cold, warm);
  }

  lemma Repartition(front: seq<Key>, back: seq<Key>, cold: seq<Key>, warm: seq<Key>)
    requires multiset(cold + warm) == multiset(front)
    ensures multiset(back + warm) + multiset(cold) == multiset(front + back)
  {}

  lemma KeysWithout(keys: set<Key>, c: seq<Key>)
    requires multiset(c) <= multiset(keys)
    ensures multiset(keys - Elements(c)) == multiset(keys) - multiset(c)
  {
    forall k ensures multiset(keys - Elements(c))[k] == (multiset(keys) - multiset(c))[k] {
      assert k in multiset(c) <==> k in c;
    }
  }

  lemma SweptWellFormed(sh: Shelf, hot: set<Key>, i: nat, m: nat)
    requires WellFormed(sh) && InSweep(sh, hot, i, m)
    ensures WellFormed(Swept(sh, hot, i, m))
    ensures Pending(Swept(sh, hot, i, m)) == Pending(sh)
    ensures Swept(sh, hot, i, m).used == sh.used - Freed(sh.cached, Candidates(sh.order, hot)[..m])
  {
    var c := Candidates(sh.order, hot);
    SweptOrderCounts(sh.order, hot, i, m);
    KeysWithout(sh.cached.Keys, c[..m]);
    assert (sh.cached - Elements(c[..m])).Keys == sh.cached.Keys - Elements(c[..m]);
    FreedIsDifference(sh.cached, c[..m]);
  }

  /** A reservation keeps the shelf consistent and charges exactly what it granted. */
  lemma ReserveKeeps(sh: Shelf, policy: Eviction, max: nat, n: nat)
    requires WellFormed(sh)
    ensures var (sh', ok) := Reserve(sh, policy, max, n);
            && WellFormed(sh')
            && Pending(sh') == Pending(sh) + (if ok then n else 0)
            && (sh.used <= max ==> sh'.used <= max)
  {
    var hot, k := Hot(sh, policy), VictimCount(sh, policy, max, n);
    ScanEndInSweep(sh, hot, k);
    SweptWellFormed(sh, hot, ScanEnd(sh.order, hot, k), k);
  }

  /**
    The entries a reservation discards are the shortest prefix of the cold keys
    followed by the hot keys, each in queue order, that makes room.
   */
  lemma ReserveTakesShortestPrefix(sh: Shelf, policy: Eviction, max: nat, n: nat)
    requires WellFormed(sh) && n <= max
    ensures var (sh', ok) := Reserve(sh, policy, max, n);
            var c := Candidates(sh.order, Hot(sh, policy));
            var k := VictimCount(sh, policy, max, n);
            && multiset(c) == multiset(sh.cached.Keys)
            && sh'.cached == sh.cached - Elements(c[..k])
            && (forall j: nat :: j < k ==> sh.used - Freed(sh.cached, c[..j]) + n > max)
            && (ok <==> sh.used - Freed(sh.cached, c[..k]) + n <= max)
            && (!ok ==> k == |c|)
  {
    var hot, k := Hot(sh, policy), VictimCount(sh, policy, max, n);
    CandidatesPermute(sh.order, hot);
    ScanEndInSweep(sh, hot, k);
    SweptWellFormed(sh, hot, ScanEnd(sh.order, hot, k), k);
    forall j: nat | j <= k {
      VictimsLeast(sh, policy, max, n, j);
    }
  }

  lemma VictimsLeast(sh: Shelf, policy: Eviction, max: nat, n: nat, j: nat)
    requires WellFormed(sh)
    requires j <= VictimCount(sh, policy, max, n)
    ensures var c := Candidates(sh.order, Hot(sh, policy));
            var k := VictimCount(sh, policy, max, n);
            && (j < k ==> sh.used - Freed(sh.cached, c[..j]) + n > max)
            && (j == k < |c| ==> sh.used - Freed(sh.cached, c[..j]) + n <= max)
  {
    ShortestIsLeast(sh.cached, Candidates(sh.order, Hot(sh, policy)), sh.used + n - max, j);
  }

  /** Completed entries never cause a refusal; only bytes of unfinished fills can. */
  lemma ReserveSucceedsIff(sh: Shelf, policy: Eviction, max: nat, n: nat)
    requires WellFormed(sh)
    ensures Reserve(sh, policy, max, n).1 <==> Pending(sh) + n <= max
  {
    if n <= max {
      var c := Candidates(sh.order, Hot(sh, policy));
      ReserveTakesShortestPrefix(sh, policy, max, n);
      ReserveKeeps(sh, policy, max, n);
      var (sh', ok) := Reserve(sh, policy, max, n);
      if !ok {
        CandidatesPermute(sh.order, Hot(sh, policy));
        assert c[..|c|] == c;
        forall k ensures k !in sh'.cached {
          assert k in multiset(c) <==> k in c;
        }
      }
    }
  }
}
