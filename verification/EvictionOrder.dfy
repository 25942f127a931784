/** Which of two entries a reservation discards first, by their history in the store. */
module EvictionOrder {
  import opened Shelves
  import opened Sweeps
  import opened Sections
  import opened StoreProtocol
  import opened StoreInvariant
  import opened StoreHistory

  // ---- One reservation ---------------------------------------------------

  predicate Before(q: seq<Key>, a: Key, b: Key) {
    exists i, j :: 0 <= i < j < |q| && q[i] == a && q[j] == b
  }

  /** By place in the queue; under Clock an entry without its bit goes before one with it. */
  predicate GoesFirst(sh: Shelf, policy: Eviction, a: Key, b: Key) {
    if policy.Fifo? || (a in sh.visited <==> b in sh.visited) then Before(sh.order, a, b) else b in sh.visited
  }

  /** Of two entries, one goes first. */
  lemma OneGoesFirst(sh: Shelf, policy: Eviction, a: Key, b: Key)
    requires WellFormed(sh) && a in sh.cached && b in sh.cached && a != b
    ensures GoesFirst(sh, policy, a, b) || GoesFirst(sh, policy, b, a)
  {
    Queued(sh, a);
    Queued(sh, b);
    var i :| 0 <= i < |sh.order| && sh.order[i] == a;
    var j :| 0 <= j < |sh.order| && sh.order[j] == b;
  }

  lemma Queued(sh: Shelf, k: Key)
    requires WellFormed(sh)
    ensures k in sh.cached <==> k in sh.order
  {
    assert k in multiset(sh.order) <==> k in multiset(sh.cached.Keys);
  }

  lemma BeforePush(q: seq<Key>, last: Key, a: Key, b: Key)
    ensures Before(q + [last], a, b) <==> Before(q, a, b) || (a in q && b == last)
  {
    var all := q + [last];
    if Before(all, a, b) {
      var i, j :| 0 <= i < j < |all| && all[i] == a && all[j] == b;
      assert q[i] == a;
      if j < |q| {
        assert q[j] == b;
      }
    }
    if Before(q, a, b) || (a in q && b == last) {
      BeforeConcat(q, [last], a, b);
    }
  }

  lemma BeforeConcat(p: seq<Key>, q: seq<Key>, a: Key, b: Key)
    requires Before(p, a, b) || Before(q, a, b) || (a in p && b in q)
    ensures Before(p + q, a, b)
  {
    var all := p + q;
    if Before(p, a, b) {
      var i, j :| 0 <= i < j < |p| && p[i] == a && p[j] == b;
      assert all[i] == a && all[j] == b;
    } else if Before(q, a, b) {
      var i, j :| 0 <= i < j < |q| && q[i] == a && q[j] == b;
      assert all[|p| + i] == a && all[|p| + j] == b;
    } else {
      var i :| 0 <= i < |p| && p[i] == a;
      var j :| 0 <= j < |q| && q[j] == b;
      assert all[i] == a && all[|p| + j] == b;
    }
  }

  lemma {:induction false} FilterIn(q: seq<Key>, s: set<Key>, k: Key)
    ensures k in Keep(q, s) <==> k in q && k in s
    ensures k in Without(q, s) <==> k in q && k !in s
    decreases |q|
  {
    if q != [] {
      FilterIn(q[..|q| - 1], s, k);
      assert q == q[..|q| - 1] + [q[|q| - 1]];
    }
  }

  lemma {:induction false} KeepBefore(q: seq<Key>, s: set<Key>, a: Key, b: Key)
    requires Before(q, a, b) && a in s && b in s
    ensures Before(Keep(q, s), a, b)
    decreases |q|
  {
    var n := |q| - 1;
    assert q == q[..n] + [q[n]];
    BeforePush(q[..n], q[n], a, b);
    if Before(q[..n], a, b) {
      KeepBefore(q[..n], s, a, b);
      BeforeConcat(Keep(q[..n], s), if q[n] in s then [q[n]] else [], a, b);
    } else {
      BeforePush(Keep(q[..n], s), q[n], a, b);
      FilterIn(q[..n], s, a);
    }
  }

  lemma {:induction false} WithoutBefore(q: seq<Key>, s: set<Key>, a: Key, b: Key)
    requires Before(q, a, b) && a !in s && b !in s
    ensures Before(Without(q, s), a, b)
    decreases |q|
  {
    var n := |q| - 1;
    assert q == q[..n] + [q[n]];
    BeforePush(q[..n], q[n], a, b);
    if Before(q[..n], a, b) {
      WithoutBefore(q[..n], s, a, b);
      BeforeConcat(Without(q[..n], s), if q[n] in s then [] else [q[n]], a, b);
    } else {
      BeforePush(Without(q[..n], s), q[n], a, b);
      FilterIn(q[..n], s, a);
    }
  }

  lemma CandidatesBefore(sh: Shelf, policy: Eviction, a: Key, b: Key)
    requires WellFormed(sh) && a in sh.cached && b in sh.cached && GoesFirst(sh, policy, a, b)
    ensures a == b || Before(Candidates(sh.order, Hot(sh, policy)), a, b)
  {
    var q, hot := sh.order, Hot(sh, policy);
    Queued(sh, a);
    Queued(sh, b);
    FilterIn(q, hot, a);
    FilterIn(q, hot, b);
    if a != b {
      if a in hot && b in hot {
        KeepBefore(q, hot, a, b);
      } else if a !in hot && b !in hot {
        WithoutBefore(q, hot, a, b);
      }
      BeforeConcat(Without(q, hot), Keep(q, hot), a, b);
    }
  }

  /** A prefix of a list without repeats that holds an element holds everything before it. */
  lemma PrefixHolds(c: seq<Key>, m: nat, a: Key, b: Key)
    requires m <= |c| && Before(c, a, b) && b in c[..m] && multiset(c)[b] <= 1
    ensures a in c[..m]
  {
    var i, j :| 0 <= i < j < |c| && c[i] == a && c[j] == b;
    var k :| 0 <= k < m && c[..m][k] == b;
    assert k < j ==> c[k] in c[..j];
    OccursOnce(c, j);
    assert c[..m][i] == a;
  }

  /** No reservation discards an entry and keeps one that goes first. */
  lemma FirstIsEvictedFirst(sh: Shelf, policy: Eviction, max: nat, n: nat, a: Key, b: Key)
    requires WellFormed(sh) && a in sh.cached && b in sh.cached && GoesFirst(sh, policy, a, b)
    ensures b !in Reserve(sh, policy, max, n).0.cached ==> a !in Reserve(sh, policy, max, n).0.cached
  {
    if n <= max && b !in Reserve(sh, policy, max, n).0.cached {
      var c, k := Candidates(sh.order, Hot(sh, policy)), VictimCount(sh, policy, max, n);
      ReserveTakesShortestPrefix(sh, policy, max, n);
      CandidatesBefore(sh, policy, a, b);
      if a != b {
        PrefixHolds(c, k, a, b);
      }
    }
  }

  // ---- What puts an entry where ------------------------------------------

  /** A new entry goes last of all, without its bit; the others keep their places and bits. */
  lemma AdmittedLast(sh: Shelf, key: Key, e: Stored)
    requires WellFormed(sh)
    ensures var after := Admit(sh, key, e);
            && key !in after.visited
            && (forall k :: k in after.cached && k != key ==> Before(after.order, k, key))
            && (forall k :: k != key ==> (k in after.visited <==> k in sh.visited))
            && (forall a, b :: a != key && b != key && Before(sh.order, a, b) ==> Before(after.order, a, b))
  {
    var rest := if key in sh.cached then Without(sh.order, {key}) else sh.order;
    forall k | k in sh.cached && k != key ensures Before(rest + [key], k, key) {
      Queued(sh, k);
      FilterIn(sh.order, {key}, k);
      BeforePush(rest, key, k, key);
    }
    forall a, b | a != key && b != key && Before(sh.order, a, b) ensures Before(rest + [key], a, b) {
      WithoutBefore(sh.order, {key}, a, b);
      BeforePush(rest, key, a, b);
    }
  }

  // ---- Runs --------------------------------------------------------------

  /** The queue lists its keys in the order of these times. */
  ghost predicate Ascending(q: seq<Key>, at: map<Key, nat>) {
    && (forall i :: 0 <= i < |q| ==> q[i] in at)
    && (forall i, j :: 0 <= i < j < |q| ==> at[q[i]] < at[q[j]])
  }

  lemma {:induction false} WithoutAscends(q: seq<Key>, s: set<Key>, at: map<Key, nat>)
    requires Ascending(q, at)
    ensures Ascending(Without(q, s), at)
    decreases |q|
  {
    if q != [] {
      var n, rest := |q| - 1, Without(q[..|q| - 1], s);
      WithoutAscends(q[..n], s, at);
      forall k | k in rest ensures k in at && q[n] in at && at[k] < at[q[n]] {
        FilterIn(q[..n], s, k);
        var i :| 0 <= i < n && q[..n][i] == k;
        assert q[i] == k && at[q[i]] < at[q[n]];
      }
      if q[n] !in s {
        forall i | 0 <= i < |rest| ensures rest[i] in rest {}
        assert Ascending(rest + [q[n]], at);
      }
    }
  }

  lemma {:induction false} KeepNothing(q: seq<Key>)
    ensures Keep(q, {}) == []
    decreases |q|
  {
    if q != [] {
      KeepNothing(q[..|q| - 1]);
    }
  }

  /** Under Fifo a reservation takes a prefix of the queue and leaves the rest as it was. */
  lemma FifoTakesPrefix(sh: Shelf, max: nat, n: nat) returns (k: nat)
    requires WellFormed(sh)
    ensures k <= |sh.order|
    ensures var after := Reserve(sh, Fifo, max, n).0;
            after.order == sh.order[k..] && after.cached == sh.cached - Elements(sh.order[..k])
  {
    if n > max {
      k := 0;
      assert sh.cached - Elements(sh.order[..0]) == sh.cached;
    } else {
      k := VictimCount(sh, Fifo, max, n);
      FifoSwept(sh, k);
    }
  }

  lemma FifoSwept(sh: Shelf, k: nat)
    requires WellFormed(sh) && k <= |Candidates(sh.order, {})|
    ensures k <= |sh.order| && InSweep(sh, {}, ScanEnd(sh.order, {}, k), k)
    ensures var after := Sweeps.Swept(sh, {}, ScanEnd(sh.order, {}, k), k);
            after.order == sh.order[k..] && after.cached == sh.cached - Elements(sh.order[..k])
  {
    var q := sh.order;
    PlainQueue(q);
    ScanEndCounts(q, {}, k);
    PlainQueue(q[..ScanEnd(q, {}, k)]);
    ScanEndInSweep(sh, {}, k);
  }

  /** With no key hot, filtering changes nothing. */
  lemma PlainQueue(q: seq<Key>)
    ensures Without(q, {}) == q && Keep(q, {}) == [] && Candidates(q, {}) == q
  {
    WithoutNothing(q);
    KeepNothing(q);
  }

  /** In every run under Fifo the queue is in order of admission. */
  lemma {:induction false} FifoIsAdmissionOrder(c: Config, tr: Trace)
    requires Run(c, tr) && c.policy.Fifo?
    ensures Ascending(tr.state.shelf.order, tr.state.admitted)
  {
    if tr.Then? {
      FifoIsAdmissionOrder(c, tr.before);
      RunInv(c, tr.before);
      AdmittedBefore(c, tr.before);
      FifoStep(c, tr.before.state, tr.step);
    }
  }

  /** Whatever is queued was admitted in the past. */
  lemma AdmittedBefore(c: Config, tr: Trace)
    requires Run(c, tr)
    ensures forall k :: k in tr.state.shelf.order ==> k in tr.state.admitted && tr.state.admitted[k] < tr.state.clock
  {
    RunHistory(c, tr);
    RunInv(c, tr);
    forall k | k in tr.state.shelf.order ensures k in tr.state.admitted && tr.state.admitted[k] < tr.state.clock {
      Queued(tr.state.shelf, k);
      assert AdmissionHistory(Labels(tr), tr.state, k, tr.state.shelf.cached[k]);
    }
  }

  ghost predicate InPast(s: Sys) {
    forall k :: k in s.shelf.order ==> k in s.admitted && s.admitted[k] < s.clock
  }

  lemma FifoStep(c: Config, s: Sys, l: Label)
    requires WellFormed(s.shelf) && Enabled(c, s, l) && c.policy.Fifo?
    requires Ascending(s.shelf.order, s.admitted) && InPast(s)
    ensures Ascending(Next(c, s, l).shelf.order, Next(c, s, l).admitted)
  {
    if Reserves(l) {
      FifoReserveStep(c, s, l);
    } else if l.AdmitFill? {
      FifoAdmitStep(c, s, l);
    } else if l.PurgeSweep? {
      WithoutAscends(s.shelf.order, StoreProtocol.Swept(s), s.admitted);
    } else {
      SameQueue(c, s, l);
    }
  }

  lemma SameQueue(c: Config, s: Sys, l: Label)
    requires WellFormed(s.shelf) && Enabled(c, s, l) && !Reserves(l) && !l.AdmitFill? && !l.PurgeSweep?
    ensures Next(c, s, l).shelf.order == s.shelf.order && Next(c, s, l).admitted == s.admitted
  {}

  function Asked(s: Sys, l: Label): nat
    requires Reserves(l)
  {
    match l
    case Charge(_, _, _, _, _, _) => NewFill(l, s.clock).accounted
    case Refuse(n) => n
    case ChargeChunk(_, data, _) => |data|
  }

  lemma ReservesShelf(c: Config, s: Sys, l: Label)
    requires WellFormed(s.shelf) && Enabled(c, s, l) && Reserves(l)
    ensures var after := Next(c, s, l);
            && after.admitted == s.admitted
            && (after.shelf == s.shelf || after.shelf == Reserve(s.shelf, c.policy, c.max, Asked(s, l)).0)
  {}

  lemma FifoReserveStep(c: Config, s: Sys, l: Label)
    requires WellFormed(s.shelf) && Enabled(c, s, l) && c.policy.Fifo? && Reserves(l)
    requires Ascending(s.shelf.order, s.admitted)
    ensures Ascending(Next(c, s, l).shelf.order, Next(c, s, l).admitted)
  {
    ReservesShelf(c, s, l);
    var k := FifoTakesPrefix(s.shelf, c.max, Asked(s, l));
  }

  lemma FifoAdmitStep(c: Config, s: Sys, l: Label)
    requires WellFormed(s.shelf) && Enabled(c, s, l) && l.AdmitFill?
    requires Ascending(s.shelf.order, s.admitted) && InPast(s)
    ensures Ascending(Next(c, s, l).shelf.order, Next(c, s, l).admitted)
  {
    var key := s.fills[l.id].key;
    var rest := if key in s.shelf.cached then Without(s.shelf.order, {key}) else s.shelf.order;
    WithoutAscends(s.shelf.order, {key}, s.admitted);
    forall i | 0 <= i < |rest| ensures rest[i] != key && rest[i] in s.shelf.order {
      FilterIn(s.shelf.order, {key}, rest[i]);
      Queued(s.shelf, rest[i]);
    }
    AscendingPush(rest, key, s.admitted, s.clock);
  }

  lemma AscendingPush(rest: seq<Key>, key: Key, at: map<Key, nat>, now: nat)
    requires Ascending(rest, at) && forall k :: k in rest ==> k != key && k in at && at[k] < now
    ensures Ascending(rest + [key], at[key := now])
  {
    var q, later := rest + [key], at[key := now];
    forall i | 0 <= i < |q| ensures q[i] in later {
      assert i < |rest| ==> rest[i] in rest;
    }
    forall i, j | 0 <= i < j < |q| ensures later[q[i]] < later[q[j]] {
      assert q[i] == rest[i] && rest[i] in rest;
      if j < |rest| {
        assert q[j] == rest[j] && rest[j] in rest;
      }
    }
  }

  /** Under Fifo, in every run, no step makes room by discarding an entry while an earlier admitted one stays. */
  lemma FifoEvictsOldest(c: Config, tr: Trace, l: Label, a: Key, b: Key)
    requires Run(c, tr) && c.policy.Fifo? && WellFormed(tr.state.shelf) && Enabled(c, tr.state, l) && Reserves(l)
    requires a in tr.state.shelf.cached && b in tr.state.shelf.cached
    ensures a in tr.state.admitted && b in tr.state.admitted
    ensures tr.state.admitted[a] < tr.state.admitted[b] && b !in Next(c, tr.state, l).shelf.cached ==>
              a !in Next(c, tr.state, l).shelf.cached
  {
    var s := tr.state;
    AdmittedBefore(c, tr);
    Queued(s.shelf, a);
    Queued(s.shelf, b);
    if s.admitted[a] < s.admitted[b] {
      FifoIsAdmissionOrder(c, tr);
      AscendingIsBefore(s.shelf.order, s.admitted, a, b);
      ReservesShelf(c, s, l);
      FirstIsEvictedFirst(s.shelf, Fifo, c.max, Asked(s, l), a, b);
    }
  }

  lemma AscendingIsBefore(q: seq<Key>, at: map<Key, nat>, a: Key, b: Key)
    requires Ascending(q, at) && a in q && b in q && a in at && b in at && at[a] < at[b]
    ensures Before(q, a, b)
  {
    var i :| 0 <= i < |q| && q[i] == a;
    var j :| 0 <= j < |q| && q[j] == b;
  }

  /** In every run a bit means a hit since the entry was admitted. */
  ghost predicate HitSince(ls: seq<Label>, s: Sys, k: Key) {
    k in s.admitted && exists j :: s.admitted[k] < j < |ls| && ls[j] == Hit(k)
  }

  lemma {:induction false} BitMeansHit(c: Config, tr: Trace, k: Key)
    requires Run(c, tr) && k in tr.state.shelf.visited
    ensures HitSince(Labels(tr), tr.state, k)
  {
    if tr.Then? {
      BitTrace(c, tr, k);
      if k in tr.before.state.shelf.visited {
        BitMeansHit(c, tr.before, k);
        HitKept(Labels(tr.before), tr.step, tr.before.state, tr.state, k);
      } else {
        HitNow(Labels(tr.before), tr.before.state, tr.state, k);
      }
    }
  }

  lemma HitKept(ls: seq<Label>, l: Label, s: Sys, t: Sys, k: Key)
    requires HitSince(ls, s, k) && k in t.admitted && t.admitted[k] == s.admitted[k]
    ensures HitSince(ls + [l], t, k)
  {
    var j :| s.admitted[k] < j < |ls| && ls[j] == Hit(k);
    assert (ls + [l])[j] == Hit(k);
  }

  lemma HitNow(ls: seq<Label>, s: Sys, t: Sys, k: Key)
    requires k in s.admitted && s.admitted[k] < |ls| && k in t.admitted && t.admitted[k] == s.admitted[k]
    ensures HitSince(ls + [Hit(k)], t, k)
  {
    assert (ls + [Hit(k)])[|ls|] == Hit(k);
  }

  lemma BitTrace(c: Config, tr: Trace, k: Key)
    requires Run(c, tr) && tr.Then? && k in tr.state.shelf.visited
    ensures k in tr.before.state.shelf.visited || tr.step == Hit(k)
    ensures k in tr.before.state.admitted && tr.before.state.admitted[k] < |Labels(tr.before)|
    ensures k in tr.state.admitted && tr.state.admitted[k] == tr.before.state.admitted[k]
  {
    RunInv(c, tr.before);
    BitStep(c, tr.before.state, tr.step, k);
    AdmittedKept(c, tr.before.state, tr.step, k);
    AdmittedBefore(c, tr.before);
    Queued(tr.before.state.shelf, k);
    RunHistory(c, tr.before);
  }

  /** A bit set in the next state was set before, or the step is the hit. An admission clears it. */
  lemma BitStep(c: Config, s: Sys, l: Label, k: Key)
    requires WellFormed(s.shelf) && Enabled(c, s, l) && k in Next(c, s, l).shelf.visited
    ensures !Admits(s, l, k) && k in s.shelf.cached
    ensures k in s.shelf.visited || l == Hit(k)
  {
    if Reserves(l) {
      ReservesShelf(c, s, l);
      BitsOnlyFall(s.shelf, c.policy, c.max, Asked(s, l));
    }
  }

  lemma BitsOnlyFall(sh: Shelf, policy: Eviction, max: nat, n: nat)
    requires WellFormed(sh)
    ensures Reserve(sh, policy, max, n).0.visited <= sh.visited
  {}
}
