/**
  The limiter under concurrency. `resize` and a permit's return hold the debt
  lock and take several steps; acquires take no lock and may fall between any
  two of those steps. A waiter may be handed units piecemeal by the semaphore
  and gives them straight back to it if it stops waiting.
 */
module LimiterProtocol {
  import opened Machine
  import opened Sums

  /** Who holds the debt lock, and how far it has got. */
  datatype Lock =
    | Free
    | Growing(grant: nat)               // limit raised, debt not yet cancelled
    | Granting(grant: nat)              // debt cancelled, units not yet added
    | Shrinking(owed: nat)              // limit lowered, nothing collected yet
    | Owing(rest: nat)                  // collected what was available, debt not yet raised
    | Returning(pid: nat, absorbed: nat, rest: nat) // debt lowered, the rest not yet handed back

  /** A queued acquire of `want` units, already holding some of them. */
  datatype Waiter = Waiter(want: nat, held: nat)

  /**
    The way into the queue. `loaded` holds the bound an arrival has read, `entering`
    whether the slot it then took was within that bound.
   */
  datatype Queue = Queue(loaded: map<nat, nat>, entering: map<nat, bool>, depth: int, max: nat)

  datatype Limiter = Limiter(
    limit: nat, available: nat, debt: nat, permits: map<nat, nat>, waiting: map<nat, Waiter>,
    queue: Queue, lock: Lock)

  datatype Label =
    | TryAcquire(pid: nat, weight: nat)
    | Resize(newLimit: nat)
    | CancelDebt
    | AddUnits
    | Collect
    | Owe
    | BeginReturn(pid: nat)
    | EndReturn
    | LoadBound(w: nat)
    | TakeSlot(w: nat)
    | Settle(w: nat, weight: nat)
    | Gather(w: nat, n: nat)
    | Grant(w: nat, pid: nat)
    | GiveUp(w: nat)
    | SetQueue(max: nat)

  function Fresh(limit: nat, queueMax: nat): Limiter {
    Limiter(limit, limit, 0, map[], map[], Queue(map[], map[], 0, queueMax), Free)
  }

  predicate Init(s: Limiter) {
    s == Fresh(s.limit, s.queue.max)
  }

  /** Somewhere between reading the queue bound and leaving the queue. */
  predicate Queueing(s: Limiter, w: nat) {
    w in s.queue.loaded || w in s.queue.entering || w in s.waiting
  }

  predicate Enabled(s: Limiter, l: Label) {
    match l
    case TryAcquire(pid, weight) => pid !in s.permits && s.available >= Max(weight, 1)
    case Resize(_) => s.lock.Free?
    case CancelDebt => s.lock.Growing?
    case AddUnits => s.lock.Granting?
    case Collect => s.lock.Shrinking?
    case Owe => s.lock.Owing?
    case BeginReturn(pid) => s.lock.Free? && pid in s.permits
    case EndReturn => s.lock.Returning?
    case LoadBound(w) => s.queue.max > 0 && !Queueing(s, w)
    case TakeSlot(w) => w in s.queue.loaded
    case Settle(w, _) => w in s.queue.entering
    case Gather(w, n) => w in s.waiting && n <= s.available && s.waiting[w].held + n <= s.waiting[w].want
    case Grant(w, pid) =>
      && w in s.waiting && pid !in s.permits
      && s.waiting[w].want <= s.waiting[w].held + s.available && s.waiting[w].held <= s.waiting[w].want
    case GiveUp(w) => w in s.waiting
    case SetQueue(_) => true
  }

  function Next(s: Limiter, l: Label): Limiter
    requires Enabled(s, l)
  {
    match l
    case TryAcquire(pid, weight) =>
      s.(available := s.available - Max(weight, 1), permits := s.permits[pid := Max(weight, 1)])
    case Resize(n) =>
      s.(limit := n,
         lock := if n > s.limit then Growing(n - s.limit)
                 else if n < s.limit then Shrinking(s.limit - n) else Free)
    case CancelDebt =>
      var cancelled := Min(s.debt, s.lock.grant);
      s.(debt := s.debt - cancelled, lock := Granting(s.lock.grant - cancelled))
    case AddUnits => s.(available := s.available + s.lock.grant, lock := Free)
    case Collect =>
      var forgotten := Min(s.available, s.lock.owed);
      s.(available := s.available - forgotten, lock := Owing(s.lock.owed - forgotten))
    case Owe => s.(debt := s.debt + s.lock.rest, lock := Free)
    case BeginReturn(pid) =>
      var absorbed := Min(s.debt, s.permits[pid]);
      s.(debt := s.debt - absorbed, lock := Returning(pid, absorbed, s.permits[pid] - absorbed))
    case EndReturn =>
      s.(available := s.available + s.lock.rest, permits := s.permits - {s.lock.pid}, lock := Free)
    case LoadBound(w) => s.(queue := s.queue.(loaded := s.queue.loaded[w := s.queue.max]))
    case TakeSlot(w) => s.(queue := SlotTaken(s.queue, w))
    case Settle(w, weight) =>
      if s.queue.entering[w] then
        s.(queue := s.queue.(entering := s.queue.entering - {w}),
           waiting := s.waiting[w := Waiter(Max(weight, 1), 0)])
      else
        s.(queue := s.queue.(entering := s.queue.entering - {w}, depth := s.queue.depth - 1))
    case Gather(w, n) =>
      s.(available := s.available - n,
         waiting := s.waiting[w := s.waiting[w].(held := s.waiting[w].held + n)])
    case Grant(w, pid) =>
      s.(available := s.available - (s.waiting[w].want - s.waiting[w].held),
         permits := s.permits[pid := s.waiting[w].want],
         waiting := s.waiting - {w}, queue := s.queue.(depth := s.queue.depth - 1))
    case GiveUp(w) =>
      s.(available := s.available + s.waiting[w].held,
         waiting := s.waiting - {w}, queue := s.queue.(depth := s.queue.depth - 1))
    case SetQueue(max) => s.(queue := s.queue.(max := max))
  }

  /** The slot is taken first; whether it was within the bound is told by the depth before. */
  function SlotTaken(q: Queue, w: nat): Queue
    requires w in q.loaded
  {
    q.(loaded := q.loaded - {w}, entering := q.entering[w := q.depth < q.loaded[w]], depth := q.depth + 1)
  }

  // ---- Conservation, in every run ----------------------------------------

  ghost function InFlight(s: Limiter): nat {
    Sum(s.permits)
  }

  ghost function HeldMap(waiting: map<nat, Waiter>): map<nat, nat> {
    map w | w in waiting :: waiting[w].held
  }

  /** Units assigned to waiters that do not have all of theirs yet. */
  ghost function Held(s: Limiter): nat {
    Sum(HeldMap(s.waiting))
  }

  /** What the lock holder has changed on one side of the books and not yet on the other. */
  function Lag(s: Limiter): int {
    match s.lock
    case Free => 0
    case Growing(grant) => 0 - grant as int
    case Granting(grant) => 0 - grant as int
    case Shrinking(owed) => owed
    case Owing(rest) => rest
    case Returning(_, absorbed, _) => absorbed
  }

  ghost predicate Conserved(s: Limiter) {
    && s.available + InFlight(s) + Held(s) == s.limit + s.debt + Lag(s)
    && (s.lock.Returning? ==>
          s.lock.pid in s.permits && s.permits[s.lock.pid] == s.lock.absorbed + s.lock.rest)
  }

  /** Every queue slot belongs to somebody waiting or on the way in or out. */
  ghost predicate QueueOk(s: Limiter) {
    && s.queue.depth == |s.waiting| + |s.queue.entering|
    && (forall w :: w in s.queue.entering ==> w !in s.waiting)
    && (forall w :: w in s.queue.loaded ==> w !in s.waiting && w !in s.queue.entering)
  }

  lemma HeldUpdate(waiting: map<nat, Waiter>, w: nat, x: Waiter)
    ensures Sum(HeldMap(waiting[w := x]))
         == Sum(HeldMap(waiting)) + x.held - (if w in waiting then waiting[w].held else 0)
  {
    SumUpdate(HeldMap(waiting), w, x.held);
    assert HeldMap(waiting)[w := x.held] == HeldMap(waiting[w := x]);
  }

  lemma HeldRemove(waiting: map<nat, Waiter>, w: nat)
    requires w in waiting
    ensures Sum(HeldMap(waiting)) == waiting[w].held + Sum(HeldMap(waiting - {w}))
  {
    SumRemove(HeldMap(waiting), w);
    assert HeldMap(waiting) - {w} == HeldMap(waiting - {w});
  }

  lemma ConservedStep(s: Limiter, l: Label)
    requires Conserved(s) && QueueOk(s) && Enabled(s, l)
    ensures Conserved(Next(s, l))
  {
    match l
    case Settle(w, weight) => ConservedSettle(s, w, weight);
    case Gather(w, n) => ConservedGather(s, w, n);
    case Grant(w, pid) => ConservedGrant(s, w, pid);
    case GiveUp(w) => ConservedGiveUp(s, w);
    case LoadBound(_) => ConservedShift(s, Next(s, l));
    case TakeSlot(_) => ConservedShift(s, Next(s, l));
    case SetQueue(_) => ConservedShift(s, Next(s, l));
    case _ => ConservedPermits(s, l);
  }

  /** Fast acquires, resizes and returns. */
  lemma ConservedPermits(s: Limiter, l: Label)
    requires Conserved(s) && Enabled(s, l) && (l.TryAcquire? || Locked(l))
    ensures Conserved(Next(s, l))
  {
    if l.TryAcquire? {
      SumUpdate(s.permits, l.pid, Max(l.weight, 1));
    } else if l.EndReturn? {
      SumRemove(s.permits, s.lock.pid);
    }
  }

  /** Steps of whoever holds, or takes, the debt lock. */
  predicate Locked(l: Label) {
    l.Resize? || l.CancelDebt? || l.AddUnits? || l.Collect? || l.Owe? || l.BeginReturn? || l.EndReturn?
  }

  /** Moving units between the semaphore and its waiters keeps the books. */
  lemma ConservedShift(s: Limiter, t: Limiter)
    requires Conserved(s) && (t.limit, t.debt, t.permits, t.lock) == (s.limit, s.debt, s.permits, s.lock)
    requires t.available + Held(t) == s.available + Held(s)
    ensures Conserved(t)
  {}

  lemma ConservedSettle(s: Limiter, w: nat, weight: nat)
    requires Conserved(s) && w !in s.waiting && Enabled(s, Settle(w, weight))
    ensures Conserved(Next(s, Settle(w, weight)))
  {
    HeldUpdate(s.waiting, w, Waiter(Max(weight, 1), 0));
    ConservedShift(s, Next(s, Settle(w, weight)));
  }

  lemma ConservedGiveUp(s: Limiter, w: nat)
    requires Conserved(s) && Enabled(s, GiveUp(w))
    ensures Conserved(Next(s, GiveUp(w)))
  {
    HeldRemove(s.waiting, w);
    ConservedShift(s, Next(s, GiveUp(w)));
  }

  lemma ConservedGather(s: Limiter, w: nat, n: nat)
    requires Conserved(s) && Enabled(s, Gather(w, n))
    ensures Conserved(Next(s, Gather(w, n)))
  {
    HeldUpdate(s.waiting, w, s.waiting[w].(held := s.waiting[w].held + n));
    ConservedShift(s, Next(s, Gather(w, n)));
  }

  lemma ConservedGrant(s: Limiter, w: nat, pid: nat)
    requires Conserved(s) && Enabled(s, Grant(w, pid))
    ensures Conserved(Next(s, Grant(w, pid)))
  {
    HeldRemove(s.waiting, w);
    SumUpdate(s.permits, pid, s.waiting[w].want);
  }

  lemma MapSizes<V>(m: map<nat, V>, k: nat, v: V)
    ensures |m[k := v]| == |m| + (if k in m then 0 else 1)
    ensures |m - {k}| == |m| - (if k in m then 1 else 0)
  {
    assert m[k := v].Keys == m.Keys + {k};
    assert (m - {k}).Keys == m.Keys - {k};
  }

  lemma QueueStep(s: Limiter, l: Label)
    requires QueueOk(s) && Enabled(s, l)
    ensures QueueOk(Next(s, l))
  {
    match l
    case TakeSlot(w) => MapSizes(s.queue.entering, w, s.queue.depth < s.queue.loaded[w]);
    case Settle(w, weight) => QueueSettle(s, w, weight);
    case Gather(w, n) => MapSizes(s.waiting, w, s.waiting[w].(held := s.waiting[w].held + n));
    case Grant(w, _) => MapSizes(s.waiting, w, s.waiting[w]);
    case GiveUp(w) => MapSizes(s.waiting, w, s.waiting[w]);
    case _ =>
  }

  lemma QueueSettle(s: Limiter, w: nat, weight: nat)
    requires QueueOk(s) && Enabled(s, Settle(w, weight))
    ensures QueueOk(Next(s, Settle(w, weight)))
  {
    MapSizes(s.queue.entering, w, true);
    MapSizes(s.waiting, w, Waiter(Max(weight, 1), 0));
  }

  // ---- Settling of debt --------------------------------------------------

  /** Units the ceiling is still owed, recorded as debt or about to be. */
  predicate Owed(s: Limiter) {
    s.debt > 0 || (s.lock.Owing? && s.lock.rest > 0) || (s.lock.Returning? && s.lock.absorbed > 0)
  }

  /** Nothing is available while anything is owed. */
  predicate Settled(s: Limiter) {
    && (Owed(s) ==> s.available == 0)
    && (s.lock.Granting? && s.lock.grant > 0 ==> s.debt == 0)
    && (s.lock.Returning? && s.lock.rest > 0 ==> s.debt == 0)
  }

  /** A waiter that stops waiting hands units to the semaphore past the debt. */
  predicate Leaks(s: Limiter, l: Label) {
    l.GiveUp? && l.w in s.waiting && s.waiting[l.w].held > 0 && Owed(s)
  }

  /** Settlement survives a step exactly when the step is not such a leak. */
  lemma SettledStep(s: Limiter, l: Label)
    requires Settled(s) && Enabled(s, l)
    ensures Settled(Next(s, l)) <==> !Leaks(s, l)
  {}

  // ---- Runs --------------------------------------------------------------

  datatype Trace = Start(state: Limiter) | Then(before: Trace, step: Label, state: Limiter)

  ghost predicate Run(tr: Trace) {
    match tr
    case Start(s) => Init(s)
    case Then(before, l, t) => Run(before) && Enabled(before.state, l) && t == Next(before.state, l)
  }

  /** No waiter ever gave units back past an outstanding debt. */
  ghost predicate NoLeak(tr: Trace) {
    tr.Then? ==> NoLeak(tr.before) && !Leaks(tr.before.state, tr.step)
  }

  /** An assumption on the semaphore that the source does not establish: a waiter holds nothing until it holds everything. */
  ghost predicate AllOrNothing(tr: Trace) {
    tr.Then? ==> AllOrNothing(tr.before) && !(tr.step.Gather? && tr.step.n > 0)
  }

  lemma {:induction false} RunConserves(tr: Trace)
    requires Run(tr)
    ensures Conserved(tr.state) && QueueOk(tr.state)
    ensures NoLeak(tr) ==> Settled(tr.state)
  {
    match tr
    case Start(_) =>
      assert HeldMap(map[]) == map[];
    case Then(before, l, _) =>
      RunConserves(before);
      ConservedStep(before.state, l);
      QueueStep(before.state, l);
      if NoLeak(tr) {
        SettledStep(before.state, l);
      }
  }

  lemma {:induction false} AllOrNothingHoldsNothing(tr: Trace)
    requires Run(tr) && AllOrNothing(tr)
    ensures forall w :: w in tr.state.waiting ==> tr.state.waiting[w].held == 0
    ensures Held(tr.state) == 0
    ensures NoLeak(tr)
  {
    if tr.Then? {
      AllOrNothingHoldsNothing(tr.before);
    }
    SumZero(HeldMap(tr.state.waiting));
  }

  /**
    With the lock free, units available and out equal the ceiling plus the debt;
    and unless something leaked, debt and availability are what the ceiling and
    the units out determine, whatever resizes, returns and acquires led there.
   */
  lemma AtRest(tr: Trace)
    requires Run(tr) && tr.state.lock.Free?
    ensures Balanced(tr.state, InFlight(tr.state) + Held(tr.state))
    ensures NoLeak(tr) ==> Determined(tr.state, InFlight(tr.state) + Held(tr.state))
  {
    RunConserves(tr);
  }

  predicate Balanced(s: Limiter, out: nat) {
    s.available + out == s.limit + s.debt
  }

  predicate Determined(s: Limiter, out: nat) {
    s.available == Max(0, s.limit - out) && s.debt == Max(0, out - s.limit)
  }

  /** Under that assumption: the closed form in units out alone, and a full return when nothing is out. */
  lemma AtRestAllOrNothing(tr: Trace)
    requires Run(tr) && AllOrNothing(tr) && tr.state.lock.Free?
    ensures var s := tr.state;
            && Determined(s, InFlight(s))
            && (s.permits == map[] ==> s.available == s.limit && s.debt == 0)
  {
    AllOrNothingHoldsNothing(tr);
    AtRest(tr);
  }

  /** The ceiling a grant answers to: during a shrink, the old one until it has been collected. */
  function Ceiling(s: Limiter): nat {
    s.limit + (if s.lock.Shrinking? then s.lock.owed else 0)
  }

  /** A grant that takes units from the semaphore; one already assigned all of its own takes none. */
  predicate Takes(s: Limiter, l: Label) {
    l.TryAcquire? || (l.Grant? && l.w in s.waiting && s.waiting[l.w].held < s.waiting[l.w].want)
  }

  /** A grant never takes the units out above the ceiling in force. */
  lemma GrantWithinCeiling(tr: Trace, l: Label)
    requires Run(tr) && NoLeak(tr) && Enabled(tr.state, l) && Takes(tr.state, l)
    ensures InFlight(Next(tr.state, l)) + Held(Next(tr.state, l)) <= Ceiling(tr.state)
  {
    RunConserves(tr);
    ConservedStep(tr.state, l);
  }

  /** Settlement is what keeps grants honest: at rest, every grant stays within the ceiling exactly when settled. */
  lemma GrantsWithinCeilingIff(tr: Trace)
    requires Run(tr) && tr.state.lock.Free?
    ensures (forall pid: nat, weight: nat :: Enabled(tr.state, TryAcquire(pid, weight)) ==> WithinCeiling(tr.state, pid, weight))
       <==> Settled(tr.state)
  {
    RunConserves(tr);
    var s := tr.state;
    forall pid: nat, weight: nat | Enabled(s, TryAcquire(pid, weight))
      ensures WithinCeiling(s, pid, weight) <==> InFlight(s) + Held(s) + Max(weight, 1) <= s.limit
    {
      SumUpdate(s.permits, pid, Max(weight, 1));
    }
    if !Settled(s) {
      var pid := Unused(s.permits.Keys);
      assert Enabled(s, TryAcquire(pid, s.available)) && !WithinCeiling(s, pid, s.available);
    }
  }

  ghost predicate WithinCeiling(s: Limiter, pid: nat, weight: nat)
    requires Enabled(s, TryAcquire(pid, weight))
  {
    var t := Next(s, TryAcquire(pid, weight));
    InFlight(t) + Held(t) <= s.limit
  }

  lemma {:induction false} Unused(ids: set<nat>) returns (id: nat)
    ensures id !in ids
    ensures forall x :: x in ids ==> x < id
    decreases |ids|
  {
    if ids == {} {
      id := 0;
    } else {
      var x :| x in ids;
      var rest := Unused(ids - {x});
      id := Max(rest, x + 1);
      assert forall y :: y in ids ==> y == x || y in ids - {x};
    }
  }

  ghost function Excess(s: Limiter): nat {
    Max(0, InFlight(s) + Held(s) - s.limit)
  }

  /** Once a shrink has collected what it could, the excess over the ceiling only falls. */
  lemma ExcessOnlyFalls(tr: Trace, l: Label)
    requires Run(tr) && NoLeak(tr) && Enabled(tr.state, l)
    requires !l.Resize? && !tr.state.lock.Shrinking?
    ensures Excess(Next(tr.state, l)) <= Excess(tr.state)
  {
    RunConserves(tr);
    ConservedStep(tr.state, l);
    if Locked(l) {
      LockedExcess(tr.state, l);
    } else {
      UnlockedExcess(tr.state, l);
    }
  }

  lemma UnlockedExcess(s: Limiter, l: Label)
    requires Conserved(s) && Settled(s) && Enabled(s, l) && Conserved(Next(s, l))
    requires !Locked(l) && !s.lock.Shrinking?
    ensures Excess(Next(s, l)) <= Excess(s)
  {
    OutMoves(s, l);
  }

  lemma LockedExcess(s: Limiter, l: Label)
    requires Conserved(s) && Enabled(s, l) && Locked(l) && !l.Resize?
    ensures Excess(Next(s, l)) <= Excess(s)
  {
    if l.EndReturn? {
      SumRemove(s.permits, s.lock.pid);
    }
  }

  /** Units that leave the semaphore are out, and units that come back no longer are. */
  lemma OutMoves(s: Limiter, l: Label)
    requires Conserved(s) && Enabled(s, l) && Conserved(Next(s, l)) && !Locked(l)
    ensures var t := Next(s, l);
            && (t.limit, t.debt, t.lock) == (s.limit, s.debt, s.lock)
            && InFlight(t) + Held(t) - (InFlight(s) + Held(s)) == s.available - t.available
  {}

  function Take(tr: Trace, l: Label): Trace
    requires Enabled(tr.state, l)
  {
    Then(tr, l, Next(tr.state, l))
  }

  /**
    A run in which the semaphore fills a waiter piecemeal: seven of ten units are
    out, a waiter for five holds the other three, the ceiling drops to five, and
    the waiter times out. Its three units become available past a debt of five,
    and the next acquire takes the units out to twice the ceiling.
   */
  lemma LeakExceedsCeiling() returns (tr: Trace)
    ensures Run(tr) && tr.state.lock.Free? && !NoLeak(tr)
    ensures tr.state.limit == 5 && tr.state.debt == 5 && tr.state.available == 3
    ensures Enabled(tr.state, TryAcquire(1, 3))
    ensures InFlight(Next(tr.state, TryAcquire(1, 3))) == 10
  {
    tr := LeakPrepared();
    tr := ShrinkWhenSpent(tr, 5);
    assert Leaks(tr.state, GiveUp(0));
    tr := Take(tr, GiveUp(0));
    SevenAndThree(tr.state);
  }

  lemma SevenAndThree(s: Limiter)
    requires s.permits == map[0 := 7] && s.available == 3
    ensures Enabled(s, TryAcquire(1, 3)) && InFlight(Next(s, TryAcquire(1, 3))) == 10
  {
    var none: map<nat, nat> := map[];
    SumUpdate(none, 0, 7);
    assert none[0 := 7] == map[0 := 7];
    SumUpdate(s.permits, 1, 3);
  }

  /** A shrink that finds nothing available records all of it as debt. */
  lemma ShrinkWhenSpent(before: Trace, n: nat) returns (tr: Trace)
    requires Run(before) && before.state.lock.Free?
    requires before.state.available == 0 && n < before.state.limit
    ensures Run(tr)
    ensures tr.state == before.state.(limit := n, debt := before.state.debt + (before.state.limit - n))
  {
    tr := Take(before, Resize(n));
    tr := Take(tr, Collect);
    tr := Take(tr, Owe);
  }

  lemma LeakPrepared() returns (tr: Trace)
    ensures Run(tr)
    ensures tr.state == Limiter(10, 0, 0, map[0 := 7], map[0 := Waiter(5, 3)], Queue(map[], map[], 1, 1), Free)
  {
    tr := Start(Fresh(10, 1));
    tr := Take(tr, TryAcquire(0, 7));
    assert tr.state == Limiter(10, 3, 0, map[0 := 7], map[], Queue(map[], map[], 0, 1), Free);
    tr := Waits(tr);
    tr := Take(tr, Gather(0, 3));
  }

  lemma Waits(before: Trace) returns (tr: Trace)
    requires Run(before) && before.state.waiting == map[] && before.state.queue == Queue(map[], map[], 0, 1)
    ensures Run(tr)
    ensures tr.state == before.state.(waiting := map[0 := Waiter(5, 0)], queue := Queue(map[], map[], 1, 1))
  {
    tr := Take(before, LoadBound(0));
    tr := Take(tr, TakeSlot(0));
    assert tr.state.queue == Queue(map[], map[0 := true], 1, 1);
    tr := Take(tr, Settle(0, 5));
    assert tr.state.queue.entering == map[];
  }

  // ---- The queue ---------------------------------------------------------

  /** Requests that have been promised a place in the queue. */
  ghost function Queued(s: Limiter): set<nat> {
    s.waiting.Keys + set w | w in s.queue.entering && s.queue.entering[w]
  }

  /** However arrivals race, no more than the configured bound ever wait. */
  lemma {:induction false} QueueIsBounded(tr: Trace, bound: nat)
    requires Run(tr) && BoundedBy(tr, bound)
    ensures |Queued(tr.state)| <= bound
  {
    match tr
    case Start(_) => assert Queued(tr.state) == {};
    case Then(before, l, _) =>
      QueueIsBounded(before, bound);
      BoundHolds(before, bound);
      RunConserves(before);
      QueuedStep(before.state, l, bound);
  }

  lemma QueuedStep(s: Limiter, l: Label, bound: nat)
    requires QueueOk(s) && Enabled(s, l) && |Queued(s)| <= bound
    requires forall w :: w in s.queue.loaded ==> s.queue.loaded[w] <= bound
    ensures |Queued(Next(s, l))| <= bound
  {
    if l.TakeSlot? && s.queue.depth < s.queue.loaded[l.w] {
      QueuedAdds(s, l.w);
      QueuedFits(s);
    } else {
      forall w | w in Queued(Next(s, l)) ensures w in Queued(s) {
        QueuedBefore(s, l, w);
      }
      SubsetSize(Queued(Next(s, l)), Queued(s));
    }
  }

  lemma QueuedAdds(s: Limiter, w: nat)
    requires Enabled(s, TakeSlot(w)) && s.queue.depth < s.queue.loaded[w]
    ensures Queued(Next(s, TakeSlot(w))) == Queued(s) + {w}
  {}

  lemma QueuedBefore(s: Limiter, l: Label, w: nat)
    requires Enabled(s, l) && w in Queued(Next(s, l))
    requires l.TakeSlot? ==> s.queue.depth >= s.queue.loaded[l.w]
    ensures w in Queued(s)
  {}

  /** Every queue bound in force during the run was at most `bound`. */
  ghost predicate BoundedBy(tr: Trace, bound: nat) {
    match tr
    case Start(s) => s.queue.max <= bound
    case Then(before, l, _) => BoundedBy(before, bound) && (l.SetQueue? ==> l.max <= bound)
  }

  /** So was every bound an arrival is still acting on. */
  lemma {:induction false} BoundHolds(tr: Trace, bound: nat)
    requires Run(tr) && BoundedBy(tr, bound)
    ensures tr.state.queue.max <= bound
    ensures forall w :: w in tr.state.queue.loaded ==> tr.state.queue.loaded[w] <= bound
  {
    if tr.Then? {
      BoundHolds(tr.before, bound);
    }
  }

  lemma QueuedFits(s: Limiter)
    requires QueueOk(s)
    ensures |Queued(s)| <= s.queue.depth
  {
    SubsetSize(Queued(s), s.waiting.Keys + s.queue.entering.Keys);
    assert s.waiting.Keys !! s.queue.entering.Keys;
  }
}
