/**
  Admission through three ceilings, narrowest first. Every ceiling is a limiter of
  the limiter protocol, so its acquires, queueing, resizes and returns are the
  small steps of that protocol, interleaving with the steps of every other
  request and of every other limiter. A limiter is an object of its own: it
  outlives its registration under a route id, and a route removed and added again
  gets a new one.
 */
module AdmissionProtocol {
  import opened Machine
  import opened Sums
  import L = LimiterProtocol

  datatype Priority = High | Normal | Low

  datatype LimiterId = Global | Tier(priority: Priority) | Route(serial: nat)

  datatype RouteRef = NoRoute | Via(serial: nat)

  /** One request and which of its permits it holds; `leaving` once it was shed, failed or finished. */
  datatype Request = Request(
    route: RouteRef, tier: Priority, units: nat,
    onRoute: bool, onTier: bool, onGlobal: bool, leaving: bool)

  datatype Sys = Sys(limiters: map<LimiterId, L.Limiter>, requests: map<nat, Request>, routes: map<string, nat>)

  datatype Label =
    | Arrive(r: nat, route: RouteRef, tier: Priority, weight: nat)
    | Ask(r: nat, step: L.Label)              // a step of acquiring the next ceiling
    | Leave(r: nat)
    | Return(r: nat, step: L.Label)           // a step of giving the last permit back
    | Depart(r: nat)
    | Reload(id: LimiterId, step: L.Label)    // a step of resizing, or a new queue bound
    | AddRoute(name: string, serial: nat, limit: nat, queueMax: nat)
    | RemoveRoute(name: string)

  /** The ceiling a request asks for next. */
  function Wanted(q: Request): LimiterId {
    if q.route.Via? && !q.onRoute then Route(q.route.serial)
    else if !q.onTier then Tier(q.tier)
    else Global
  }

  /** Neither past it yet nor on the way out. */
  predicate Asking(q: Request, id: LimiterId) {
    !q.leaving && !q.onGlobal && Wanted(q) == id
  }

  /** The permit a request gives back next: the widest it holds. */
  function Widest(q: Request): LimiterId {
    if q.onGlobal then Global
    else if q.route.Via? && !q.onTier then Route(q.route.serial)
    else Tier(q.tier)
  }

  predicate Past(q: Request, id: LimiterId) {
    match id
    case Global => q.onGlobal
    case Tier(p) => q.onTier && q.tier == p
    case Route(serial) => q.onRoute && q.route == Via(serial)
  }

  function Passed(q: Request, id: LimiterId, on: bool): Request {
    match id
    case Global => q.(onGlobal := on)
    case Tier(_) => q.(onTier := on)
    case Route(_) => q.(onRoute := on)
  }

  // ---- Which limiter steps are whose -------------------------------------

  predicate Asks(s: L.Limiter, r: nat, units: nat, l: L.Label) {
    match l
    case TryAcquire(pid, weight) => pid == r && weight == units && !L.Queueing(s, r)
    case LoadBound(w) => w == r
    case TakeSlot(w) => w == r
    case Settle(w, weight) => w == r && weight == units
    case Gather(w, _) => w == r
    case Grant(w, pid) => w == r && pid == r
    case GiveUp(w) => w == r
    case _ => false
  }

  predicate Returns(s: L.Limiter, r: nat, l: L.Label) {
    l == L.BeginReturn(r) || (l.EndReturn? && s.lock.Returning? && s.lock.pid == r)
  }

  predicate Reloads(l: L.Label) {
    l.Resize? || l.CancelDebt? || l.AddUnits? || l.Collect? || l.Owe? || l.SetQueue?
  }

  /** The step takes or hands over a permit. */
  predicate Grants(l: L.Label) {
    l.TryAcquire? || l.Grant?
  }

  /** The step sheds the request: no slot in the queue, or no longer waiting. */
  predicate Sheds(s: L.Limiter, l: L.Label) {
    l.GiveUp? || (l.Settle? && l.w in s.queue.entering && !s.queue.entering[l.w])
  }

  predicate Init(s: Sys) {
    && s.requests == map[] && s.routes == map[]
    && s.limiters.Keys == {Global, Tier(High), Tier(Normal), Tier(Low)}
    && forall id :: id in s.limiters ==> L.Init(s.limiters[id])
  }

  predicate Enabled(s: Sys, l: Label) {
    match l
    case Arrive(r, route, tier, _) =>
      r !in s.requests && Tier(tier) in s.limiters && (route.Via? ==> Route(route.serial) in s.limiters)
    case Ask(r, step) =>
      && r in s.requests && !s.requests[r].leaving && !s.requests[r].onGlobal
      && Wanted(s.requests[r]) in s.limiters
      && Asks(s.limiters[Wanted(s.requests[r])], r, s.requests[r].units, step)
      && L.Enabled(s.limiters[Wanted(s.requests[r])], step)
    case Leave(r) =>
      && r in s.requests && !s.requests[r].leaving
      && (Wanted(s.requests[r]) in s.limiters ==> !L.Queueing(s.limiters[Wanted(s.requests[r])], r))
    case Return(r, step) =>
      && r in s.requests && s.requests[r].leaving && Past(s.requests[r], Widest(s.requests[r]))
      && Widest(s.requests[r]) in s.limiters
      && Returns(s.limiters[Widest(s.requests[r])], r, step)
      && L.Enabled(s.limiters[Widest(s.requests[r])], step)
    case Depart(r) =>
      && r in s.requests && s.requests[r].leaving
      && !s.requests[r].onGlobal && !s.requests[r].onTier && !s.requests[r].onRoute
    case Reload(id, step) => id in s.limiters && Reloads(step) && L.Enabled(s.limiters[id], step)
    case AddRoute(_, serial, _, _) => Route(serial) !in s.limiters
    case RemoveRoute(name) => name in s.routes
  }

  /** The limiter a step works on, and the limiter step it takes there. */
  datatype Touch = Nothing | At(id: LimiterId, step: L.Label)

  function Touched(s: Sys, l: Label): Touch
    requires Enabled(s, l)
  {
    match l
    case Ask(r, step) => At(Wanted(s.requests[r]), step)
    case Return(r, step) => At(Widest(s.requests[r]), step)
    case Reload(id, step) => At(id, step)
    case _ => Nothing
  }

  function NextLimiters(s: Sys, l: Label): map<LimiterId, L.Limiter>
    requires Enabled(s, l)
  {
    match Touched(s, l)
    case At(id, step) => s.limiters[id := L.Next(s.limiters[id], step)]
    case Nothing =>
      if l.AddRoute? then s.limiters[Route(l.serial) := L.Fresh(l.limit, l.queueMax)] else s.limiters
  }

  function NextRequests(s: Sys, l: Label): map<nat, Request>
    requires Enabled(s, l)
  {
    match l
    case Arrive(r, route, tier, weight) =>
      s.requests[r := Request(route, tier, Max(weight, 1), false, false, false, false)]
    case Ask(r, step) =>
      var q := s.requests[r];
      if Grants(step) then s.requests[r := Passed(q, Wanted(q), true)]
      else if Sheds(s.limiters[Wanted(q)], step) then s.requests[r := q.(leaving := true)]
      else s.requests
    case Leave(r) => s.requests[r := s.requests[r].(leaving := true)]
    case Return(r, step) =>
      var q := s.requests[r];
      if step.EndReturn? then s.requests[r := Passed(q, Widest(q), false)] else s.requests
    case Depart(r) => s.requests - {r}
    case _ => s.requests
  }

  function Next(s: Sys, l: Label): Sys
    requires Enabled(s, l)
  {
    Sys(NextLimiters(s, l), NextRequests(s, l),
        match l
        case AddRoute(name, serial, _, _) => s.routes[name := serial]
        case RemoveRoute(name) => s.routes - {name}
        case _ => s.routes)
  }

  // ---- Runs --------------------------------------------------------------

  datatype Trace = Start(state: Sys) | Then(before: Trace, step: Label, state: Sys)

  ghost predicate Run(tr: Trace) {
    match tr
    case Start(s) => Init(s)
    case Then(before, l, t) => Run(before) && Enabled(before.state, l) && t == Next(before.state, l)
  }

  // ---- Each limiter runs the limiter protocol ----------------------------

  /** What one limiter went through, as a run of its own. */
  ghost function Project(tr: Trace, id: LimiterId): L.Trace
    requires Run(tr) && id in tr.state.limiters
  {
    match tr
    case Start(s) => L.Start(s.limiters[id])
    case Then(before, l, t) =>
      if id !in before.state.limiters then L.Start(t.limiters[id])
      else if Touched(before.state, l).At? && Touched(before.state, l).id == id then
        L.Then(Project(before, id), Touched(before.state, l).step, t.limiters[id])
      else Project(before, id)
  }

  /** So everything proved of a limiter's runs holds of each ceiling here. */
  lemma {:induction false} ProjectRuns(tr: Trace, id: LimiterId)
    requires Run(tr) && id in tr.state.limiters
    ensures L.Run(Project(tr, id)) && Project(tr, id).state == tr.state.limiters[id]
  {
    if tr.Then? && id in tr.before.state.limiters {
      ProjectRuns(tr.before, id);
    }
  }

  // ---- Who holds what ----------------------------------------------------

  /** Units of limiter `id` that request `q` holds. */
  function Holds(q: Request, id: LimiterId): nat {
    if Past(q, id) then q.units else 0
  }

  /** Units of the global ceiling `q` holds on behalf of tier `p`. */
  function GlobalVia(q: Request, p: Priority): nat {
    if q.onGlobal && q.tier == p then q.units else 0
  }

  ghost function HeldMap(requests: map<nat, Request>, id: LimiterId): map<nat, nat> {
    map r | r in requests :: Holds(requests[r], id)
  }

  ghost function GlobalMap(requests: map<nat, Request>, p: Priority): map<nat, nat> {
    map r | r in requests :: GlobalVia(requests[r], p)
  }

  /** A permit is held only on top of the narrower ones. */
  predicate NestedRequest(s: Sys, q: Request) {
    && q.units >= 1
    && (q.onGlobal ==> q.onTier)
    && (q.onTier && q.route.Via? ==> q.onRoute)
    && (q.onRoute ==> q.route.Via?)
    && (q.route.Via? ==> Route(q.route.serial) in s.limiters)
  }

  /** Request `r` has a permit of the limiter exactly if it is live and past it, for its own units. */
  predicate PermitOk(limiter: L.Limiter, requests: map<nat, Request>, id: LimiterId, r: nat) {
    && (r in limiter.permits <==> r in requests && Past(requests[r], id))
    && (r in limiter.permits ==> limiter.permits[r] == requests[r].units)
  }

  /** Whoever waits on the limiter is a live request asking for it, for its own units. */
  predicate WaiterOk(limiter: L.Limiter, requests: map<nat, Request>, id: LimiterId, r: nat) {
    L.Queueing(limiter, r) ==>
      && r in requests && Asking(requests[r], id)
      && (r in limiter.waiting ==> limiter.waiting[r].want == requests[r].units)
  }

  ghost predicate BooksOk(s: Sys, id: LimiterId)
    requires id in s.limiters
  {
    forall r: nat :: PermitOk(s.limiters[id], s.requests, id, r) && WaiterOk(s.limiters[id], s.requests, id, r)
  }

  ghost predicate Inv(s: Sys) {
    && (forall r :: r in s.requests ==> NestedRequest(s, s.requests[r]))
    && {Global, Tier(High), Tier(Normal), Tier(Low)} <= s.limiters.Keys
    && (forall id :: id in s.limiters ==> BooksOk(s, id))
  }

  /** What a limiter knows of `r`. */
  predicate SameFor(a: L.Limiter, b: L.Limiter, r: nat) {
    && (r in b.permits <==> r in a.permits) && (r in a.permits ==> b.permits[r] == a.permits[r])
    && (r in b.waiting <==> r in a.waiting) && (r in a.waiting ==> b.waiting[r].want == a.waiting[r].want)
    && (L.Queueing(b, r) <==> L.Queueing(a, r))
  }

  /** Steps taken for others, and reloads, leave `r`'s permit and place alone. */
  lemma OthersKeep(limiter: L.Limiter, step: L.Label, actor: nat, units: nat, r: nat)
    requires L.Enabled(limiter, step)
    requires Reloads(step) || (actor != r && (Asks(limiter, actor, units, step) || Returns(limiter, actor, step)))
    ensures SameFor(limiter, L.Next(limiter, step), r)
  {}

  /** A step of asking moves its own request along, and takes a permit only by a grant. */
  lemma AskKeeps(limiter: L.Limiter, requests: map<nat, Request>, step: L.Label, r: nat)
    requires r in requests && !requests[r].leaving && !requests[r].onGlobal && requests[r].units >= 1
    requires var id := Wanted(requests[r]);
             && PermitOk(limiter, requests, id, r) && WaiterOk(limiter, requests, id, r) && L.QueueOk(limiter)
             && L.Enabled(limiter, step) && Asks(limiter, r, requests[r].units, step) && !Past(requests[r], id)
    ensures var q, id, after := requests[r], Wanted(requests[r]), L.Next(limiter, step);
            var to := if Grants(step) then Passed(q, id, true)
                      else if Sheds(limiter, step) then q.(leaving := true) else q;
            PermitOk(after, requests[r := to], id, r) && WaiterOk(after, requests[r := to], id, r)
  {}

  lemma ReturnKeeps(limiter: L.Limiter, requests: map<nat, Request>, step: L.Label, r: nat)
    requires r in requests && requests[r].leaving && Past(requests[r], Widest(requests[r]))
    requires var id := Widest(requests[r]);
             && PermitOk(limiter, requests, id, r) && WaiterOk(limiter, requests, id, r)
             && L.Enabled(limiter, step) && Returns(limiter, r, step)
    ensures var q, id, after := requests[r], Widest(requests[r]), L.Next(limiter, step);
            var to := if step.EndReturn? then Passed(q, id, false) else q;
            PermitOk(after, requests[r := to], id, r) && WaiterOk(after, requests[r := to], id, r)
  {}

  /** Whose request a step may change, if any. */
  predicate Acts(l: Label, r: nat) {
    (l.Arrive? || l.Ask? || l.Leave? || l.Return? || l.Depart?) && l.r == r
  }

  lemma BystanderBooks(s: Sys, l: Label, id: LimiterId, r: nat)
    requires Enabled(s, l) && id in s.limiters && !Acts(l, r)
    requires PermitOk(s.limiters[id], s.requests, id, r) && WaiterOk(s.limiters[id], s.requests, id, r)
    ensures id in Next(s, l).limiters
    ensures PermitOk(Next(s, l).limiters[id], Next(s, l).requests, id, r)
    ensures WaiterOk(Next(s, l).limiters[id], Next(s, l).requests, id, r)
  {
    var touch := Touched(s, l);
    if touch.At? && touch.id == id {
      if l.Reload? {
        OthersKeep(s.limiters[id], touch.step, r, 0, r);
      } else {
        OthersKeep(s.limiters[id], touch.step, l.r, s.requests[l.r].units, r);
      }
    }
    assert r in Next(s, l).requests <==> r in s.requests;
  }

  lemma ActorBooks(s: Sys, l: Label, id: LimiterId, r: nat)
    requires Enabled(s, l) && id in s.limiters && Acts(l, r)
    requires r in s.requests ==> NestedRequest(s, s.requests[r])
    requires PermitOk(s.limiters[id], s.requests, id, r) && WaiterOk(s.limiters[id], s.requests, id, r)
    requires L.QueueOk(s.limiters[id])
    ensures id in Next(s, l).limiters
    ensures PermitOk(Next(s, l).limiters[id], Next(s, l).requests, id, r)
    ensures WaiterOk(Next(s, l).limiters[id], Next(s, l).requests, id, r)
  {
    if l.Ask? && Wanted(s.requests[r]) == id {
      AskKeeps(s.limiters[id], s.requests, l.step, r);
    } else if l.Return? && Widest(s.requests[r]) == id {
      ReturnKeeps(s.limiters[id], s.requests, l.step, r);
    } else {
      ElsewhereBooks(s, l, id, r);
    }
  }

  lemma ElsewhereBooks(s: Sys, l: Label, id: LimiterId, r: nat)
    requires Enabled(s, l) && id in s.limiters && Acts(l, r)
    requires l.Ask? ==> Wanted(s.requests[r]) != id
    requires l.Return? ==> Widest(s.requests[r]) != id
    requires PermitOk(s.limiters[id], s.requests, id, r) && WaiterOk(s.limiters[id], s.requests, id, r)
    ensures id in Next(s, l).limiters
    ensures PermitOk(Next(s, l).limiters[id], Next(s, l).requests, id, r)
    ensures WaiterOk(Next(s, l).limiters[id], Next(s, l).requests, id, r)
  {}

  lemma NewRouteBooks(s: Sys, l: Label)
    requires Inv(s) && Enabled(s, l) && l.AddRoute?
    ensures BooksOk(Next(s, l), Route(l.serial))
  {
    forall r: nat | r in s.requests ensures !Past(s.requests[r], Route(l.serial)) {
      assert NestedRequest(s, s.requests[r]);
    }
  }

  lemma NestedStep(s: Sys, l: Label, r: nat)
    requires Enabled(s, l) && r in Next(s, l).requests
    requires r in s.requests ==> NestedRequest(s, s.requests[r])
    ensures NestedRequest(Next(s, l), Next(s, l).requests[r])
  {}

  lemma BooksStep(s: Sys, l: Label, id: LimiterId)
    requires Inv(s) && Enabled(s, l) && id in s.limiters && L.QueueOk(s.limiters[id])
    ensures id in Next(s, l).limiters && BooksOk(Next(s, l), id)
  {
    var t := Next(s, l);
    assert id in t.limiters;
    forall r: nat ensures PermitOk(t.limiters[id], t.requests, id, r) && WaiterOk(t.limiters[id], t.requests, id, r) {
      assert BooksOk(s, id);
      if Acts(l, r) {
        ActorBooks(s, l, id, r);
      } else {
        BystanderBooks(s, l, id, r);
      }
    }
  }

  lemma InvStep(s: Sys, l: Label)
    requires Inv(s) && Enabled(s, l)
    requires forall id :: id in s.limiters ==> L.QueueOk(s.limiters[id])
    ensures Inv(Next(s, l))
  {
    var t := Next(s, l);
    forall r | r in t.requests ensures NestedRequest(t, t.requests[r]) {
      NestedStep(s, l, r);
    }
    forall id | id in t.limiters ensures BooksOk(t, id) {
      if id in s.limiters {
        BooksStep(s, l, id);
      } else {
        NewRouteBooks(s, l);
      }
    }
  }

  lemma {:induction false} RunInv(tr: Trace)
    requires Run(tr)
    ensures Inv(tr.state)
  {
    if tr.Then? {
      RunInv(tr.before);
      forall id | id in tr.before.state.limiters ensures L.QueueOk(tr.before.state.limiters[id]) {
        ProjectRuns(tr.before, id);
        L.RunConserves(Project(tr.before, id));
      }
      InvStep(tr.before.state, tr.step);
    }
  }

  // ---- Ceilings and the requests past them -------------------------------

  /** Adding keys that count nothing changes no sum. */
  lemma {:induction false} SumSupport(a: map<nat, nat>, b: map<nat, nat>)
    requires forall k :: k in a ==> k in b && b[k] == a[k]
    requires forall k :: k in b && k !in a ==> b[k] == 0
    ensures Sum(a) == Sum(b)
    decreases |b|
  {
    if b != map[] {
      var k :| k in b;
      SumRemove(b, k);
      if k in a {
        SumRemove(a, k);
        SumSupport(a - {k}, b - {k});
      } else {
        assert a - {k} == a;
        SumSupport(a, b - {k});
      }
    } else {
      assert a == map[];
    }
  }

  /** In every run, a limiter's units out are exactly the summed units of the live requests past it. */
  lemma UnitsOut(tr: Trace, id: LimiterId)
    requires Run(tr) && id in tr.state.limiters
    ensures L.InFlight(tr.state.limiters[id]) == Sum(HeldMap(tr.state.requests, id))
  {
    RunInv(tr);
    var s := tr.state;
    var permits, held := s.limiters[id].permits, HeldMap(s.requests, id);
    forall r: nat | r in permits || r in held
      ensures r in held && held[r] == if r in permits then permits[r] else 0
    {
      assert PermitOk(s.limiters[id], s.requests, id, r);
    }
    SumSupport(permits, held);
  }

  /**
    At rest, a ceiling's counters follow from the requests past it and the units
    its waiters already hold: always conserved, and in closed form unless a waiter
    has handed units back past a debt.
   */
  lemma CountersAtRest(tr: Trace, id: LimiterId)
    requires Run(tr) && id in tr.state.limiters && tr.state.limiters[id].lock.Free?
    ensures var s, out := tr.state.limiters[id], Sum(HeldMap(tr.state.requests, id)) + L.Held(tr.state.limiters[id]);
            L.Balanced(s, out) && (L.NoLeak(Project(tr, id)) ==> L.Determined(s, out))
  {
    UnitsOut(tr, id);
    ProjectRuns(tr, id);
    L.AtRest(Project(tr, id));
  }

  /** Passing a ceiling never takes the requests past it above the ceiling in force, unless units have leaked. */
  lemma PassesWithinCeiling(tr: Trace)
    requires Run(tr) && tr.Then? && tr.step.Ask?
    requires L.Takes(tr.before.state.limiters[Wanted(tr.before.state.requests[tr.step.r])], tr.step.step)
    requires L.NoLeak(Project(tr.before, Wanted(tr.before.state.requests[tr.step.r])))
    ensures var id := Wanted(tr.before.state.requests[tr.step.r]);
            && id in tr.state.limiters
            && Sum(HeldMap(tr.state.requests, id)) <= L.Ceiling(tr.before.state.limiters[id])
  {
    var id := Wanted(tr.before.state.requests[tr.step.r]);
    UnitsOut(tr, id);
    ProjectRuns(tr.before, id);
    L.GrantWithinCeiling(Project(tr.before, id), tr.step.step);
  }

  /** Units of the global ceiling held by a tier never exceed that tier's own units out. */
  lemma TierBoundsGlobal(tr: Trace, p: Priority)
    requires Run(tr)
    ensures Tier(p) in tr.state.limiters
    ensures Sum(GlobalMap(tr.state.requests, p)) <= L.InFlight(tr.state.limiters[Tier(p)])
  {
    RunInv(tr);
    var s := tr.state;
    assert Tier(p) in {Global, Tier(High), Tier(Normal), Tier(Low)};
    forall r | r in s.requests ensures GlobalMap(s.requests, p)[r] <= HeldMap(s.requests, Tier(p))[r] {
      assert NestedRequest(s, s.requests[r]);
    }
    SumMonotone(GlobalMap(s.requests, p), HeldMap(s.requests, Tier(p)));
    UnitsOut(tr, Tier(p));
  }

  lemma {:induction false} GlobalSplits(requests: map<nat, Request>)
    ensures Sum(HeldMap(requests, Global))
         == Sum(GlobalMap(requests, High)) + Sum(GlobalMap(requests, Normal)) + Sum(GlobalMap(requests, Low))
    decreases |requests|
  {
    if requests == map[] {
      assert HeldMap(requests, Global) == map[];
      assert GlobalMap(requests, High) == GlobalMap(requests, Normal) == GlobalMap(requests, Low) == map[];
    } else {
      var r :| r in requests;
      HeldRemove(requests, r, Global);
      GlobalRemove(requests, r, High);
      GlobalRemove(requests, r, Normal);
      GlobalRemove(requests, r, Low);
      GlobalSplits(requests - {r});
    }
  }

  lemma HeldRemove(requests: map<nat, Request>, r: nat, id: LimiterId)
    requires r in requests
    ensures Sum(HeldMap(requests, id)) == Holds(requests[r], id) + Sum(HeldMap(requests - {r}, id))
  {
    SumRemove(HeldMap(requests, id), r);
    assert HeldMap(requests, id) - {r} == HeldMap(requests - {r}, id);
  }

  lemma GlobalRemove(requests: map<nat, Request>, r: nat, p: Priority)
    requires r in requests
    ensures Sum(GlobalMap(requests, p)) == GlobalVia(requests[r], p) + Sum(GlobalMap(requests - {r}, p))
  {
    SumRemove(GlobalMap(requests, p), r);
    assert GlobalMap(requests, p) - {r} == GlobalMap(requests - {r}, p);
  }

  /** Global units out never exceed what the three tiers have out together. */
  lemma GlobalIsCoveredByTiers(tr: Trace)
    requires Run(tr)
    ensures {Global, Tier(High), Tier(Normal), Tier(Low)} <= tr.state.limiters.Keys
    ensures var ls := tr.state.limiters;
            L.InFlight(ls[Global])
            <= L.InFlight(ls[Tier(High)]) + L.InFlight(ls[Tier(Normal)]) + L.InFlight(ls[Tier(Low)])
  {
    RunInv(tr);
    GlobalSplits(tr.state.requests);
    TierBoundsGlobal(tr, High);
    TierBoundsGlobal(tr, Normal);
    TierBoundsGlobal(tr, Low);
    UnitsOut(tr, Global);
  }

  /**
    A ceiling no live request is past or still asking for has everything back,
    whatever was shed, released or reloaded: available is the limit plus any debt,
    and the debt is gone unless units have leaked past it.
   */
  lemma NothingLeaks(tr: Trace, id: LimiterId)
    requires Run(tr) && id in tr.state.limiters && tr.state.limiters[id].lock.Free?
    requires forall r :: r in tr.state.requests ==>
               !Past(tr.state.requests[r], id) && !Asking(tr.state.requests[r], id)
    ensures var s := tr.state.limiters[id];
            && s.available == s.limit + s.debt
            && s.queue.depth == 0
            && (L.NoLeak(Project(tr, id)) ==> s.available == s.limit && s.debt == 0)
  {
    CountersAtRest(tr, id);
    SumZero(HeldMap(tr.state.requests, id));
    NobodyQueued(tr, id);
  }

  lemma NobodyQueued(tr: Trace, id: LimiterId)
    requires Run(tr) && id in tr.state.limiters
    requires forall r :: r in tr.state.requests ==> !Asking(tr.state.requests[r], id)
    ensures L.Held(tr.state.limiters[id]) == 0 && tr.state.limiters[id].queue.depth == 0
  {
    RunInv(tr);
    ProjectRuns(tr, id);
    L.RunConserves(Project(tr, id));
    forall r: nat ensures !L.Queueing(tr.state.limiters[id], r) {
      assert WaiterOk(tr.state.limiters[id], tr.state.requests, id, r);
    }
    EmptyQueue(tr.state.limiters[id]);
  }

  lemma EmptyQueue(s: L.Limiter)
    requires L.QueueOk(s) && forall r: nat :: !L.Queueing(s, r)
    ensures L.Held(s) == 0 && s.queue.depth == 0
  {
    forall r: nat ensures r !in s.waiting && r !in s.queue.entering {
      assert !L.Queueing(s, r);
    }
    assert s.waiting == map[] && s.queue.entering == map[];
    SumZero(L.HeldMap(s.waiting));
  }
}
