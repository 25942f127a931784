/**
  Many spools sharing one budget, step by step: each claim is a load followed by
  weak compare-and-swaps, and anything may happen between two of them.
 */
module SpoolProtocol {
  import opened Machine
  import opened Sums
  import opened Spools
  import opened Options

  /** Between the load and the swap a spool remembers the value it saw. */
  datatype Task = Idle | Claiming(chunk: Option<Bytes>, eos: bool, seen: int)

  /** A buffer with everything it has been fed and everything it has sent on. */
  datatype Spooling = Spooling(buffer: Buffer, task: Task, fed: Bytes, emitted: Bytes)

  /** `used` is an integer so that an underflow would show. */
  datatype Sys = Sys(limit: nat, used: int, spools: map<nat, Spooling>)

  datatype Label =
    | Open(id: nat, maxBody: nat)
    | Feed(id: nat, chunk: Option<Bytes>, eos: bool)
    | Exchange(id: nat, spurious: bool)
    | Close(id: nat)

  function ClaimFor(b: Buffer, chunk: Option<Bytes>): nat {
    Claim(b, |b.held| + |Payload(chunk)|)
  }

  predicate MustClaim(b: Buffer, chunk: Option<Bytes>) {
    b.outcome.None? && Payload(chunk) != [] && Fits(b, Payload(chunk)) && ClaimFor(b, chunk) > 0
  }

  function Served(sp: Spooling, chunk: Option<Bytes>, eos: bool, granted: bool): Spooling {
    var (b, out) := Offered(sp.buffer, chunk, eos, granted);
    Spooling(b, Idle, sp.fed + Payload(chunk), sp.emitted + Payload(out))
  }

  predicate Init(s: Sys) {
    s.limit <= WORD_MAX && s.used == 0 && s.spools == map[]
  }

  predicate Enabled(s: Sys, l: Label) {
    match l
    case Open(id, maxBody) => id !in s.spools && maxBody <= WORD_MAX
    case Feed(id, chunk, _) => id in s.spools && s.spools[id].task.Idle? && |Payload(chunk)| <= SLICE_MAX
    case Exchange(id, _) => id in s.spools && s.spools[id].task.Claiming?
    case Close(id) => id in s.spools && s.spools[id].task.Idle?
  }

  function Next(s: Sys, l: Label): Sys
    requires Enabled(s, l)
  {
    match l
    case Open(id, maxBody) => s.(spools := s.spools[id := Spooling(Empty(maxBody), Idle, [], [])])
    case Feed(id, chunk, eos) =>
      var sp := s.spools[id];
      var after :=
        if MustClaim(sp.buffer, chunk) then sp.(task := Claiming(chunk, eos, s.used))
        else Served(sp, chunk, eos, true);
      s.(spools := s.spools[id := after])
    case Exchange(id, spurious) => Exchanged(s, id, spurious)
    case Close(id) => s.(used := s.used - s.spools[id].buffer.reserved, spools := s.spools - {id})
  }

  function Exchanged(s: Sys, id: nat, spurious: bool): Sys
    requires id in s.spools && s.spools[id].task.Claiming?
  {
    var sp := s.spools[id];
    var Claiming(chunk, eos, seen) := sp.task;
    var claim := ClaimFor(sp.buffer, chunk);
    if seen + claim > s.limit then
      s.(spools := s.spools[id := Served(sp, chunk, eos, false)])
    else if seen == s.used && !spurious then
      s.(used := s.used + claim, spools := s.spools[id := Served(sp, chunk, eos, true)])
    else
      s.(spools := s.spools[id := sp.(task := Claiming(chunk, eos, s.used))])
  }

  // ---- Invariant ---------------------------------------------------------

  function Reservations(spools: map<nat, Spooling>): map<nat, nat> {
    map id | id in spools :: spools[id].buffer.reserved
  }

  predicate SpoolOk(sp: Spooling) {
    && Balanced(sp.buffer, sp.fed, sp.emitted)
    && Covered(sp.buffer) && sp.buffer.maxBody <= WORD_MAX
    && (sp.task.Claiming? ==> MustClaim(sp.buffer, sp.task.chunk) && |Payload(sp.task.chunk)| <= SLICE_MAX)
  }

  ghost predicate Inv(s: Sys) {
    && 0 <= s.used <= s.limit <= WORD_MAX
    && s.used == Sum(Reservations(s.spools))
    && (forall id :: id in s.spools ==> SpoolOk(s.spools[id]))
  }

  lemma ReservationsUpdate(spools: map<nat, Spooling>, id: nat, sp: Spooling)
    ensures Sum(Reservations(spools[id := sp]))
         == Sum(Reservations(spools)) + sp.buffer.reserved - (if id in spools then spools[id].buffer.reserved else 0)
  {
    assert Reservations(spools[id := sp]) == Reservations(spools)[id := sp.buffer.reserved];
    SumUpdate(Reservations(spools), id, sp.buffer.reserved);
  }

  /** An offer moves its reservation by exactly the claim that was granted. */
  lemma ServedOk(sp: Spooling, chunk: Option<Bytes>, eos: bool, granted: bool)
    requires SpoolOk(sp) && |Payload(chunk)| <= SLICE_MAX
    ensures SpoolOk(Served(sp, chunk, eos, granted))
    ensures Served(sp, chunk, eos, granted).buffer.reserved
         == sp.buffer.reserved + if granted && MustClaim(sp.buffer, chunk) then ClaimFor(sp.buffer, chunk) else 0
  {
    OfferedBalances(sp.buffer, chunk, eos, granted, sp.fed, sp.emitted);
    OfferedCovered(sp.buffer, chunk, eos, granted);
  }

  lemma InvStep(s: Sys, l: Label)
    requires Inv(s) && Enabled(s, l)
    ensures Inv(Next(s, l))
  {
    match l
    case Open(id, maxBody) =>
      ReservationsUpdate(s.spools, id, Spooling(Empty(maxBody), Idle, [], []));
    case Feed(id, chunk, eos) =>
      var sp := s.spools[id];
      ServedOk(sp, chunk, eos, true);
      ReservationsUpdate(s.spools, id, Next(s, l).spools[id]);
    case Exchange(id, spurious) =>
      ExchangeStep(s, id, spurious);
    case Close(id) =>
      CloseStep(s, id);
  }

  lemma ExchangeStep(s: Sys, id: nat, spurious: bool)
    requires Inv(s) && id in s.spools && s.spools[id].task.Claiming?
    ensures Inv(Exchanged(s, id, spurious))
  {
    var sp := s.spools[id];
    var Claiming(chunk, eos, seen) := sp.task;
    ServedOk(sp, chunk, eos, true);
    ServedOk(sp, chunk, eos, false);
    ReservationsUpdate(s.spools, id, Exchanged(s, id, spurious).spools[id]);
  }

  lemma CloseStep(s: Sys, id: nat)
    requires Inv(s) && Enabled(s, Close(id))
    ensures Inv(Next(s, Close(id)))
  {
    SumRemove(Reservations(s.spools), id);
    assert Reservations(s.spools - {id}) == Reservations(s.spools) - {id};
  }

  // ---- Runs --------------------------------------------------------------

  datatype Trace = Start(state: Sys) | Then(before: Trace, step: Label, state: Sys)

  ghost predicate Run(tr: Trace) {
    match tr
    case Start(s) => Init(s)
    case Then(before, l, t) => Run(before) && Enabled(before.state, l) && t == Next(before.state, l)
  }

  lemma {:induction false} RunInv(tr: Trace)
    requires Run(tr)
    ensures Inv(tr.state)
  {
    match tr
    case Start(s) =>
      assert Reservations(map[]) == map[];
    case Then(before, l, _) =>
      RunInv(before);
      InvStep(before.state, l);
  }

  /** The shared counter is the sum of live reservations, within the limit, and ends at zero. */
  lemma BudgetConserved(tr: Trace)
    requires Run(tr)
    ensures tr.state.used == Sum(Reservations(tr.state.spools))
    ensures 0 <= tr.state.used <= tr.state.limit
    ensures tr.state.spools == map[] ==> tr.state.used == 0
  {
    RunInv(tr);
    assert Reservations(map[]) == map[];
  }

  /** What a request gives back on closing was really there. */
  lemma ReleaseNeverUnderflows(tr: Trace, id: nat)
    requires Run(tr) && id in tr.state.spools
    ensures tr.state.spools[id].buffer.reserved <= tr.state.used
  {
    RunInv(tr);
    SumAtLeast(Reservations(tr.state.spools), id);
  }

  /** Whatever the interleaving, each spool keeps its stream, and its memory within its share. */
  lemma EachSpool(tr: Trace, id: nat)
    requires Run(tr) && id in tr.state.spools
    ensures var sp := tr.state.spools[id];
            && (sp.buffer.outcome.None? ==> sp.emitted == [] && sp.buffer.held == sp.fed)
            && (sp.buffer.outcome.Some? ==> sp.emitted == sp.fed)
            && |sp.buffer.held| <= sp.buffer.reserved <= sp.buffer.maxBody
  {
    RunInv(tr);
    assert SpoolOk(tr.state.spools[id]);
  }

  // ---- Refusals ----------------------------------------------------------

  /** At some moment of the claim still under way, the counter stood at `v`. */
  ghost predicate StoodAt(tr: Trace, id: nat, v: int) {
    tr.state.used == v
    || (tr.Then? && id in tr.before.state.spools && tr.before.state.spools[id].task.Claiming?
        && StoodAt(tr.before, id, v))
  }

  lemma {:induction false} SeenWasReal(tr: Trace, id: nat)
    requires Run(tr) && id in tr.state.spools && tr.state.spools[id].task.Claiming?
    ensures StoodAt(tr, id, tr.state.spools[id].task.seen)
  {
    match tr
    case Start(_) =>
    case Then(before, l, _) =>
      if l.id != id || (l.Exchange? && tr.state.spools[id].task.seen != before.state.used) {
        SeenWasReal(before, id);
      }
  }

  /** A claim is only refused if, at some moment while it was being made, it really did not fit. */
  lemma RefusalsAreReal(tr: Trace, id: nat, spurious: bool)
    requires Run(tr) && id in tr.state.spools && tr.state.spools[id].task.Claiming?
    requires Exchanged(tr.state, id, spurious).spools[id].buffer.outcome == Some(BudgetExhausted)
    ensures exists v: int :: StoodAt(tr, id, v)
              && v + ClaimFor(tr.state.spools[id].buffer, tr.state.spools[id].task.chunk) > tr.state.limit
  {
    SeenWasReal(tr, id);
    RunInv(tr);
    assert SpoolOk(tr.state.spools[id]);
  }
}
