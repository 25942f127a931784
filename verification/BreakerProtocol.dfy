/**
  Every run of a breaker shared by many requests. Asking and resolving are the
  sections under the probe lock; opening is a lone swap, whose trip is counted in
  a later step. When the failure ratio is exceeded is left open, so what is
  proved holds whatever the window says.
 */
module BreakerProtocol {
  import opened Machine
  import opened Breakers
  import opened Options

  /** `pending` swaps have opened the gate but not yet counted their trip. */
  datatype Sys = Sys(openFor: nat, gate: Gate, pending: nat)

  datatype Label =
    | Ask(now: nat)
    | Result(now: nat, token: nat, ok: bool)
    | Trip(now: nat)
    | CountTrip

  predicate Init(s: Sys) {
    s.gate == Gate(0, 0, 0, 0) && s.pending == 0
  }

  /** A result carries a token that was handed out; stamps fit the machine's clock. */
  predicate Enabled(s: Sys, l: Label) {
    match l
    case Ask(now) => now <= WORD_MAX
    case Result(now, token, _) => now <= WORD_MAX && 1 <= token <= s.gate.nextProbe
    case Trip(now) => now <= WORD_MAX
    case CountTrip => s.pending > 0
  }

  function Next(s: Sys, l: Label): Sys
    requires Enabled(s, l)
  {
    match l
    case Ask(now) => s.(gate := Asked(s.gate, now, s.openFor).0)
    case Result(now, token, ok) => s.(gate := Resolved(s.gate, now, s.openFor, token, ok))
    case Trip(now) =>
      s.(gate := Shut(s.gate, now, s.openFor), pending := s.pending + if s.gate.until == 0 then 1 else 0)
    case CountTrip => s.(gate := s.gate.(trips := s.gate.trips + 1), pending := s.pending - 1)
  }

  // ---- Runs and what happened in them ------------------------------------

  datatype Trace = Start(state: Sys) | Then(before: Trace, step: Label, state: Sys)

  ghost predicate Run(tr: Trace) {
    match tr
    case Start(s) => Init(s)
    case Then(before, l, t) => Run(before) && Enabled(before.state, l) && t == Next(before.state, l)
  }

  predicate Open(s: Sys) {
    s.gate.until != 0
  }

  /** How often the gate has gone from closed to open; this numbers the open episodes. */
  function Openings(tr: Trace): nat {
    match tr
    case Start(_) => 0
    case Then(before, _, t) => Openings(before) + if !Open(before.state) && Open(t) then 1 else 0
  }

  /** A probe: its token, when it was let through, and in which episode. */
  datatype Admission = Admission(token: nat, time: nat, episode: nat)

  function AdmittedBy(before: Trace, l: Label): Option<Admission> {
    if l.Ask? && Asked(before.state.gate, l.now, before.state.openFor).1.Probe? then
      Some(Admission(Asked(before.state.gate, l.now, before.state.openFor).1.token, l.now, Openings(before)))
    else None
  }

  /** The most recently admitted probe of the whole run. */
  function LastProbe(tr: Trace): Option<Admission> {
    match tr
    case Start(_) => None
    case Then(before, l, _) => if AdmittedBy(before, l).Some? then AdmittedBy(before, l) else LastProbe(before)
  }

  // ---- Invariant ---------------------------------------------------------

  ghost predicate Inv(tr: Trace) {
    var g := tr.state.gate;
    && (g.until == 0 ==> g.active == 0)
    && g.until <= WORD_MAX
    && (LastProbe(tr).None? ==> g.nextProbe == 0)
    && (LastProbe(tr).Some? ==> LastProbe(tr).value.token == g.nextProbe > 0)
    && (g.active != 0 ==>
          LastProbe(tr).Some? && g.active == LastProbe(tr).value.token && LastProbe(tr).value.episode == Openings(tr))
    && g.trips + tr.state.pending == Openings(tr)
  }

  lemma {:induction false} RunInv(tr: Trace)
    requires Run(tr)
    ensures Inv(tr)
  {
    if tr.Then? {
      RunInv(tr.before);
    }
  }

  /**
    An open episode ends in one way only: the probe admitted last, and admitted
    during this very episode, reports success.
   */
  lemma ClosesOnlyOnLatestProbe(tr: Trace)
    requires Run(tr) && tr.Then? && Open(tr.before.state) && !Open(tr.state)
    ensures tr.step.Result? && tr.step.ok
    ensures LastProbe(tr.before).Some?
    ensures LastProbe(tr.before).value.token == tr.step.token
    ensures LastProbe(tr.before).value.episode == Openings(tr.before)
  {
    RunInv(tr.before);
  }

  /** No two probes share a token. */
  lemma TokensAreFresh(tr: Trace)
    requires Run(tr) && tr.Then? && AdmittedBy(tr.before, tr.step).Some? && LastProbe(tr.before).Some?
    ensures AdmittedBy(tr.before, tr.step).value.token > LastProbe(tr.before).value.token
  {
    RunInv(tr.before);
  }

  /** The trip counter, with swaps not yet counted, is the number of openings. */
  lemma TripsAreOpenings(tr: Trace)
    requires Run(tr)
    ensures tr.state.gate.trips + tr.state.pending == Openings(tr)
  {
    RunInv(tr);
  }

  // ---- Recovery ----------------------------------------------------------

  /** The largest stamp any caller has brought so far. */
  function Latest(tr: Trace): nat {
    match tr
    case Start(_) => 0
    case Then(before, l, _) => if l.CountTrip? then Latest(before) else Max(Latest(before), l.now)
  }

  /** However many probes were lost or late, the gate waits no longer than its open time past the last stamp. */
  lemma {:induction false} DeadlineIsNear(tr: Trace)
    requires Run(tr)
    ensures tr.state.gate.until <= Max(SatAdd(Latest(tr), tr.state.openFor), 1)
  {
    if tr.Then? {
      DeadlineIsNear(tr.before);
    }
  }

  /**
    So a lost probe never wedges the breaker: from every reachable open state, the
    first request to ask once the open time has passed since the last stamp is
    let through as a probe, and its success closes the gate.
   */
  lemma NeverWedged(tr: Trace, now: nat, later: nat)
    requires Run(tr) && Open(tr.state) && Max(SatAdd(Latest(tr), tr.state.openFor), 1) <= now <= WORD_MAX
    requires later <= WORD_MAX
    ensures AdmittedBy(tr, Ask(now)).Some?
    ensures var s, token := Next(tr.state, Ask(now)), AdmittedBy(tr, Ask(now)).value.token;
            Enabled(s, Result(later, token, true)) && !Open(Next(s, Result(later, token, true)))
  {
    DeadlineIsNear(tr);
  }

  // ---- Spacing -----------------------------------------------------------

  /** While open, the deadline is at least the open time past the last probe. */
  ghost predicate Guarded(tr: Trace) {
    Open(tr.state) && LastProbe(tr).Some? ==>
      tr.state.gate.until >= SatAdd(LastProbe(tr).value.time, tr.state.openFor)
  }

  /** The step arms the gate with a stamp so old that its deadline falls short of the last probe's open time. */
  ghost predicate Backdates(tr: Trace, l: Label) {
    && LastProbe(tr).Some?
    && (|| (l.Trip? && !Open(tr.state))
        || (l.Result? && !l.ok && l.token == tr.state.gate.active))
    && Deadline(l.now, tr.state.openFor) < SatAdd(LastProbe(tr).value.time, tr.state.openFor)
  }

  /** Every admission of the run came at least the open time after the one before it. */
  ghost predicate Spaced(tr: Trace) {
    tr.Then? ==> Spaced(tr.before) && SpacedStep(tr.before, tr.step)
  }

  ghost predicate SpacedStep(tr: Trace, l: Label) {
    AdmittedBy(tr, l).Some? && LastProbe(tr).Some? ==>
      l.now >= SatAdd(LastProbe(tr).value.time, tr.state.openFor)
  }

  ghost predicate NeverBackdated(tr: Trace) {
    tr.Then? ==> NeverBackdated(tr.before) && !Backdates(tr.before, tr.step)
  }

  /** A guard that holds is lost by a backdated arming and by nothing else. */
  lemma GuardedStep(tr: Trace)
    requires Run(tr) && tr.Then? && Guarded(tr.before)
    ensures Guarded(tr) <==> !Backdates(tr.before, tr.step)
  {
    RunInv(tr.before);
  }

  /** An open gate is guarded exactly when every probe it could admit next would be spaced. */
  lemma GuardedIff(tr: Trace)
    requires Run(tr)
    ensures Guarded(tr) <==> forall now: nat :: now <= WORD_MAX ==> SpacedStep(tr, Ask(now))
  {
    RunInv(tr);
    if !Guarded(tr) {
      assert !SpacedStep(tr, Ask(tr.state.gate.until));
    }
  }

  lemma {:induction false} NeverBackdatedIsSpaced(tr: Trace)
    requires Run(tr) && NeverBackdated(tr)
    ensures Guarded(tr) && Spaced(tr)
  {
    if tr.Then? {
      NeverBackdatedIsSpaced(tr.before);
      GuardedStep(tr);
      if tr.step.Ask? {
        GuardedIff(tr.before);
      }
    }
  }

  /**
    A run that has backdated nothing has spaced its probes. It goes on doing so,
    whenever the next request asks, exactly until a step arms the gate with a
    backdated stamp: after that, a request asking at the deadline is let through
    too early.
   */
  lemma ProbesAreSpacedIff(tr: Trace)
    requires Run(tr) && tr.Then? && NeverBackdated(tr.before)
    ensures Spaced(tr)
    ensures (forall now: nat :: now <= WORD_MAX ==> SpacedStep(tr, Ask(now))) <==> !Backdates(tr.before, tr.step)
  {
    NeverBackdatedIsSpaced(tr.before);
    GuardedStep(tr);
    GuardedIff(tr);
    if tr.step.Ask? {
      GuardedIff(tr.before);
    }
  }

  /** A clock that never goes back, as every caller that stamps and acts at once sees it. */
  ghost predicate Monotone(tr: Trace) {
    tr.Then? ==> Monotone(tr.before) && (tr.step.CountTrip? || Latest(tr.before) <= tr.step.now)
  }

  lemma {:induction false} LastProbeBefore(tr: Trace)
    ensures LastProbe(tr).Some? ==> LastProbe(tr).value.time <= Latest(tr)
  {
    if tr.Then? {
      LastProbeBefore(tr.before);
    }
  }

  lemma {:induction false} MonotoneNeverBackdates(tr: Trace)
    requires Monotone(tr)
    ensures NeverBackdated(tr)
  {
    if tr.Then? {
      MonotoneNeverBackdates(tr.before);
      LastProbeBefore(tr.before);
    }
  }

  /** Under such a clock consecutive probes, of one episode or of two, are always at least the open time apart. */
  lemma ProbesAreSpaced(tr: Trace)
    requires Run(tr) && Monotone(tr)
    ensures Spaced(tr)
  {
    MonotoneNeverBackdates(tr);
    NeverBackdatedIsSpaced(tr);
  }

  function Extend(tr: Trace, l: Label): Trace
    requires Enabled(tr.state, l)
  {
    Then(tr, l, Next(tr.state, l))
  }

  /** It can happen: a trip stamped long before it lands lets two probes through at once. */
  lemma StaleTripCrowdsProbes() returns (tr: Trace)
    ensures Run(tr) && !Spaced(tr)
  {
    var tripped := Extend(Start(Sys(10, Gate(0, 0, 0, 0), 0)), Trip(0));
    var probed := Extend(tripped, Ask(10));
    var closed := Extend(probed, Result(10, 1, true));
    var again := Extend(closed, Trip(0));
    tr := Extend(again, Ask(10));
    assert LastProbe(probed) == Some(Admission(1, 10, 1));
    assert LastProbe(again) == LastProbe(closed) == LastProbe(probed);
    assert Run(tripped) && Run(closed) && Run(tr);
    assert !SpacedStep(again, Ask(10));
  }
}
