/** A circuit breaker for one backend, fed by the outcomes of real traffic. */
module Breakers {
  import opened Machine
  import opened Windows

  datatype Allowance = Denied | Normal | Probe(token: nat)

  /** The deadline is zero while closed; `active` names the probe entitled to decide. */
  datatype Gate = Gate(until: nat, nextProbe: nat, active: nat, trips: nat)

  function Deadline(now: nat, openFor: nat): nat {
    Max(SatAdd(now, openFor), 1)
  }

  /** Past its deadline an open gate lets one probe through and re-arms itself. */
  function Asked(g: Gate, now: nat, openFor: nat): (Gate, Allowance) {
    if g.until == 0 then (g, Normal)
    else if now < g.until then (g, Denied)
    else (g.(until := Deadline(now, openFor), nextProbe := g.nextProbe + 1, active := g.nextProbe + 1),
          Probe(g.nextProbe + 1))
  }

  /** Only the active probe's outcome counts. */
  function Resolved(g: Gate, now: nat, openFor: nat, token: nat, ok: bool): Gate {
    if g.active != token then g
    else g.(active := 0, until := if ok then 0 else Deadline(now, openFor))
  }

  /** The swap from closed to open, which only one of several racing callers wins. */
  function Shut(g: Gate, now: nat, openFor: nat): Gate {
    if g.until == 0 then g.(until := Deadline(now, openFor)) else g
  }

  predicate OverThreshold(t: Totals, minRequests: nat, failurePercent: nat) {
    t.total >= minRequests && t.flagged * 100 >= t.total * failurePercent
  }

  class Breaker {
    const enabled: bool
    const minRequests: nat
    const failurePercent: nat
    const openFor: nat
    const window: RollingRatio
    var openUntil: nat
    var nextProbe: nat
    var activeProbe: nat
    var trips: nat

    ghost predicate Valid()
      reads this, window, window.buckets
    {
      window.Valid() && CountsOnly(window.log)
    }

    function View(): Gate
      reads this
    {
      Gate(openUntil, nextProbe, activeProbe, trips)
    }

    constructor (enabled: bool, minRequests: nat, failurePercent: nat, openFor: nat, windowMs: nat)
      ensures Valid() && View() == Gate(0, 0, 0, 0) && window.View() == Blanks() && window.log == []
      ensures fresh(window.buckets) && fresh(window)
      ensures (this.enabled, this.minRequests, this.failurePercent, this.openFor)
           == (enabled, minRequests, failurePercent, openFor)
    {
      this.enabled, this.minRequests, this.failurePercent, this.openFor :=
        enabled, minRequests, failurePercent, openFor;
      window := new RollingRatio(windowMs);
      openUntil, nextProbe, activeProbe, trips := 0, 0, 0, 0;
    }

    method Ask(now: nat) returns (a: Allowance)
      modifies this
      ensures a.Normal? <==> !enabled || old(openUntil) == 0
      ensures a.Denied? <==> enabled && now < old(openUntil)
      ensures a.Probe? ==> a.token == old(nextProbe) + 1 == activeProbe && openUntil == Max(SatAdd(now, openFor), 1)
      ensures !a.Probe? ==> View() == old(View())
      ensures (View(), a) == if enabled then Asked(old(View()), now, openFor) else (old(View()), Normal)
    {
      if !enabled || openUntil == 0 {
        return Normal;
      }
      if now < openUntil {
        return Denied;
      }
      openUntil := Deadline(now, openFor);
      nextProbe := nextProbe + 1;
      activeProbe := nextProbe;
      return Probe(nextProbe);
    }

    /**
      An ordinary outcome counts only while closed. Under a clock that never goes
      back, it opens the gate exactly if it is a failure and, itself included, the
      last ten epochs hold enough outcomes and enough failures among them.
     */
    method Record(now: nat, ok: bool)
      requires Valid()
      modifies this, window.buckets, window`log
      ensures Valid()
      ensures var counted := Updated(old(window.View()), window.Epoch(now), Count(!ok));
              var over := !ok && OverThreshold(Window(counted, window.Epoch(now)), minRequests, failurePercent);
              if !enabled || old(openUntil) != 0 then View() == old(View()) && window.View() == old(window.View())
              else if over then
                View() == Shut(old(View()), now, openFor).(trips := old(trips) + 1) && window.View() == Blanks()
              else View() == old(View()) && window.View() == counted
      ensures enabled && old(openUntil) == 0 && InTime(old(window.log), window.Epoch(now)) ==>
                (openUntil != 0 <==> !ok && Trips(old(window.log), window.Epoch(now), minRequests, failurePercent))
    {
      if InTime(window.log, window.Epoch(now)) {
        TripsIff(window.log, window.Epoch(now), minRequests, failurePercent);
      }
      if !enabled || openUntil != 0 {
        return;
      }
      window.Record(now, !ok);
      if !ok {
        TripIfOverThreshold(now);
      }
    }

    method TripIfOverThreshold(now: nat)
      requires Valid()
      modifies this`openUntil, this`trips, window.buckets, window`log
      ensures Valid()
      ensures var over := OverThreshold(Window(old(window.View()), window.Epoch(now)), minRequests, failurePercent);
              if over && old(openUntil) == 0 then
                View() == Shut(old(View()), now, openFor).(trips := old(trips) + 1) && window.View() == Blanks()
              else View() == old(View()) && window.View() == old(window.View())
    {
      var t := window.ReadTotals(now);
      if t.total < minRequests {
        return;
      }
      if t.flagged * 100 < t.total * failurePercent {
        return;
      }
      if openUntil == 0 {
        openUntil := Deadline(now, openFor);
        trips := trips + 1;
        window.Reset();
      }
    }

    method RecordProbe(now: nat, token: nat, ok: bool)
      requires Valid()
      modifies this, window.buckets, window`log
      ensures Valid()
      ensures !enabled || token != old(activeProbe) ==> View() == old(View())
      ensures enabled && token == old(activeProbe) ==>
                activeProbe == 0 && openUntil == if ok then 0 else Max(SatAdd(now, openFor), 1)
      ensures View() == if enabled then Resolved(old(View()), now, openFor, token, ok) else old(View())
      ensures window.View()
           == if enabled && old(activeProbe) == token && ok then Blanks() else old(window.View())
    {
      if !enabled || activeProbe != token {
        return;
      }
      activeProbe := 0;
      if ok {
        window.Reset();
        openUntil := 0;
      } else {
        openUntil := Deadline(now, openFor);
      }
    }
  }

  // ---- When it trips -----------------------------------------------------

  /** Nothing was recorded later than now. */
  predicate InTime(log: seq<Entry>, epoch: nat) {
    Monotone(log) && Latest(log) <= epoch
  }

  /** With one more failure, the last ten epochs hold enough outcomes, and enough of them failed. */
  predicate Trips(log: seq<Entry>, epoch: nat, minRequests: nat, failurePercent: nat) {
    var n, m := Outcomes(log, epoch) + 1, Flagged(log, epoch) + 1;
    n >= minRequests && 100 * m >= failurePercent * n
  }

  /** The window after one more failure. */
  lemma CountedFailure(log: seq<Entry>, epoch: nat)
    requires CountsOnly(log) && InTime(log, epoch)
    ensures Window(Updated(Replay(log), epoch, Count(true)), epoch)
         == Totals(Outcomes(log, epoch) + 1, Flagged(log, epoch) + 1)
  {
    var last := At(epoch, Count(true));
    assert (log + [last])[..|log|] == log;
    ReplayPush(log, last);
    OutcomesPush(log, last, epoch);
    FlaggedPush(log, last, epoch);
    WindowCounts(log + [last], epoch);
  }

  lemma TripsIff(log: seq<Entry>, epoch: nat, minRequests: nat, failurePercent: nat)
    requires CountsOnly(log) && InTime(log, epoch)
    ensures OverThreshold(Window(Updated(Replay(log), epoch, Count(true)), epoch), minRequests, failurePercent)
       <==> Trips(log, epoch, minRequests, failurePercent)
  {
    CountedFailure(log, epoch);
    OverIs(Outcomes(log, epoch) + 1, Flagged(log, epoch) + 1, minRequests, failurePercent);
  }

  lemma OverIs(n: nat, m: nat, minRequests: nat, failurePercent: nat)
    ensures OverThreshold(Totals(n, m), minRequests, failurePercent)
       <==> n >= minRequests && 100 * m >= failurePercent * n
  {}

  /** The same outcomes, of which some that succeeded failed instead. */
  predicate WorseThan(worse: seq<Entry>, log: seq<Entry>) {
    && |worse| == |log|
    && forall i :: 0 <= i < |log| ==>
         worse[i] == log[i]
         || (log[i].At? && log[i].event == Count(false) && worse[i] == At(log[i].epoch, Count(true)))
  }

  lemma {:induction false} WorseCounts(worse: seq<Entry>, log: seq<Entry>, epoch: nat)
    requires WorseThan(worse, log)
    ensures Outcomes(worse, epoch) == Outcomes(log, epoch) && Flagged(worse, epoch) >= Flagged(log, epoch)
    decreases |log|
  {
    if log != [] {
      WorseCounts(worse[..|log| - 1], log[..|log| - 1], epoch);
    }
  }

  /** Failing more never turns a trip into no trip. */
  lemma TripsMonotone(worse: seq<Entry>, log: seq<Entry>, epoch: nat, minRequests: nat, failurePercent: nat)
    requires WorseThan(worse, log) && Trips(log, epoch, minRequests, failurePercent)
    ensures Trips(worse, epoch, minRequests, failurePercent)
  {
    WorseCounts(worse, log, epoch);
  }
}
