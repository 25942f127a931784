/** What every step of the store protocol keeps, and so what holds in every run. */
module StoreInvariant {
  import opened Machine
  import opened Sums
  import opened Shelves
  import opened Sweeps
  import opened Sections
  import opened StoreProtocol

  // ---- The invariant -----------------------------------------------------

  /** The accounting and progress of one fill, phase by phase. */
  ghost predicate FillOk(f: Fill) {
    && f.accounted == FillBytes(f) + |f.body|
    && match f.phase
       case Registering => f.body == [] && f.written == Partial(0) && !f.invalidated
       case Ready => f.written.bytes == |f.body|
       case Charged(_, _) => f.written.bytes == |f.body|
       case Appended(n, _) => f.written.bytes + n == |f.body|
       case Finishing => f.written == Done(|f.body|)
       case Parked => f.written == Done(|f.body|) && f.transient
       case Taken => f.written == Done(|f.body|) && !f.transient && !f.invalidated
       case Releasing(locked) => f.written.bytes == |f.body| && (locked ==> f.written.Done?)
       case Admitted => f.written == Done(|f.body|) && !f.transient && !f.invalidated
       case Gone => f.written.bytes == |f.body|
  }

  ghost predicate FillsOk(s: Sys) {
    forall id :: id in s.fills ==> FillOk(s.fills[id])
  }

  ghost function HeldMap(fills: map<nat, Fill>): map<nat, nat> {
    map id | id in fills :: Held(fills[id])
  }

  ghost function HeldBytes(fills: map<nat, Fill>): nat {
    Sum(HeldMap(fills))
  }

  /** `used` is the completed bytes plus the bytes every live fill holds, within the budget. */
  ghost predicate Accounting(c: Config, s: Sys) {
    && WellFormed(s.shelf)
    && s.shelf.used <= c.max
    && s.shelf.used == Completed(s.shelf.cached) + HeldBytes(s.fills)
  }

  /** A completed entry holds exactly what its writer's buffer holds. */
  ghost predicate EntryOk(s: Sys, k: Key, e: Stored) {
    && e.writer in s.fills
    && var f := s.fills[e.writer];
       f.phase.Admitted? && f.key == k && f.body == e.body && f.path == e.path
  }

  ghost predicate EntriesOk(s: Sys) {
    forall k :: k in s.shelf.cached ==> EntryOk(s, k, s.shelf.cached[k])
  }

  /** A purge excludes lifecycle sections, and its snapshot and marks cover what it selects. */
  ghost predicate PurgeOk(s: Sys) {
    && (!s.purge.NoPurge? ==> forall id :: id in s.fills ==> !Locks(s.fills[id]))
    && (!s.purge.NoPurge? && s.purge.sel.Tagged? ==>
          forall k :: k in Matching(s.shelf.cached, s.purge.sel) ==> k in s.purge.victims)
    && (s.purge.Doomed? ==> forall id :: id in s.fills ==> CoveredBy(s.purge.sel, s.fills[id]))
  }

  ghost predicate CoveredBy(sel: Selector, f: Fill) {
    InTemp(f) && Selects(sel, f.key, f.path, f.tags) ==> f.invalidated
  }

  /** A follower has handed on exactly the first `read` bytes of its fill, and ended only where it saw an end. */
  ghost predicate Follows(w: Follower, f: Fill) {
    && w.read <= |f.body| && w.out == f.body[..w.read]
    && w.read <= w.seen.bytes <= f.written.bytes <= |f.body|
    && (w.status.Ended? ==> w.seen == Done(w.read))
    && (w.status.Failed? ==> f.phase.Gone? && f.written.Partial?)
  }

  ghost predicate FollowerOk(fills: map<nat, Fill>, w: Follower) {
    w.id in fills && Follows(w, fills[w.id])
  }

  ghost predicate FollowersOk(s: Sys) {
    forall x :: x in s.followers ==> FollowerOk(s.fills, s.followers[x])
  }

  ghost predicate Inv(c: Config, s: Sys) {
    c.max < WORD_MAX && Accounting(c, s) && FillsOk(s) && EntriesOk(s) && PurgeOk(s) && FollowersOk(s)
  }

  // ---- Byte accounting ---------------------------------------------------

  lemma HeldUpdate(fills: map<nat, Fill>, id: nat, f: Fill)
    ensures HeldBytes(fills[id := f])
         == HeldBytes(fills) + Held(f) - (if id in fills then Held(fills[id]) else 0)
    ensures id in fills ==> Held(fills[id]) <= HeldBytes(fills)
  {
    SumUpdate(HeldMap(fills), id, Held(f));
    assert HeldMap(fills)[id := Held(f)] == HeldMap(fills[id := f]);
    if id in fills {
      SumAtLeast(HeldMap(fills), id);
    }
  }

  lemma HeldMarked(fills: map<nat, Fill>, sel: Selector)
    ensures HeldBytes(map id | id in fills :: Mark(fills[id], sel)) == HeldBytes(fills)
  {
    assert HeldMap(map id | id in fills :: Mark(fills[id], sel)) == HeldMap(fills);
  }

  lemma AccountingRegisters(c: Config, s: Sys, l: Label)
    requires Accounting(c, s) && l.Charge? && Enabled(c, s, l)
    ensures Accounting(c, Next(c, s, l))
  {
    var f := NewFill(l, s.clock);
    ReserveKeeps(s.shelf, c.policy, c.max, f.accounted);
    HeldUpdate(s.fills, l.id, f);
  }

  /** A charge moves bytes onto the fill, an append only re-labels them; nothing else changes what it holds. */
  lemma HeldMoved(f: Fill, l: Label)
    requires Moves(l) && CanMove(f, l) && !l.AdmitFill? && !l.GiveBack?
    ensures Held(Moved(f, l)) == Held(f) + if l.ChargeChunk? then |l.data| else 0
  {}

  lemma AccountingMoves(c: Config, s: Sys, l: Label)
    requires Accounting(c, s) && Moves(l) && !l.AdmitFill? && !l.GiveBack? && Enabled(c, s, l)
    ensures Accounting(c, Next(c, s, l))
  {
    var f := s.fills[l.id];
    HeldUpdate(s.fills, l.id, Moved(f, l));
    HeldMoved(f, l);
    if l.ChargeChunk? {
      ReserveKeeps(s.shelf, c.policy, c.max, |l.data|);
    }
  }

  lemma AccountingSettles(c: Config, s: Sys, l: Label)
    requires Accounting(c, s) && FillsOk(s) && (l.AdmitFill? || l.GiveBack?) && Enabled(c, s, l)
    ensures Accounting(c, Next(c, s, l))
  {
    var f := s.fills[l.id];
    HeldUpdate(s.fills, l.id, Moved(f, l));
    assert FillOk(f);
    if l.AdmitFill? {
      AdmitKeeps(s.shelf, f.key, FillEntry(f, l.id));
    } else {
      ReleaseKeeps(s.shelf, f.accounted);
    }
  }

  lemma AccountingShelf(c: Config, s: Sys, l: Label)
    requires Accounting(c, s) && c.max < WORD_MAX && Enabled(c, s, l)
    requires l.Refuse? || l.Revise? || l.Hit? || l.PurgeSweep?
    ensures Accounting(c, Next(c, s, l))
  {
    match l
    case Refuse(n) => ReserveKeeps(s.shelf, c.policy, c.max, n);
    case Revise(key, meta, tags) => UpdateMetaKeeps(s.shelf, c.max, key, meta, tags);
    case Hit(key) => TouchKeeps(s.shelf, key);
    case PurgeSweep(_) => PurgeKeeps(s.shelf, StoreProtocol.Swept(s));
  }

  lemma AccountingElsewhere(c: Config, s: Sys, l: Label)
    requires Accounting(c, s) && Enabled(c, s, l)
    requires l.Attach? || l.Observe? || l.Read? || l.PurgeBegin? || l.PurgeMark?
    ensures Accounting(c, Next(c, s, l))
  {
    if l.PurgeMark? {
      HeldMarked(s.fills, s.purge.sel);
    }
  }

  lemma AccountingStep(c: Config, s: Sys, l: Label)
    requires c.max < WORD_MAX && Accounting(c, s) && FillsOk(s) && Enabled(c, s, l)
    ensures Accounting(c, Next(c, s, l))
  {
    if l.Charge? {
      AccountingRegisters(c, s, l);
    } else if l.AdmitFill? || l.GiveBack? {
      AccountingSettles(c, s, l);
    } else if Moves(l) {
      AccountingMoves(c, s, l);
    } else if l.Refuse? || l.Revise? || l.Hit? || l.PurgeSweep? {
      AccountingShelf(c, s, l);
    } else {
      AccountingElsewhere(c, s, l);
    }
  }

  // ---- Fills -------------------------------------------------------------

  /** Still open to writes. */
  predicate Writing(f: Fill) {
    f.phase.Registering? || f.phase.Ready? || f.phase.Charged? || f.phase.Appended?
  }

  /** A fill only ever appends, publishes ever more, and is frozen once its writer has finished or gone. */
  ghost predicate Evolves(f: Fill, g: Fill) {
    && (g.key, g.meta, g.transient, g.tags, g.path, g.registered)
       == (f.key, f.meta, f.transient, f.tags, f.path, f.registered)
    && f.body <= g.body
    && f.written.bytes <= g.written.bytes
    && (!Writing(f) ==> !Writing(g) && g.written == f.written && g.body == f.body)
    && (Closed(f) ==> g.phase == f.phase && g.written == f.written && g.body == f.body)
    && (f.invalidated ==> g.invalidated)
  }

  lemma MovedOk(f: Fill, l: Label)
    requires FillOk(f) && Moves(l) && CanMove(f, l)
    ensures FillOk(Moved(f, l))
  {}

  lemma MovedEvolves(f: Fill, l: Label)
    requires FillOk(f) && Moves(l) && CanMove(f, l)
    ensures Evolves(f, Moved(f, l))
  {}

  /** What a step makes of one fill already there. */
  function FillAfter(f: Fill, id: nat, l: Label, purge: Purging): Fill
    requires Moves(l) && l.id == id ==> CanMove(f, l)
  {
    if Moves(l) && l.id == id then Moved(f, l)
    else if l.PurgeMark? && !purge.NoPurge? then Mark(f, purge.sel)
    else f
  }

  lemma NextFill(c: Config, s: Sys, l: Label, id: nat)
    requires WellFormed(s.shelf) && Enabled(c, s, l) && id in s.fills
    ensures id in Next(c, s, l).fills
    ensures Next(c, s, l).fills[id] == FillAfter(s.fills[id], id, l, s.purge)
  {}

  lemma FillStep(c: Config, s: Sys, l: Label, id: nat)
    requires Accounting(c, s) && Enabled(c, s, l)
    requires id in s.fills && FillOk(s.fills[id])
    ensures id in Next(c, s, l).fills
    ensures FillOk(Next(c, s, l).fills[id])
    ensures Evolves(s.fills[id], Next(c, s, l).fills[id])
  {
    NextFill(c, s, l, id);
    if Moves(l) && l.id == id {
      MovedOk(s.fills[id], l);
      MovedEvolves(s.fills[id], l);
    }
  }

  /** The only fill a step can add is the one being charged. */
  lemma NextFills(c: Config, s: Sys, l: Label, id: nat)
    requires WellFormed(s.shelf) && Enabled(c, s, l) && id in Next(c, s, l).fills && id !in s.fills
    ensures l.Charge? && l.id == id && Next(c, s, l).fills[id] == NewFill(l, s.clock)
  {}

  lemma FillsStep(c: Config, s: Sys, l: Label)
    requires Accounting(c, s) && FillsOk(s) && Enabled(c, s, l)
    ensures FillsOk(Next(c, s, l))
    ensures forall id :: id in s.fills ==>
              id in Next(c, s, l).fills && Evolves(s.fills[id], Next(c, s, l).fills[id])
  {
    var t := Next(c, s, l);
    forall id | id in s.fills ensures id in t.fills && Evolves(s.fills[id], t.fills[id]) {
      FillStep(c, s, l, id);
    }
    forall id | id in t.fills ensures FillOk(t.fills[id]) {
      if id in s.fills {
        FillStep(c, s, l, id);
      } else {
        NextFills(c, s, l, id);
      }
    }
  }

  // ---- Entries -----------------------------------------------------------

  lemma ReserveOnlyEvicts(sh: Shelf, policy: Eviction, max: nat, n: nat)
    requires WellFormed(sh)
    ensures var sh' := Reserve(sh, policy, max, n).0;
            forall k :: k in sh'.cached ==> k in sh.cached && sh'.cached[k] == sh.cached[k]
  {
    if n <= max {
      ReserveTakesShortestPrefix(sh, policy, max, n);
    }
  }

  predicate Admits(s: Sys, l: Label, k: Key) {
    l.AdmitFill? && l.id in s.fills && s.fills[l.id].key == k
  }

  predicate Revises(l: Label, k: Key) {
    l.Revise? && l.key == k
  }

  /** `e` is `d`, or `d` with the tags this very step declared. */
  predicate Retains(s: Sys, l: Label, t: Sys, k: Key, d: Stored, e: Stored) {
    && (e.body, e.path, e.writer) == (d.body, d.path, d.writer)
    && (|| (e.tags == d.tags && (k in s.declared ==> k in t.declared && t.declared[k] == s.declared[k]))
        || (Revises(l, k) && e.tags == l.tags && k in t.declared && t.declared[k] == s.clock))
  }

  /** An entry in the next state has just been admitted or was there before with the same body. */
  lemma EntryOrigin(c: Config, s: Sys, l: Label, k: Key)
    requires Accounting(c, s) && Enabled(c, s, l)
    requires k in Next(c, s, l).shelf.cached
    ensures var t := Next(c, s, l);
            && (Admits(s, l, k) ==> t.shelf.cached[k] == FillEntry(s.fills[l.id], l.id))
            && (!Admits(s, l, k) ==>
                  && k in s.shelf.cached
                  && Retains(s, l, t, k, s.shelf.cached[k], t.shelf.cached[k]))
  {
    if Reserves(l) {
      ReserveKeepsEntry(c, s, l, k);
    } else if l.AdmitFill? {
      AdmitKeepsEntry(c, s, l, k);
    } else if l.Revise? {
      ReviseKeepsEntry(c, s, l, k);
    } else {
      OthersKeepEntry(c, s, l, k);
    }
  }

  predicate Reserves(l: Label) {
    l.Charge? || l.Refuse? || l.ChargeChunk?
  }

  lemma ReserveKeepsEntry(c: Config, s: Sys, l: Label, k: Key)
    requires Accounting(c, s) && Enabled(c, s, l) && Reserves(l)
    requires k in Next(c, s, l).shelf.cached
    ensures k in s.shelf.cached && Next(c, s, l).shelf.cached[k] == s.shelf.cached[k]
    ensures Next(c, s, l).declared == s.declared
  {
    match l
    case Charge(_, _, _, _, _, _) =>
      ReserveOnlyEvicts(s.shelf, c.policy, c.max, NewFill(l, s.clock).accounted);
    case Refuse(n) => ReserveOnlyEvicts(s.shelf, c.policy, c.max, n);
    case ChargeChunk(_, data, _) => ReserveOnlyEvicts(s.shelf, c.policy, c.max, |data|);
  }

  lemma AdmitKeepsEntry(c: Config, s: Sys, l: Label, k: Key)
    requires Accounting(c, s) && Enabled(c, s, l) && l.AdmitFill?
    requires k in Next(c, s, l).shelf.cached
    ensures var t, f := Next(c, s, l), s.fills[l.id];
            if f.key == k then t.shelf.cached[k] == FillEntry(f, l.id)
            else k in s.shelf.cached && Retains(s, l, t, k, s.shelf.cached[k], t.shelf.cached[k])
  {}

  lemma ReviseKeepsEntry(c: Config, s: Sys, l: Label, k: Key)
    requires Accounting(c, s) && Enabled(c, s, l) && l.Revise?
    requires k in Next(c, s, l).shelf.cached
    ensures var t := Next(c, s, l);
            k in s.shelf.cached && Retains(s, l, t, k, s.shelf.cached[k], t.shelf.cached[k])
  {}

  lemma OthersKeepEntry(c: Config, s: Sys, l: Label, k: Key)
    requires Accounting(c, s) && Enabled(c, s, l) && !Reserves(l) && !l.AdmitFill? && !l.Revise?
    requires k in Next(c, s, l).shelf.cached
    ensures k in s.shelf.cached && Next(c, s, l).shelf.cached[k] == s.shelf.cached[k]
    ensures Next(c, s, l).declared == s.declared
  {}

  lemma EntriesStep(c: Config, s: Sys, l: Label)
    requires Accounting(c, s) && FillsOk(s) && EntriesOk(s) && Enabled(c, s, l)
    ensures EntriesOk(Next(c, s, l))
  {
    var t := Next(c, s, l);
    forall k | k in t.shelf.cached ensures EntryOk(t, k, t.shelf.cached[k]) {
      EntryOrigin(c, s, l, k);
      if !(l.AdmitFill? && s.fills[l.id].key == k) {
        FillStep(c, s, l, s.shelf.cached[k].writer);
      }
    }
  }

  // ---- Purges ------------------------------------------------------------

  lemma PurgeStep(c: Config, s: Sys, l: Label)
    requires Accounting(c, s) && PurgeOk(s) && Enabled(c, s, l)
    ensures PurgeOk(Next(c, s, l))
  {
    var t := Next(c, s, l);
    if !t.purge.NoPurge? {
      forall id | id in t.fills
        ensures !Locks(t.fills[id]) && (t.purge.Doomed? ==> CoveredBy(t.purge.sel, t.fills[id]))
      {
        PurgeCoversFill(c, s, l, id);
      }
      if t.purge.sel.Tagged? {
        forall k | k in Matching(t.shelf.cached, t.purge.sel) ensures k in t.purge.victims {
          if !s.purge.NoPurge? {
            DuringPurge(c, s, l, k);
          }
        }
      }
    }
  }

  lemma PurgeCoversFill(c: Config, s: Sys, l: Label, id: nat)
    requires Accounting(c, s) && PurgeOk(s) && Enabled(c, s, l)
    requires !Next(c, s, l).purge.NoPurge? && id in Next(c, s, l).fills
    ensures var t := Next(c, s, l);
            !Locks(t.fills[id]) && (t.purge.Doomed? ==> CoveredBy(t.purge.sel, t.fills[id]))
  {
    PurgeGoesOn(c, s, l);
    if id !in s.fills {
      NextFills(c, s, l, id);
    }
    NextFill(c, s, l, id);
    FillDuringPurge(s.fills[id], id, l, s.purge, Next(c, s, l).purge);
  }

  /** A purge under way is the one just begun, the one just marked, or the one before the step. */
  lemma PurgeGoesOn(c: Config, s: Sys, l: Label)
    requires WellFormed(s.shelf) && Enabled(c, s, l) && !Next(c, s, l).purge.NoPurge?
    ensures var after := Next(c, s, l).purge;
            && (if l.PurgeBegin? then after.Begun? && s.purge.NoPurge?
                else if l.PurgeMark? then s.purge.Begun? && after == Doomed(s.purge.sel, s.purge.victims)
                else after == s.purge)
            && !l.Charge? && !l.Take?
            && (l.PurgeBegin? ==> forall id :: id in s.fills ==> !Locks(s.fills[id]))
  {}

  lemma FillDuringPurge(f: Fill, id: nat, l: Label, before: Purging, after: Purging)
    requires Moves(l) && l.id == id ==> CanMove(f, l)
    requires !Locks(f) && !l.Take? && !after.NoPurge? && (before.Doomed? ==> CoveredBy(before.sel, f))
    requires if l.PurgeBegin? then after.Begun?
             else if l.PurgeMark? then before.Begun? && after == Doomed(before.sel, before.victims)
             else after == before
    ensures var g := FillAfter(f, id, l, before);
            !Locks(g) && (after.Doomed? ==> CoveredBy(after.sel, g))
  {
    if Moves(l) && l.id == id && after.Doomed? {
      MovedDuringPurge(f, l, after.sel);
    }
  }

  /** No section that would lock is open, so a fill can neither enter `temp` nor leave it for the cache. */
  lemma MovedDuringPurge(f: Fill, l: Label, sel: Selector)
    requires Moves(l) && CanMove(f, l) && !l.Take? && !Locks(f)
    ensures !Locks(Moved(f, l))
    ensures CoveredBy(sel, f) ==> CoveredBy(sel, Moved(f, l))
  {}

  /** While a purge runs, entries only leave. */
  lemma DuringPurge(c: Config, s: Sys, l: Label, k: Key)
    requires Accounting(c, s) && PurgeOk(s) && Enabled(c, s, l) && !s.purge.NoPurge?
    requires k in Next(c, s, l).shelf.cached
    ensures k in s.shelf.cached && Next(c, s, l).shelf.cached[k] == s.shelf.cached[k]
  {
    if Reserves(l) {
      ReserveKeepsEntry(c, s, l, k);
    } else {
      assert !l.AdmitFill? && !l.Revise?;
      OthersKeepEntry(c, s, l, k);
    }
  }

  // ---- Followers ---------------------------------------------------------

  lemma FollowerKept(s: map<nat, Fill>, t: map<nat, Fill>, w: Follower)
    requires FollowerOk(s, w)
    requires w.id in t && FillOk(t[w.id]) && Evolves(s[w.id], t[w.id])
    ensures FollowerOk(t, w)
  {}

  lemma FollowersStep(c: Config, s: Sys, l: Label)
    requires Accounting(c, s) && FillsOk(s) && FollowersOk(s) && Enabled(c, s, l)
    ensures FollowersOk(Next(c, s, l))
  {
    forall x | x in Next(c, s, l).followers
      ensures FollowerOk(Next(c, s, l).fills, Next(c, s, l).followers[x])
    {
      FollowerStep(c, s, l, x);
    }
  }

  lemma FollowerStep(c: Config, s: Sys, l: Label, x: nat)
    requires Accounting(c, s) && FillsOk(s) && FollowersOk(s) && Enabled(c, s, l)
    requires x in Next(c, s, l).followers
    ensures FollowerOk(Next(c, s, l).fills, Next(c, s, l).followers[x])
  {
    var w := Next(c, s, l).followers[x];
    FollowerMoves(c, s, l, x);
    FillStep(c, s, l, w.id);
    FollowerKept(s.fills, Next(c, s, l).fills, w);
  }

  /** A follower steps on the fills as they were; the fills themselves then only grow. */
  lemma FollowerMoves(c: Config, s: Sys, l: Label, x: nat)
    requires Accounting(c, s) && FillsOk(s) && FollowersOk(s) && Enabled(c, s, l)
    requires x in Next(c, s, l).followers
    ensures FollowerOk(s.fills, Next(c, s, l).followers[x])
  {
    NextFollower(c, s, l, x);
    FollowerFrom(s, l, x, Next(c, s, l).followers[x]);
  }

  lemma FollowerFrom(s: Sys, l: Label, x: nat, w: Follower)
    requires FillsOk(s) && FollowersOk(s) && FollowerIs(s, l, x, w)
    ensures FollowerOk(s.fills, w)
  {
    if x in s.followers {
      FollowerAfterOk(s.fills, s.followers[x], x, l);
    } else {
      assert FillOk(s.fills[w.id]);
    }
  }

  /** What a step makes of one follower already there. */
  function FollowerAfter(fills: map<nat, Fill>, w: Follower, x: nat, l: Label): Follower
    requires w.id in fills && w.seen.bytes <= |fills[w.id].body|
  {
    if l == Observe(x) then w.(seen := fills[w.id].written)
    else if l == Read(x) then ReadStep(w, fills[w.id])
    else w
  }

  /** `w` is what the step makes of follower `x`, new or already there. */
  ghost predicate FollowerIs(s: Sys, l: Label, x: nat, w: Follower) {
    if x in s.followers then
      && FollowerOk(s.fills, s.followers[x])
      && (l == Read(x) || l == Observe(x) ==> s.followers[x].status.Reading?)
      && w == FollowerAfter(s.fills, s.followers[x], x, l)
    else w.id in s.fills && w == Follower(w.id, 0, [], Partial(0), Reading)
  }

  lemma NextFollower(c: Config, s: Sys, l: Label, x: nat)
    requires WellFormed(s.shelf) && Enabled(c, s, l) && x in Next(c, s, l).followers
    requires x in s.followers ==> FollowerOk(s.fills, s.followers[x])
    ensures FollowerIs(s, l, x, Next(c, s, l).followers[x])
  {}

  lemma FollowerReads(w: Follower, fills: map<nat, Fill>)
    requires FollowerOk(fills, w) && w.status.Reading? && FillOk(fills[w.id])
    ensures FollowerOk(fills, ReadStep(w, fills[w.id]))
  {
    var f := fills[w.id];
    if w.seen.bytes > w.read {
      var end := Min(w.read + CHUNK, w.seen.bytes);
      assert f.body[..end] == f.body[..w.read] + f.body[w.read..end];
    }
  }

  lemma FollowerAfterOk(fills: map<nat, Fill>, w: Follower, x: nat, l: Label)
    requires FollowerOk(fills, w) && FillOk(fills[w.id]) && (l == Read(x) || l == Observe(x) ==> w.status.Reading?)
    ensures FollowerOk(fills, FollowerAfter(fills, w, x, l))
  {
    if l == Read(x) {
      FollowerReads(w, fills);
    }
  }

  // ---- Runs --------------------------------------------------------------

  lemma InvStep(c: Config, s: Sys, l: Label)
    requires Inv(c, s) && Enabled(c, s, l)
    ensures Inv(c, Next(c, s, l))
  {
    AccountingStep(c, s, l);
    FillsStep(c, s, l);
    EntriesStep(c, s, l);
    PurgeStep(c, s, l);
    FollowersStep(c, s, l);
  }
}
