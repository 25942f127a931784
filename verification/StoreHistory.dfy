/**
  Whole runs of the store protocol: what a purge guarantees about everything
  that is served afterwards, and what a reader of a fill can have seen.
 */
module StoreHistory {
  import opened Machine
  import opened Shelves
  import opened Sections
  import opened StoreProtocol
  import opened StoreInvariant

  /** A run: a starting state and the steps taken since, each with the state it led to. */
  datatype Trace = Start(state: Sys) | Then(before: Trace, step: Label, state: Sys)

  ghost predicate Run(c: Config, tr: Trace) {
    match tr
    case Start(s) => c.max < WORD_MAX && Init(s)
    case Then(before, l, t) => Run(c, before) && Step(c, before.state, l, t)
  }

  ghost predicate Step(c: Config, s: Sys, l: Label, t: Sys) {
    WellFormed(s.shelf) && Enabled(c, s, l) && t == Next(c, s, l)
  }

  /** The labels of a run, oldest first. */
  function Labels(tr: Trace): seq<Label> {
    match tr
    case Start(_) => []
    case Then(before, l, _) => Labels(before) + [l]
  }

  lemma InitInv(c: Config, s: Sys)
    requires c.max < WORD_MAX && Init(s)
    ensures Inv(c, s)
  {
    assert Sizes(s.shelf.cached) == map[];
    assert HeldMap(s.fills) == map[];
  }

  /** Every reachable state satisfies the joint invariant. */
  lemma {:induction false} RunInv(c: Config, tr: Trace)
    requires Run(c, tr)
    ensures Inv(c, tr.state)
  {
    match tr
    case Start(s) => InitInv(c, s);
    case Then(before, l, _) =>
      RunInv(c, before);
      InvStep(c, before.state, l);
  }

  // ---- What labels mean --------------------------------------------------

  /** A purge ended here that selects by one of these tags. */
  predicate PurgesTags(l: Label, tags: seq<Tag>) {
    l.PurgeSweep? && l.sel.Tagged? && exists t :: t in tags && t in l.sel.tags
  }

  /** A purge ended here that selects by path, by key, or everything. */
  predicate PurgesRest(l: Label, key: Key, path: string) {
    && l.PurgeSweep?
    && (|| l.sel.Everything?
        || (l.sel.OnPath? && path in l.sel.paths)
        || (l.sel.Keyed? && key in l.sel.keys))
  }

  predicate Purges(l: Label, key: Key, path: string, tags: seq<Tag>) {
    PurgesTags(l, tags) || PurgesRest(l, key, path)
  }

  lemma PurgesSelects(l: Label, key: Key, path: string, tags: seq<Tag>)
    requires l.PurgeSweep?
    ensures Purges(l, key, path, tags) <==> Selects(l.sel, key, path, tags)
  {}

  /** This step began the fill `id`. */
  predicate Registers(l: Label, id: nat, key: Key, path: string, tags: seq<Tag>) {
    l.Charge? && l.id == id && l.key == key
    && path == (if l.transient then "" else l.path) && tags == (if l.transient then [] else l.tags)
  }

  // ---- History invariant -------------------------------------------------

  predicate Heading(f: Fill) {
    !f.invalidated && !f.phase.Releasing? && !Closed(f)
  }

  /** A fill knows the step that began it; still bound for the cache, no purge since matched it. */
  ghost predicate FillHistory(ls: seq<Label>, id: nat, f: Fill) {
    && f.registered < |ls|
    && Registers(ls[f.registered], id, f.key, f.path, f.tags)
    && (Heading(f) ==>
          forall j :: f.registered < j < |ls| ==> !Purges(ls[j], f.key, f.path, f.tags))
  }

  ghost predicate EntryHistory(ls: seq<Label>, s: Sys, k: Key, e: Stored) {
    && e.writer in s.fills
    && var r := s.fills[e.writer].registered;
       && k in s.declared && r <= s.declared[k] < |ls|
       && (if s.declared[k] == r then s.fills[e.writer].tags == e.tags
           else Revises(ls[s.declared[k]], k) && ls[s.declared[k]].tags == e.tags)
       && (forall j :: s.declared[k] < j < |ls| ==> !PurgesTags(ls[j], e.tags))
       && (forall j :: r < j < |ls| ==> !PurgesRest(ls[j], k, e.path))
  }

  /** The entry for `k` came from the last fill admitted under `k`. */
  ghost predicate AdmissionHistory(ls: seq<Label>, s: Sys, k: Key, e: Stored) {
    && k in s.admitted && s.admitted[k] < |ls|
    && ls[s.admitted[k]] == AdmitFill(e.writer)
    && forall j :: s.admitted[k] < j < |ls| ==> !Admits(s, ls[j], k)
  }

  ghost predicate History(ls: seq<Label>, s: Sys) {
    && s.clock == |ls|
    && (forall id :: id in s.fills ==> FillHistory(ls, id, s.fills[id]))
    && (forall k :: k in s.shelf.cached ==> EntryHistory(ls, s, k, s.shelf.cached[k]))
    && (forall k :: k in s.shelf.cached ==> AdmissionHistory(ls, s, k, s.shelf.cached[k]))
    && (forall j :: 0 <= j < |ls| && ls[j].AdmitFill? ==> ls[j].id in s.fills)
  }

  // ---- What one step does, without saying which step ---------------------

  ghost predicate LinkedFill(s: Sys, l: Label, t: Sys, id: nat)
    requires id in t.fills
  {
    var g := t.fills[id];
    if id in s.fills then
      && Evolves(s.fills[id], g)
      && (Heading(g) ==> Heading(s.fills[id]) && !Purges(l, g.key, g.path, g.tags))
    else
      Registers(l, id, g.key, g.path, g.tags) && g.registered == s.clock
  }

  ghost predicate LinkedEntry(s: Sys, l: Label, t: Sys, k: Key)
    requires k in t.shelf.cached
  {
    var e := t.shelf.cached[k];
    if Admits(s, l, k) then
      && e == FillEntry(s.fills[l.id], l.id) && Heading(s.fills[l.id])
      && k in t.declared && t.declared[k] == s.fills[l.id].registered
      && k in t.admitted && t.admitted[k] == s.clock
    else
      && k in s.shelf.cached && Retains(s, l, t, k, s.shelf.cached[k], e)
      && (k in s.admitted ==> k in t.admitted && t.admitted[k] == s.admitted[k])
      && !PurgesTags(l, e.tags) && !PurgesRest(l, k, e.path)
  }

  ghost predicate Linked(s: Sys, l: Label, t: Sys) {
    && t.clock == s.clock + 1
    && (l.AdmitFill? ==> l.id in s.fills)
    && (forall id :: id in s.fills ==> id in t.fills)
    && (forall id :: id in t.fills ==> LinkedFill(s, l, t, id))
    && (forall k :: k in t.shelf.cached ==> LinkedEntry(s, l, t, k))
  }

  lemma LinkFill(c: Config, s: Sys, l: Label, id: nat)
    requires Inv(c, s) && Enabled(c, s, l) && id in Next(c, s, l).fills
    ensures LinkedFill(s, l, Next(c, s, l), id)
  {
    if id in s.fills {
      FillStep(c, s, l, id);
      HeadingBack(c, s, l, id);
    } else {
      NextFills(c, s, l, id);
    }
  }

  lemma HeadingBack(c: Config, s: Sys, l: Label, id: nat)
    requires Inv(c, s) && Enabled(c, s, l) && id in s.fills
    ensures id in Next(c, s, l).fills
    ensures var f, g := s.fills[id], Next(c, s, l).fills[id];
            Heading(g) ==> Heading(f) && !Purges(l, f.key, f.path, f.tags)
  {
    NextFill(c, s, l, id);
    if l.PurgeSweep? {
      assert !Locks(s.fills[id]) && CoveredBy(s.purge.sel, s.fills[id]);
    }
    HeadingAfter(s.fills[id], id, l, s.purge);
  }

  lemma HeadingAfter(f: Fill, id: nat, l: Label, purge: Purging)
    requires Moves(l) && l.id == id ==> CanMove(f, l)
    requires l.PurgeSweep? ==> !Locks(f) && CoveredBy(l.sel, f)
    ensures Heading(FillAfter(f, id, l, purge)) ==> Heading(f) && !Purges(l, f.key, f.path, f.tags)
  {
    if l.PurgeSweep? {
      PurgesSelects(l, f.key, f.path, f.tags);
    }
  }

  lemma LinkEntry(c: Config, s: Sys, l: Label, k: Key)
    requires Inv(c, s) && Enabled(c, s, l) && k in Next(c, s, l).shelf.cached
    ensures LinkedEntry(s, l, Next(c, s, l), k)
  {
    if Admits(s, l, k) {
      assert FillOk(s.fills[l.id]);
    } else {
      LinkRetained(c, s, l, k);
    }
  }

  lemma LinkRetained(c: Config, s: Sys, l: Label, k: Key)
    requires Inv(c, s) && Enabled(c, s, l) && k in Next(c, s, l).shelf.cached
    requires !Admits(s, l, k)
    ensures LinkedEntry(s, l, Next(c, s, l), k)
  {
    AdmittedKept(c, s, l, k);
    if l.PurgeSweep? {
      LinkSurvivor(c, s, l, k);
    } else {
      EntryOrigin(c, s, l, k);
      Retained(s, l, Next(c, s, l), k);
    }
  }

  lemma Retained(s: Sys, l: Label, t: Sys, k: Key)
    requires k in s.shelf.cached && k in t.shelf.cached && !Admits(s, l, k) && !l.PurgeSweep?
    requires Retains(s, l, t, k, s.shelf.cached[k], t.shelf.cached[k])
    requires k in s.admitted ==> k in t.admitted && t.admitted[k] == s.admitted[k]
    ensures LinkedEntry(s, l, t, k)
  {}

  lemma AdmittedKept(c: Config, s: Sys, l: Label, k: Key)
    requires Accounting(c, s) && Enabled(c, s, l) && !Admits(s, l, k)
    ensures k in s.admitted ==> k in Next(c, s, l).admitted && Next(c, s, l).admitted[k] == s.admitted[k]
  {}

  lemma LinkSurvivor(c: Config, s: Sys, l: Label, k: Key)
    requires Inv(c, s) && Enabled(c, s, l) && k in Next(c, s, l).shelf.cached
    requires l.PurgeSweep?
    ensures LinkedEntry(s, l, Next(c, s, l), k)
  {
    SurvivesSweep(c, s, l, k);
    PurgesSelects(l, k, s.shelf.cached[k].path, s.shelf.cached[k].tags);
  }

  /** An entry still there after a purge's sweep is not one it selects. */
  lemma SurvivesSweep(c: Config, s: Sys, l: Label, k: Key)
    requires Inv(c, s) && Enabled(c, s, l) && l.PurgeSweep?
    requires k in Next(c, s, l).shelf.cached
    ensures k in s.shelf.cached && Next(c, s, l).shelf.cached[k] == s.shelf.cached[k]
    ensures !Selects(l.sel, k, s.shelf.cached[k].path, s.shelf.cached[k].tags)
  {
    assert k in Matching(s.shelf.cached, l.sel)
      <==> Selects(l.sel, k, s.shelf.cached[k].path, s.shelf.cached[k].tags);
  }

  lemma Link(c: Config, s: Sys, l: Label)
    requires Inv(c, s) && Enabled(c, s, l)
    ensures Linked(s, l, Next(c, s, l))
  {
    var t := Next(c, s, l);
    FillsStep(c, s, l);
    forall id | id in t.fills ensures LinkedFill(s, l, t, id) {
      LinkFill(c, s, l, id);
    }
    forall k | k in t.shelf.cached ensures LinkedEntry(s, l, t, k) {
      LinkEntry(c, s, l, k);
    }
  }

  // ---- History is kept ---------------------------------------------------

  lemma FillHistoryStep(s: Sys, l: Label, t: Sys, ls: seq<Label>, id: nat)
    requires s.clock == |ls| && id in t.fills && LinkedFill(s, l, t, id)
    requires id in s.fills ==> FillHistory(ls, id, s.fills[id])
    ensures FillHistory(ls + [l], id, t.fills[id])
  {}

  lemma EntryHistoryStep(s: Sys, l: Label, t: Sys, ls: seq<Label>, k: Key)
    requires s.clock == |ls| && k in t.shelf.cached && Linked(s, l, t)
    requires Admits(s, l, k) ==> FillHistory(ls, l.id, s.fills[l.id])
    requires k in s.shelf.cached ==> EntryHistory(ls, s, k, s.shelf.cached[k])
    ensures EntryHistory(ls + [l], t, k, t.shelf.cached[k])
  {
    assert LinkedEntry(s, l, t, k);
    var e := t.shelf.cached[k];
    assert LinkedFill(s, l, t, e.writer);
    if Admits(s, l, k) {
      var r := s.fills[l.id].registered;
      assert forall j :: r < j < |ls| ==> !Purges(ls[j], k, e.path, e.tags);
    }
  }

  lemma AdmissionStep(s: Sys, l: Label, t: Sys, ls: seq<Label>, k: Key)
    requires s.clock == |ls| && k in t.shelf.cached && Linked(s, l, t)
    requires forall j :: 0 <= j < |ls| && ls[j].AdmitFill? ==> ls[j].id in s.fills
    requires k in s.shelf.cached ==> AdmissionHistory(ls, s, k, s.shelf.cached[k])
    ensures AdmissionHistory(ls + [l], t, k, t.shelf.cached[k])
  {
    assert LinkedEntry(s, l, t, k);
    if !Admits(s, l, k) {
      forall j | s.admitted[k] < j < |ls + [l]| ensures !Admits(t, (ls + [l])[j], k) {
        assert j < |ls| ==> !Admits(s, ls[j], k);
        var m := (ls + [l])[j];
        assert m.AdmitFill? ==> LinkedFill(s, l, t, m.id);
      }
    }
  }

  lemma HistoryStep(s: Sys, l: Label, t: Sys, ls: seq<Label>)
    requires History(ls, s) && Linked(s, l, t)
    ensures History(ls + [l], t)
  {
    forall id | id in t.fills ensures FillHistory(ls + [l], id, t.fills[id]) {
      FillHistoryStep(s, l, t, ls, id);
    }
    forall k | k in t.shelf.cached
      ensures EntryHistory(ls + [l], t, k, t.shelf.cached[k])
      ensures AdmissionHistory(ls + [l], t, k, t.shelf.cached[k])
    {
      EntryHistoryStep(s, l, t, ls, k);
      AdmissionStep(s, l, t, ls, k);
    }
  }

  lemma {:induction false} RunHistory(c: Config, tr: Trace)
    requires Run(c, tr)
    ensures History(Labels(tr), tr.state)
  {
    match tr
    case Start(_) =>
    case Then(before, l, t) =>
      RunHistory(c, before);
      RunLink(c, before, l, t);
      HistoryStep(before.state, l, t, Labels(before));
  }

  lemma RunLink(c: Config, tr: Trace, l: Label, t: Sys)
    requires Run(c, tr) && Step(c, tr.state, l, t)
    ensures Linked(tr.state, l, t)
  {
    RunInv(c, tr);
    Link(c, tr.state, l);
  }

  // ---- Main results ------------------------------------------------------

  predicate Began(l: Label, id: nat, key: Key, path: string) {
    l.Charge? && l.id == id && l.key == key && path == (if l.transient then "" else l.path)
  }

  predicate Declares(l: Label, k: Key, e: Stored) {
    Registers(l, e.writer, k, e.path, e.tags) || (Revises(l, k) && l.tags == e.tags)
  }

  /**
    Step `d` is where the tags of the entry for `k` come from: the registration of
    the fill last admitted under `k`, or a later revalidation that was accepted.
   */
  ghost predicate TagsSetAt(c: Config, tr: Trace, k: Key, d: nat) {
    match tr
    case Start(_) => false
    case Then(before, l, _) =>
      if Admits(before.state, l, k) then d == before.state.fills[l.id].registered
      else if Accepted(c, before.state, l, k) then d == before.state.clock
      else TagsSetAt(c, before, k, d)
  }

  predicate Accepted(c: Config, s: Sys, l: Label, k: Key) {
    Revises(l, k) && UpdateMeta(s.shelf, c.max, k, l.meta, l.tags).1
  }

  lemma {:induction false} DeclaredIsSet(c: Config, tr: Trace, k: Key)
    requires Run(c, tr) && k in tr.state.shelf.cached
    ensures k in tr.state.declared && TagsSetAt(c, tr, k, tr.state.declared[k])
  {
    RunHistory(c, tr);
    assert EntryHistory(Labels(tr), tr.state, k, tr.state.shelf.cached[k]);
    if tr.Then? {
      RunInv(c, tr.before);
      if !Admits(tr.before.state, tr.step, k) {
        EntryOrigin(c, tr.before.state, tr.step, k);
        DeclaredIsSet(c, tr.before, k);
        DeclaredStep(c, tr.before.state, tr.step, k);
      } else {
        assert tr.state.declared[k] == tr.before.state.fills[tr.step.id].registered;
      }
    }
  }

  lemma DeclaredStep(c: Config, s: Sys, l: Label, k: Key)
    requires WellFormed(s.shelf) && Enabled(c, s, l) && k in s.declared && !Admits(s, l, k)
    ensures k in Next(c, s, l).declared
    ensures Next(c, s, l).declared[k] == if Accepted(c, s, l, k) then s.clock else s.declared[k]
  {}

  /**
    The entry's fill began at `r` and its tags were set at `d`; no later purge
    names its path, its key or everything, and none since `d` its tags.
   */
  ghost predicate DeclaredAfterPurges(c: Config, tr: Trace, k: Key, e: Stored, r: nat, d: nat) {
    var ls := Labels(tr);
    && r <= d < |ls|
    && Began(ls[r], e.writer, k, e.path) && Declares(ls[d], k, e) && TagsSetAt(c, tr, k, d)
    && (forall j :: r < j < |ls| ==> !PurgesRest(ls[j], k, e.path))
    && (forall j :: d < j < |ls| ==> !PurgesTags(ls[j], e.tags))
  }

  /** In every run, whatever is in the cache began, and had its tags set, after the last purge that names it. */
  lemma PurgeIsFinal(c: Config, tr: Trace, k: Key)
    requires Run(c, tr) && k in tr.state.shelf.cached
    ensures exists r, d :: DeclaredAfterPurges(c, tr, k, tr.state.shelf.cached[k], r, d)
  {
    RunHistory(c, tr);
    RunInv(c, tr);
    DeclaredIsSet(c, tr, k);
    var s := tr.state;
    var e := s.shelf.cached[k];
    assert EntryHistory(Labels(tr), s, k, e) && EntryOk(s, k, e);
    assert FillHistory(Labels(tr), e.writer, s.fills[e.writer]);
    assert DeclaredAfterPurges(c, tr, k, e, s.fills[e.writer].registered, s.declared[k]);
  }

  lemma RunFill(c: Config, tr: Trace, id: nat)
    requires Run(c, tr) && id in tr.state.fills
    ensures WellFormed(tr.state.shelf) && FillOk(tr.state.fills[id])
  {
    RunInv(c, tr);
  }

  lemma TakenIsHeading(f: Fill)
    requires FillOk(f) && f.phase.Taken?
    ensures Heading(f)
  {}

  /** A fill is admitted only if no purge that ended since it began selects it. */
  lemma PurgedFillNeverAdmitted(c: Config, tr: Trace, id: nat)
    requires Run(c, tr) && WellFormed(tr.state.shelf) && Enabled(c, tr.state, AdmitFill(id))
    ensures exists r :: UnpurgedSince(Labels(tr), id, tr.state.fills[id], r)
  {
    var f := tr.state.fills[id];
    RunFill(c, tr, id);
    TakenIsHeading(f);
    RunHistory(c, tr);
    assert FillHistory(Labels(tr), id, f);
    assert UnpurgedSince(Labels(tr), id, f, f.registered);
  }

  ghost predicate UnpurgedSince(ls: seq<Label>, id: nat, f: Fill, r: nat) {
    && r < |ls| && Registers(ls[r], id, f.key, f.path, f.tags)
    && forall j :: r < j < |ls| ==> !Purges(ls[j], f.key, f.path, f.tags)
  }

  ghost predicate Extends(early: Trace, late: Trace) {
    early == late || (late.Then? && Extends(early, late.before))
  }

  lemma EvolvesTransitive(f: Fill, g: Fill, h: Fill)
    requires Evolves(f, g) && Evolves(g, h)
    ensures Evolves(f, h)
  {}

  lemma {:induction false} FillsEvolve(c: Config, early: Trace, late: Trace, id: nat)
    requires Run(c, late) && Extends(early, late) && id in early.state.fills
    ensures Run(c, early)
    ensures id in late.state.fills && Evolves(early.state.fills[id], late.state.fills[id])
  {
    if early != late {
      FillsEvolve(c, early, late.before, id);
      RunLink(c, late.before, late.step, late.state);
      assert LinkedFill(late.before.state, late.step, late.state, id);
      EvolvesTransitive(early.state.fills[id], late.before.state.fills[id], late.state.fills[id]);
    }
  }

  /**
    At any later moment, what a follower has handed on is a prefix of the leader's
    bytes; an error means the leader went away without its end standing.
   */
  lemma FollowerSeesPrefix(c: Config, early: Trace, late: Trace, x: nat)
    requires Run(c, late) && Extends(early, late) && x in early.state.followers
    ensures var w := early.state.followers[x];
            && w.id in late.state.fills
            && var f := late.state.fills[w.id];
               && w.out <= f.body
               && (w.status.Failed? ==> f.phase.Gone? && f.written.Partial?)
  {
    var w := early.state.followers[x];
    FollowerNow(c, early, late, x);
    FillsEvolve(c, early, late, w.id);
    PrefixLater(w, early.state.fills[w.id], late.state.fills[w.id]);
  }

  lemma PrefixLater(w: Follower, f: Fill, g: Fill)
    requires Follows(w, f) && Evolves(f, g)
    ensures w.out <= g.body && (w.status.Failed? ==> g.phase.Gone? && g.written.Partial?)
  {}

  lemma {:induction false} FollowerNow(c: Config, early: Trace, late: Trace, x: nat)
    requires Run(c, late) && Extends(early, late) && x in early.state.followers
    ensures Run(c, early) && FollowerOk(early.state.fills, early.state.followers[x])
  {
    if early == late {
      RunInv(c, late);
    } else {
      FollowerNow(c, early, late.before, x);
    }
  }

  /**
    A completed entry holds, and will always hold, exactly the bytes of the last
    fill admitted under its key, which published its end.
   */
  lemma HitIsLastAdmitted(c: Config, early: Trace, late: Trace, k: Key)
    requires Run(c, early) && Run(c, late) && Extends(early, late) && k in early.state.shelf.cached
    ensures var e := early.state.shelf.cached[k];
            && AdmissionHistory(Labels(early), early.state, k, e)
            && e.writer in late.state.fills
            && e.body == late.state.fills[e.writer].body
            && late.state.fills[e.writer].written == Done(|e.body|)
  {
    var e := early.state.shelf.cached[k];
    RunEntry(c, early, k);
    RunHistory(c, early);
    assert AdmissionHistory(Labels(early), early.state, k, e);
    FillsEvolve(c, early, late, e.writer);
    AdmittedLater(early.state.fills[e.writer], late.state.fills[e.writer]);
  }

  lemma RunEntry(c: Config, tr: Trace, k: Key)
    requires Run(c, tr) && k in tr.state.shelf.cached
    ensures var e := tr.state.shelf.cached[k];
            EntryOk(tr.state, k, e) && FillOk(tr.state.fills[e.writer])
  {
    RunInv(c, tr);
  }

  lemma AdmittedLater(f: Fill, g: Fill)
    requires FillOk(f) && f.phase.Admitted? && Evolves(f, g)
    ensures g.body == f.body && g.written == Done(|f.body|)
  {}
}
