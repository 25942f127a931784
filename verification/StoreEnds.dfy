/**
  The end of a followed fill. The store accepts a write after the end was
  published, which would take the end back; the cache library makes no such write.
  Without one, an end that was published stands, and a follower that ended has the
  whole body.
 */
module StoreEnds {
  import opened Machine
  import opened Shelves
  import opened StoreProtocol
  import opened StoreInvariant
  import opened StoreHistory

  /** A chunk is charged to a fill whose end has been published. */
  predicate LateWrite(s: Sys, l: Label) {
    l.ChargeChunk? && l.id in s.fills && s.fills[l.id].written.Done?
  }

  ghost predicate NoLateWrite(tr: Trace) {
    tr.Then? ==> NoLateWrite(tr.before) && !LateWrite(tr.before.state, tr.step)
  }

  // ---- An end seen was an end published ----------------------------------

  /** At some moment of the run the fill's progress was `v`. */
  ghost predicate Published(tr: Trace, id: nat, v: Written) {
    || (id in tr.state.fills && tr.state.fills[id].written == v)
    || (tr.Then? && Published(tr.before, id, v))
  }

  /** With or without late writes, a follower ends only where the leader had published an end. */
  lemma {:induction false} EndWasPublished(c: Config, tr: Trace, x: nat)
    requires Run(c, tr) && x in tr.state.followers && tr.state.followers[x].seen.Done?
    ensures Published(tr, tr.state.followers[x].id, tr.state.followers[x].seen)
  {
    if tr.Then? {
      RunInv(c, tr.before);
      SeenBefore(c, tr.before.state, tr.step, x);
      if x in tr.before.state.followers && tr.state.followers[x].seen == tr.before.state.followers[x].seen {
        EndWasPublished(c, tr.before, x);
      }
    }
  }

  /** What a follower has seen it saw before, or reads off its fill now. */
  lemma SeenBefore(c: Config, s: Sys, l: Label, x: nat)
    requires Inv(c, s) && Enabled(c, s, l) && x in Next(c, s, l).followers
    requires Next(c, s, l).followers[x].seen.Done?
    ensures x in s.followers
    ensures var v, w := s.followers[x], Next(c, s, l).followers[x];
            && w.id == v.id && w.id in s.fills
            && (w.seen == v.seen || w.seen == s.fills[w.id].written)
  {
    NextFollower(c, s, l, x);
  }

  // ---- Without late writes it stands -------------------------------------

  /** No chunk is under way past a published end. */
  predicate Quiet(f: Fill) {
    f.written.Done? ==> !f.phase.Charged? && !f.phase.Appended?
  }

  predicate Stands(f: Fill, g: Fill) {
    f.written.Done? ==> g.written == f.written && g.body == f.body
  }

  /** A quiet fill's end stands through each of its steps, and it stays quiet unless the step is a late write. */
  lemma QuietMoved(f: Fill, l: Label)
    requires Quiet(f) && Moves(l) && CanMove(f, l)
    ensures Stands(f, Moved(f, l))
    ensures Quiet(Moved(f, l)) <==> !(l.ChargeChunk? && f.written.Done?)
  {}

  lemma QuietStep(c: Config, s: Sys, l: Label, id: nat)
    requires WellFormed(s.shelf) && Enabled(c, s, l) && !LateWrite(s, l) && id in s.fills && Quiet(s.fills[id])
    ensures id in Next(c, s, l).fills
    ensures Quiet(Next(c, s, l).fills[id]) && Stands(s.fills[id], Next(c, s, l).fills[id])
  {
    NextFill(c, s, l, id);
    if Moves(l) && l.id == id {
      QuietMoved(s.fills[id], l);
    }
  }

  lemma {:induction false} RunQuiet(c: Config, tr: Trace, id: nat)
    requires Run(c, tr) && NoLateWrite(tr) && id in tr.state.fills
    ensures Quiet(tr.state.fills[id])
  {
    if tr.Then? {
      if id in tr.before.state.fills {
        RunQuiet(c, tr.before, id);
        QuietStep(c, tr.before.state, tr.step, id);
      } else {
        NextFills(c, tr.before.state, tr.step, id);
      }
    }
  }

  lemma {:induction false} PublishedStands(c: Config, tr: Trace, id: nat, n: nat)
    requires Run(c, tr) && NoLateWrite(tr) && Published(tr, id, Done(n))
    ensures id in tr.state.fills && tr.state.fills[id].written == Done(n) && |tr.state.fills[id].body| == n
  {
    if tr.Then? && Published(tr.before, id, Done(n)) {
      PublishedStands(c, tr.before, id, n);
      RunQuiet(c, tr.before, id);
      QuietStep(c, tr.before.state, tr.step, id);
    }
    RunQuiet(c, tr, id);
    RunFill(c, tr, id);
  }

  lemma {:induction false} PublishedLater(early: Trace, late: Trace, id: nat, v: Written)
    requires Extends(early, late) && Published(early, id, v)
    ensures Published(late, id, v)
  {
    if early != late {
      PublishedLater(early, late.before, id, v);
    }
  }

  /**
    A follower that ended normally has, and will always have, handed on the whole
    body, as long as nothing is written after a published end.
   */
  lemma FollowerHasWhole(c: Config, early: Trace, late: Trace, x: nat)
    requires Run(c, late) && Extends(early, late) && NoLateWrite(late)
    requires x in early.state.followers && early.state.followers[x].status.Ended?
    ensures var w := early.state.followers[x];
            && w.id in late.state.fills
            && w.out == late.state.fills[w.id].body
            && late.state.fills[w.id].written == Done(|w.out|)
  {
    var w := early.state.followers[x];
    FollowerNow(c, early, late, x);
    EndWasPublished(c, early, x);
    PublishedLater(early, late, w.id, w.seen);
    PublishedStands(c, late, w.id, w.read);
    FollowerSeesPrefix(c, early, late, x);
  }

  /** A late write carried through takes the end back, even if it is empty. */
  lemma LateWriteUnpublishes(f: Fill, id: nat, data: Bytes)
    requires FillOk(f) && f.phase.Ready? && f.written.Done?
    ensures var written := Moved(Moved(Moved(f, ChargeChunk(id, data, false)), Append(id)), Publish(id));
            FillOk(written) && written.written == Partial(|f.body| + |data|)
  {
    MovedOk(f, ChargeChunk(id, data, false));
  }
}
