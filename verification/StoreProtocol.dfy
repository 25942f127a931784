/**
  Concurrent use of the store as a labelled transition system. A label is one
  lock-protected section or one atomic action of the source. Fills interleave
  freely with each other, with followers and with evictions; a purge excludes
  only the sections that hold the read side of `lifecycle`.
 */
module StoreProtocol {
  import opened Machine
  import opened Shelves
  import opened Sweeps
  import opened Sections

  datatype Config = Config(max: nat, policy: Eviction)

  /** Where a fill's writer stands between two of its atomic actions. */
  datatype Phase =
    | Registering                        // metadata charged, not yet in `temp`
    | Ready                              // in `temp`, between writes
    | Charged(data: Bytes, eof: bool)    // chunk charged, not yet appended
    | Appended(n: nat, eof: bool)        // chunk appended, not yet published
    | Finishing                          // end published, still in `temp`
    | Parked                             // transient: in `temp` until the handoff timer
    | Taken                              // out of `temp`, about to be admitted
    | Releasing(locked: bool)            // out of `temp`, bytes not yet given back
    | Admitted
    | Gone

  datatype Fill = Fill(
    key: Key, meta: Meta, transient: bool, tags: seq<Tag>, path: string,
    invalidated: bool, body: Bytes, written: Written, accounted: nat,
    phase: Phase, registered: nat)

  datatype Status = Reading | Ended | Failed

  /** A reader attached to fill `id`; `out` is everything it has handed on. */
  datatype Follower = Follower(id: nat, read: nat, out: Bytes, seen: Written, status: Status)

  datatype Purging =
    | NoPurge
    | Begun(sel: Selector, victims: set<Key>)
    | Doomed(sel: Selector, victims: set<Key>)

  /**
    `clock` counts steps taken. `declared[k]` and `admitted[k]` are the steps at
    which the entry for `k` last declared its tags and was admitted.
   */
  datatype Sys = Sys(
    shelf: Shelf, fills: map<nat, Fill>, followers: map<nat, Follower>, purge: Purging,
    declared: map<Key, nat>, admitted: map<Key, nat>, clock: nat)

  datatype Label =
    | Charge(id: nat, key: Key, meta: Meta, transient: bool, tags: seq<Tag>, path: string)
    | Refuse(n: nat)
    | Insert(id: nat)
    | ChargeChunk(id: nat, data: Bytes, eof: bool)
    | Append(id: nat)
    | Publish(id: nat)
    | Complete(id: nat)
    | Park(id: nat)
    | Take(id: nat)
    | AdmitFill(id: nat)
    | Drop(id: nat)
    | GiveBack(id: nat)
    | Revise(key: Key, meta: Meta, tags: seq<Tag>)
    | Hit(key: Key)
    | Attach(f: nat, id: nat)
    | Observe(f: nat)
    | Read(f: nat)
    | PurgeBegin(sel: Selector)
    | PurgeMark
    | PurgeSweep(sel: Selector)

  predicate InTemp(f: Fill) {
    f.phase.Ready? || f.phase.Charged? || f.phase.Appended? || f.phase.Finishing? || f.phase.Parked?
  }

  /** Holds the read side of `lifecycle`. */
  predicate Locks(f: Fill) {
    f.phase.Registering? || f.phase.Taken? || f.phase == Releasing(true)
  }

  predicate Closed(f: Fill) {
    f.phase.Admitted? || f.phase.Gone?
  }

  /** Bytes of the budget this fill is responsible for, in `temp` or in transit. */
  function Held(f: Fill): nat {
    if f.phase.Charged? then f.accounted + |f.phase.data|
    else if Closed(f) then 0
    else f.accounted
  }

  function FillBytes(f: Fill): nat {
    MetaBytes(f.meta, f.tags) + |f.path|
  }

  function NewFill(l: Label, clock: nat): Fill
    requires l.Charge?
  {
    var tags := if l.transient then [] else l.tags;
    var path := if l.transient then "" else l.path;
    Fill(l.key, l.meta, l.transient, tags, path, false, [], Partial(0),
         MetaBytes(l.meta, tags) + |path|, Registering, clock)
  }

  function FillEntry(f: Fill, id: nat): Stored {
    Stored(f.meta, f.body, f.path, f.tags, id)
  }

  function Mark(f: Fill, sel: Selector): Fill {
    if InTemp(f) && Selects(sel, f.key, f.path, f.tags) then f.(invalidated := true) else f
  }

  /** What a purge removes: a tag purge uses the keys it read from the index when it began. */
  function Swept(s: Sys): set<Key>
    requires s.purge.Doomed?
  {
    if s.purge.sel.Tagged? then s.shelf.cached.Keys * s.purge.victims
    else Matching(s.shelf.cached, s.purge.sel)
  }

  // ---- One fill at a time ------------------------------------------------

  /** The actions of a fill's own writer once it is registered. */
  predicate Moves(l: Label) {
    || l.Insert? || l.ChargeChunk? || l.Append? || l.Publish? || l.Complete?
    || l.Park? || l.Take? || l.AdmitFill? || l.Drop? || l.GiveBack?
  }

  predicate CanMove(f: Fill, l: Label)
    requires Moves(l)
  {
    match l
    case Insert(_) => f.phase.Registering?
    case ChargeChunk(_, _, _) => f.phase.Ready?
    case Append(_) => f.phase.Charged?
    case Publish(_) => f.phase.Appended?
    case Complete(_) => f.phase.Ready?
    case Park(_) => f.phase.Finishing? && f.transient
    case Take(_) => f.phase.Finishing? && !f.transient
    case AdmitFill(_) => f.phase.Taken?
    case Drop(_) => f.phase.Ready? || f.phase.Parked?
    case GiveBack(_) => f.phase.Releasing?
  }

  function Moved(f: Fill, l: Label): Fill
    requires Moves(l) && CanMove(f, l)
  {
    match l
    case Insert(_) => f.(phase := Ready)
    case ChargeChunk(_, data, eof) => f.(phase := Charged(data, eof))
    case Append(_) =>
      f.(body := f.body + f.phase.data, accounted := f.accounted + |f.phase.data|,
         phase := Appended(|f.phase.data|, f.phase.eof))
    case Publish(_) =>
      var total := f.written.bytes + f.phase.n;
      f.(written := if f.phase.eof then Done(total) else Partial(total), phase := Ready)
    case Complete(_) => f.(written := Done(f.written.bytes), phase := Finishing)
    case Park(_) => f.(phase := Parked)
    case Take(_) => f.(phase := if f.invalidated then Releasing(true) else Taken)
    case AdmitFill(_) => f.(phase := Admitted)
    case Drop(_) => f.(phase := Releasing(false))
    case GiveBack(_) => f.(phase := Gone)
  }

  // ---- Steps -------------------------------------------------------------

  predicate Init(s: Sys) {
    s == Sys(Shelf(map[], {}, [], 0), map[], map[], NoPurge, map[], map[], 0)
  }

  ghost predicate Enabled(c: Config, s: Sys, l: Label)
    requires WellFormed(s.shelf)
  {
    if Moves(l) then
      && l.id in s.fills && CanMove(s.fills[l.id], l)
      && (l.ChargeChunk? && l.data != [] ==> Reserve(s.shelf, c.policy, c.max, |l.data|).1)
      && (l.Take? ==> s.purge.NoPurge?)
    else
    match l
    case Charge(id, _, _, _, _, _) =>
      id !in s.fills && s.purge.NoPurge? && Reserve(s.shelf, c.policy, c.max, NewFill(l, s.clock).accounted).1
    case Refuse(n) => !Reserve(s.shelf, c.policy, c.max, n).1
    case Revise(_, _, _) => s.purge.NoPurge?
    case Hit(_) => true
    case Attach(f, id) => f !in s.followers && id in s.fills && InTemp(s.fills[id])
    case Observe(f) => f in s.followers && s.followers[f].status.Reading?
    case Read(f) => f in s.followers && s.followers[f].status.Reading?
    case PurgeBegin(_) => s.purge.NoPurge? && forall id :: id in s.fills ==> !Locks(s.fills[id])
    case PurgeMark => s.purge.Begun?
    case PurgeSweep(sel) => s.purge.Doomed? && s.purge.sel == sel
  }

  /** One call of a follower's read loop body, on the progress it last observed. */
  function ReadStep(w: Follower, f: Fill): Follower
    requires w.seen.bytes <= |f.body|
  {
    if w.seen.bytes > w.read then
      var end := Min(w.read + CHUNK, w.seen.bytes);
      w.(read := end, out := w.out + f.body[w.read..end])
    else if w.seen.Done? then w.(status := Ended)
    else if Closed(f) && f.written == w.seen then w.(status := Failed)
    else w
  }

  ghost function Next(c: Config, s: Sys, l: Label): Sys
    requires WellFormed(s.shelf) && Enabled(c, s, l)
  {
    Act(c, s, l).(clock := s.clock + 1)
  }

  /** A fill's own step, and what it does to the shelf. */
  ghost function Move(c: Config, s: Sys, l: Label): Sys
    requires WellFormed(s.shelf) && Enabled(c, s, l) && Moves(l)
  {
    var f := s.fills[l.id];
    var shelf :=
      if l.ChargeChunk? && l.data != [] then Reserve(s.shelf, c.policy, c.max, |l.data|).0
      else if l.AdmitFill? then Admit(s.shelf, f.key, FillEntry(f, l.id))
      else if l.GiveBack? then Release(s.shelf, f.accounted)
      else s.shelf;
    s.(fills := s.fills[l.id := Moved(f, l)], shelf := shelf,
       declared := if l.AdmitFill? then s.declared[f.key := f.registered] else s.declared,
       admitted := if l.AdmitFill? then s.admitted[f.key := s.clock] else s.admitted)
  }

  ghost function Act(c: Config, s: Sys, l: Label): Sys
    requires WellFormed(s.shelf) && Enabled(c, s, l)
  {
    if Moves(l) then Move(c, s, l) else
    match l
    case Charge(id, _, _, _, _, _) =>
      var f := NewFill(l, s.clock);
      s.(shelf := Reserve(s.shelf, c.policy, c.max, f.accounted).0, fills := s.fills[id := f])
    case Refuse(n) => s.(shelf := Reserve(s.shelf, c.policy, c.max, n).0)
    case Revise(key, meta, tags) =>
      var (shelf, ok) := UpdateMeta(s.shelf, c.max, key, meta, tags);
      s.(shelf := shelf, declared := if ok then s.declared[key := s.clock] else s.declared)
    case Hit(key) => s.(shelf := Touch(s.shelf, key))
    case Attach(f, id) => s.(followers := s.followers[f := Follower(id, 0, [], Partial(0), Reading)])
    case Observe(f) =>
      var w := s.followers[f];
      if w.id in s.fills then s.(followers := s.followers[f := w.(seen := s.fills[w.id].written)]) else s
    case Read(f) =>
      var w := s.followers[f];
      if w.id in s.fills && w.seen.bytes <= |s.fills[w.id].body| then
        s.(followers := s.followers[f := ReadStep(w, s.fills[w.id])])
      else s
    case PurgeBegin(sel) => s.(purge := Begun(sel, Matching(s.shelf.cached, sel)))
    case PurgeMark =>
      s.(fills := map id | id in s.fills :: Mark(s.fills[id], s.purge.sel),
         purge := Doomed(s.purge.sel, s.purge.victims))
    case PurgeSweep(sel) => s.(shelf := Purge(s.shelf, Swept(s)), purge := NoPurge)
  }
}
