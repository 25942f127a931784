/**
  The two ends of a fill: the leader's writer, which publishes progress as it
  appends, and the readers that follow it or replay a finished body.
 */
module Fills {
  import opened Machine
  import opened Shelves
  import opened Sweeps
  import opened Sections
  import opened BoundedStores

  /** The buffer and progress watch a writer shares with its followers. `open` while a sender lives. */
  class Channel {
    var body: Bytes
    var written: Written
    var open: bool

    constructor ()
      ensures body == [] && written == Partial(0) && open
    {
      body, written, open := [], Partial(0), true;
    }
  }

  datatype Finish = Vanished | Handoff(size: nat) | Dropped(size: nat) | Admitted(size: nat)

  class FollowableMiss {
    const store: BoundedStore
    const key: Key
    const id: nat
    const channel: Channel
    var accounted: nat
    var finished: bool

    ghost predicate Valid()
      reads this, store, channel
    {
      && store.Valid()
      && accounted <= Pending(store.Shelf())
      && channel.written.bytes == |channel.body|
      && (InTemp(store.temp, key, id) ==>
            accounted == FillMetaBytes(store.temp[key][id]) + |channel.body|)
    }

    constructor (store: BoundedStore, key: Key, id: nat)
      requires store.Valid() && InTemp(store.temp, key, id)
      requires FillMetaBytes(store.temp[key][id]) <= Pending(store.Shelf())
      ensures Valid() && fresh(channel) && channel.open && !finished
      ensures this.store == store && this.key == key && this.id == id
      ensures channel.body == [] && channel.written == Partial(0)
      ensures accounted == FillMetaBytes(store.temp[key][id])
    {
      this.store, this.key, this.id := store, key, id;
      channel := new Channel();
      accounted := FillMetaBytes(store.temp[key][id]);
      finished := false;
    }

    /** Charge and append one chunk, then publish it. A refused chunk leaves the body as it was. */
    method WriteBody(data: Bytes, eof: bool) returns (ok: bool)
      requires Valid()
      modifies this`accounted, channel`body, channel`written,
               store`cached, store`visited, store`order, store`tagIndex, store`used, store`evicted
      ensures Valid()
      ensures ok <==> data == [] || old(Pending(store.Shelf())) + |data| <= store.maxBytes
      ensures ok ==> channel.body == old(channel.body) + data
      ensures ok ==> accounted == old(accounted) + |data|
      ensures ok ==> channel.written == if eof then Done(|channel.body|) else Partial(|channel.body|)
      ensures !ok ==> (channel.body, channel.written, accounted)
                      == old((channel.body, channel.written, accounted))
      ensures Pending(store.Shelf()) == old(Pending(store.Shelf())) + (if ok then |data| else 0)
    {
      if data != [] {
        ReserveSucceedsIff(store.Shelf(), store.policy, store.maxBytes, |data|);
        ReserveKeeps(store.Shelf(), store.policy, store.maxBytes, |data|);
        var room, _ := store.Reserve(|data|);
        if !room {
          return false;
        }
      }
      accounted := accounted + |data|;
      var soFar := channel.written.bytes;
      channel.body := channel.body + data;
      var total := soFar + |data|;
      channel.written := if eof then Done(total) else Partial(total);
      return true;
    }

    /**
      Publish the end, then either leave a transient fill for the handoff timer,
      give back a purged fill's bytes, or turn the fill into a completed entry.
     */
    method Finish() returns (r: Finish)
      requires Valid()
      modifies this`finished, channel`written, store`temp,
               store`cached, store`visited, store`order, store`tagIndex, store`used
      ensures store.Valid() && channel.body == old(channel.body)
      ensures channel.written == Done(|channel.body|)
      ensures r.Vanished? <==> !InTemp(old(store.temp), key, id)
      ensures InTemp(old(store.temp), key, id) ==>
                var fill := old(store.temp)[key][id];
                && finished
                && r == (if fill.transient then Handoff(|channel.body|)
                         else if fill.invalidated then Dropped(|channel.body|)
                         else Admitted(|channel.body|))
      ensures r.Vanished? || r.Handoff? ==> store.temp == old(store.temp) && store.Shelf() == old(store.Shelf())
      ensures r.Dropped? || r.Admitted? ==>
                && FillGone(old(store.temp), store.temp, key, id) && store.temp == Removed(old(store.temp), key, id)
                && Pending(store.Shelf()) == old(Pending(store.Shelf())) - accounted
      ensures r.Dropped? ==> store.Shelf() == Release(old(store.Shelf()), accounted)
      ensures r.Admitted? ==>
                var e := Stored(old(store.temp)[key][id].meta, channel.body, old(store.temp)[key][id].path,
                                old(store.temp)[key][id].tags, id);
                && store.cached == old(store.cached)[key := e]
                && store.Shelf() == Sections.Admit(old(store.Shelf()), key, e)
    {
      channel.written := Done(channel.written.bytes);
      if key !in store.temp || id !in store.temp[key] {
        return Vanished;
      }
      finished := true;
      var size := |channel.body|;
      if store.temp[key][id].transient {
        return Handoff(size);
      }
      var fill := store.RemoveTemp(key, id);
      r := Conclude(fill.value, size);
    }

    /** A fill out of `temp` gives its bytes back if it was purged, or becomes the entry for its key. */
    method Conclude(fill: Temp, size: nat) returns (r: Finish)
      requires store.Valid() && accounted == FillMetaBytes(fill) + |channel.body| <= Pending(store.Shelf())
      modifies store`cached, store`visited, store`order, store`tagIndex, store`used
      ensures store.Valid()
      ensures r == if fill.invalidated then Dropped(size) else Admitted(size)
      ensures Pending(store.Shelf()) == old(Pending(store.Shelf())) - accounted
      ensures r.Dropped? ==> store.Shelf() == Release(old(store.Shelf()), accounted)
      ensures r.Admitted? ==>
                var e := Stored(fill.meta, channel.body, fill.path, fill.tags, id);
                && store.cached == old(store.cached)[key := e]
                && store.Shelf() == Sections.Admit(old(store.Shelf()), key, e)
    {
      if fill.invalidated {
        store.Release(accounted);
        return Dropped(size);
      }
      store.Admit(key, Stored(fill.meta, channel.body, fill.path, fill.tags, id));
      return Admitted(size);
    }

    /** Dropping an unfinished writer, or the handoff timer firing after a transient finish. */
    method Abandon()
      requires Valid()
      modifies channel`open, store`temp, store`used
      ensures store.Valid() && !channel.open
      ensures store.temp == Removed(old(store.temp), key, id) && FillGone(old(store.temp), store.temp, key, id)
      ensures store.used == old(store.used) - (if InTemp(old(store.temp), key, id) then accounted else 0)
    {
      channel.open := false;
      var fill := store.RemoveTemp(key, id);
      if fill.Some? {
        store.Release(accounted);
      }
    }
  }

  datatype Read = Chunk(bytes: Bytes) | End | Wait | WriterDropped

  /** Follows a write in progress; `Wait` is where the source parks until progress is published. */
  class PartialHit {
    const channel: Channel
    var read: nat

    constructor (channel: Channel)
      ensures this.channel == channel && read == 0
    {
      this.channel, read := channel, 0;
    }

    method ReadBody() returns (r: Read)
      requires read <= channel.written.bytes <= |channel.body|
      modifies this`read
      ensures read <= channel.written.bytes
      ensures channel.body[..read] == channel.body[..old(read)] + (if r.Chunk? then r.bytes else [])
      ensures r.Chunk? <==> old(read) < channel.written.bytes
      ensures r.Chunk? ==> 0 < |r.bytes| <= CHUNK
      ensures r.End? <==> channel.written == Done(old(read))
      ensures r.WriterDropped? <==> channel.written == Partial(old(read)) && !channel.open
    {
      var available := channel.written.bytes;
      if available > read {
        var end := Min(read + CHUNK, available);
        var chunk := channel.body[read..end];
        assert channel.body[..end] == channel.body[..read] + chunk;
        read := end;
        return Chunk(chunk);
      }
      if channel.written.Done? {
        return End;
      }
      return if channel.open then Wait else WriterDropped;
    }
  }

  /** Replays a finished body. */
  class CompleteHit {
    const body: Bytes
    var read: nat

    constructor (body: Bytes)
      ensures this.body == body && read == 0
    {
      this.body, read := body, 0;
    }

    method ReadBody() returns (r: Read)
      requires read <= |body|
      modifies this`read
      ensures old(read) <= read <= |body|
      ensures body[..read] == body[..old(read)] + (if r.Chunk? then r.bytes else [])
      ensures r.Chunk? || r.End?
      ensures r.End? <==> old(read) == |body|
      ensures r.Chunk? ==> 0 < |r.bytes| <= CHUNK
    {
      if read >= |body| {
        return End;
      }
      var end := Min(read + CHUNK, |body|);
      var chunk := body[read..end];
      assert body[..end] == body[..read] + chunk;
      read := end;
      return Chunk(chunk);
    }
  }
}
