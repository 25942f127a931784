/**
  The bounded in-memory store. Each method body is one critical section of the
  source, working on the fields in place; its contract ties the fields to the
  shelf functions. Fields a method leaves alone are left out of its frame.
 */
module BoundedStores {
  import opened Machine
  import opened Options
  import opened Sums
  import opened Shelves
  import opened Sweeps
  import opened Sections
  import opened TagIndexes

  /** A write in progress, apart from the bytes its writer and followers share. */
  datatype Temp = Temp(meta: Meta, transient: bool, tags: seq<Tag>, path: string, invalidated: bool)

  datatype Purged = Purged(entries: nat, bytes: nat)

  type Temps = map<Key, map<nat, Temp>>

  /** Every selected fill, marked so that it will not be admitted. */
  ghost function Marked(temp: Temps, sel: Selector): Temps {
    map k | k in temp :: MarkedWrites(k, temp[k], sel)
  }

  ghost function MarkedWrites(k: Key, writes: map<nat, Temp>, sel: Selector): map<nat, Temp> {
    map id | id in writes :: MarkedFill(k, writes[id], sel)
  }

  function MarkedFill(k: Key, fill: Temp, sel: Selector): Temp {
    if Selects(sel, k, fill.path, fill.tags) then fill.(invalidated := true) else fill
  }

  ghost function Inserted(temp: Temps, key: Key, id: nat, fill: Temp): Temps {
    temp[key := (if key in temp then temp[key] else map[])[id := fill]]
  }

  /** One fill taken out; a key with no fill left is dropped. */
  ghost function Removed(temp: Temps, key: Key, id: nat): Temps {
    if key !in temp then temp
    else if temp[key] - {id} == map[] then temp - {key}
    else temp[key := temp[key] - {id}]
  }

  // ---- What purges do, entry by entry and fill by fill -------------------

  /** The fills in progress are the same but for their marks. */
  ghost predicate SameFills(before: Temps, after: Temps) {
    && before.Keys == after.Keys
    && forall k :: k in after ==> after[k].Keys == before[k].Keys && forall id :: id in after[k] ==>
         after[k][id] == before[k][id].(invalidated := after[k][id].invalidated)
  }

  ghost predicate PathsPurged(
      before: map<Key, Stored>, after: map<Key, Stored>, temp: Temps, marked: Temps, paths: seq<string>)
  {
    && (forall k :: k in after <==> k in before && !(before[k].path != "" && before[k].path in paths))
    && (forall k :: k in after ==> k in before && after[k] == before[k])
    && SameFills(temp, marked)
    && (forall k, id :: k in marked && id in marked[k] ==>
          (marked[k][id].invalidated <==>
             temp[k][id].invalidated || (temp[k][id].path != "" && temp[k][id].path in paths)))
  }

  predicate Shares(tags: seq<Tag>, asked: seq<Tag>) {
    exists i :: 0 <= i < |tags| && tags[i] != "" && tags[i] in asked
  }

  ghost predicate TagsPurged(
      before: map<Key, Stored>, after: map<Key, Stored>, temp: Temps, marked: Temps, tags: seq<Tag>)
  {
    && (forall k :: k in after <==> k in before && !Shares(before[k].tags, tags))
    && (forall k :: k in after ==> k in before && after[k] == before[k])
    && SameFills(temp, marked)
    && (forall k, id :: k in marked && id in marked[k] ==>
          (marked[k][id].invalidated <==> temp[k][id].invalidated || Shares(temp[k][id].tags, tags)))
  }

  ghost predicate KeyPurged(
      before: map<Key, Stored>, after: map<Key, Stored>, temp: Temps, marked: Temps, key: Key)
  {
    && after == before - {key} && SameFills(temp, marked)
    && (forall k, id :: k in marked && id in marked[k] ==>
          (marked[k][id].invalidated <==> temp[k][id].invalidated || k == key))
  }

  ghost predicate AllDoomed(temp: Temps, marked: Temps) {
    SameFills(temp, marked) && forall k, id :: k in marked && id in marked[k] ==> marked[k][id].invalidated
  }

  /** The answer counts the entries that left and their bytes. */
  predicate Reported(r: Purged, before: map<Key, Stored>, after: map<Key, Stored>, used: nat, usedAfter: nat) {
    r.entries + |after| == |before| && r.bytes + usedAfter == used
  }

  lemma FillsMarked(temp: Temps, sel: Selector)
    ensures SameFills(temp, Marked(temp, sel))
    ensures forall k, id :: k in temp && id in temp[k] ==>
              (Marked(temp, sel)[k][id].invalidated <==>
                 temp[k][id].invalidated || Selects(sel, k, temp[k][id].path, temp[k][id].tags))
  {}

  lemma PathsSelected(cached: map<Key, Stored>, temp: Temps, paths: seq<string>)
    ensures var sel := OnPath(Wanted(paths));
            PathsPurged(cached, cached - Matching(cached, sel), temp, Marked(temp, sel), paths)
  {
    FillsMarked(temp, OnPath(Wanted(paths)));
  }

  lemma TagsSelected(cached: map<Key, Stored>, temp: Temps, tags: seq<Tag>)
    ensures var sel := Tagged(Wanted(tags));
            TagsPurged(cached, cached - Matching(cached, sel), temp, Marked(temp, sel), tags)
  {
    FillsMarked(temp, Tagged(Wanted(tags)));
    forall k, path, of: seq<Tag> ensures Selects(Tagged(Wanted(tags)), k, path, of) <==> Shares(of, tags) {
      if Shares(of, tags) {
        var i :| 0 <= i < |of| && of[i] != "" && of[i] in tags;
        assert of[i] in of && of[i] in Wanted(tags);
      }
    }
  }

  lemma KeySelected(cached: map<Key, Stored>, temp: Temps, key: Key)
    ensures var sel := Keyed({key});
            && KeyPurged(cached, cached - Matching(cached, sel), temp, Marked(temp, sel), key)
            && Matching(cached, sel) == if key in cached then {key} else {}
  {
    FillsMarked(temp, Keyed({key}));
    assert Matching(cached, Keyed({key})) == if key in cached then {key} else {};
    assert cached - Matching(cached, Keyed({key})) == cached - {key};
  }

  lemma PurgeRemoves(sh: Shelf, doomed: set<Key>)
    requires WellFormed(sh) && doomed <= sh.cached.Keys
    ensures var after := Purge(sh, doomed);
            && WellFormed(after) && Pending(after) == Pending(sh) && after.cached == sh.cached - doomed
            && |doomed| + |after.cached| == |sh.cached|
  {
    PurgeKeeps(sh, doomed);
    assert (sh.cached - doomed).Keys == sh.cached.Keys - doomed;
    assert |sh.cached.Keys - doomed| == |sh.cached.Keys| - |doomed|;
  }

  predicate InTemp(temp: Temps, key: Key, id: nat) {
    key in temp && id in temp[key]
  }

  /** Exactly one fill is out of `temp`; no key is left without fills because of it. */
  ghost predicate FillGone(before: Temps, after: Temps, key: Key, id: nat) {
    && (forall k, x :: InTemp(after, k, x) <==> InTemp(before, k, x) && !(k == key && x == id))
    && (forall k, x :: InTemp(after, k, x) ==> after[k][x] == before[k][x])
    && (key in after ==> after[key] != map[])
  }

  lemma OneRemoved(temp: Temps, key: Key, id: nat)
    ensures FillGone(temp, Removed(temp, key, id), key, id)
  {
    if key in temp {
      assert forall x :: x in temp[key] && x != id ==> x in temp[key] - {id};
    }
  }

  /** Exactly one fill is new. */
  ghost predicate FillAdded(before: Temps, after: Temps, key: Key, id: nat, fill: Temp) {
    && (forall k, x :: InTemp(after, k, x) <==> InTemp(before, k, x) || (k == key && x == id))
    && (forall k, x :: InTemp(after, k, x) ==>
          after[k][x] == if k == key && x == id then fill else before[k][x])
  }

  lemma OneAdded(temp: Temps, key: Key, id: nat, fill: Temp)
    ensures FillAdded(temp, Inserted(temp, key, id, fill), key, id, fill)
  {}

  /** The names a purge request asks for; empty names select nothing. */
  function Wanted(names: seq<string>): set<string> {
    set t | t in names && t != ""
  }

  datatype Found = Complete(meta: Meta, body: Bytes, writer: nat) | InProgress(meta: Meta, id: nat) | Miss

  lemma EverythingPurged(sh: Shelf)
    requires WellFormed(sh)
    ensures var left := Purge(sh, Matching(sh.cached, Everything));
            left.cached == map[] && left.order == [] && left.used == Pending(sh) && TagIndex(left.cached) == map[]
  {
    assert Matching(sh.cached, Everything) == sh.cached.Keys;
    var left := Purge(sh, sh.cached.Keys);
    PurgeKeeps(sh, sh.cached.Keys);
    assert left.cached == map[];
    assert multiset(left.order) == multiset{};
  }

  class BoundedStore {
    var cached: map<Key, Stored>
    var visited: set<Key>
    var order: seq<Key>
    var tagIndex: Index
    var temp: Temps
    var used: nat
    const maxBytes: nat
    const policy: Eviction
    var nextId: nat
    var evicted: nat
    var purged: nat

    ghost function Shelf(): Shelf
      reads this
    {
      Shelves.Shelf(cached, visited, order, used)
    }

    ghost predicate Valid()
      reads this
    {
      && WellFormed(Shelf())
      && used <= maxBytes < WORD_MAX
      && tagIndex == TagIndex(cached)
    }

    constructor (maxBytes: nat, policy: Eviction)
      requires maxBytes < WORD_MAX
      ensures Valid() && this.maxBytes == maxBytes && this.policy == policy
      ensures Shelf() == Shelves.Shelf(map[], {}, [], 0) && temp == map[]
      ensures nextId == evicted == purged == 0
    {
      this.maxBytes, this.policy := maxBytes, policy;
      cached, visited, order, tagIndex, temp := map[], {}, [], map[], map[];
      used, nextId, evicted, purged := 0, 0, 0, 0;
    }

    /** Remove `key` from every tag it was indexed under, dropping empty sets. */
    static method UnindexTags(index: Index, key: Key, tags: seq<Tag>) returns (out: Index)
      ensures out == Unindexed(index, key, tags)
    {
      out := index;
      NothingIndexed(index, key);
      for i := 0 to |tags|
        invariant out == Unindexed(index, key, tags[..i])
      {
        UnindexedStep(index, key, tags, i);
        UnindexedOne(out, key, tags[i]);
        var tag := tags[i];
        if tag in out {
          var keys := out[tag] - {key};
          out := if keys == {} then out - {tag} else out[tag := keys];
        }
      }
      assert tags[..|tags|] == tags;
    }

    static method IndexTags(index: Index, key: Key, tags: seq<Tag>) returns (out: Index)
      ensures out == Indexed(index, key, tags)
    {
      out := index;
      NothingIndexed(index, key);
      for i := 0 to |tags|
        invariant out == Indexed(index, key, tags[..i])
      {
        IndexedStep(index, key, tags, i);
        IndexedOne(out, key, tags[i]);
        var tag := tags[i];
        out := out[tag := (if tag in out then out[tag] else {}) + {key}];
      }
      assert tags[..|tags|] == tags;
    }

    /** Discard the entry for a key just taken off the queue, if it has one. */
    method Discard(victim: Key)
      requires tagIndex == TagIndex(cached)
      modifies this`cached, this`visited, this`tagIndex, this`used, this`evicted
      ensures cached == old(cached) - {victim} && visited == old(visited) - {victim}
      ensures used == SatSub(old(used), SizeAt(old(cached), victim))
      ensures tagIndex == TagIndex(cached)
      ensures evicted == old(evicted) + |old(cached)| - |cached|
    {
      visited := visited - {victim};
      if victim in cached {
        var entry := cached[victim];
        UnindexedIsTagIndex(cached, victim);
        assert (cached - {victim}).Keys == cached.Keys - {victim};
        cached := cached - {victim};
        used := SatSub(used, Size(entry));
        tagIndex := UnindexTags(tagIndex, victim, entry.tags);
        evicted := evicted + 1;
      } else {
        assert cached - {victim} == cached;
      }
    }

    /** Look at the front of the queue: spare it and send it to the back, or discard it. */
    method TakeTurn(chances: nat) returns (left: nat)
      requires tagIndex == TagIndex(cached) && order != []
      modifies this`cached, this`visited, this`order, this`tagIndex, this`used, this`evicted
      ensures (Shelf(), left) == Turn(old(Shelf()), chances)
      ensures tagIndex == TagIndex(cached)
      ensures chances > |old(visited)| ==> left > |visited|
      ensures evicted == old(evicted) + |old(cached)| - |cached|
    {
      var victim := order[0];
      order := order[1..];
      if chances > 0 && victim in visited {
        visited := visited - {victim};
        order := order + [victim];
        left := chances - 1;
      } else {
        ghost var before := visited;
        Discard(victim);
        SubsetSize(visited, before);
        left := chances;
      }
    }

    /**
      The eviction loop. `turns` counts its iterations and `left` is what remains
      of `chances`, which only falls: under Clock the guard `chances > 0` never
      turns a visited key away.
     */
    method Evict(additional: nat) returns (ok: bool, ghost turns: nat, ghost left: nat)
      requires tagIndex == TagIndex(cached) && used <= maxBytes < WORD_MAX
      requires |visited| <= |order|
      modifies this`cached, this`visited, this`order, this`tagIndex, this`used, this`evicted
      ensures (Shelf(), ok) == SweepLoop(old(Shelf()), maxBytes, additional, Chances(policy, old(order)))
      ensures tagIndex == TagIndex(cached)
      ensures turns <= 2 * |old(order)|
      ensures policy == Clock ==> left > |visited|
      ensures evicted == old(evicted) + |old(cached)| - |cached|
    {
      turns := 0;
      var chances: nat := if policy == Clock then |order| + 1 else 0;
      while SatAdd(used, additional) > maxBytes
        invariant SweepLoop(Shelf(), maxBytes, additional, chances)
               == SweepLoop(old(Shelf()), maxBytes, additional, Chances(policy, old(order)))
        invariant tagIndex == TagIndex(cached)
        invariant policy == Clock ==> chances > |visited|
        invariant turns + chances + |order| <= |old(order)| + Chances(policy, old(order))
        invariant evicted == old(evicted) + |old(cached)| - |cached|
        decreases chances + |order|
      {
        if order == [] {
          return false, turns, chances;
        }
        turns := turns + 1;
        chances := TakeTurn(chances);
      }
      used := used + additional;
      ok, left := true, chances;
    }

    /**
      Make room for `additional` bytes. At most two turns are spent per queued
      key, so a working set that is entirely hot cannot livelock.
     */
    method Reserve(additional: nat) returns (ok: bool, ghost turns: nat)
      requires Valid()
      modifies this`cached, this`visited, this`order, this`tagIndex, this`used, this`evicted
      ensures Valid()
      ensures (Shelf(), ok) == Sweeps.Reserve(old(Shelf()), policy, maxBytes, additional)
      ensures turns <= 2 * |old(order)|
      ensures evicted == old(evicted) + |old(cached)| - |cached|
    {
      if additional > maxBytes {
        return false, 0;
      }
      ReserveKeeps(Shelf(), policy, maxBytes, additional);
      SweepLoopIsReserve(Shelf(), policy, maxBytes, additional);
      VisitedFits(Shelf());
      ghost var left;
      ok, turns, left := Evict(additional);
    }

    method Release(amount: nat)
      requires Valid() && amount <= Pending(Shelf())
      modifies this`used
      ensures Valid()
      ensures used == old(used) - amount
      ensures Pending(Shelf()) == old(Pending(Shelf())) - amount
    {
      used := SatSub(used, amount);
    }

    /** Convert a fill already charged to the budget into the entry for `key`. */
    method Admit(key: Key, obj: Stored)
      requires Valid() && Size(obj) <= Pending(Shelf())
      modifies this`cached, this`visited, this`order, this`tagIndex, this`used
      ensures Valid()
      ensures Shelf() == Sections.Admit(old(Shelf()), key, obj)
      ensures Pending(Shelf()) == old(Pending(Shelf())) - Size(obj)
    {
      AdmitKeeps(Shelf(), key, obj);
      AdmitIndex(cached, key, obj);
      visited := visited - {key};
      if key in cached {
        var old_ := cached[key];
        cached := cached - {key};
        used := SatSub(used, Size(old_));
        tagIndex := UnindexTags(tagIndex, key, old_.tags);
        order := Without(order, {key});
      }
      tagIndex := IndexTags(tagIndex, key, obj.tags);
      cached := cached[key := obj];
      order := order + [key];
    }

    /** The one place entries leave the cache for a reason other than eviction. */
    method PurgeMatching(sel: Selector) returns (r: Purged)
      requires Valid()
      modifies this`cached, this`visited, this`order, this`tagIndex, this`used, this`purged
      ensures Valid()
      ensures Shelf() == Purge(old(Shelf()), Matching(old(cached), sel))
      ensures r.entries == |Matching(old(cached), sel)|
      ensures Reported(r, old(cached), cached, old(used), used)
      ensures purged == old(purged) + r.entries && Pending(Shelf()) == old(Pending(Shelf()))
    {
      var doomed := Matching(cached, sel);
      PurgeRemoves(Shelf(), doomed);
      r := DropAll(doomed);
      order := Without(order, doomed);
      purged := purged + r.entries;
    }

    /** Remove the listed entries from the cache, the index and the byte count. */
    method DropAll(doomed: set<Key>) returns (r: Purged)
      requires doomed <= cached.Keys
      requires tagIndex == TagIndex(cached) && Completed(cached) <= used
      modifies this`cached, this`visited, this`tagIndex, this`used
      ensures cached == old(cached) - doomed && visited == old(visited) - doomed
      ensures tagIndex == TagIndex(cached)
      ensures used == old(used) - (Completed(old(cached)) - Completed(cached)) && Completed(cached) <= used
      ensures r.entries == |doomed| && r.bytes == old(used) - used
    {
      r := Purged(0, 0);
      var left := doomed;
      assert cached - {} == cached;
      while left != {}
        invariant left <= doomed
        invariant cached == old(cached) - (doomed - left) && visited == old(visited) - (doomed - left)
        invariant tagIndex == TagIndex(cached)
        invariant used == old(used) - (Completed(old(cached)) - Completed(cached)) && Completed(cached) <= used
        invariant r.entries + |left| == |doomed| && r.bytes == old(used) - used
        decreases |left|
      {
        var key :| key in left;
        DropOneLeft(old(cached), doomed, left, key);
        var entry := cached[key];
        CompletedRemove(cached, key);
        UnindexedIsTagIndex(cached, key);
        cached := cached - {key};
        visited := visited - {key};
        used := SatSub(used, Size(entry));
        r := Purged(r.entries + 1, r.bytes + Size(entry));
        tagIndex := UnindexTags(tagIndex, key, entry.tags);
        left := left - {key};
      }
      assert doomed - left == doomed;
    }

    /** Mark every selected fill in progress. */
    method MarkTemps(sel: Selector)
      modifies this`temp
      ensures temp == Marked(old(temp), sel)
    {
      var left := temp.Keys;
      while left != {}
        invariant left <= temp.Keys == old(temp).Keys
        invariant forall k :: k in temp ==>
                    temp[k] == if k in left then old(temp)[k] else MarkedWrites(k, old(temp)[k], sel)
        decreases |left|
      {
        var key :| key in left;
        var writes := MarkWrites(key, temp[key], sel);
        temp := temp[key := writes];
        left := left - {key};
      }
    }

    static method MarkWrites(key: Key, writes: map<nat, Temp>, sel: Selector)
      returns (out: map<nat, Temp>)
      ensures out == MarkedWrites(key, writes, sel)
    {
      out := writes;
      var left := writes.Keys;
      while left != {}
        invariant left <= writes.Keys == out.Keys
        invariant forall id :: id in writes ==>
                    out[id] == if id in left then writes[id] else MarkedFill(key, writes[id], sel)
        decreases |left|
      {
        var id :| id in left;
        out := out[id := MarkedFill(key, out[id], sel)];
        left := left - {id};
      }
    }

    /** Every key the reverse index lists under a wanted tag. */
    method TaggedKeys(wanted: set<Tag>) returns (victims: set<Key>)
      requires tagIndex == TagIndex(cached)
      ensures victims == Matching(cached, Tagged(wanted))
    {
      victims := {};
      var left := wanted;
      while left != {}
        invariant left <= wanted
        invariant victims == Matching(cached, Tagged(wanted - left))
        decreases |left|
      {
        var tag :| tag in left;
        MatchingGrows(cached, wanted - left, tag);
        assert wanted - (left - {tag}) == (wanted - left) + {tag};
        victims := victims + (if tag in tagIndex then tagIndex[tag] else {});
        left := left - {tag};
      }
      assert wanted - left == wanted;
    }

    /** Drop every entry carrying any of these tags and doom every such fill. */
    method PurgeTags(tags: seq<Tag>) returns (r: Purged)
      requires Valid()
      modifies this`cached, this`visited, this`order, this`tagIndex, this`used, this`purged, this`temp
      ensures Valid()
      ensures TagsPurged(old(cached), cached, old(temp), temp, tags)
      ensures Shelf() == Purge(old(Shelf()), Matching(old(cached), Tagged(Wanted(tags))))
      ensures temp == Marked(old(temp), Tagged(Wanted(tags)))
      ensures Reported(r, old(cached), cached, old(used), used)
      ensures purged == old(purged) + r.entries && Pending(Shelf()) == old(Pending(Shelf()))
    {
      TagsSelected(cached, temp, tags);
      var wanted := Wanted(tags);
      r := PurgeWantedTags(wanted);
    }

    method PurgeWantedTags(wanted: set<Tag>) returns (r: Purged)
      requires Valid()
      modifies this`cached, this`visited, this`order, this`tagIndex, this`used, this`purged, this`temp
      ensures Valid()
      ensures Shelf() == Purge(old(Shelf()), Matching(old(cached), Tagged(wanted)))
      ensures temp == Marked(old(temp), Tagged(wanted))
      ensures Reported(r, old(cached), cached, old(used), used)
      ensures purged == old(purged) + r.entries && Pending(Shelf()) == old(Pending(Shelf()))
    {
      if wanted == {} {
        PurgeNothing(Shelf());
        NothingSelected(cached, temp, Tagged({}));
        return Purged(0, 0);
      }
      var victims := TaggedKeys(wanted);
      MarkTemps(Tagged(wanted));
      assert Matching(cached, Keyed(victims)) == victims;
      r := PurgeMatching(Keyed(victims));
    }

    /** Drop every entry answering any of these exact paths and doom every such fill. */
    method PurgePaths(paths: seq<string>) returns (r: Purged)
      requires Valid()
      modifies this`cached, this`visited, this`order, this`tagIndex, this`used, this`purged, this`temp
      ensures Valid()
      ensures PathsPurged(old(cached), cached, old(temp), temp, paths)
      ensures Shelf() == Purge(old(Shelf()), Matching(old(cached), OnPath(Wanted(paths))))
      ensures temp == Marked(old(temp), OnPath(Wanted(paths)))
      ensures Reported(r, old(cached), cached, old(used), used)
      ensures purged == old(purged) + r.entries && Pending(Shelf()) == old(Pending(Shelf()))
    {
      PathsSelected(cached, temp, paths);
      var wanted := Wanted(paths);
      r := PurgeWantedPaths(wanted);
    }

    method PurgeWantedPaths(wanted: set<string>) returns (r: Purged)
      requires Valid()
      modifies this`cached, this`visited, this`order, this`tagIndex, this`used, this`purged, this`temp
      ensures Valid()
      ensures Shelf() == Purge(old(Shelf()), Matching(old(cached), OnPath(wanted)))
      ensures temp == Marked(old(temp), OnPath(wanted))
      ensures Reported(r, old(cached), cached, old(used), used)
      ensures purged == old(purged) + r.entries && Pending(Shelf()) == old(Pending(Shelf()))
    {
      if wanted == {} {
        PurgeNothing(Shelf());
        NothingSelected(cached, temp, OnPath({}));
        return Purged(0, 0);
      }
      MarkTemps(OnPath(wanted));
      r := PurgeMatching(OnPath(wanted));
    }

    method PurgeAll() returns (r: Purged)
      requires Valid()
      modifies this`cached, this`visited, this`order, this`tagIndex, this`used, this`purged, this`temp
      ensures Valid()
      ensures cached == map[] && order == [] && tagIndex == map[] && used == old(Pending(Shelf()))
      ensures AllDoomed(old(temp), temp) && temp == Marked(old(temp), Everything)
      ensures Reported(r, old(cached), cached, old(used), used) && purged == old(purged) + r.entries
    {
      FillsMarked(temp, Everything);
      EverythingPurged(Shelf());
      MarkTemps(Everything);
      r := PurgeMatching(Everything);
    }

    /** Pingora's own purge hook, for one key. */
    method PurgeKey(key: Key) returns (hit: bool)
      requires Valid()
      modifies this`cached, this`visited, this`order, this`tagIndex, this`used, this`purged, this`temp
      ensures Valid()
      ensures KeyPurged(old(cached), cached, old(temp), temp, key)
      ensures Shelf() == Purge(old(Shelf()), Matching(old(cached), Keyed({key})))
      ensures temp == Marked(old(temp), Keyed({key}))
      ensures Pending(Shelf()) == old(Pending(Shelf()))
      ensures hit <==> key in old(cached) || (key in old(temp) && old(temp)[key] != map[])
    {
      KeySelected(cached, temp, key);
      var doomed := key in temp && temp[key] != map[];
      MarkTemps(Keyed({key}));
      var r := PurgeMatching(Keyed({key}));
      hit := doomed || r.entries > 0;
    }

    method RemoveTemp(key: Key, id: nat) returns (fill: Option<Temp>)
      modifies this`temp
      ensures temp == Removed(old(temp), key, id) && FillGone(old(temp), temp, key, id)
      ensures fill == if key in old(temp) && id in old(temp)[key] then Some(old(temp)[key][id]) else None
    {
      OneRemoved(temp, key, id);
      fill := None;
      if key in temp {
        if id in temp[key] {
          fill := Some(temp[key][id]);
        }
        var writes := temp[key] - {id};
        temp := if writes == map[] then temp - {key} else temp[key := writes];
      }
    }

    /**
      Charge a new fill's metadata to the budget and register it. A transient
      fill is never admitted, so its tags and path are dropped here.
     */
    method Register(key: Key, meta: Meta, transient: bool, declared: seq<Tag>, userTag: string)
      returns (id: Option<nat>)
      requires Valid()
      modifies this`cached, this`visited, this`order, this`tagIndex, this`used, this`evicted,
               this`temp, this`nextId
      ensures Valid()
      ensures var fill := NewFill(meta, transient, declared, userTag);
              && (Shelf(), id.Some?) == Sweeps.Reserve(old(Shelf()), policy, maxBytes, FillMetaBytes(fill))
              && temp == if id.Some? then Inserted(old(temp), key, id.value, fill) else old(temp)
      ensures id.Some? ==> id.value == old(nextId) && nextId == old(nextId) + 1
      ensures id.None? ==> nextId == old(nextId)
      ensures var tags, path := if transient then [] else declared, if transient then "" else userTag;
              var charge := |meta.internal| + |meta.header| + |Flat(tags)| + |path|;
              && (id.Some? <==> old(Pending(Shelf())) + charge <= maxBytes)
              && Pending(Shelf()) == old(Pending(Shelf())) + (if id.Some? then charge else 0)
              && (id.Some? ==> FillAdded(old(temp), temp, key, id.value, Temp(meta, transient, tags, path, false)))
    {
      ChargeIs(Shelf(), policy, maxBytes, meta, transient, declared, userTag);
      var fill := NewFill(meta, transient, declared, userTag);
      var ok, _ := Reserve(FillMetaBytes(fill));
      if !ok {
        return None;
      }
      var fresh_ := InsertTemp(key, fill);
      id := Some(fresh_);
    }

    method InsertTemp(key: Key, fill: Temp) returns (id: nat)
      modifies this`temp, this`nextId
      ensures id == old(nextId) && nextId == id + 1
      ensures temp == Inserted(old(temp), key, id, fill) && FillAdded(old(temp), temp, key, id, fill)
    {
      OneAdded(temp, key, nextId, fill);
      id := nextId;
      nextId := nextId + 1;
      var writes := if key in temp then temp[key] else map[];
      temp := temp[key := writes[id := fill]];
    }

    /** Replace an entry's metadata and tags after revalidation. */
    method UpdateMeta(key: Key, meta: Meta, tags: seq<Tag>) returns (ok: bool)
      requires Valid()
      modifies this`cached, this`tagIndex, this`used
      ensures Valid()
      ensures (Shelf(), ok) == Sections.UpdateMeta(old(Shelf()), maxBytes, key, meta, tags)
    {
      UpdateMetaKeeps(Shelf(), maxBytes, key, meta, tags);
      if key !in cached {
        return false;
      }
      var obj := cached[key];
      var ok_ := Recharge(MetaBytes(obj.meta, obj.tags), MetaBytes(meta, tags));
      if !ok_ {
        return false;
      }
      Replace(key, obj.(meta := meta, tags := tags));
      return true;
    }

    /** Charge the growth of an entry's metadata if it fits, or give back the difference. */
    method Recharge(oldSize: nat, newSize: nat) returns (ok: bool)
      modifies this`used
      ensures ok <==> newSize <= oldSize || SatAdd(old(used), newSize - oldSize) <= maxBytes
      ensures used == if !ok then old(used)
                      else if newSize > oldSize then old(used) + (newSize - oldSize)
                      else SatSub(old(used), oldSize - newSize)
    {
      if newSize > oldSize {
        var growth := newSize - oldSize;
        if SatAdd(used, growth) > maxBytes {
          return false;
        }
        used := used + growth;
      } else {
        used := SatSub(used, oldSize - newSize);
      }
      return true;
    }

    /** Put a new revision in place, with the reverse index following. */
    method Replace(key: Key, e: Stored)
      requires key in cached && tagIndex == TagIndex(cached)
      modifies this`cached, this`tagIndex
      ensures cached == old(cached)[key := e] && tagIndex == TagIndex(cached)
    {
      AdmitIndex(cached, key, e);
      tagIndex := UnindexTags(tagIndex, key, cached[key].tags);
      tagIndex := IndexTags(tagIndex, key, e.tags);
      cached := cached[key := e];
    }

    /** A finished entry if there is one, else the newest fill in progress, else a miss. */
    method Lookup(key: Key) returns (found: Found)
      requires Valid()
      modifies this`visited
      ensures Valid()
      ensures Shelf() == Touch(old(Shelf()), key)
      ensures visited == old(visited) + (if key in cached then {key} else {})
      ensures match found
              case Complete(meta, body, writer) =>
                key in cached && (meta, body, writer) == (cached[key].meta, cached[key].body, cached[key].writer)
              case InProgress(meta, id) =>
                && key !in cached && key in temp && id in temp[key] && meta == temp[key][id].meta
                && forall other :: other in temp[key] ==> other <= id
              case Miss => key !in cached && (key in temp ==> temp[key] == map[])
    {
      if key in cached {
        visited := visited + {key};
        var e := cached[key];
        return Complete(e.meta, e.body, e.writer);
      }
      if key !in temp || temp[key] == map[] {
        return Miss;
      }
      var writes := temp[key];
      var newest :| newest in writes;
      var left := writes.Keys - {newest};
      while left != {}
        invariant newest in writes && left <= writes.Keys
        invariant forall other :: other in writes && other !in left ==> other <= newest
        decreases |left|
      {
        var id :| id in left;
        newest := if id > newest then id else newest;
        left := left - {id};
      }
      return InProgress(writes[newest].meta, newest);
    }
  }

  function NewFill(meta: Meta, transient: bool, declared: seq<Tag>, userTag: string): Temp {
    Temp(meta, transient, if transient then [] else declared, if transient then "" else userTag, false)
  }

  function FillMetaBytes(fill: Temp): nat {
    MetaBytes(fill.meta, fill.tags) + |fill.path|
  }

  /** The tags one after the other. */
  function Flat(tags: seq<Tag>): string {
    if tags == [] then "" else tags[0] + Flat(tags[1..])
  }

  lemma {:induction false} TagBytesFlat(tags: seq<Tag>)
    ensures TagBytes(tags) == |Flat(tags)|
    decreases |tags|
  {
    if tags != [] {
      TagBytesFlat(tags[1..]);
    }
  }

  /** A fill is charged its metadata, its tags and its path, and registered exactly when they fit. */
  lemma ChargeIs(
      sh: Shelf, policy: Eviction, max: nat, meta: Meta, transient: bool, declared: seq<Tag>, userTag: string)
    requires WellFormed(sh)
    ensures var tags, path := if transient then [] else declared, if transient then "" else userTag;
            var charge := |meta.internal| + |meta.header| + |Flat(tags)| + |path|;
            var (after, ok) := Sweeps.Reserve(sh, policy, max, FillMetaBytes(NewFill(meta, transient, declared, userTag)));
            && (ok <==> Pending(sh) + charge <= max)
            && WellFormed(after) && Pending(after) == Pending(sh) + if ok then charge else 0
  {
    var fill := NewFill(meta, transient, declared, userTag);
    TagBytesFlat(fill.tags);
    ReserveSucceedsIff(sh, policy, max, FillMetaBytes(fill));
    ReserveKeeps(sh, policy, max, FillMetaBytes(fill));
  }

  lemma NothingSelected(cached: map<Key, Stored>, temp: Temps, sel: Selector)
    requires sel in {Tagged({}), OnPath({})}
    ensures Matching(cached, sel) == {}
    ensures Marked(temp, sel) == temp
  {
    forall k | k in temp ensures MarkedWrites(k, temp[k], sel) == temp[k] {}
  }

  lemma MatchingGrows(cached: map<Key, Stored>, wanted: set<Tag>, tag: Tag)
    ensures Matching(cached, Tagged(wanted + {tag}))
         == Matching(cached, Tagged(wanted))
            + (if tag in TagIndex(cached) then TagIndex(cached)[tag] else {})
  {
    TagsCarried(cached, tag);
    forall k | k in cached
      ensures Selects(Tagged(wanted + {tag}), k, cached[k].path, cached[k].tags)
         <==> Selects(Tagged(wanted), k, cached[k].path, cached[k].tags) || tag in cached[k].tags
    {}
  }

  lemma DropOneLeft(cached: map<Key, Stored>, doomed: set<Key>, left: set<Key>, key: Key)
    requires doomed <= cached.Keys && left <= doomed && key in left
    ensures key in cached - (doomed - left)
    ensures cached - (doomed - left) - {key} == cached - (doomed - (left - {key}))
  {
    assert doomed - (left - {key}) == (doomed - left) + {key};
  }

  /** Unindexing the replaced revision before indexing the new one leaves the new index. */
  lemma AdmitIndex(cached: map<Key, Stored>, key: Key, e: Stored)
    ensures key in cached ==> Unindexed(TagIndex(cached), key, cached[key].tags) == TagIndex(cached - {key})
    ensures Indexed(TagIndex(cached - {key}), key, e.tags) == TagIndex(cached[key := e])
    ensures key !in cached ==> cached - {key} == cached
    ensures (cached - {key})[key := e] == cached[key := e]
  {
    if key in cached {
      UnindexedIsTagIndex(cached, key);
    }
    assert (cached - {key})[key := e] == cached[key := e];
    IndexedIsTagIndex(cached - {key}, key, e);
  }
}
