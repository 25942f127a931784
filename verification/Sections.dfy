/**
  The store's other critical sections on the shelf: releasing a charge, admitting
  a finished fill, purging, replacing metadata and recording a read.
 */
module Sections {
  import opened Machine
  import opened Shelves

  function Release(sh: Shelf, amount: nat): Shelf {
    sh.(used := SatSub(sh.used, amount))
  }

  lemma ReleaseKeeps(sh: Shelf, amount: nat)
    requires WellFormed(sh) && amount <= Pending(sh)
    ensures WellFormed(Release(sh, amount))
    ensures Pending(Release(sh, amount)) == Pending(sh) - amount
  {}

  /** A fill already charged to the budget becomes the entry for `key`, at the back of the queue. */
  function Admit(sh: Shelf, key: Key, e: Stored): Shelf {
    Shelf(sh.cached[key := e],
          sh.visited - {key},
          (if key in sh.cached then Without(sh.order, {key}) else sh.order) + [key],
          if key in sh.cached then SatSub(sh.used, Size(sh.cached[key])) else sh.used)
  }

  lemma Requeued(q: seq<Key>, keys: set<Key>, key: Key)
    requires multiset(q) == multiset(keys)
    ensures multiset((if key in keys then Without(q, {key}) else q) + [key]) == multiset(keys + {key})
  {
    forall k ensures multiset(Without(q, {key}))[k] == multiset(keys - {key})[k] {
      WithoutCounts(q, {key}, k);
    }
    assert multiset(keys + {key}) == multiset(keys - {key}) + multiset{key};
    if key !in keys {
      assert keys - {key} == keys;
    }
  }

  lemma AdmitKeeps(sh: Shelf, key: Key, e: Stored)
    requires WellFormed(sh) && Size(e) <= Pending(sh)
    ensures WellFormed(Admit(sh, key, e))
    ensures Pending(Admit(sh, key, e)) == Pending(sh) - Size(e)
    ensures Admit(sh, key, e).used <= sh.used
    ensures key in sh.cached ==> Size(sh.cached[key]) <= sh.used
  {
    CompletedUpdate(sh.cached, key, e);
    if key in sh.cached {
      CompletedRemove(sh.cached, key);
    }
    Requeued(sh.order, sh.cached.Keys, key);
    assert Admit(sh, key, e).cached.Keys == sh.cached.Keys + {key};
  }

  /** What a purge asks for. */
  datatype Selector =
    | Tagged(tags: set<Tag>)
    | OnPath(paths: set<string>)
    | Keyed(keys: set<Key>)
    | Everything

  predicate Selects(sel: Selector, key: Key, path: string, tags: seq<Tag>) {
    match sel
    case Tagged(wanted) => exists t :: t in tags && t in wanted
    case OnPath(wanted) => path in wanted
    case Keyed(keys) => key in keys
    case Everything => true
  }

  function Matching(cached: map<Key, Stored>, sel: Selector): set<Key> {
    set k | k in cached && Selects(sel, k, cached[k].path, cached[k].tags)
  }

  /** Every entry in `doomed` leaves, with its bytes and its place in the queue. */
  ghost function Purge(sh: Shelf, doomed: set<Key>): Shelf
    requires WellFormed(sh)
  {
    CompletedShrinks(sh.cached, doomed);
    Shelf(sh.cached - doomed,
          sh.visited - doomed,
          Without(sh.order, doomed),
          sh.used - (Completed(sh.cached) - Completed(sh.cached - doomed)))
  }

  lemma PurgeNothing(sh: Shelf)
    requires WellFormed(sh)
    ensures Purge(sh, {}) == sh
  {
    assert sh.cached - {} == sh.cached;
    WithoutNothing(sh.order);
  }

  lemma {:induction false} WithoutNothing(q: seq<Key>)
    ensures Without(q, {}) == q
    decreases |q|
  {
    if q != [] {
      WithoutNothing(q[..|q| - 1]);
    }
  }

  lemma PurgeKeeps(sh: Shelf, doomed: set<Key>)
    requires WellFormed(sh)
    ensures WellFormed(Purge(sh, doomed))
    ensures Pending(Purge(sh, doomed)) == Pending(sh)
    ensures Purge(sh, doomed).used <= sh.used
  {
    CompletedShrinks(sh.cached, doomed);
    forall k ensures multiset(Without(sh.order, doomed))[k] == multiset(sh.cached.Keys - doomed)[k] {
      FilterCounts(sh.order, doomed, k);
    }
    assert (sh.cached - doomed).Keys == sh.cached.Keys - doomed;
  }

  /** Revalidation replaces metadata and tags in place; growth must fit without evicting. */
  function UpdateMeta(sh: Shelf, max: nat, key: Key, meta: Meta, tags: seq<Tag>): (Shelf, bool) {
    if key !in sh.cached then (sh, false) else
      var e := sh.cached[key];
      var old_, new_ := MetaBytes(e.meta, e.tags), MetaBytes(meta, tags);
      if new_ > old_ && SatAdd(sh.used, new_ - old_) > max then (sh, false)
      else
        var used := if new_ > old_ then sh.used + (new_ - old_) else SatSub(sh.used, old_ - new_);
        (sh.(cached := sh.cached[key := e.(meta := meta, tags := tags)], used := used), true)
  }

  /** What `used` would become with the replacement in place. */
  ghost function Grown(sh: Shelf, key: Key, meta: Meta, tags: seq<Tag>): int
    requires WellFormed(sh) && key in sh.cached
  {
    Pending(sh) + Completed(sh.cached[key := sh.cached[key].(meta := meta, tags := tags)])
  }

  lemma UpdateMetaKeeps(sh: Shelf, max: nat, key: Key, meta: Meta, tags: seq<Tag>)
    requires WellFormed(sh) && sh.used <= max < WORD_MAX
    ensures var (sh', ok) := UpdateMeta(sh, max, key, meta, tags);
            && WellFormed(sh') && sh'.used <= max
            && Pending(sh') == Pending(sh)
            && (ok <==> key in sh.cached && Grown(sh, key, meta, tags) <= max)
  {
    if key in sh.cached {
      CompletedUpdate(sh.cached, key, sh.cached[key].(meta := meta, tags := tags));
      CompletedRemove(sh.cached, key);
    }
  }

  /** A hit sets the second-chance bit. */
  function Touch(sh: Shelf, key: Key): Shelf {
    if key in sh.cached then sh.(visited := sh.visited + {key}) else sh
  }

  lemma TouchKeeps(sh: Shelf, key: Key)
    requires WellFormed(sh)
    ensures WellFormed(Touch(sh, key)) && Pending(Touch(sh, key)) == Pending(sh)
  {}
}
