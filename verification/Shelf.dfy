/**
  The completed half of the response store as a value: finished entries, their
  second-chance bits, the eviction queue and the byte counter, with one function
  per critical section of the store.
 */
module Shelves {
  import opened Machine
  import opened Sums

  type Tag = string

  /** The combined hash Pingora derives from a canonical cache key. */
  datatype Key = Key(hash: string)

  datatype Eviction = Clock | Fifo

  /** How much of a fill its writer has published, and whether that is the end. */
  datatype Written = Partial(bytes: nat) | Done(bytes: nat)

  /** Readers hand on at most this many bytes at a time. */
  const CHUNK: nat := 64 * 1024

  /** Serialised response metadata; Pingora hands over two byte strings. */
  datatype Meta = Meta(internal: Bytes, header: Bytes)

  /**
    A finished entry. `writer` is the id of the fill whose buffer the entry
    shares; `body` is what that buffer held when the entry was admitted.
   */
  datatype Stored = Stored(meta: Meta, body: Bytes, path: string, tags: seq<Tag>, writer: nat)

  function TagBytes(tags: seq<Tag>): nat {
    if tags == [] then 0 else |tags[0]| + TagBytes(tags[1..])
  }

  function MetaBytes(meta: Meta, tags: seq<Tag>): nat {
    |meta.internal| + |meta.header| + TagBytes(tags)
  }

  function Size(e: Stored): nat {
    MetaBytes(e.meta, e.tags) + |e.body| + |e.path|
  }

  /** `visited` holds the keys whose second-chance bit is set. */
  datatype Shelf = Shelf(cached: map<Key, Stored>, visited: set<Key>, order: seq<Key>, used: nat)

  ghost function Sizes(cached: map<Key, Stored>): map<Key, nat> {
    map k | k in cached :: Size(cached[k])
  }

  ghost function Completed(cached: map<Key, Stored>): nat {
    Sum(Sizes(cached))
  }

  /** The queue lists every completed key exactly once. */
  ghost predicate WellFormed(sh: Shelf) {
    && multiset(sh.order) == multiset(sh.cached.Keys)
    && sh.visited <= sh.cached.Keys
    && Completed(sh.cached) <= sh.used
  }

  /** Bytes charged to the budget that no completed entry accounts for. */
  ghost function Pending(sh: Shelf): nat
    requires WellFormed(sh)
  {
    sh.used - Completed(sh.cached)
  }

  // ---- Byte accounting ---------------------------------------------------

  lemma CompletedRemove(cached: map<Key, Stored>, k: Key)
    requires k in cached
    ensures Completed(cached) == Size(cached[k]) + Completed(cached - {k})
  {
    SumRemove(Sizes(cached), k);
    assert Sizes(cached) - {k} == Sizes(cached - {k});
  }

  lemma CompletedUpdate(cached: map<Key, Stored>, k: Key, e: Stored)
    ensures Completed(cached[k := e])
         == Completed(cached) + Size(e) - (if k in cached then Size(cached[k]) else 0)
  {
    SumUpdate(Sizes(cached), k, Size(e));
    assert Sizes(cached)[k := Size(e)] == Sizes(cached[k := e]);
  }

  lemma {:induction false} CompletedShrinks(cached: map<Key, Stored>, gone: set<Key>)
    ensures Completed(cached - gone) <= Completed(cached)
    decreases |gone|
  {
    if gone == {} {
      assert cached - gone == cached;
    } else {
      var k :| k in gone;
      CompletedShrinks(cached, gone - {k});
      var rest := cached - (gone - {k});
      assert cached - gone == rest - {k};
      if k in rest {
        CompletedRemove(rest, k);
      } else {
        assert rest - {k} == rest;
      }
    }
  }

  // ---- Queue filters -----------------------------------------------------

  ghost function Elements(q: seq<Key>): set<Key> {
    set k | k in q
  }

  /** The keys of `q` inside `s`, in queue order. */
  function Keep(q: seq<Key>, s: set<Key>): seq<Key> {
    if q == [] then [] else
      Keep(q[..|q| - 1], s) + (if q[|q| - 1] in s then [q[|q| - 1]] else [])
  }

  /** The keys of `q` outside `s`, in queue order. */
  function Without(q: seq<Key>, s: set<Key>): seq<Key> {
    if q == [] then [] else
      Without(q[..|q| - 1], s) + (if q[|q| - 1] in s then [] else [q[|q| - 1]])
  }

  lemma {:induction false} FilterPush(q: seq<Key>, k: Key, s: set<Key>)
    ensures Keep(q + [k], s) == Keep(q, s) + (if k in s then [k] else [])
    ensures Without(q + [k], s) == Without(q, s) + (if k in s then [] else [k])
  {
    assert (q + [k])[..|q|] == q;
  }

  lemma {:induction false} KeepConcat(a: seq<Key>, b: seq<Key>, s: set<Key>)
    ensures Keep(a + b, s) == Keep(a, s) + Keep(b, s)
    decreases |b|
  {
    if b == [] {
      assert a + b == a;
    } else {
      var n := |b| - 1;
      KeepConcat(a, b[..n], s);
      assert (a + b)[..|a + b| - 1] == a + b[..n];
    }
  }

  lemma {:induction false} WithoutConcat(a: seq<Key>, b: seq<Key>, s: set<Key>)
    ensures Without(a + b, s) == Without(a, s) + Without(b, s)
    decreases |b|
  {
    if b == [] {
      assert a + b == a;
    } else {
      var n := |b| - 1;
      WithoutConcat(a, b[..n], s);
      assert (a + b)[..|a + b| - 1] == a + b[..n];
    }
  }

  lemma FilterConcat(a: seq<Key>, b: seq<Key>, s: set<Key>)
    ensures Keep(a + b, s) == Keep(a, s) + Keep(b, s)
    ensures Without(a + b, s) == Without(a, s) + Without(b, s)
  {
    KeepConcat(a, b, s);
    WithoutConcat(a, b, s);
  }

  lemma FilterCounts(q: seq<Key>, s: set<Key>, k: Key)
    ensures multiset(Keep(q, s))[k] == if k in s then multiset(q)[k] else 0
    ensures multiset(Without(q, s))[k] == if k in s then 0 else multiset(q)[k]
  {
    KeepCounts(q, s, k);
    WithoutCounts(q, s, k);
  }

  lemma {:induction false} KeepCounts(q: seq<Key>, s: set<Key>, k: Key)
    ensures multiset(Keep(q, s))[k] == if k in s then multiset(q)[k] else 0
    decreases |q|
  {
    if q != [] {
      var n := |q| - 1;
      KeepCounts(q[..n], s, k);
      assert q == q[..n] + [q[n]];
    }
  }

  lemma {:induction false} WithoutCounts(q: seq<Key>, s: set<Key>, k: Key)
    ensures multiset(Without(q, s))[k] == if k in s then 0 else multiset(q)[k]
    decreases |q|
  {
    if q != [] {
      var n := |q| - 1;
      WithoutCounts(q[..n], s, k);
      assert q == q[..n] + [q[n]];
    }
  }

  lemma {:induction false} FilterLengths(q: seq<Key>, s: set<Key>)
    ensures |Keep(q, s)| + |Without(q, s)| == |q|
    decreases |q|
  {
    if q != [] {
      FilterLengths(q[..|q| - 1], s);
    }
  }

  /** An element that occurs once is not among the elements before it. */
  lemma OccursOnce(q: seq<Key>, i: nat)
    requires i < |q| && multiset(q)[q[i]] <= 1
    ensures q[i] !in q[..i]
  {
    assert q == q[..i] + [q[i]] + q[i + 1..];
    assert multiset(q)[q[i]] == multiset(q[..i])[q[i]] + 1 + multiset(q[i + 1..])[q[i]];
  }
}
