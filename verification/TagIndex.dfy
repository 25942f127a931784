/**
  The reverse index from invalidation tag to keys, and why maintaining it one
  entry at a time agrees with recomputing it.
 */
module TagIndexes {
  import opened Shelves

  type Index = map<Tag, set<Key>>

  /** The index recomputed from scratch: only tags somebody carries, each with its carriers. */
  ghost function TagIndex(cached: map<Key, Stored>): Index {
    map t | t in AllTags(cached) :: Carrying(cached, t)
  }

  ghost function AllTags(cached: map<Key, Stored>): set<Tag> {
    set k, t | k in cached && t in cached[k].tags :: t
  }

  ghost function Carrying(cached: map<Key, Stored>, t: Tag): set<Key> {
    set k | k in cached && t in cached[k].tags
  }

  /** `key` taken out of every listed tag, dropping tags left with nobody. */
  ghost function Unindexed(index: Index, key: Key, tags: seq<Tag>): Index {
    map t | t in index && (t in tags ==> index[t] - {key} != {}) ::
      if t in tags then index[t] - {key} else index[t]
  }

  /** `key` added under every listed tag. */
  ghost function Indexed(index: Index, key: Key, tags: seq<Tag>): Index {
    map t | t in index.Keys + (set t | t in tags) ::
      (if t in index then index[t] else {}) + (if t in tags then {key} else {})
  }

  lemma UnindexedIsTagIndex(cached: map<Key, Stored>, key: Key)
    requires key in cached
    ensures Unindexed(TagIndex(cached), key, cached[key].tags) == TagIndex(cached - {key})
  {
    var l, r := Unindexed(TagIndex(cached), key, cached[key].tags), TagIndex(cached - {key});
    forall t ensures Carrying(cached - {key}, t) == Carrying(cached, t) - {key} {}
    forall t ensures t in AllTags(cached) <==> Carrying(cached, t) != {} {
      TagsCarried(cached, t);
    }
    forall t ensures t in AllTags(cached - {key}) <==> Carrying(cached - {key}, t) != {} {
      TagsCarried(cached - {key}, t);
    }
    forall t ensures t in l <==> t in r {
      if t in AllTags(cached) && t !in cached[key].tags {
        assert key !in Carrying(cached, t);
      }
    }
    forall t | t in r ensures l[t] == r[t] {
      assert t !in cached[key].tags ==> key !in Carrying(cached, t);
    }
  }

  lemma TagsCarried(cached: map<Key, Stored>, t: Tag)
    ensures t in AllTags(cached) <==> Carrying(cached, t) != {}
  {
    if t in AllTags(cached) {
      var k :| k in cached && t in cached[k].tags;
      assert k in Carrying(cached, t);
    }
  }

  lemma IndexedIsTagIndex(cached: map<Key, Stored>, key: Key, e: Stored)
    requires key !in cached
    ensures Indexed(TagIndex(cached), key, e.tags) == TagIndex(cached[key := e])
  {
    var l, r := Indexed(TagIndex(cached), key, e.tags), TagIndex(cached[key := e]);
    forall t
      ensures Carrying(cached[key := e], t)
           == Carrying(cached, t) + (if t in e.tags then {key} else {})
    {}
    forall t ensures t in l <==> t in r {
      TagsCarried(cached, t);
      TagsCarried(cached[key := e], t);
    }
    forall t | t in r ensures l[t] == r[t] {
      TagsCarried(cached, t);
    }
  }

  /** Unindexing visits tags one by one; the closed form is what the loop reaches. */
  lemma UnindexedStep(index: Index, key: Key, tags: seq<Tag>, i: nat)
    requires i < |tags|
    ensures Unindexed(index, key, tags[..i + 1])
         == Unindexed(Unindexed(index, key, tags[..i]), key, [tags[i]])
  {
    var one := Unindexed(index, key, tags[..i]);
    forall t ensures t in tags[..i + 1] <==> t in tags[..i] || t in [tags[i]] {
      PushedMember(tags, i, t);
    }
    var l, r := Unindexed(index, key, tags[..i + 1]), Unindexed(one, key, [tags[i]]);
    assert forall keys: set<Key> :: keys - {key} - {key} == keys - {key};
    assert l.Keys == r.Keys;
    forall t | t in r ensures l[t] == r[t] {}
  }

  lemma PushedMember(tags: seq<Tag>, i: nat, t: Tag)
    requires i < |tags|
    ensures t in tags[..i + 1] <==> t in tags[..i] || t in [tags[i]]
  {
    assert tags[..i + 1] == tags[..i] + [tags[i]];
  }

  lemma IndexedStep(index: Index, key: Key, tags: seq<Tag>, i: nat)
    requires i < |tags|
    ensures Indexed(index, key, tags[..i + 1])
         == Indexed(Indexed(index, key, tags[..i]), key, [tags[i]])
  {
    var l, r := Indexed(index, key, tags[..i + 1]), Indexed(Indexed(index, key, tags[..i]), key, [tags[i]]);
    forall t ensures (t in l <==> t in r) && (t in r ==> l[t] == r[t]) {
      IndexedStepAt(index, key, tags, i, t);
    }
  }

  lemma IndexedStepAt(index: Index, key: Key, tags: seq<Tag>, i: nat, t: Tag)
    requires i < |tags|
    ensures var l, r := Indexed(index, key, tags[..i + 1]), Indexed(Indexed(index, key, tags[..i]), key, [tags[i]]);
            (t in l <==> t in r) && (t in r ==> l[t] == r[t])
  {
    PushedMember(tags, i, t);
  }

  lemma IndexedOne(index: Index, key: Key, t: Tag)
    ensures Indexed(index, key, [t]) == index[t := (if t in index then index[t] else {}) + {key}]
  {
    var l, r := Indexed(index, key, [t]), index[t := (if t in index then index[t] else {}) + {key}];
    assert l.Keys == r.Keys;
    forall x | x in r ensures l[x] == r[x] {}
  }

  lemma UnindexedOne(index: Index, key: Key, t: Tag)
    ensures Unindexed(index, key, [t])
         == if t !in index then index
            else if index[t] - {key} == {} then index - {t}
            else index[t := index[t] - {key}]
  {}

  lemma NothingIndexed(index: Index, key: Key)
    ensures Indexed(index, key, []) == index == Unindexed(index, key, [])
  {
    assert Indexed(index, key, []).Keys == index.Keys;
    forall t | t in index ensures Indexed(index, key, [])[t] == index[t] {}
  }
}
