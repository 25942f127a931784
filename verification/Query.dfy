/** Query canonicalisation: when exactly two query strings share a cache key. */
module Queries {
  import opened Options
  import opened Texts
  import opened Sorting

  datatype QueryMode = Include | Exclude
  datatype QueryPolicy = QueryPolicy(mode: QueryMode, keys: seq<string>)

  /** A parameter: a key, and a value if there was an `=`. */
  datatype Pair = Pair(key: string, value: Option<string>)

  predicate Permits(policy: Option<QueryPolicy>, key: string) {
    match policy
    case None => true
    case Some(QueryPolicy(Include, keys)) => key in keys
    case Some(QueryPolicy(Exclude, keys)) => key !in keys
  }

  function ParsePair(piece: string): Pair {
    match SplitOnce(piece, '=')
    case Some((k, v)) => Pair(k, Some(v))
    case None => Pair(piece, None)
  }

  /** The non-empty pieces, parsed, with the keys the policy does not permit left out. */
  function Permitted(pieces: seq<string>, policy: Option<QueryPolicy>): seq<Pair> {
    if pieces == [] then []
    else PermittedPiece(pieces[0], policy) + Permitted(pieces[1..], policy)
  }

  function PermittedPiece(piece: string, policy: Option<QueryPolicy>): seq<Pair> {
    var p := ParsePair(piece);
    if piece != "" && Permits(policy, p.key) then [p] else []
  }

  function PairsOf(raw: string, policy: Option<QueryPolicy>): seq<Pair> {
    if raw == "" then [] else Permitted(Split(raw, '&'), policy)
  }

  /** No key occurs twice. */
  predicate DistinctKeys(pairs: seq<Pair>) {
    forall i, j :: 0 <= i < j < |pairs| ==> pairs[i].key != pairs[j].key
  }

  predicate ValueLeq(a: Option<string>, b: Option<string>) {
    a.None? || (b.Some? && Leq(a.value, b.value))
  }

  /** The order a sort of `(key, Option<value>)` tuples uses. */
  predicate PairLeq(a: Pair, b: Pair) {
    if a.key == b.key then ValueLeq(a.value, b.value) else Leq(a.key, b.key)
  }

  function Canonical(pairs: seq<Pair>): seq<Pair> {
    if DistinctKeys(pairs) then Sort(pairs, PairLeq) else pairs
  }

  function RenderPair(p: Pair): string {
    match p.value
    case Some(v) => p.key + "=" + v
    case None => p.key
  }

  function RenderAll(pairs: seq<Pair>): (r: seq<string>)
    ensures |r| == |pairs|
  {
    if pairs == [] then [] else [RenderPair(pairs[0])] + RenderAll(pairs[1..])
  }

  function CanonicalQuery(raw: string, policy: Option<QueryPolicy>): string {
    Join(RenderAll(Canonical(PairsOf(raw, policy))), '&')
  }

  // ---- Order -------------------------------------------------------------

  lemma PairOrder()
    ensures TotalOrder(PairLeq)
  {
    forall a, b ensures PairLeq(a, b) || PairLeq(b, a)
      ensures PairLeq(a, b) && PairLeq(b, a) ==> a == b
    {
      PairTotal(a, b);
    }
    forall a, b, c | PairLeq(a, b) && PairLeq(b, c) ensures PairLeq(a, c) {
      PairTransitive(a, b, c);
    }
  }

  lemma PairTotal(a: Pair, b: Pair)
    ensures PairLeq(a, b) || PairLeq(b, a)
    ensures PairLeq(a, b) && PairLeq(b, a) ==> a == b
  {
    LeqTotal(a.key, b.key);
    if a.value.Some? && b.value.Some? {
      LeqTotal(a.value.value, b.value.value);
    }
  }

  lemma PairTransitive(a: Pair, b: Pair, c: Pair)
    requires PairLeq(a, b) && PairLeq(b, c)
    ensures PairLeq(a, c)
  {
    if a.key != b.key && b.key != c.key {
      LeqTransitive(a.key, b.key, c.key);
      LeqTotal(a.key, b.key);
    } else if a.key == b.key == c.key && a.value.Some? {
      LeqTransitive(a.value.value, b.value.value, c.value.value);
    }
  }

  // ---- Rendering is invertible -------------------------------------------

  /** What parsing a non-empty piece can produce. */
  predicate Parsed(p: Pair) {
    && '=' !in p.key && '&' !in p.key
    && (p.value.None? ==> p.key != "")
    && (p.value.Some? ==> '&' !in p.value.value)
  }

  lemma RenderPairInverse(p: Pair)
    requires Parsed(p)
    ensures ParsePair(RenderPair(p)) == p
    ensures RenderPair(p) != "" && '&' !in RenderPair(p)
  {
    if p.value.Some? {
      SplitOnceAt(p.key, '=', p.value.value);
    }
  }

  lemma ParsePairParsed(piece: string)
    requires piece != "" && '&' !in piece
    ensures Parsed(ParsePair(piece))
  {}

  lemma {:induction false} PermittedParsed(pieces: seq<string>, policy: Option<QueryPolicy>)
    requires forall p :: p in pieces ==> '&' !in p
    ensures forall p :: p in Permitted(pieces, policy) ==> Parsed(p) && Permits(policy, p.key)
    decreases |pieces|
  {
    if pieces != [] {
      PermittedParsed(pieces[1..], policy);
      if pieces[0] != "" {
        ParsePairParsed(pieces[0]);
      }
    }
  }

  lemma PairsOfParsed(raw: string, policy: Option<QueryPolicy>)
    ensures forall p :: p in PairsOf(raw, policy) ==> Parsed(p) && Permits(policy, p.key)
  {
    SplitPieces(raw, '&');
    PermittedParsed(Split(raw, '&'), policy);
  }

  lemma {:induction false} PermittedRendered(pairs: seq<Pair>, policy: Option<QueryPolicy>)
    requires forall p :: p in pairs ==> Parsed(p) && Permits(policy, p.key)
    ensures Permitted(RenderAll(pairs), policy) == pairs
    decreases |pairs|
  {
    if pairs != [] {
      assert pairs[0] in pairs;
      PermittedRendered(pairs[1..], policy);
      PieceRendered(pairs[0], policy);
      assert RenderAll(pairs)[1..] == RenderAll(pairs[1..]);
      assert [pairs[0]] + pairs[1..] == pairs;
    }
  }

  lemma PieceRendered(p: Pair, policy: Option<QueryPolicy>)
    requires Parsed(p) && Permits(policy, p.key)
    ensures PermittedPiece(RenderPair(p), policy) == [p]
  {
    RenderPairInverse(p);
  }

  lemma {:induction false} RenderedPieces(pairs: seq<Pair>)
    requires forall p :: p in pairs ==> Parsed(p)
    ensures forall s :: s in RenderAll(pairs) ==> s != "" && '&' !in s
    decreases |pairs|
  {
    if pairs != [] {
      assert pairs[0] in pairs;
      RenderPairInverse(pairs[0]);
      RenderedPieces(pairs[1..]);
    }
  }

  /** Reading a rendered list back gives the list. */
  lemma RenderInverse(pairs: seq<Pair>, policy: Option<QueryPolicy>)
    requires forall p :: p in pairs ==> Parsed(p) && Permits(policy, p.key)
    ensures PairsOf(Join(RenderAll(pairs), '&'), policy) == pairs
  {
    PermittedRendered(pairs, policy);
    RenderedPieces(pairs);
    if pairs != [] {
      var parts := RenderAll(pairs);
      SplitJoin(parts, '&');
      assert parts[0] in parts;
      assert Split("", '&') == [""];
    }
  }

  // ---- Main results ------------------------------------------------------

  lemma CanonicalKeeps(pairs: seq<Pair>)
    ensures multiset(Canonical(pairs)) == multiset(pairs)
    ensures forall p :: p in Canonical(pairs) <==> p in pairs
    ensures DistinctKeys(Canonical(pairs)) <==> DistinctKeys(pairs)
  {
    if DistinctKeys(pairs) {
      SortPermutes(pairs, PairLeq);
      DistinctByContents(pairs, Canonical(pairs));
    }
    forall p ensures p in Canonical(pairs) <==> p in pairs {
      assert p in multiset(Canonical(pairs)) <==> p in multiset(pairs);
    }
  }

  lemma DistinctByContents(a: seq<Pair>, b: seq<Pair>)
    requires DistinctKeys(a) && multiset(a) == multiset(b)
    ensures DistinctKeys(b)
  {
    forall i, j | 0 <= i < j < |b| ensures b[i].key != b[j].key {
      if b[i].key == b[j].key {
        assert b[i] in multiset(a) && b[j] in multiset(a);
        assert b[i] == b[j];
        TwiceIn(b, i, j);
        OnceIn(a, b[i]);
      }
    }
  }

  lemma TwiceIn(b: seq<Pair>, i: nat, j: nat)
    requires i < j < |b| && b[i] == b[j]
    ensures multiset(b)[b[i]] >= 2
  {
    assert b == b[..i] + [b[i]] + b[i + 1..j] + [b[j]] + b[j + 1..];
  }

  lemma {:induction false} OnceIn(a: seq<Pair>, p: Pair)
    requires DistinctKeys(a)
    ensures multiset(a)[p] <= 1
    decreases |a|
  {
    if a != [] {
      OnceIn(a[1..], p);
      assert a == [a[0]] + a[1..];
      if a[0] == p {
        assert p !in a[1..];
      }
    }
  }

  /** The same list of pairs, or the same pairs in another order with no key repeated. */
  ghost predicate SamePairs(p: seq<Pair>, q: seq<Pair>) {
    p == q || (multiset(p) == multiset(q) && DistinctKeys(p))
  }

  lemma SameCanonical(p: seq<Pair>, q: seq<Pair>)
    ensures Canonical(p) == Canonical(q) <==> SamePairs(p, q)
  {
    CanonicalKeeps(p);
    CanonicalKeeps(q);
    PairOrder();
    SortCanonical(p, q, PairLeq);
    if multiset(p) == multiset(q) && DistinctKeys(p) {
      DistinctByContents(p, q);
    }
  }

  /**
    Two query strings, each under its own policy, share a canonical form exactly
    when their permitted pairs are the same list, or the same pairs in another
    order with no key repeated.
   */
  lemma SameCanonicalQueries(a: string, p: Option<QueryPolicy>, b: string, q: Option<QueryPolicy>)
    ensures CanonicalQuery(a, p) == CanonicalQuery(b, q) <==> SamePairs(PairsOf(a, p), PairsOf(b, q))
  {
    ReadPlain(a, p);
    ReadPlain(b, q);
    SameCanonical(PairsOf(a, p), PairsOf(b, q));
  }

  /** The same under one shared policy. */
  lemma SameCanonicalQuery(a: string, b: string, policy: Option<QueryPolicy>)
    ensures CanonicalQuery(a, policy) == CanonicalQuery(b, policy)
       <==> || PairsOf(a, policy) == PairsOf(b, policy)
            || (multiset(PairsOf(a, policy)) == multiset(PairsOf(b, policy)) && DistinctKeys(PairsOf(a, policy)))
  {
    SameCanonicalQueries(a, policy, b, policy);
  }

  /** A canonical query read back without any policy is the canonical pair list. */
  lemma ReadPlain(raw: string, policy: Option<QueryPolicy>)
    ensures PairsOf(CanonicalQuery(raw, policy), None) == Canonical(PairsOf(raw, policy))
  {
    PairsOfParsed(raw, policy);
    CanonicalKeeps(PairsOf(raw, policy));
    RenderInverse(Canonical(PairsOf(raw, policy)), None);
  }

  /** A canonical query read back under the same policy is the canonical pair list. */
  lemma ReadBack(raw: string, policy: Option<QueryPolicy>)
    ensures PairsOf(CanonicalQuery(raw, policy), policy) == Canonical(PairsOf(raw, policy))
  {
    PairsOfParsed(raw, policy);
    CanonicalKeeps(PairsOf(raw, policy));
    RenderInverse(Canonical(PairsOf(raw, policy)), policy);
  }

  lemma CanonicalQueryIdempotent(raw: string, policy: Option<QueryPolicy>)
    ensures CanonicalQuery(CanonicalQuery(raw, policy), policy) == CanonicalQuery(raw, policy)
  {
    ReadBack(raw, policy);
    CanonicalKeeps(PairsOf(raw, policy));
    SameCanonicalQuery(CanonicalQuery(raw, policy), raw, policy);
  }

  lemma {:induction false} PermittedIsFilter(pieces: seq<string>, policy: Option<QueryPolicy>, p: Pair)
    ensures p in Permitted(pieces, policy) <==> p in Permitted(pieces, None) && Permits(policy, p.key)
    decreases |pieces|
  {
    if pieces != [] {
      PermittedIsFilter(pieces[1..], policy, p);
    }
  }

  /** The canonical query holds exactly the raw query's pairs whose key is listed, or not listed, as the mode says. */
  lemma KeepsPermittedKeys(raw: string, policy: Option<QueryPolicy>, p: Pair)
    ensures p in PairsOf(CanonicalQuery(raw, policy), None)
       <==> p in PairsOf(raw, None)
            && (policy.Some? ==> (p.key in policy.value.keys <==> policy.value.mode.Include?))
  {
    ReadPlain(raw, policy);
    CanonicalKeeps(PairsOf(raw, policy));
    PermittedIsFilter(Split(raw, '&'), policy, p);
  }

  /** Without a policy the pairs are those whose text, `key=value` or a bare key, is a non-empty piece. */
  lemma {:induction false} PairsAreThePieces(raw: string, p: Pair)
    ensures p in PairsOf(raw, None) <==> RenderPair(p) in Split(raw, '&') && Parsed(p)
  {
    SplitPieces(raw, '&');
    PiecesArePairs(Split(raw, '&'), p);
    if raw == "" && Parsed(p) {
      RenderPairInverse(p);
      assert Split("", '&') == [""];
    }
  }

  lemma {:induction false} PiecesArePairs(pieces: seq<string>, p: Pair)
    requires forall s :: s in pieces ==> '&' !in s
    ensures p in Permitted(pieces, None) <==> RenderPair(p) in pieces && Parsed(p)
    decreases |pieces|
  {
    if pieces != [] {
      assert pieces[0] in pieces;
      PiecesArePairs(pieces[1..], p);
      PieceIsPair(pieces[0], p);
    }
  }

  lemma PieceIsPair(piece: string, p: Pair)
    requires '&' !in piece
    ensures (piece != "" && ParsePair(piece) == p) <==> (RenderPair(p) == piece && Parsed(p))
  {
    if piece != "" {
      ParsePairParsed(piece);
    }
    if Parsed(p) {
      RenderPairInverse(p);
    }
  }

  // ---- The source's own loops --------------------------------------------

  /** Filter, sort only if every key is new to the set of keys seen, and render. */
  method Canonicalize(raw: string, policy: Option<QueryPolicy>) returns (out: string)
    ensures out == CanonicalQuery(raw, policy)
  {
    if raw == "" {
      return "";
    }
    var pairs := FilterPieces(Split(raw, '&'), policy);
    var distinct := AllNew(pairs);
    if distinct {
      pairs := Sort(pairs, PairLeq);
    }
    out := Join(RenderAll(pairs), '&');
  }

  method FilterPieces(pieces: seq<string>, policy: Option<QueryPolicy>) returns (pairs: seq<Pair>)
    ensures pairs == Permitted(pieces, policy)
  {
    pairs := [];
    for i := 0 to |pieces|
      invariant pairs == Permitted(pieces[..i], policy)
    {
      PermittedConcat(pieces[..i], pieces[i], policy);
      assert pieces[..i] + [pieces[i]] == pieces[..i + 1];
      if pieces[i] != "" {
        var p := ParsePair(pieces[i]);
        if Permits(policy, p.key) {
          pairs := pairs + [p];
        }
      }
    }
    assert pieces[..|pieces|] == pieces;
  }

  lemma {:induction false} PermittedConcat(pieces: seq<string>, last: string, policy: Option<QueryPolicy>)
    ensures Permitted(pieces + [last], policy) == Permitted(pieces, policy) + PermittedPiece(last, policy)
    decreases |pieces|
  {
    if pieces == [] {
      assert (pieces + [last])[1..] == [];
    } else {
      PermittedConcat(pieces[1..], last, policy);
      assert (pieces + [last])[1..] == pieces[1..] + [last];
      Regroup(PermittedPiece(pieces[0], policy), Permitted(pieces[1..], policy), PermittedPiece(last, policy));
    }
  }

  method AllNew(pairs: seq<Pair>) returns (distinct: bool)
    ensures distinct <==> DistinctKeys(pairs)
  {
    var seen: set<string> := {};
    for i := 0 to |pairs|
      invariant forall k :: k in seen <==> exists j :: 0 <= j < i && pairs[j].key == k
      invariant DistinctKeys(pairs[..i])
    {
      if pairs[i].key in seen {
        return false;
      }
      seen := seen + {pairs[i].key};
    }
    assert pairs[..|pairs|] == pairs;
    return true;
  }
}
