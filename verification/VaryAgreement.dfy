/**
  A shared response is only ever matched by requests that agree with the one it
  answered on everything its `Vary` names: the policy that lets it be shared and
  the key that finds it again are checked against each other.
 */
module VaryAgreement {
  import opened Machine
  import opened Options
  import opened Texts
  import opened Sorting
  import opened CacheKeys
  import opened KeyBuilders
  import opened Policies

  function Count(names: seq<string>, name: string): nat {
    if names == [] then 0 else (if Lower(names[0]) == name then 1 else 0) + Count(names[1..], name)
  }

  lemma {:induction false} ListedIsCounted(names: seq<string>, name: string)
    ensures Listed(names, name) <==> Count(names, name) > 0
    decreases |names|
  {
    if names != [] {
      ListedHead(names, name);
      ListedIsCounted(names[1..], name);
    }
  }

  // ---- How often each entry occurs ---------------------------------------

  function Occurs(req: Request, names: seq<string>, v: Variant): nat {
    if HeaderValues(req, v.name) == Some(v.value) then Count(names, v.name) else 0
  }

  lemma {:induction false} VariantCount(req: Request, names: seq<string>, v: Variant)
    ensures multiset(HeaderVariants(req, names))[v] == Occurs(req, names, v)
    decreases |names|
  {
    if names != [] {
      VariantCount(req, names[1..], v);
    }
  }

  lemma EntryCount(req: Request, names: seq<string>, v: Variant)
    ensures multiset(Variants(req, names))[v]
         == Occurs(req, names, v) + if v == Variant(ENCODING, AcceptEncoding(req)) then 1 else 0
  {
    VariantCount(req, names, v);
  }

  // ---- The reserved entry ------------------------------------------------

  /**
    The content coding travels under a reserved name. A key header of that very
    name can be mistaken for it, unless it is listed twice or `Accept-Encoding`
    is itself a key header.
   */
  predicate Separates(names: seq<string>) {
    Count(names, ENCODING) != 1 || Listed(names, "accept-encoding")
  }

  lemma EncodingsAgree(a: Request, b: Request, names: seq<string>)
    requires multiset(Variants(a, names)) == multiset(Variants(b, names))
    requires Separates(names)
    ensures AcceptEncoding(a) == AcceptEncoding(b)
    ensures Listed(names, ENCODING) ==> GetAll(a.headers, ENCODING) == GetAll(b.headers, ENCODING)
  {
    ListedIsCounted(names, ENCODING);
    HeaderValuesInjective(a, b, ENCODING);
    if Listed(names, "accept-encoding") {
      VariantsAgree(a, b, names, "accept-encoding");
      SameCoding(a, b, names);
      SameCoding(b, a, names);
    } else {
      Repeated(a, b, names);
      Repeated(b, a, names);
      EntryCount(a, names, Variant(ENCODING, AcceptEncoding(a)));
      EntryCount(b, names, Variant(ENCODING, AcceptEncoding(a)));
    }
  }

  lemma SameCoding(a: Request, b: Request, names: seq<string>)
    requires multiset(Variants(a, names)) == multiset(Variants(b, names))
    requires AcceptEncoding(a) == AcceptEncoding(b)
    ensures Count(names, ENCODING) > 0 && HeaderValues(a, ENCODING).Some? ==>
              HeaderValues(b, ENCODING) == HeaderValues(a, ENCODING)
  {
    if HeaderValues(a, ENCODING).Some? {
      var v := Variant(ENCODING, HeaderValues(a, ENCODING).value);
      EntryCount(a, names, v);
      EntryCount(b, names, v);
    }
  }

  lemma Repeated(a: Request, b: Request, names: seq<string>)
    requires multiset(Variants(a, names)) == multiset(Variants(b, names))
    requires Count(names, ENCODING) != 1
    ensures Count(names, ENCODING) > 0 && HeaderValues(a, ENCODING).Some? ==>
              HeaderValues(b, ENCODING) == HeaderValues(a, ENCODING)
  {
    if HeaderValues(a, ENCODING).Some? {
      var v := Variant(ENCODING, HeaderValues(a, ENCODING).value);
      EntryCount(a, names, v);
      EntryCount(b, names, v);
    }
  }

  // ---- The theorem -------------------------------------------------------

  lemma EqualKeys(p: KeyBuilder, a: Request, q: KeyBuilder, b: Request)
    requires Render(Build(p, a)) == Render(Build(q, b))
    ensures multiset(Variants(a, p.variantHeaders)) == multiset(Variants(b, q.variantHeaders))
  {
    RenderInjective(Build(p, a), Build(q, b));
    SortPermutes(Variants(a, p.variantHeaders), VariantLeq);
    SortPermutes(Variants(b, q.variantHeaders), VariantLeq);
  }

  /** Agreement on one name a `Vary` may hold. */
  predicate Agree(a: Request, b: Request, token: string) {
    if token == "accept-encoding" then AcceptEncoding(a) == AcceptEncoding(b)
    else GetAll(a.headers, token) == GetAll(b.headers, token)
  }

  /**
    If a response may be shared at all, every request whose key has the same
    canonical text sends the same raw values, or none, for each header its `Vary`
    names, and the same normalised content codings.
   */
  lemma SharedResponsesAgree(
      res: Response, route: Option<RouteCache>, coalesceOnly: bool, coalesceOverride: bool,
      p: KeyBuilder, a: Request, q: KeyBuilder, b: Request)
    requires !EvaluateResponse(res, route, p.variantHeaders, coalesceOnly, coalesceOverride).NotShareable?
    requires q.variantHeaders == p.variantHeaders && Separates(p.variantHeaders)
    requires Render(Build(p, a)) == Render(Build(q, b))
    ensures AcceptEncoding(a) == AcceptEncoding(b)
    ensures res.vary.Some? ==>
              forall raw :: raw in Split(res.vary.value, ',') && VaryToken(raw) != "" ==> Agree(a, b, VaryToken(raw))
  {
    var names := p.variantHeaders;
    EqualKeys(p, a, q, b);
    EncodingsAgree(a, b, names);
    if res.vary.Some? {
      SharedOnlyIfHonoured(res, route, names, coalesceOnly, coalesceOverride);
      forall raw | raw in Split(res.vary.value, ',') && VaryToken(raw) != "" ensures Agree(a, b, VaryToken(raw)) {
        HonouredAgrees(a, b, names, VaryToken(raw));
      }
    }
  }

  lemma HonouredAgrees(a: Request, b: Request, names: seq<string>, token: string)
    requires multiset(Variants(a, names)) == multiset(Variants(b, names)) && Separates(names)
    requires Honoured(token, names) && token != ""
    ensures Agree(a, b, token)
  {
    EncodingsAgree(a, b, names);
    if token != "accept-encoding" && token != ENCODING {
      VariantsAgree(a, b, names, token);
    }
  }

  // ---- The condition is exact --------------------------------------------

  /** Keys built from these headers never confuse two different content codings. */
  ghost predicate KeysSeparateCodings(names: seq<string>) {
    forall p: KeyBuilder, a, b ::
      p.variantHeaders == names && Render(Build(p, a)) == Render(Build(p, b))
      ==> AcceptEncoding(a) == AcceptEncoding(b)
  }

  lemma KeysSeparateCodingsIff(names: seq<string>)
    ensures KeysSeparateCodings(names) <==> Separates(names)
  {
    if Separates(names) {
      forall p: KeyBuilder, a, b | p.variantHeaders == names && Render(Build(p, a)) == Render(Build(p, b))
        ensures AcceptEncoding(a) == AcceptEncoding(b)
      {
        EqualKeys(p, a, p, b);
        EncodingsAgree(a, b, names);
      }
    } else {
      var p, a, b := ConfusedPair(names, 'a', 'b');
    }
  }

  lemma ConfusedPair(names: seq<string>, x: char, y: char) returns (p: KeyBuilder, a: Request, b: Request)
    requires 'a' <= x < y <= 'z' && !Separates(names)
    ensures p.variantHeaders == names && Render(Build(p, a)) == Render(Build(p, b))
    ensures AcceptEncoding(a) != AcceptEncoding(b)
  {
    p := KeyBuilder("http", None, names, None);
    a, b := Carrying(x, y), Carrying(y, x);
    Confused(names, x, y);
    SameVariants(p, a, b);
    CodingOf(x, y);
    CodingOf(y, x);
  }

  /** The rest of the key is common to the two, so equal entries make equal keys. */
  lemma SameVariants(p: KeyBuilder, a: Request, b: Request)
    requires a.(headers := []) == b.(headers := [])
    requires multiset(Variants(a, p.variantHeaders)) == multiset(Variants(b, p.variantHeaders))
    ensures Build(p, a) == Build(p, b)
  {
    VariantOrder();
    SortCanonical(Variants(a, p.variantHeaders), Variants(b, p.variantHeaders), VariantLeq);
  }

  function One(c: char): Bytes
    requires 'a' <= c <= 'z'
  {
    [c as int as Byte]
  }

  /** One letter under the reserved name, another as the content coding. */
  function Carrying(named: char, coding: char): Request
    requires 'a' <= named <= 'z' && 'a' <= coding <= 'z'
  {
    Request("GET", "h", "/", None, [Header(ENCODING, One(named)), Header("accept-encoding", One(coding))])
  }

  lemma ValuesOf(named: char, coding: char, name: string)
    requires 'a' <= named <= 'z' && 'a' <= coding <= 'z'
    ensures GetAll(Carrying(named, coding).headers, name)
         == if name == ENCODING then [One(named)] else if name == "accept-encoding" then [One(coding)] else []
  {
    var hs := Carrying(named, coding).headers;
    assert hs[1..] == [Header("accept-encoding", One(coding))];
    assert hs[1..][1..] == [];
    assert GetAll(hs[1..], name) == if name == "accept-encoding" then [One(coding)] else [];
    assert ENCODING != "accept-encoding";
  }

  lemma EscapeOne(c: char)
    requires 'a' <= c <= 'z'
    ensures Escape(One(c)) == [c] && EscapeAll([One(c)]) == [[c]]
  {
    assert One(c)[1..] == [];
    assert Escape(One(c)) == [c];
  }

  lemma CodingOf(named: char, coding: char)
    requires 'a' <= named <= 'z' && 'a' <= coding <= 'z'
    ensures AcceptEncoding(Carrying(named, coding)) == [coding]
  {
    ValuesOf(named, coding, "accept-encoding");
    EscapeOne(coding);
    SplitPlain([coding], ',');
    NormalizeOne(coding);
  }

  lemma NormalizeOne(c: char)
    requires 'a' <= c <= 'z'
    ensures NormalizeCodings([[c]]) == [[c]]
  {
    SplitPlain([c], ';');
    assert [c][1..] == [] && [[c]][1..] == [];
    assert Lower([c]) == [c];
    assert Trim([c]) == [c];
    assert Strip([c], ' ') == [c];
    assert NormalizePieces([[c]]) == [[c]];
    assert NormalizeCoding([c]) == [c];
  }

  lemma NamedValue(named: char, coding: char)
    requires 'a' <= named <= 'z' && 'a' <= coding <= 'z'
    ensures HeaderValues(Carrying(named, coding), ENCODING) == Some([named])
  {
    ValuesOf(named, coding, ENCODING);
    EscapeOne(named);
  }

  lemma ConfusedCount(names: seq<string>, named: char, coding: char, v: Variant)
    requires 'a' <= named <= 'z' && 'a' <= coding <= 'z' && !Separates(names)
    ensures multiset(Variants(Carrying(named, coding), names))[v]
         == (if v == Variant(ENCODING, [named]) then 1 else 0) + (if v == Variant(ENCODING, [coding]) then 1 else 0)
  {
    var req := Carrying(named, coding);
    EntryCount(req, names, v);
    CodingOf(named, coding);
    NamedValue(named, coding);
    ValuesOf(named, coding, v.name);
    ListedIsCounted(names, "accept-encoding");
  }

  lemma Confused(names: seq<string>, x: char, y: char)
    requires 'a' <= x <= 'z' && 'a' <= y <= 'z' && !Separates(names)
    ensures multiset(Variants(Carrying(x, y), names)) == multiset(Variants(Carrying(y, x), names))
  {
    var l, r := multiset(Variants(Carrying(x, y), names)), multiset(Variants(Carrying(y, x), names));
    forall v ensures l[v] == r[v] {
      ConfusedCount(names, x, y, v);
      ConfusedCount(names, y, x, v);
    }
  }

  lemma VariantOrder()
    ensures TotalOrder(VariantLeq)
  {
    forall a, b ensures VariantLeq(a, b) || VariantLeq(b, a) {
      VariantTotal(a, b);
    }
    forall a, b | VariantLeq(a, b) && VariantLeq(b, a) ensures a == b {
      VariantTotal(a, b);
    }
    forall a, b, c | VariantLeq(a, b) && VariantLeq(b, c) ensures VariantLeq(a, c) {
      VariantTransitive(a, b, c);
    }
  }

  lemma VariantTotal(a: Variant, b: Variant)
    ensures VariantLeq(a, b) || VariantLeq(b, a)
    ensures VariantLeq(a, b) && VariantLeq(b, a) ==> a == b
  {
    LeqTotal(a.name, b.name);
    LeqTotal(a.value, b.value);
  }

  lemma VariantTransitive(a: Variant, b: Variant, c: Variant)
    requires VariantLeq(a, b) && VariantLeq(b, c)
    ensures VariantLeq(a, c)
  {
    if a.name == b.name == c.name {
      LeqTransitive(a.value, b.value, c.value);
    } else if a.name != b.name && b.name != c.name {
      LeqTransitive(a.name, b.name, c.name);
      LeqTotal(a.name, b.name);
    }
  }
}
