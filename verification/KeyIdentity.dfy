/**
  Which requests share a cache key, said of the requests themselves: the parts of
  a key compared after normalising are compared here before it.
 */
module KeyIdentity {
  import opened Texts
  import opened Folding
  import opened Sorting
  import opened Queries
  import opened CacheKeys
  import opened KeyBuilders
  import opened VaryAgreement

  // ---- Methods -----------------------------------------------------------

  lemma {:induction false} UpperIff(a: string, b: string)
    ensures Upper(a) == Upper(b) <==> Caseless(a, b)
    decreases |a|
  {
    if a != [] && b != [] {
      assert UpperChar(a[0]) == UpperChar(b[0]) <==> SameLetter(a[0], b[0]);
      UpperIff(a[1..], b[1..]);
      CaselessTail(a, b);
      HeadTail(UpperChar(a[0]), Upper(a[1..]), UpperChar(b[0]), Upper(b[1..]));
    }
  }

  // ---- Hosts -------------------------------------------------------------

  /** The port a scheme need not name; other schemes have none. */
  function DefaultPort(scheme: string): string {
    if Caseless(scheme, "http") then ":80" else if Caseless(scheme, "https") then ":443" else ""
  }

  predicate EndsWith(text: string, tail: string) {
    |tail| <= |text| && text[|text| - |tail|..] == tail
  }

  /** `core` is `host` without the space around it and without the default port at its end. */
  ghost predicate Bare(host: string, port: string, core: string) {
    exists left, text, right ::
      && Blank(left) && Blank(right) && Neat(text) && host == left + text + right
      && (text == core + port || (text == core && !EndsWith(text, port)))
  }

  /** The same host up to case, surrounding space and a default port. */
  ghost predicate SameHost(a: string, portA: string, b: string, portB: string) {
    exists x, y :: Bare(a, portA, x) && Bare(b, portB, y) && Caseless(x, y)
  }

  lemma PortIs(scheme: string)
    ensures DefaultPort(scheme)
         == if Lower(scheme) == "http" then ":80" else if Lower(scheme) == "https" then ":443" else ""
  {
    LowerFixed("http");
    LowerFixed("https");
    LowerIff(scheme, "http");
    LowerIff(scheme, "https");
  }

  /** A tail without letters is the same in either case. */
  predicate NoLetters(s: string) {
    forall i :: 0 <= i < |s| ==> s[i] < 'A'
  }

  lemma LowerSplit(text: string, n: nat)
    requires n <= |text|
    ensures Lower(text)[..n] == Lower(text[..n]) && Lower(text)[n..] == Lower(text[n..])
  {
    assert text == text[..n] + text[n..];
    LowerConcat(text[..n], text[n..]);
  }

  lemma LowerTail(t: string, tail: string)
    requires NoLetters(tail)
    ensures Lower(t) == tail <==> t == tail
  {
    if Lower(t) == tail {
      forall i | 0 <= i < |t| ensures t[i] == tail[i] {
        LowerAt(t, i);
      }
    } else if t == tail {
      LowerFixed(t);
    }
  }

  /** Without the port, if it ends with it. */
  function Drop(text: string, port: string): string {
    if EndsWith(text, port) then text[..|text| - |port|] else text
  }

  lemma LowerDrop(text: string, port: string)
    requires NoLetters(port)
    ensures Drop(Lower(text), port) == Lower(Drop(text, port))
  {
    if |port| <= |text| {
      LowerSplit(text, |text| - |port|);
      LowerTail(text[|text| - |port|..], port);
    }
  }

  lemma HostIs(host: string, scheme: string)
    ensures NormalizeHost(host, scheme) == Lower(Drop(Trim(host), DefaultPort(scheme)))
  {
    PortIs(scheme);
    LowerDrop(Trim(host), DefaultPort(scheme));
  }

  lemma BareIff(host: string, port: string, core: string)
    ensures Bare(host, port, core) <==> core == Drop(Trim(host), port)
  {
    if Bare(host, port, core) {
      var left, text, right :|
        && Blank(left) && Blank(right) && Neat(text) && host == left + text + right
        && (text == core + port || (text == core && !EndsWith(text, port)));
      TrimBlank(left, text, right);
    }
    if core == Drop(Trim(host), port) {
      var left, right := Cut(host);
      assert EndsWith(Trim(host), port) ==> Trim(host) == core + port;
    }
  }

  lemma SameHostIff(a: string, schemeA: string, b: string, schemeB: string)
    ensures NormalizeHost(a, schemeA) == NormalizeHost(b, schemeB)
       <==> SameHost(a, DefaultPort(schemeA), b, DefaultPort(schemeB))
  {
    var portA, portB := DefaultPort(schemeA), DefaultPort(schemeB);
    HostIs(a, schemeA);
    HostIs(b, schemeB);
    var x, y := Drop(Trim(a), portA), Drop(Trim(b), portB);
    BareIff(a, portA, x);
    BareIff(b, portB, y);
    LowerIff(x, y);
    if SameHost(a, portA, b, portB) {
      var u, v :| Bare(a, portA, u) && Bare(b, portB, v) && Caseless(u, v);
      BareIff(a, portA, u);
      BareIff(b, portB, v);
    }
  }

  // ---- The theorem -------------------------------------------------------

  /** A request without a query has the empty one. */
  function RawQuery(req: Request): string {
    if req.query.Some? then req.query.value else ""
  }

  /** The same raw values of every key header, and the same content codings. */
  ghost predicate SameEntries(a: Request, b: Request, names: seq<string>) {
    && AcceptEncoding(a) == AcceptEncoding(b)
    && forall name :: Listed(names, name) ==> GetAll(a.headers, name) == GetAll(b.headers, name)
  }

  /**
    Two requests, each under its own rules, have one cache key exactly when they
    ask for the same thing: equal paths and deployments; schemes and methods equal
    up to case; hosts up to case, surrounding space and default port; the permitted
    query pairs the same list, or the same pairs reordered with no key repeated;
    and the same variant entries, each as often.
   */
  lemma SameKeyIff(p: KeyBuilder, a: Request, q: KeyBuilder, b: Request)
    ensures Render(Build(p, a)) == Render(Build(q, b))
       <==> && Caseless(p.scheme, q.scheme)
            && SameHost(a.host, DefaultPort(p.scheme), b.host, DefaultPort(q.scheme))
            && Caseless(a.verb, b.verb)
            && a.path == b.path
            && SamePairs(PairsOf(RawQuery(a), p.queryPolicy), PairsOf(RawQuery(b), q.queryPolicy))
            && p.deployment == q.deployment
            && multiset(Variants(a, p.variantHeaders)) == multiset(Variants(b, q.variantHeaders))
  {
    RenderInjective(Build(p, a), Build(q, b));
    LowerIff(p.scheme, q.scheme);
    SameHostIff(a.host, p.scheme, b.host, q.scheme);
    UpperIff(a.verb, b.verb);
    SameCanonicalQueries(RawQuery(a), p.queryPolicy, RawQuery(b), q.queryPolicy);
    VariantOrder();
    SortCanonical(Variants(a, p.variantHeaders), Variants(b, q.variantHeaders), VariantLeq);
  }

  /** Under one list of key headers the entries say exactly what those headers hold. */
  lemma SameEntriesIff(a: Request, b: Request, names: seq<string>)
    requires Separates(names)
    ensures multiset(Variants(a, names)) == multiset(Variants(b, names)) <==> SameEntries(a, b, names)
  {
    var l, r := multiset(Variants(a, names)), multiset(Variants(b, names));
    if l == r {
      EncodingsAgree(a, b, names);
      forall name | Listed(names, name) ensures GetAll(a.headers, name) == GetAll(b.headers, name) {
        if name != ENCODING {
          VariantsAgree(a, b, names, name);
        }
      }
    }
    if SameEntries(a, b, names) {
      forall v ensures l[v] == r[v] {
        EntryCount(a, names, v);
        EntryCount(b, names, v);
        ListedIsCounted(names, v.name);
        HeaderValuesInjective(a, b, v.name);
      }
    }
  }
}
