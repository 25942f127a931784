/** From a request to its cache key, and what the key's variant list reveals about its headers. */
module KeyBuilders {
  import opened Machine
  import opened Options
  import opened Texts
  import opened Sorting
  import opened Queries
  import opened CacheKeys

  /** A header field; the header map holds names in lower case. */
  datatype Header = Header(name: string, value: Bytes)

  datatype Request = Request(
    verb: string, host: string, path: string, query: Option<string>, headers: seq<Header>)

  function GetAll(headers: seq<Header>, name: string): seq<Bytes> {
    if headers == [] then []
    else (if headers[0].name == name then [headers[0].value] else []) + GetAll(headers[1..], name)
  }

  // ---- Header values as text ---------------------------------------------

  function Hex(d: nat): char
    requires d < 16
  {
    if d < 10 then '0' + d as char else 'a' + (d - 10) as char
  }

  /** One byte of an escaped header value: always printable ASCII. */
  function EscapeByte(b: Byte): (r: string)
    ensures r != [] && forall c :: c in r ==> ' ' <= c <= '~'
  {
    if b == 9 then "\\t"
    else if b == 13 then "\\r"
    else if b == 10 then "\\n"
    else if b == 39 then "\\'"
    else if b == 34 then "\\\""
    else if b == 92 then "\\\\"
    else if 32 <= b <= 126 then [b as int as char]
    else ['\\', 'x', Hex(b as int / 16), Hex(b as int % 16)]
  }

  function Escape(v: Bytes): (r: string)
    ensures forall c :: c in r ==> ' ' <= c <= '~'
  {
    if v == [] then "" else EscapeByte(v[0]) + Escape(v[1..])
  }

  /** No escape is the start of another, so the first byte can be read off. */
  lemma EscapePrefix(a: Byte, x: string, b: Byte, y: string)
    requires EscapeByte(a) + x == EscapeByte(b) + y
    ensures a == b && x == y
  {
    var s := EscapeByte(a) + x;
    assert s[0] == EscapeByte(a)[0] == EscapeByte(b)[0];
    EscapeTail(a, b, x, y);
    assert EscapeByte(a) + x == EscapeByte(a) + y;
    assert x == (EscapeByte(a) + x)[|EscapeByte(a)|..];
    assert y == (EscapeByte(a) + y)[|EscapeByte(a)|..];
  }

  lemma EscapeTail(a: Byte, b: Byte, x: string, y: string)
    requires EscapeByte(a) + x == EscapeByte(b) + y
    ensures a == b
  {
    var s, t := EscapeByte(a) + x, EscapeByte(b) + y;
    assert s[0] == t[0];
    if |EscapeByte(a)| > 1 && |EscapeByte(b)| > 1 {
      assert s[1] == t[1];
      if |EscapeByte(a)| == 4 && |EscapeByte(b)| == 4 {
        assert s[2] == t[2] && s[3] == t[3];
        HexInjective(a as int / 16, b as int / 16);
        HexInjective(a as int % 16, b as int % 16);
      }
    }
  }

  lemma HexInjective(d: nat, e: nat)
    requires d < 16 && e < 16 && Hex(d) == Hex(e)
    ensures d == e
  {}

  lemma {:induction false} EscapeInjective(a: Bytes, b: Bytes)
    requires Escape(a) == Escape(b)
    ensures a == b
    decreases |a|
  {
    if a != [] && b != [] {
      EscapePrefix(a[0], Escape(a[1..]), b[0], Escape(b[1..]));
      EscapeInjective(a[1..], b[1..]);
      assert a == [a[0]] + a[1..] && b == [b[0]] + b[1..];
    }
  }

  function EscapeAll(vs: seq<Bytes>): (r: seq<string>)
    ensures |r| == |vs| && forall i :: 0 <= i < |vs| ==> r[i] == Escape(vs[i])
  {
    if vs == [] then [] else [Escape(vs[0])] + EscapeAll(vs[1..])
  }

  const GS: char := '\U{1D}'

  /** Every value of a header in one string, or nothing if the header is absent. */
  function HeaderValues(req: Request, name: string): Option<string> {
    var values := GetAll(req.headers, name);
    if values == [] then None else Some(Join(EscapeAll(values), GS))
  }

  /** The joined text determines the raw values, and absence is distinct from every value. */
  lemma HeaderValuesInjective(a: Request, b: Request, name: string)
    ensures HeaderValues(a, name) == HeaderValues(b, name)
       <==> GetAll(a.headers, name) == GetAll(b.headers, name)
  {
    var x, y := GetAll(a.headers, name), GetAll(b.headers, name);
    if x != [] && y != [] && HeaderValues(a, name) == HeaderValues(b, name) {
      SplitEscaped(x);
      SplitEscaped(y);
      assert EscapeAll(x) == EscapeAll(y);
      forall i | 0 <= i < |x| ensures x[i] == y[i] {
        assert EscapeAll(x)[i] == EscapeAll(y)[i];
        EscapeInjective(x[i], y[i]);
      }
    }
  }

  lemma SplitEscaped(vs: seq<Bytes>)
    requires vs != []
    ensures Split(Join(EscapeAll(vs), GS), GS) == EscapeAll(vs)
  {
    SplitJoin(EscapeAll(vs), GS);
  }

  // ---- Building the key --------------------------------------------------

  function NormalizeCoding(coding: string): string {
    Join(NormalizePieces(Split(coding, ';')), ';')
  }

  function NormalizePieces(pieces: seq<string>): seq<string> {
    if pieces == [] then []
    else [Strip(Lower(Trim(pieces[0])), ' ')] + NormalizePieces(pieces[1..])
  }

  function NormalizeCodings(codings: seq<string>): seq<string> {
    if codings == [] then []
    else
      var c := NormalizeCoding(codings[0]);
      (if c == "" then [] else [c]) + NormalizeCodings(codings[1..])
  }

  /** `Accept-Encoding` with case, spaces and empty codings normalised away, order kept. */
  function AcceptEncoding(req: Request): string {
    var joined := Join(EscapeAll(GetAll(req.headers, "accept-encoding")), ',');
    var values := NormalizeCodings(Split(joined, ','));
    if values == [] then "identity" else Join(values, ',')
  }

  const ENCODING: string := "~encoding"

  predicate VariantLeq(a: Variant, b: Variant) {
    if a.name == b.name then Leq(a.value, b.value) else Leq(a.name, b.name)
  }

  /** One entry per key header the request carries. */
  function HeaderVariants(req: Request, names: seq<string>): seq<Variant> {
    if names == [] then []
    else
      var lower := Lower(names[0]);
      (match HeaderValues(req, lower)
       case Some(v) => [Variant(lower, v)]
       case None => [])
      + HeaderVariants(req, names[1..])
  }

  function Variants(req: Request, names: seq<string>): seq<Variant> {
    HeaderVariants(req, names) + [Variant(ENCODING, AcceptEncoding(req))]
  }

  datatype KeyBuilder = KeyBuilder(
    scheme: string, queryPolicy: Option<QueryPolicy>, variantHeaders: seq<string>, deployment: Option<string>)

  function UpperChar(c: char): char {
    if 'a' <= c <= 'z' then 'A' + (c - 'a') else c
  }

  function Upper(s: string): string {
    if s == [] then [] else [UpperChar(s[0])] + Upper(s[1..])
  }

  /** Lower-cased, trimmed, and without the scheme's default port. */
  function NormalizeHost(host: string, scheme: string): string {
    var h := Lower(Trim(host));
    var port := if Lower(scheme) == "http" then ":80" else if Lower(scheme) == "https" then ":443" else "";
    if port != "" && |port| <= |h| && h[|h| - |port|..] == port then h[..|h| - |port|] else h
  }

  function Build(b: KeyBuilder, req: Request): CacheKey {
    CacheKey(
      Lower(b.scheme),
      NormalizeHost(req.host, b.scheme),
      Upper(req.verb),
      req.path,
      CanonicalQuery(if req.query.Some? then req.query.value else "", b.queryPolicy),
      Sort(Variants(req, b.variantHeaders), VariantLeq),
      b.deployment)
  }

  // ---- What equal variant lists say --------------------------------------

  lemma {:induction false} HeaderVariantIn(req: Request, names: seq<string>, v: Variant)
    ensures v in HeaderVariants(req, names)
       <==> Listed(names, v.name) && HeaderValues(req, v.name) == Some(v.value)
    decreases |names|
  {
    if names != [] {
      HeaderVariantIn(req, names[1..], v);
      ListedHead(names, v.name);
    }
  }

  lemma ListedHead(names: seq<string>, header: string)
    requires names != []
    ensures Listed(names, header) <==> Lower(names[0]) == header || Listed(names[1..], header)
  {
    if Listed(names[1..], header) {
      var i :| 0 <= i < |names[1..]| && Lower(names[1..][i]) == header;
      assert Lower(names[i + 1]) == header;
    }
    if Listed(names, header) && Lower(names[0]) != header {
      var i :| 0 <= i < |names| && Lower(names[i]) == header;
      assert Lower(names[1..][i - 1]) == header;
    }
  }

  /** Two requests whose variant entries agree as multisets agree on every key header. */
  lemma VariantsAgree(a: Request, b: Request, names: seq<string>, header: string)
    requires multiset(Variants(a, names)) == multiset(Variants(b, names))
    requires Listed(names, header) && header != ENCODING
    ensures GetAll(a.headers, header) == GetAll(b.headers, header)
  {
    VariantCarries(a, b, names, header);
    VariantCarries(b, a, names, header);
    HeaderValuesInjective(a, b, header);
  }

  lemma VariantCarries(a: Request, b: Request, names: seq<string>, header: string)
    requires multiset(Variants(a, names)) == multiset(Variants(b, names))
    requires Listed(names, header) && header != ENCODING
    ensures HeaderValues(a, header).Some? ==> HeaderValues(b, header) == HeaderValues(a, header)
  {
    if HeaderValues(a, header).Some? {
      var v := Variant(header, HeaderValues(a, header).value);
      HeaderVariantIn(a, names, v);
      assert v in multiset(Variants(a, names));
      assert v in Variants(b, names);
      HeaderVariantIn(b, names, v);
    }
  }
}
