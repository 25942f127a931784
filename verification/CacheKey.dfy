/**
  The structural cache key, its rendering as one string, and the decoder that
  shows no two keys render alike.
 */
module CacheKeys {
  import opened Options
  import opened Texts

  datatype Variant = Variant(name: string, value: string)

  datatype CacheKey = CacheKey(
    scheme: string, host: string, verb: string, path: string, query: string,
    variant: seq<Variant>, deployment: Option<string>)

  // ---- Decimal lengths ---------------------------------------------------

  function Digit(d: nat): char
    requires d < 10
  {
    '0' + d as char
  }

  function Decimal(n: nat): (r: string)
    ensures r != [] && AllDigits(r)
  {
    if n < 10 then [Digit(n)] else Decimal(n / 10) + [Digit(n % 10)]
  }

  lemma {:induction false} ValueDecimal(n: nat)
    ensures Value(Decimal(n)) == n
    decreases n
  {
    if n >= 10 {
      ValueDecimal(n / 10);
      assert Decimal(n)[..|Decimal(n)| - 1] == Decimal(n / 10);
    } else {
      assert [Digit(n)][..0] == [];
    }
  }

  // ---- Frames ------------------------------------------------------------

  const RS: char := '\U{1E}'
  const US: char := '\U{1F}'

  /** One component: its length, a separator, the bytes, a terminator. */
  function Frame(part: string): string {
    Decimal(|part|) + [RS] + part + [US]
  }

  function Frames(parts: seq<string>): string {
    if parts == [] then "" else Frame(parts[0]) + Frames(parts[1..])
  }

  function DigitsLength(s: string): (n: nat)
    ensures n <= |s| && (forall c :: c in s[..n] ==> IsDigit(c)) && (n < |s| ==> !IsDigit(s[n]))
  {
    if s == [] || !IsDigit(s[0]) then 0 else
      var n := DigitsLength(s[1..]);
      assert s[..n + 1] == [s[0]] + s[1..][..n];
      n + 1
  }

  /** The first framed component and what follows it, if `s` starts with one. */
  function Unframe(s: string): (r: Option<(string, string)>)
    ensures r.Some? ==> |r.value.1| < |s|
  {
    var d := DigitsLength(s);
    if d == |s| || s[d] != RS then None else
      var n := Value(s[..d]);
      if d + 1 + n >= |s| || s[d + 1 + n] != US then None
      else Some((s[d + 1..d + 1 + n], s[d + n + 2..]))
  }

  function Unframes(s: string): Option<seq<string>>
    decreases |s|
  {
    if s == "" then Some([]) else
      match Unframe(s)
      case None => None
      case Some((part, rest)) =>
        match Unframes(rest)
        case None => None
        case Some(parts) => Some([part] + parts)
  }

  lemma {:induction false} DigitsLengthAt(d: string, rest: string)
    requires (forall c :: c in d ==> IsDigit(c)) && rest != "" && !IsDigit(rest[0])
    ensures DigitsLength(d + rest) == |d|
    decreases |d|
  {
    if d == [] {
      assert d + rest == rest;
    } else {
      assert (d + rest)[1..] == d[1..] + rest;
      DigitsLengthAt(d[1..], rest);
    }
  }

  lemma UnframeFrame(part: string, rest: string)
    ensures Unframe(Frame(part) + rest) == Some((part, rest))
  {
    var d := Decimal(|part|);
    var s := Frame(part) + rest;
    assert s == d + ([RS] + part + [US] + rest);
    DigitsLengthAt(d, [RS] + part + [US] + rest);
    ValueDecimal(|part|);
    assert s[..|d|] == d;
    assert s[|d| + 1..|d| + 1 + |part|] == part;
    assert s[|d| + |part| + 2..] == rest;
  }

  /** Whatever bytes the components hold, separators included, they come back. */
  lemma {:induction false} UnframesFrames(parts: seq<string>)
    ensures Unframes(Frames(parts)) == Some(parts)
    decreases |parts|
  {
    if parts != [] {
      UnframeFrame(parts[0], Frames(parts[1..]));
      UnframesFrames(parts[1..]);
      UnframesStep(Frames(parts), parts[0], Frames(parts[1..]), parts[1..]);
      assert [parts[0]] + parts[1..] == parts;
    }
  }

  lemma UnframesStep(s: string, part: string, rest: string, parts: seq<string>)
    requires s != "" && Unframe(s) == Some((part, rest)) && Unframes(rest) == Some(parts)
    ensures Unframes(s) == Some([part] + parts)
  {}

  // ---- Keys as component lists -------------------------------------------

  function VariantParts(variant: seq<Variant>): (r: seq<string>)
    ensures |r| == 2 * |variant|
  {
    if variant == [] then []
    else [variant[0].name, variant[0].value] + VariantParts(variant[1..])
  }

  function DeploymentParts(deployment: Option<string>): seq<string> {
    match deployment
    case Some(id) => ["d", id]
    case None => ["-"]
  }

  /** The components of a key in rendering order. */
  function Parts(k: CacheKey): seq<string> {
    [k.scheme, k.host, k.verb, k.path, k.query]
    + DeploymentParts(k.deployment) + [Decimal(|k.variant|)] + VariantParts(k.variant)
  }

  function Render(k: CacheKey): string {
    Frames(Parts(k))
  }

  function ReadVariant(parts: seq<string>): Option<seq<Variant>>
    decreases |parts|
  {
    if parts == [] then Some([])
    else if |parts| == 1 then None
    else match ReadVariant(parts[2..])
         case None => None
         case Some(rest) => Some([Variant(parts[0], parts[1])] + rest)
  }

  /** The key a component list spells, if it spells one. */
  function FromParts(parts: seq<string>): Option<CacheKey> {
    if |parts| < 7 then None
    else if parts[5] == "d" && |parts| >= 8 then
      FromTail(parts, Some(parts[6]), parts[7..])
    else if parts[5] == "-" then FromTail(parts, None, parts[6..])
    else None
  }

  function FromTail(parts: seq<string>, deployment: Option<string>, tail: seq<string>): Option<CacheKey>
    requires |parts| >= 5 && tail != []
  {
    match ReadVariant(tail[1..])
    case None => None
    case Some(variant) =>
      if tail[0] != Decimal(|variant|) then None
      else Some(CacheKey(parts[0], parts[1], parts[2], parts[3], parts[4], variant, deployment))
  }

  function Decode(s: string): Option<CacheKey> {
    match Unframes(s)
    case None => None
    case Some(parts) => FromParts(parts)
  }

  lemma {:induction false} ReadVariantParts(variant: seq<Variant>)
    ensures ReadVariant(VariantParts(variant)) == Some(variant)
    decreases |variant|
  {
    if variant != [] {
      var parts := VariantParts(variant);
      assert parts[2..] == VariantParts(variant[1..]);
      ReadVariantParts(variant[1..]);
      assert [variant[0]] + variant[1..] == variant;
    }
  }

  lemma FromPartsParts(k: CacheKey)
    ensures FromParts(Parts(k)) == Some(k)
  {
    var fixed := [k.scheme, k.host, k.verb, k.path, k.query];
    var tail := [Decimal(|k.variant|)] + VariantParts(k.variant);
    assert Parts(k) == fixed + DeploymentParts(k.deployment) + tail;
    FromTailParts(k, Parts(k), tail);
    PartsLayout(fixed, k.deployment, tail);
  }

  lemma PartsLayout(fixed: seq<string>, deployment: Option<string>, tail: seq<string>)
    requires |fixed| == 5 && tail != []
    ensures var parts := fixed + DeploymentParts(deployment) + tail;
            && |parts| >= 7 && parts[..5] == fixed
            && match deployment
               case Some(id) => |parts| >= 8 && parts[5] == "d" && parts[6] == id && parts[7..] == tail
               case None => parts[5] == "-" && parts[6..] == tail
  {}

  lemma FromTailParts(k: CacheKey, parts: seq<string>, tail: seq<string>)
    requires |parts| >= 5
    requires (parts[0], parts[1], parts[2], parts[3], parts[4]) == (k.scheme, k.host, k.verb, k.path, k.query)
    requires tail == [Decimal(|k.variant|)] + VariantParts(k.variant)
    ensures FromTail(parts, k.deployment, tail) == Some(k)
  {
    ReadVariantParts(k.variant);
    assert tail[1..] == VariantParts(k.variant);
  }

  /** Rendering has a left inverse on every structural key. */
  lemma DecodeRender(k: CacheKey)
    ensures Decode(Render(k)) == Some(k)
  {
    UnframesFrames(Parts(k));
    FromPartsParts(k);
  }

  /** Two keys render to one string only if they are the same key. */
  lemma RenderInjective(a: CacheKey, b: CacheKey)
    ensures Render(a) == Render(b) <==> a == b
  {
    DecodeRender(a);
    DecodeRender(b);
  }

  // ---- The source's own loop ---------------------------------------------

  lemma {:induction false} FramesPush(parts: seq<string>, part: string)
    ensures Frames(parts + [part]) == Frames(parts) + Frame(part)
    decreases |parts|
  {
    if parts == [] {
      assert (parts + [part])[1..] == [];
    } else {
      FramesPush(parts[1..], part);
      assert (parts + [part])[1..] == parts[1..] + [part];
      Regroup(Frame(parts[0]), Frames(parts[1..]), Frame(part));
    }
  }

  lemma {:induction false} VariantPartsPush(variant: seq<Variant>, v: Variant)
    ensures VariantParts(variant + [v]) == VariantParts(variant) + [v.name, v.value]
    decreases |variant|
  {
    if variant == [] {
      assert (variant + [v])[1..] == [];
    } else {
      VariantPartsPush(variant[1..], v);
      assert (variant + [v])[1..] == variant[1..] + [v];
    }
  }

  method PushPart(out: string, part: string, ghost done: seq<string>) returns (next: string)
    requires out == Frames(done)
    ensures next == Frames(done + [part])
  {
    FramesPush(done, part);
    next := out + Decimal(|part|) + [RS] + part + [US];
  }

  /** Append each component to one buffer. */
  method CanonicalString(k: CacheKey) returns (out: string)
    ensures out == Render(k)
  {
    out := "";
    ghost var done: seq<string> := [];
    var fixed := [k.scheme, k.host, k.verb, k.path, k.query] + DeploymentParts(k.deployment)
                 + [Decimal(|k.variant|)];
    for i := 0 to |fixed|
      invariant out == Frames(fixed[..i])
    {
      out := PushPart(out, fixed[i], fixed[..i]);
      assert fixed[..i] + [fixed[i]] == fixed[..i + 1];
    }
    assert fixed[..|fixed|] == fixed;
    assert fixed + VariantParts(k.variant[..0]) == fixed;
    for i := 0 to |k.variant|
      invariant out == Frames(fixed + VariantParts(k.variant[..i]))
    {
      done := fixed + VariantParts(k.variant[..i]);
      out := PushPart(out, k.variant[i].name, done);
      out := PushPart(out, k.variant[i].value, done + [k.variant[i].name]);
      VariantPartsPush(k.variant[..i], k.variant[i]);
      assert k.variant[..i] + [k.variant[i]] == k.variant[..i + 1];
      assert done + [k.variant[i].name] + [k.variant[i].value] == fixed + VariantParts(k.variant[..i + 1]);
    }
    assert k.variant[..|k.variant|] == k.variant;
  }
}
