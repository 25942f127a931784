/** May a response be shared, and for how long? */
module Policies {
  import opened Machine
  import opened Options
  import opened Texts
  import opened Folding

  datatype Bypass = SetCookie | UnsupportedVary(token: string) | Status(code: nat) | NoStore | Private | NoCache

  /** Durations are in milliseconds. */
  datatype Shareability =
    | Shareable(ttl: nat, swr: nat, sie: nat)
    | TransientOnly
    | NotShareable(why: Bypass)

  datatype CacheControl = CacheControl(
    noStore: bool, noCache: bool, isPrivate: bool, isPublic: bool,
    maxAge: Option<nat>, sMaxAge: Option<nat>, swr: Option<nat>, sie: Option<nat>)

  datatype RouteCache = RouteCache(overrideOrigin: bool, ttlMax: Option<nat>, swr: Option<nat>, sie: Option<nat>)

  datatype Response = Response(status: nat, cacheControl: Option<string>, setCookie: bool, vary: Option<string>)

  const CACHEABLE: set<nat> := {200, 203, 204, 301, 308, 404, 410}

  // ---- Cache-Control -----------------------------------------------------

  /** `str::parse::<u64>`: an optional plus sign and digits that fit. */
  function ParseU64(s: string): Option<nat> {
    var digits := if s != [] && s[0] == '+' then s[1..] else s;
    if digits != [] && AllDigits(digits) && Value(digits) <= WORD_MAX then Some(Value(digits)) else None
  }

  datatype Directive = IsNoStore | IsNoCache | IsPrivate | IsPublic | IsMaxAge | IsSMaxAge | IsSwr | IsSie | Unknown

  function DirectiveName(part: string): string {
    var p := Trim(part);
    match SplitOnce(p, '=')
    case Some((n, _)) => Lower(Trim(n))
    case None => Lower(p)
  }

  function DirectiveOf(part: string): Directive {
    Classify(DirectiveName(part))
  }

  function Classify(name: string): Directive {
    if name == "no-store" then IsNoStore
    else if name == "no-cache" then IsNoCache
    else if name == "private" then IsPrivate
    else if name == "public" then IsPublic
    else if name == "max-age" then IsMaxAge
    else if name == "s-maxage" then IsSMaxAge
    else if name == "stale-while-revalidate" then IsSwr
    else if name == "stale-if-error" then IsSie
    else Unknown
  }

  function Seconds(part: string): Option<nat> {
    match SplitOnce(Trim(part), '=')
    case Some((_, v)) => ParseU64(TrimQuotes(Trim(v)))
    case None => None
  }

  const NOTHING_SAID: CacheControl := CacheControl(false, false, false, false, None, None, None, None)

  /** Fill in one field per directive, in order of appearance. */
  method ParseCacheControl(raw: string) returns (cc: CacheControl)
    ensures cc == Said(Split(raw, ','))
  {
    var parts := Split(raw, ',');
    cc := NOTHING_SAID;
    for i := 0 to |parts|
      invariant cc == Said(parts[..i])
    {
      SaidPush(parts, i);
      cc := Applied(cc, DirectiveOf(parts[i]), Seconds(parts[i]));
    }
    assert parts[..|parts|] == parts;
  }

  predicate Mentions(parts: seq<string>, d: Directive) {
    exists i :: 0 <= i < |parts| && DirectiveOf(parts[i]) == d
  }

  /** The seconds of the last directive of this kind. */
  function LastSeconds(parts: seq<string>, d: Directive): Option<nat> {
    if parts == [] then None
    else if DirectiveOf(parts[|parts| - 1]) == d then Seconds(parts[|parts| - 1])
    else LastSeconds(parts[..|parts| - 1], d)
  }

  /** What the directives say: a flag is any mention, a time is the last mention. */
  function Said(parts: seq<string>): CacheControl {
    CacheControl(
      Mentions(parts, IsNoStore), Mentions(parts, IsNoCache),
      Mentions(parts, IsPrivate), Mentions(parts, IsPublic),
      LastSeconds(parts, IsMaxAge), LastSeconds(parts, IsSMaxAge),
      LastSeconds(parts, IsSwr), LastSeconds(parts, IsSie))
  }

  function Applied(cc: CacheControl, d: Directive, secs: Option<nat>): CacheControl {
    match d
    case IsNoStore => cc.(noStore := true)
    case IsNoCache => cc.(noCache := true)
    case IsPrivate => cc.(isPrivate := true)
    case IsPublic => cc.(isPublic := true)
    case IsMaxAge => cc.(maxAge := secs)
    case IsSMaxAge => cc.(sMaxAge := secs)
    case IsSwr => cc.(swr := secs)
    case IsSie => cc.(sie := secs)
    case Unknown => cc
  }

  lemma SaidPush(parts: seq<string>, i: nat)
    requires i < |parts|
    ensures Said(parts[..i + 1]) == Applied(Said(parts[..i]), DirectiveOf(parts[i]), Seconds(parts[i]))
  {
    SaidPushOne(parts, i, IsNoStore);
    SaidPushOne(parts, i, IsNoCache);
    SaidPushOne(parts, i, IsPrivate);
    SaidPushOne(parts, i, IsPublic);
    SaidPushOne(parts, i, IsMaxAge);
    SaidPushOne(parts, i, IsSMaxAge);
    SaidPushOne(parts, i, IsSwr);
    SaidPushOne(parts, i, IsSie);
  }

  lemma SaidPushOne(parts: seq<string>, i: nat, d: Directive)
    requires i < |parts|
    ensures Mentions(parts[..i + 1], d) <==> DirectiveOf(parts[i]) == d || Mentions(parts[..i], d)
    ensures LastSeconds(parts[..i + 1], d)
         == if DirectiveOf(parts[i]) == d then Seconds(parts[i]) else LastSeconds(parts[..i], d)
  {
    assert parts[..i] + [parts[i]] == parts[..i + 1];
    MentionsPush(parts[..i], parts[i], d);
    LastPush(parts[..i], parts[i], d);
  }

  lemma LastPush(parts: seq<string>, last: string, d: Directive)
    ensures LastSeconds(parts + [last], d) == if DirectiveOf(last) == d then Seconds(last) else LastSeconds(parts, d)
  {
    assert (parts + [last])[..|parts|] == parts;
  }

  lemma MentionsPush(parts: seq<string>, last: string, d: Directive)
    ensures Mentions(parts + [last], d) <==> DirectiveOf(last) == d || Mentions(parts, d)
  {
    var all := parts + [last];
    if Mentions(parts, d) {
      var j :| 0 <= j < |parts| && DirectiveOf(parts[j]) == d;
      assert all[j] == parts[j];
    }
    if DirectiveOf(last) == d {
      assert all[|parts|] == last;
    }
  }

  function Control(res: Response): CacheControl {
    match res.cacheControl
    case Some(raw) => Said(Split(raw, ','))
    case None => NOTHING_SAID
  }

  function SharedTtl(cc: CacheControl): Option<nat> {
    match (cc.sMaxAge, cc.maxAge)
    case (Some(s), _) => Some(1000 * s)
    case (None, Some(m)) => Some(1000 * m)
    case (None, None) => None
  }

  // ---- Vary --------------------------------------------------------------

  function VaryToken(raw: string): string {
    Lower(Trim(raw))
  }

  predicate Honoured(token: string, keyHeaders: seq<string>) {
    token == "" || token == "accept-encoding" || (token != "*" && Listed(keyHeaders, token))
  }

  /** The first `Vary` token the key does not honour. */
  function Offending(tokens: seq<string>, keyHeaders: seq<string>): (r: Option<string>)
    ensures r.None? <==> forall i :: 0 <= i < |tokens| ==> Honoured(VaryToken(tokens[i]), keyHeaders)
    ensures r.Some? ==> !Honoured(r.value, keyHeaders)
  {
    if tokens == [] then None
    else if !Honoured(VaryToken(tokens[0]), keyHeaders) then Some(VaryToken(tokens[0]))
    else
      var r := Offending(tokens[1..], keyHeaders);
      assert r.None? ==> forall i :: 0 < i < |tokens| ==> tokens[i] == tokens[1..][i - 1];
      r
  }

  /** Scan the tokens, stopping at the first one the key cannot honour. */
  method UnsupportedVaryToken(vary: string, keyHeaders: seq<string>) returns (r: Option<string>)
    ensures r == Offending(Split(vary, ','), keyHeaders)
  {
    var tokens := Split(vary, ',');
    for i := 0 to |tokens|
      invariant Offending(tokens, keyHeaders) == Offending(tokens[i..], keyHeaders)
    {
      assert tokens[i..][1..] == tokens[i + 1..];
      var token := VaryToken(tokens[i]);
      if token == "" {
        continue;
      }
      if token == "*" {
        return Some("*");
      }
      if token == "accept-encoding" {
        continue;
      }
      if !Listed(keyHeaders, token) {
        return Some(token);
      }
    }
    return None;
  }

  // ---- The decision ------------------------------------------------------

  function OrElse(a: Option<nat>, b: Option<nat>): nat {
    if a.Some? then a.value else if b.Some? then b.value else 0
  }

  function Millis(seconds: Option<nat>): Option<nat> {
    if seconds.Some? then Some(1000 * seconds.value) else None
  }

  function EvaluateResponse(
      res: Response, route: Option<RouteCache>, keyHeaders: seq<string>,
      coalesceOnly: bool, coalesceOverride: bool): Shareability
  {
    if res.setCookie then NotShareable(SetCookie)
    else if res.vary.Some? && Offending(Split(res.vary.value, ','), keyHeaders).Some? then
      NotShareable(UnsupportedVary(Offending(Split(res.vary.value, ','), keyHeaders).value))
    else if res.status !in CACHEABLE then NotShareable(Status(res.status))
    else
      var cc := Control(res);
      var override := route.Some? && route.value.overrideOrigin;
      if !override && !coalesceOverride && cc.noStore then NotShareable(NoStore)
      else if !override && !coalesceOverride && cc.isPrivate then NotShareable(Private)
      else if !override && !coalesceOverride && cc.noCache then NotShareable(NoCache)
      else if coalesceOnly then TransientOnly
      else
        match Ttl(cc, route)
        case None => NotShareable(NoCache)
        case Some(ttl) =>
          if ttl == 0 then TransientOnly
          else Shareable(ttl,
                         OrElse(if route.Some? then route.value.swr else None, Millis(cc.swr)),
                         OrElse(if route.Some? then route.value.sie else None, Millis(cc.sie)))
  }

  /** An override supplies the lifetime; otherwise the route can only shorten the origin's. */
  function Ttl(cc: CacheControl, route: Option<RouteCache>): Option<nat> {
    var routeMax := if route.Some? then route.value.ttlMax else None;
    if route.Some? && route.value.overrideOrigin then routeMax
    else match (SharedTtl(cc), routeMax)
         case (Some(o), Some(m)) => Some(Min(o, m))
         case (Some(o), None) => Some(o)
         case (None, _) => None
  }

  /** The absolute rules: nothing that breaks one is ever stored or handed to followers. */
  lemma SharedOnlyIfHonoured(
      res: Response, route: Option<RouteCache>, keyHeaders: seq<string>,
      coalesceOnly: bool, coalesceOverride: bool)
    requires !EvaluateResponse(res, route, keyHeaders, coalesceOnly, coalesceOverride).NotShareable?
    ensures !res.setCookie && res.status in CACHEABLE
    ensures res.vary.Some? ==>
              forall t :: t in Split(res.vary.value, ',') ==> Honoured(VaryToken(t), keyHeaders)
  {
    if res.vary.Some? {
      var tokens := Split(res.vary.value, ',');
      forall t | t in tokens ensures Honoured(VaryToken(t), keyHeaders) {
        var i :| 0 <= i < |tokens| && tokens[i] == t;
      }
    }
  }

  /** Every stored `no-store` response was stored under the route's own override. */
  ghost predicate NoStoreNeedsOverride(coalesceOnly: bool, coalesceOverride: bool) {
    forall res, route, keyHeaders ::
      Control(res).noStore
      && EvaluateResponse(res, route, keyHeaders, coalesceOnly, coalesceOverride).Shareable?
      ==> route.Some? && route.value.overrideOrigin
  }

  /**
    That holds exactly when coalescing has not also been told to disregard the
    origin, or nothing is stored at all.
   */
  lemma NoStoreNeedsOverrideIff(coalesceOnly: bool, coalesceOverride: bool)
    ensures NoStoreNeedsOverride(coalesceOnly, coalesceOverride) <==> coalesceOnly || !coalesceOverride
  {
    if coalesceOnly || !coalesceOverride {
      forall res, route, keyHeaders
        | Control(res).noStore
          && EvaluateResponse(res, route, keyHeaders, coalesceOnly, coalesceOverride).Shareable?
        ensures route.Some? && route.value.overrideOrigin
      {
        NoStoreStored(res, route, keyHeaders, coalesceOnly, coalesceOverride);
      }
    } else {
      var res := NoStoreYetStored("no-store", "max-age", "1");
      assert EvaluateResponse(res, None, [], coalesceOnly, coalesceOverride).Shareable?;
    }
  }

  lemma NoStoreStored(
      res: Response, route: Option<RouteCache>, keyHeaders: seq<string>,
      coalesceOnly: bool, coalesceOverride: bool)
    requires Control(res).noStore
    requires EvaluateResponse(res, route, keyHeaders, coalesceOnly, coalesceOverride).Shareable?
    ensures !coalesceOnly && (coalesceOverride || (route.Some? && route.value.overrideOrigin))
  {}

  /**
    A response that says both `no-store` and `max-age=1`. The texts are parameters
    because on literals the verifier would unfold every parser to the end.
   */
  lemma NoStoreYetStored(bare: string, name: string, one: string) returns (res: Response)
    requires bare == "no-store" && name == "max-age" && one == "1"
    ensures Control(res).noStore
    ensures EvaluateResponse(res, None, [], false, true).Shareable?
  {
    assert Plain(bare) && Plain(name);
    NameOnly(bare);
    NameAndValue(name, one);
    var timed := name + ['='] + one;
    MaxAgeDirective(timed, name);
    SplitPair(bare, name, one);
    res := SaysBoth(bare, timed);
  }

  lemma SplitPair(bare: string, name: string, one: string)
    requires Plain(bare) && Plain(name) && one == "1"
    ensures Split(bare + [','] + (name + ['='] + one), ',') == [bare] + [name + ['='] + one]
  {
    SplitFirst(bare, ',', name + ['='] + one);
    SplitPlain(name + ['='] + one, ',');
  }

  lemma MaxAgeDirective(part: string, name: string)
    requires name == "max-age" && DirectiveName(part) == name
    ensures DirectiveOf(part) == IsMaxAge
  {
    assert name[0] == 'm';
  }

  lemma SaysBoth(bare: string, timed: string) returns (res: Response)
    requires Split(bare + [','] + timed, ',') == [bare] + [timed]
    requires DirectiveOf(bare) == IsNoStore && DirectiveOf(timed) == IsMaxAge && Seconds(timed) == Some(1)
    ensures Control(res).noStore
    ensures EvaluateResponse(res, None, [], false, true).Shareable?
  {
    SaidPair(bare, timed);
    res := Stating(bare + [','] + timed, Said([bare] + [timed]));
  }

  lemma Stating(raw: string, cc: CacheControl) returns (res: Response)
    requires Said(Split(raw, ',')) == cc && cc.noStore && SharedTtl(cc) == Some(1000)
    ensures Control(res).noStore
    ensures EvaluateResponse(res, None, [], false, true).Shareable?
  {
    res := Response(200, Some(raw), false, None);
    FreshIsStored(res, cc);
  }

  lemma FreshIsStored(res: Response, cc: CacheControl)
    requires res.status == 200 && !res.setCookie && res.vary.None? && Control(res) == cc
    requires SharedTtl(cc) == Some(1000)
    ensures EvaluateResponse(res, None, [], false, true).Shareable?
  {}

  lemma SaidPair(bare: string, timed: string)
    requires DirectiveOf(bare) == IsNoStore && DirectiveOf(timed) == IsMaxAge && Seconds(timed) == Some(1)
    ensures Said([bare] + [timed]).noStore && SharedTtl(Said([bare] + [timed])) == Some(1000)
  {
    var parts := [bare] + [timed];
    assert parts[0] == bare && parts[1] == timed;
    LastBut(parts, IsSMaxAge);
  }

  lemma LastBut(parts: seq<string>, d: Directive)
    requires |parts| == 2 && DirectiveOf(parts[0]) != d && DirectiveOf(parts[1]) != d
    ensures LastSeconds(parts, d) == None
  {
    assert parts[..1][0] == parts[0];
    assert parts[..1][..0] == [];
    assert LastSeconds(parts[..1], d) == None;
  }

  predicate Plain(s: string) {
    s != [] && !Space(s[0]) && !Space(s[|s| - 1]) && forall i :: 0 <= i < |s| ==> s[i] != '=' && s[i] != ',' && !('A' <= s[i] <= 'Z')
  }

  lemma TrimPlain(s: string)
    requires s != [] && !Space(s[0]) && !Space(s[|s| - 1])
    ensures Trim(s) == s
  {}

  lemma NameOnly(name: string)
    requires Plain(name)
    ensures DirectiveName(name) == name
  {
    TrimPlain(name);
    LowerFixed(name);
  }

  lemma NameAndValue(name: string, one: string)
    requires Plain(name) && one == "1"
    ensures DirectiveName(name + ['='] + one) == name
    ensures Seconds(name + ['='] + one) == Some(1)
  {
    LowerFixed(name);
    TrimPlain(name);
    TrimPlain(one);
    TrimPlain(name + ['='] + one);
    SplitOnceAt(name, '=', one);
    assert TrimQuotes(one) == one;
    assert one[..0] == [];
    assert Value(one) == 1;
  }
}
