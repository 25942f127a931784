/**
  What the sharing decision comes to, said of the response's own headers: which
  responses are stored, which are only handed to waiting followers, and for how
  long a stored one is fresh.
 */
module PolicyFacts {
  import opened Machine
  import opened Options
  import opened Texts
  import opened Folding
  import opened Policies

  // ---- Directives by name ------------------------------------------------

  /** The part's text before any `=`, without the space around it, is `name` in letters of either case. */
  ghost predicate Named(part: string, name: string) {
    exists left, text, right, rest ::
      && part == left + text + right + rest && Blank(left) && Blank(right)
      && Caseless(text, name) && '=' !in text && (rest == "" || rest[0] == '=')
  }

  /** A name a directive can have. */
  predicate Proper(name: string) {
    name != "" && forall i :: 0 <= i < |name| ==> name[i] == '-' || 'a' <= name[i] <= 'z'
  }

  lemma CaselessNeat(text: string, name: string)
    requires Caseless(text, name) && Neat(name)
    ensures Neat(text)
  {}

  lemma BareName(left: string, text: string, right: string, name: string)
    requires Blank(left) && Blank(right) && Caseless(text, name) && '=' !in text && Proper(name)
    ensures DirectiveName(left + text + right) == name
  {
    CaselessNeat(text, name);
    TrimBlank(left, text, right);
    LowerIff(text, name);
    LowerFixed(name);
  }

  /** With a value, the text up to the `=` is what trimming leaves of the start. */
  lemma TrimWithValue(left: string, key: string, value: string)
    requires Blank(left) && key != "" && !Space(key[0])
    ensures Trim(left + key + ['='] + value) == key + ['='] + TrimEnd(value)
  {
    var blank := CutEnd(value);
    var whole := key + ['='] + TrimEnd(value);
    assert left + key + ['='] + value == left + whole + blank;
    TrimBlank(left, whole, blank);
  }

  lemma NameWithValue(left: string, text: string, right: string, value: string, name: string)
    requires Blank(left) && Blank(right) && Caseless(text, name) && '=' !in text && Proper(name)
    ensures DirectiveName(left + text + right + ['='] + value) == name
  {
    var key := text + right;
    CaselessNeat(text, name);
    assert left + text + right == left + key;
    TrimWithValue(left, key, value);
    SplitOnceAt(key, '=', TrimEnd(value));
    assert "" + text + right == key;
    TrimBlank("", text, right);
    LowerIff(text, name);
    LowerFixed(name);
  }

  lemma NameIs(part: string, name: string)
    requires Named(part, name) && Proper(name)
    ensures DirectiveName(part) == name
  {
    var left, text, right, rest :|
      && part == left + text + right + rest && Blank(left) && Blank(right)
      && Caseless(text, name) && '=' !in text && (rest == "" || rest[0] == '=');
    if rest == "" {
      assert part == left + text + right;
      BareName(left, text, right, name);
    } else {
      assert part == left + text + right + ['='] + rest[1..];
      NameWithValue(left, text, right, rest[1..], name);
    }
  }

  lemma NamedBare(part: string, name: string, left: string, whole: string, right: string)
    requires part == left + whole + right && Blank(left) && Blank(right)
    requires '=' !in whole && Lower(whole) == name && Proper(name)
    ensures Named(part, name)
  {
    LowerFixed(name);
    LowerIff(whole, name);
    assert part == left + whole + right + "";
  }

  lemma NamedWithValue(part: string, name: string, left: string, n: string, v: string, right: string)
    requires part == left + (n + ['='] + v) + right && Blank(left)
    requires '=' !in n && Lower(Trim(n)) == name && Proper(name)
    ensures Named(part, name)
  {
    var before, after := Cut(n);
    LowerFixed(name);
    LowerIff(Trim(n), name);
    var rest := ['='] + v + right;
    assert part == (left + before) + Trim(n) + after + rest;
  }

  lemma NameOf(part: string, name: string)
    requires DirectiveName(part) == name && Proper(name)
    ensures Named(part, name)
  {
    var left, right := Cut(part);
    match SplitOnce(Trim(part), '=')
    case None => NamedBare(part, name, left, Trim(part), right);
    case Some((n, v)) => NamedWithValue(part, name, left, n, v, right);
  }

  lemma NamedIff(part: string, name: string)
    requires Proper(name)
    ensures DirectiveName(part) == name <==> Named(part, name)
  {
    if Named(part, name) {
      NameIs(part, name);
    }
    if DirectiveName(part) == name {
      NameOf(part, name);
    }
  }

  function NameFor(d: Directive): string {
    match d
    case IsNoStore => "no-store"
    case IsNoCache => "no-cache"
    case IsPrivate => "private"
    case IsPublic => "public"
    case IsMaxAge => "max-age"
    case IsSMaxAge => "s-maxage"
    case IsSwr => "stale-while-revalidate"
    case IsSie => "stale-if-error"
    case Unknown => ""
  }

  lemma ClassifyIs(name: string, d: Directive)
    requires !d.Unknown?
    ensures Classify(name) == d <==> name == NameFor(d)
  {}

  lemma NamesAreProper(d: Directive)
    requires !d.Unknown?
    ensures Proper(NameFor(d))
  {}

  lemma DirectiveIff(part: string, d: Directive)
    requires !d.Unknown?
    ensures DirectiveOf(part) == d <==> Named(part, NameFor(d))
  {
    ClassifyIs(DirectiveName(part), d);
    NamesAreProper(d);
    NamedIff(part, NameFor(d));
  }

  /** The comma-separated parts of `Cache-Control`. */
  function Directives(res: Response): seq<string> {
    match res.cacheControl
    case Some(raw) => Split(raw, ',')
    case None => []
  }

  ghost predicate Says(res: Response, name: string) {
    exists i :: 0 <= i < |Directives(res)| && Named(Directives(res)[i], name)
  }

  /** The last directive of this name gives so many seconds. */
  ghost predicate Times(res: Response, name: string, n: nat) {
    var parts := Directives(res);
    exists i :: 0 <= i < |parts| && LastNamed(parts, i, name) && Seconds(parts[i]) == Some(n)
  }

  ghost predicate LastNamed(parts: seq<string>, i: nat, name: string)
    requires i < |parts|
  {
    Named(parts[i], name) && forall j :: i < j < |parts| ==> !Named(parts[j], name)
  }

  lemma ControlIs(res: Response)
    ensures Control(res) == Said(Directives(res))
  {}

  lemma MentionsIff(res: Response, d: Directive)
    requires !d.Unknown?
    ensures Mentions(Directives(res), d) <==> Says(res, NameFor(d))
  {
    forall i | 0 <= i < |Directives(res)|
      ensures DirectiveOf(Directives(res)[i]) == d <==> Named(Directives(res)[i], NameFor(d))
    {
      DirectiveIff(Directives(res)[i], d);
    }
  }

  /** The reading of the last part that `picks` picks. */
  function LastBy(parts: seq<string>, picks: string -> bool, read: string -> Option<nat>): Option<nat> {
    if parts == [] then None
    else if picks(parts[|parts| - 1]) then read(parts[|parts| - 1])
    else LastBy(parts[..|parts| - 1], picks, read)
  }

  predicate LastOf(parts: seq<string>, i: nat, picks: string -> bool)
    requires i < |parts|
  {
    picks(parts[i]) && forall j :: i < j < |parts| ==> !picks(parts[j])
  }

  lemma {:induction false} LastByFinds(parts: seq<string>, picks: string -> bool, read: string -> Option<nat>)
    requires LastBy(parts, picks, read).Some?
    ensures exists i :: 0 <= i < |parts| && LastOf(parts, i, picks) && read(parts[i]) == LastBy(parts, picks, read)
    decreases |parts|
  {
    var last := |parts| - 1;
    if picks(parts[last]) {
      assert LastOf(parts, last, picks);
    } else {
      LastByFinds(parts[..last], picks, read);
      var i :| 0 <= i < last && LastOf(parts[..last], i, picks) && read(parts[..last][i]) == LastBy(parts, picks, read);
      assert LastOf(parts, i, picks) by {
        forall j | i < j < |parts| ensures !picks(parts[j]) {
          assert j < last ==> parts[j] == parts[..last][j];
        }
      }
    }
  }

  lemma {:induction false} LastByIs(parts: seq<string>, picks: string -> bool, read: string -> Option<nat>, i: nat)
    requires i < |parts| && LastOf(parts, i, picks)
    ensures LastBy(parts, picks, read) == read(parts[i])
    decreases |parts|
  {
    if i < |parts| - 1 {
      LastByIs(parts[..|parts| - 1], picks, read, i);
    }
  }

  lemma {:induction false} LastSecondsBy(parts: seq<string>, d: Directive, picks: string -> bool)
    requires forall p :: picks(p) <==> DirectiveOf(p) == d
    ensures LastSeconds(parts, d) == LastBy(parts, picks, Seconds)
    decreases |parts|
  {
    if parts != [] {
      assert picks(parts[|parts| - 1]) <==> DirectiveOf(parts[|parts| - 1]) == d;
      LastSecondsBy(parts[..|parts| - 1], d, picks);
    }
  }

  lemma TimesBy(res: Response, name: string, picks: string -> bool, n: nat)
    requires forall p :: picks(p) <==> Named(p, name)
    ensures LastBy(Directives(res), picks, Seconds) == Some(n) <==> Times(res, name, n)
  {
    var parts := Directives(res);
    if LastBy(parts, picks, Seconds) == Some(n) {
      LastByFinds(parts, picks, Seconds);
      var i :| 0 <= i < |parts| && LastOf(parts, i, picks) && Seconds(parts[i]) == Some(n);
      assert LastNamed(parts, i, name);
    }
    if Times(res, name, n) {
      var i :| 0 <= i < |parts| && LastNamed(parts, i, name) && Seconds(parts[i]) == Some(n);
      assert LastOf(parts, i, picks);
      LastByIs(parts, picks, Seconds, i);
    }
  }

  lemma Picker(name: string) returns (picks: string -> bool)
    ensures forall p :: picks(p) <==> Named(p, name)
  {
    picks := p => Named(p, name);
  }

  lemma PicksDirective(d: Directive, name: string, picks: string -> bool)
    requires !d.Unknown? && name == NameFor(d) && forall p :: picks(p) <==> Named(p, name)
    ensures forall p :: picks(p) <==> DirectiveOf(p) == d
  {
    forall p ensures picks(p) <==> DirectiveOf(p) == d {
      DirectiveIff(p, d);
    }
  }

  lemma TimesIff(res: Response, d: Directive, n: nat)
    requires !d.Unknown?
    ensures LastSeconds(Directives(res), d) == Some(n) <==> Times(res, NameFor(d), n)
  {
    var name := NameFor(d);
    var picks := Picker(name);
    PicksDirective(d, name, picks);
    LastSecondsBy(Directives(res), d, picks);
    TimesBy(res, name, picks, n);
  }

  // ---- Vary by name ------------------------------------------------------

  /** `name` in letters of either case, with any space around it. */
  ghost predicate Spells(raw: string, name: string) {
    exists left, text, right ::
      raw == left + text + right && Blank(left) && Blank(right) && Neat(text) && Caseless(text, name)
  }

  lemma SpellsIff(raw: string, name: string)
    ensures VaryToken(raw) == Lower(name) <==> Spells(raw, name)
  {
    LowerIff(Trim(raw), name);
    if VaryToken(raw) == Lower(name) {
      var left, right := Cut(raw);
    }
    if Spells(raw, name) {
      var left, text, right :|
        raw == left + text + right && Blank(left) && Blank(right) && Neat(text) && Caseless(text, name);
      TrimBlank(left, text, right);
    }
  }

  /** The key can tell requests apart by what this `Vary` entry names. */
  ghost predicate Served(raw: string, keyHeaders: seq<string>) {
    || Spells(raw, "")
    || Spells(raw, "accept-encoding")
    || (!Spells(raw, "*") && exists i :: 0 <= i < |keyHeaders| && Spells(raw, keyHeaders[i]))
  }

  lemma ServedIff(raw: string, keyHeaders: seq<string>)
    ensures Honoured(VaryToken(raw), keyHeaders) <==> Served(raw, keyHeaders)
  {
    SpellsIff(raw, "");
    SpellsLiteral(raw, "accept-encoding");
    SpellsLiteral(raw, "*");
    forall i | 0 <= i < |keyHeaders| ensures VaryToken(raw) == Lower(keyHeaders[i]) <==> Spells(raw, keyHeaders[i]) {
      SpellsIff(raw, keyHeaders[i]);
    }
  }

  lemma SpellsLiteral(raw: string, name: string)
    requires forall i :: 0 <= i < |name| ==> !('A' <= name[i] <= 'Z')
    ensures VaryToken(raw) == name <==> Spells(raw, name)
  {
    LowerFixed(name);
    SpellsIff(raw, name);
  }

  ghost predicate VaryServed(res: Response, keyHeaders: seq<string>) {
    res.vary.Some? ==> forall raw :: raw in Split(res.vary.value, ',') ==> Served(raw, keyHeaders)
  }

  lemma VaryIff(res: Response, keyHeaders: seq<string>)
    requires res.vary.Some?
    ensures Offending(Split(res.vary.value, ','), keyHeaders).None? <==> VaryServed(res, keyHeaders)
  {
    var tokens := Split(res.vary.value, ',');
    forall i | 0 <= i < |tokens| ensures Honoured(VaryToken(tokens[i]), keyHeaders) <==> Served(tokens[i], keyHeaders) {
      ServedIff(tokens[i], keyHeaders);
    }
    if VaryServed(res, keyHeaders) {
      assert forall i :: 0 <= i < |tokens| ==> tokens[i] in tokens;
    }
  }

  // ---- The decision ------------------------------------------------------

  /** The origin forbids sharing. */
  ghost predicate Forbids(res: Response) {
    Says(res, "no-store") || Says(res, "private") || Says(res, "no-cache")
  }

  predicate Overrides(route: Option<RouteCache>) {
    route.Some? && route.value.overrideOrigin
  }

  /** Nothing stands in the way of handing this response to another client. */
  ghost predicate MayShare(
      res: Response, route: Option<RouteCache>, keyHeaders: seq<string>, coalesceOverride: bool)
  {
    && !res.setCookie
    && VaryServed(res, keyHeaders)
    && res.status in {200, 203, 204, 301, 308, 404, 410}
    && (Overrides(route) || coalesceOverride || !Forbids(res))
  }

  /** The freshness the origin grants a shared cache: `s-maxage` before `max-age`. */
  ghost predicate OriginGrants(res: Response, seconds: nat) {
    || Times(res, "s-maxage", seconds)
    || (Times(res, "max-age", seconds) && forall n: nat :: !Times(res, "s-maxage", n))
  }

  /** The route's lifetime if it overrides; otherwise the origin's, cut to the route's if that is shorter. */
  ghost predicate Lifetime(res: Response, route: Option<RouteCache>, ttl: nat) {
    if Overrides(route) then route.value.ttlMax == Some(ttl)
    else exists n: nat ::
      OriginGrants(res, n)
      && ttl == if route.Some? && route.value.ttlMax.Some? then Min(1000 * n, route.value.ttlMax.value) else 1000 * n
  }

  /** The route's own setting, else what the origin asked for, else none. */
  ghost predicate Grace(setting: Option<nat>, res: Response, name: string, ms: nat) {
    if setting.Some? then ms == setting.value
    else (ms == 0 && forall n: nat :: !Times(res, name, n)) || exists n: nat :: Times(res, name, n) && ms == 1000 * n
  }

  lemma ForbidsIff(res: Response)
    ensures Forbids(res) <==> Control(res).noStore || Control(res).isPrivate || Control(res).noCache
  {
    ControlIs(res);
    MentionsIff(res, IsNoStore);
    MentionsIff(res, IsPrivate);
    MentionsIff(res, IsNoCache);
  }

  lemma GrantsIff(res: Response, n: nat)
    ensures SharedTtl(Control(res)) == Some(1000 * n) <==> OriginGrants(res, n)
  {
    var parts := Directives(res);
    ControlIs(res);
    SharedTtlIs(Said(parts), n);
    TimesIff(res, IsMaxAge, n);
    SMaxAgeIff(res, n);
  }

  lemma SharedTtlIs(cc: CacheControl, n: nat)
    ensures SharedTtl(cc) == Some(1000 * n) <==> cc.sMaxAge == Some(n) || (cc.maxAge == Some(n) && cc.sMaxAge.None?)
  {}

  lemma SMaxAgeIff(res: Response, n: nat)
    ensures LastSeconds(Directives(res), IsSMaxAge) == Some(n) <==> Times(res, "s-maxage", n)
    ensures LastSeconds(Directives(res), IsSMaxAge).None? <==> forall m: nat :: !Times(res, "s-maxage", m)
  {
    var last := LastSeconds(Directives(res), IsSMaxAge);
    forall m: nat ensures last == Some(m) <==> Times(res, "s-maxage", m) {
      TimesIff(res, IsSMaxAge, m);
    }
    assert last.Some? ==> Times(res, "s-maxage", last.value);
  }

  lemma LifetimeIff(res: Response, route: Option<RouteCache>, ttl: nat)
    ensures Ttl(Control(res), route) == Some(ttl) <==> Lifetime(res, route, ttl)
  {
    if !Overrides(route) {
      forall n: nat ensures SharedTtl(Control(res)) == Some(1000 * n) <==> OriginGrants(res, n) {
        GrantsIff(res, n);
      }
      var cc := Control(res);
      if cc.sMaxAge.Some? {
        assert SharedTtl(cc) == Some(1000 * cc.sMaxAge.value);
      } else if cc.maxAge.Some? {
        assert SharedTtl(cc) == Some(1000 * cc.maxAge.value);
      }
    }
  }

  lemma GraceIff(setting: Option<nat>, res: Response, d: Directive, ms: nat)
    requires !d.Unknown?
    ensures OrElse(setting, Millis(LastSeconds(Directives(res), d))) == ms <==> Grace(setting, res, NameFor(d), ms)
  {
    forall n: nat ensures LastSeconds(Directives(res), d) == Some(n) <==> Times(res, NameFor(d), n) {
      TimesIff(res, d, n);
    }
  }

  /** The same, as the decision reads it off the parsed headers. */
  predicate RulesAllow(res: Response, route: Option<RouteCache>, keyHeaders: seq<string>, coalesceOverride: bool) {
    var cc := Control(res);
    && !res.setCookie
    && (res.vary.Some? ==> Offending(Split(res.vary.value, ','), keyHeaders).None?)
    && res.status in CACHEABLE
    && (Overrides(route) || coalesceOverride || !(cc.noStore || cc.isPrivate || cc.noCache))
  }

  lemma MayShareIff(res: Response, route: Option<RouteCache>, keyHeaders: seq<string>, coalesceOverride: bool)
    ensures RulesAllow(res, route, keyHeaders, coalesceOverride) <==> MayShare(res, route, keyHeaders, coalesceOverride)
  {
    ForbidsIff(res);
    if res.vary.Some? {
      VaryIff(res, keyHeaders);
    }
  }

  /**
    A response may reach another client exactly when nothing stands in the way and,
    if it is to be kept, it has a lifetime.
   */
  lemma SharedIff(
      res: Response, route: Option<RouteCache>, keyHeaders: seq<string>,
      coalesceOnly: bool, coalesceOverride: bool)
    ensures !EvaluateResponse(res, route, keyHeaders, coalesceOnly, coalesceOverride).NotShareable?
       <==> && MayShare(res, route, keyHeaders, coalesceOverride)
            && (coalesceOnly || exists ttl: nat :: Lifetime(res, route, ttl))
  {
    MayShareIff(res, route, keyHeaders, coalesceOverride);
    forall ttl: nat ensures Ttl(Control(res), route) == Some(ttl) <==> Lifetime(res, route, ttl) {
      LifetimeIff(res, route, ttl);
    }
    SharedByRules(
      res, route, keyHeaders, coalesceOnly, coalesceOverride, MayShare(res, route, keyHeaders, coalesceOverride));
  }

  lemma SharedByRules(
      res: Response, route: Option<RouteCache>, keyHeaders: seq<string>,
      coalesceOnly: bool, coalesceOverride: bool, may: bool)
    requires may <==> RulesAllow(res, route, keyHeaders, coalesceOverride)
    ensures var r, ttl := EvaluateResponse(res, route, keyHeaders, coalesceOnly, coalesceOverride), Ttl(Control(res), route);
            && (!r.NotShareable? <==> may && (coalesceOnly || ttl.Some?))
            && (r.Shareable? ==> ttl == Some(r.ttl))
            && (r.Shareable? <==> may && !coalesceOnly && ttl.Some? && ttl.value > 0)
  {}

  /**
    A response is stored, with these times, exactly when it may be shared, storing
    is on, the lifetime is not zero, and each time is the one the route and the
    origin settle on.
   */
  lemma StoredIff(
      res: Response, route: Option<RouteCache>, keyHeaders: seq<string>,
      coalesceOnly: bool, coalesceOverride: bool, ttl: nat, swr: nat, sie: nat)
    ensures EvaluateResponse(res, route, keyHeaders, coalesceOnly, coalesceOverride) == Shareable(ttl, swr, sie)
       <==> && MayShare(res, route, keyHeaders, coalesceOverride) && !coalesceOnly
            && ttl > 0 && Lifetime(res, route, ttl)
            && Grace(if route.Some? then route.value.swr else None, res, "stale-while-revalidate", swr)
            && Grace(if route.Some? then route.value.sie else None, res, "stale-if-error", sie)
  {
    MayShareIff(res, route, keyHeaders, coalesceOverride);
    LifetimeIff(res, route, ttl);
    SwrIff(res, route, swr);
    SieIff(res, route, sie);
    StoredByRules(
      res, route, keyHeaders, coalesceOnly, coalesceOverride, ttl, swr, sie,
      MayShare(res, route, keyHeaders, coalesceOverride), Lifetime(res, route, ttl),
      Grace(if route.Some? then route.value.swr else None, res, "stale-while-revalidate", swr),
      Grace(if route.Some? then route.value.sie else None, res, "stale-if-error", sie));
  }

  function SwrRead(res: Response, route: Option<RouteCache>): nat {
    OrElse(if route.Some? then route.value.swr else None, Millis(Control(res).swr))
  }

  function SieRead(res: Response, route: Option<RouteCache>): nat {
    OrElse(if route.Some? then route.value.sie else None, Millis(Control(res).sie))
  }

  lemma SwrIff(res: Response, route: Option<RouteCache>, swr: nat)
    ensures SwrRead(res, route) == swr
       <==> Grace(if route.Some? then route.value.swr else None, res, "stale-while-revalidate", swr)
  {
    ControlIs(res);
    GraceIff(if route.Some? then route.value.swr else None, res, IsSwr, swr);
  }

  lemma SieIff(res: Response, route: Option<RouteCache>, sie: nat)
    ensures SieRead(res, route) == sie
       <==> Grace(if route.Some? then route.value.sie else None, res, "stale-if-error", sie)
  {
    ControlIs(res);
    GraceIff(if route.Some? then route.value.sie else None, res, IsSie, sie);
  }

  lemma StoredByRules(
      res: Response, route: Option<RouteCache>, keyHeaders: seq<string>,
      coalesceOnly: bool, coalesceOverride: bool, ttl: nat, swr: nat, sie: nat,
      may: bool, lives: bool, stale: bool, onError: bool)
    requires may <==> RulesAllow(res, route, keyHeaders, coalesceOverride)
    requires lives <==> Ttl(Control(res), route) == Some(ttl)
    requires (stale <==> SwrRead(res, route) == swr) && (onError <==> SieRead(res, route) == sie)
    ensures EvaluateResponse(res, route, keyHeaders, coalesceOnly, coalesceOverride) == Shareable(ttl, swr, sie)
       <==> may && !coalesceOnly && ttl > 0 && lives && stale && onError
  {
    SharedByRules(res, route, keyHeaders, coalesceOnly, coalesceOverride, may);
  }
}
