/**
  Who the client is, given the connection's peer and what the forwarding headers
  claim. How one entry's text reads as an address is a parameter.
 */
module Forwarding {
  import opened Options
  import opened Texts
  import opened Folding
  import opened Addresses

  datatype Source = Ignored | XForwarded | Forwarded

  datatype TrustPolicy = TrustPolicy(blocks: seq<Cidr>, clientIp: Source, scheme: Source)

  /** The decoded values of the forwarding headers, in order. */
  datatype Claims = Claims(xForwardedFor: seq<string>, xForwardedProto: Option<string>, forwarded: seq<string>)

  datatype ClientFacts = ClientFacts(clientIp: Option<Address>, scheme: string, peerTrusted: bool)

  type Reader = string -> Option<Address>

  type Judge = Address -> bool

  predicate Trusts(p: TrustPolicy, a: Address) {
    exists c :: c in p.blocks && Contains(c, a)
  }

  function Trusted(p: TrustPolicy): Judge {
    a => Trusts(p, a)
  }

  // ---- The hop walk ------------------------------------------------------

  /** Where the last hop outside the trusted blocks sits. */
  function LastUntrusted(trusts: Judge, chain: seq<Address>): (r: Option<nat>)
    ensures r.Some? ==>
              && r.value < |chain| && !trusts(chain[r.value])
              && forall i :: r.value < i < |chain| ==> trusts(chain[i])
    ensures r.None? ==> forall i :: 0 <= i < |chain| ==> trusts(chain[i])
  {
    if chain == [] then None
    else if !trusts(chain[|chain| - 1]) then Some(|chain| - 1)
    else LastUntrusted(trusts, chain[..|chain| - 1])
  }

  function Observed(trusts: Judge, chain: seq<Address>): Option<Address> {
    match LastUntrusted(trusts, chain)
    case Some(i) => Some(chain[i])
    case None => if chain == [] then None else Some(chain[0])
  }

  /** Right to left, stopping at the first address that is not itself a trusted proxy. */
  method WalkBack(trusts: Judge, chain: seq<Address>) returns (client: Option<Address>)
    ensures client == Observed(trusts, chain)
  {
    for i := |chain| downto 0
      invariant LastUntrusted(trusts, chain) == LastUntrusted(trusts, chain[..i])
    {
      assert chain[..i + 1][..i] == chain[..i];
      if !trusts(chain[i]) {
        return Some(chain[i]);
      }
    }
    return if chain == [] then None else Some(chain[0]);
  }

  predicate HasUntrusted(trusts: Judge, chain: seq<Address>) {
    exists i :: 0 <= i < |chain| && !trusts(chain[i])
  }

  lemma LastUntrustedAppend(trusts: Judge, left: seq<Address>, chain: seq<Address>)
    requires HasUntrusted(trusts, chain)
    ensures LastUntrusted(trusts, chain).Some?
    ensures LastUntrusted(trusts, left + chain) == Some(|left| + LastUntrusted(trusts, chain).value)
  {
    var all, k := left + chain, LastUntrusted(trusts, chain).value;
    assert all[|left| + k] == chain[k];
    forall j | |left| + k < j < |all| ensures trusts(all[j]) {
      assert all[j] == chain[j - |left|];
    }
    LastUntrustedIs(trusts, all, |left| + k);
  }

  lemma LastUntrustedIs(trusts: Judge, chain: seq<Address>, k: nat)
    requires k < |chain| && !trusts(chain[k]) && forall i :: k < i < |chain| ==> trusts(chain[i])
    ensures LastUntrusted(trusts, chain) == Some(k)
  {}

  /** Nothing to the left of the last observed hop can change the client. */
  lemma LeftCannotMatter(trusts: Judge, left: seq<Address>, chain: seq<Address>)
    requires HasUntrusted(trusts, chain)
    ensures Observed(trusts, left + chain) == Observed(trusts, chain)
  {
    LastUntrustedAppend(trusts, left, chain);
  }

  /** And exactly then: a chain of trusted hops alone can always be outvoted from the left. */
  lemma LeftCannotMatterIff(trusts: Judge, chain: seq<Address>)
    ensures (forall left :: Observed(trusts, left + chain) == Observed(trusts, chain)) <==> HasUntrusted(trusts, chain)
  {
    if HasUntrusted(trusts, chain) {
      forall left ensures Observed(trusts, left + chain) == Observed(trusts, chain) {
        LeftCannotMatter(trusts, left, chain);
      }
    } else {
      var a := if chain != [] && chain[0] == V4([0, 0, 0, 0]) then V4([0, 0, 0, 1]) else V4([0, 0, 0, 0]);
      assert [0, 0, 0, 0][3] != [0, 0, 0, 1][3];
      Outvoted(trusts, a, chain);
      assert Observed(trusts, [a] + chain) != Observed(trusts, chain);
    }
  }

  lemma Outvoted(trusts: Judge, a: Address, chain: seq<Address>)
    requires !HasUntrusted(trusts, chain)
    ensures Observed(trusts, [a] + chain) == Some(a)
  {
    var all := [a] + chain;
    assert forall j :: 0 < j < |all| ==> all[j] == chain[j - 1];
  }

  // ---- Header text -------------------------------------------------------

  /** One `;`-separated parameter of a `Forwarded` element. */
  function FindParam(pairs: seq<string>, name: string): Option<string> {
    if pairs == [] then None
    else match SplitOnce(pairs[0], '=')
         case Some((k, v)) =>
           if Lower(Trim(k)) == Lower(name) then Some(TrimQuotes(Trim(v))) else FindParam(pairs[1..], name)
         case None => FindParam(pairs[1..], name)
  }

  function Param(element: string, name: string): Option<string> {
    FindParam(Split(element, ';'), name)
  }

  /** Written `key=value`, with a key that is `name` in letters of either case. */
  predicate Gives(pair: string, name: string) {
    SplitOnce(pair, '=').Some? && Caseless(Trim(SplitOnce(pair, '=').value.0), name)
  }

  /** The first parameter of that name counts, without the space and the quotes around it. */
  lemma {:induction false} FirstParamCounts(pairs: seq<string>, name: string, i: nat)
    requires i <= |pairs| && forall j :: 0 <= j < i ==> !Gives(pairs[j], name)
    requires i < |pairs| ==> Gives(pairs[i], name)
    ensures FindParam(pairs, name)
         == if i == |pairs| then None else Some(TrimQuotes(Trim(SplitOnce(pairs[i], '=').value.1)))
    decreases |pairs|
  {
    if pairs != [] {
      if SplitOnce(pairs[0], '=').Some? {
        LowerIff(Trim(SplitOnce(pairs[0], '=').value.0), name);
      }
      if i > 0 {
        FirstParamCounts(pairs[1..], name, i - 1);
      }
    }
  }

  /** The address one comma-separated entry names, if any. */
  function Entry(source: Source, read: Reader, element: string): Option<Address> {
    match source
    case Ignored => None
    case XForwarded => read(element)
    case Forwarded => match Param(element, "for") case Some(v) => read(v) case None => None
  }

  function EntryReader(source: Source, read: Reader): Reader {
    element => Entry(source, read, element)
  }

  function Entries(entry: Reader, elements: seq<string>): seq<Address> {
    if elements == [] then []
    else (match entry(elements[0]) case Some(a) => [a] case None => []) + Entries(entry, elements[1..])
  }

  /** Every address of every header line, left to right. */
  function Chain(entry: Reader, values: seq<string>): seq<Address> {
    if values == [] then [] else Entries(entry, Split(values[0], ',')) + Chain(entry, values[1..])
  }

  lemma {:induction false} EntriesAppend(entry: Reader, a: seq<string>, b: seq<string>)
    ensures Entries(entry, a + b) == Entries(entry, a) + Entries(entry, b)
    decreases |a|
  {
    if a == [] {
      assert a + b == b;
    } else {
      assert (a + b)[1..] == a[1..] + b;
      EntriesAppend(entry, a[1..], b);
    }
  }

  lemma {:induction false} ChainAppend(entry: Reader, a: seq<string>, b: seq<string>)
    ensures Chain(entry, a + b) == Chain(entry, a) + Chain(entry, b)
    decreases |a|
  {
    if a == [] {
      assert a + b == b;
    } else {
      assert (a + b)[1..] == a[1..] + b;
      ChainAppend(entry, a[1..], b);
    }
  }

  function Values(claims: Claims, source: Source): seq<string> {
    match source
    case Ignored => []
    case XForwarded => claims.xForwardedFor
    case Forwarded => claims.forwarded
  }

  function ForwardedClient(p: TrustPolicy, read: Reader, claims: Claims): Option<Address> {
    if p.clientIp.Ignored? then None else Observed(Trusted(p), Chain(EntryReader(p.clientIp, read), Values(claims, p.clientIp)))
  }

  function NormalizeScheme(raw: string): Option<string> {
    if Lower(raw) == "https" then Some("https") else if Lower(raw) == "http" then Some("http") else None
  }

  function ForwardedScheme(p: TrustPolicy, claims: Claims): Option<string> {
    match p.scheme
    case Ignored => None
    case XForwarded =>
      if claims.xForwardedProto.None? then None
      else NormalizeScheme(Trim(Split(claims.xForwardedProto.value, ',')[0]))
    case Forwarded =>
      if claims.forwarded == [] then None
      else match Param(Split(claims.forwarded[0], ',')[0], "proto")
           case Some(raw) => NormalizeScheme(raw)
           case None => None
  }

  function Resolve(p: TrustPolicy, read: Reader, peer: Option<Address>, claims: Claims, scheme: string): ClientFacts {
    if peer.None? || !Trusts(p, peer.value) then ClientFacts(peer, scheme, false)
    else
      var client := ForwardedClient(p, read, claims);
      var claimed := ForwardedScheme(p, claims);
      ClientFacts(if client.Some? then client else peer, if claimed.Some? then claimed.value else scheme, true)
  }

  lemma TailOfChain(entry: Reader, earlier: seq<string>, text: string, tail: string, later: seq<string>)
    ensures Chain(entry, earlier + [text + [','] + tail] + later)
         == Chain(entry, earlier) + Entries(entry, Split(text, ',')) + Chain(entry, [tail] + later)
  {
    var line := text + [','] + tail;
    assert earlier + [line] + later == earlier + ([line] + later);
    ChainAppend(entry, earlier, [line] + later);
    SplitConcat(text, ',', tail);
    EntriesAppend(entry, Split(text, ','), Split(tail, ','));
    ChainHead(entry, line, later);
    ChainHead(entry, tail, later);
    var head, rest, end := Entries(entry, Split(text, ',')), Entries(entry, Split(tail, ',')), Chain(entry, later);
    Regroup(head, rest, end);
    Regroup(Chain(entry, earlier), head, rest + end);
  }

  lemma ChainHead(entry: Reader, value: string, later: seq<string>)
    ensures Chain(entry, [value] + later) == Entries(entry, Split(value, ',')) + Chain(entry, later)
  {
    assert ([value] + later)[1..] == later;
  }

  /**
    The client is decided by the tail of the header that trusted hops wrote: once
    the tail names an untrusted address, earlier header lines and earlier text on
    the same line have no say, whatever they contain.
   */
  lemma EarlierTextCannotMatter(
      p: TrustPolicy, read: Reader, peer: Option<Address>, scheme: string, claims: Claims,
      earlier: seq<string>, text: string, tail: string, later: seq<string>)
    requires !p.clientIp.Ignored? && peer.Some? && Trusts(p, peer.value)
    requires Values(claims, p.clientIp) == earlier + [text + [','] + tail] + later
    requires HasUntrusted(Trusted(p), Chain(EntryReader(p.clientIp, read), [tail] + later))
    ensures Resolve(p, read, peer, claims, scheme).clientIp
         == Observed(Trusted(p), Chain(EntryReader(p.clientIp, read), [tail] + later))
  {
    var entry := EntryReader(p.clientIp, read);
    var kept := Chain(entry, [tail] + later);
    var left := Chain(entry, earlier) + Entries(entry, Split(text, ','));
    TailOfChain(entry, earlier, text, tail, later);
    LeftCannotMatter(Trusted(p), left, kept);
    LastUntrustedAppend(Trusted(p), left, kept);
  }

  /** From a peer outside every trusted block the headers say nothing: the facts are the connection's own. */
  lemma UntrustedPeerIsTheClient(
      p: TrustPolicy, read: Reader, peer: Option<Address>, claims: Claims, other: Claims, scheme: string)
    requires peer.Some? ==> forall c :: c in p.blocks ==> !Contains(c, peer.value)
    ensures Resolve(p, read, peer, claims, scheme) == Resolve(p, read, peer, other, scheme)
         == ClientFacts(peer, scheme, false)
  {}

  /**
    Behind a trusted peer the client is an address the headers name with only
    trusted hops after it, itself untrusted unless every hop is; without one it is
    the peer. The scheme is the listener's unless the headers say `http` or `https`.
   */
  lemma TrustedPeerSpeaksFor(p: TrustPolicy, read: Reader, peer: Address, claims: Claims, scheme: string, c: Cidr)
    requires c in p.blocks && Contains(c, peer)
    ensures var facts := Resolve(p, read, Some(peer), claims, scheme);
            && facts.peerTrusted && facts.scheme in {scheme, "http", "https"}
            && (p.scheme.Ignored? ==> facts.scheme == scheme)
    ensures var client := Resolve(p, read, Some(peer), claims, scheme).clientIp;
            var chain := Chain(EntryReader(p.clientIp, read), Values(claims, p.clientIp));
            if chain == [] then client == Some(peer)
            else exists k :: 0 <= k < |chain| && client == Some(chain[k]) && Outermost(p, chain, k)
  {
    var chain := Chain(EntryReader(p.clientIp, read), Values(claims, p.clientIp));
    if chain != [] {
      var k := if LastUntrusted(Trusted(p), chain).Some? then LastUntrusted(Trusted(p), chain).value else 0;
      assert Outermost(p, chain, k);
    }
  }

  /** Only trusted hops follow, and this one is not trusted unless it is the first. */
  predicate Outermost(p: TrustPolicy, chain: seq<Address>, k: nat)
    requires k < |chain|
  {
    (forall i :: k < i < |chain| ==> Trusts(p, chain[i])) && (k == 0 || !Trusts(p, chain[k]))
  }
}
