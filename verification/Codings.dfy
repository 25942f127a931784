/**
  Which `Accept-Encoding` headers count as the same. The source takes the header
  apart at commas and semicolons and tidies every piece; that comes to folding the
  whole text at once and dropping empty codings.
 */
module Codings {
  import opened Texts
  import opened Folding
  import opened KeyBuilders

  /** Lower case, and no space anywhere. */
  function Fold(s: string): string {
    Lower(Strip(s, ' '))
  }

  function FoldAll(parts: seq<string>): (r: seq<string>)
    ensures |r| == |parts| && forall i :: 0 <= i < |parts| ==> r[i] == Fold(parts[i])
  {
    if parts == [] then [] else [Fold(parts[0])] + FoldAll(parts[1..])
  }

  function NonEmpty(parts: seq<string>): (r: seq<string>)
    ensures forall p :: p in r <==> p in parts && p != ""
  {
    if parts == [] then [] else (if parts[0] == "" then [] else [parts[0]]) + NonEmpty(parts[1..])
  }

  /** The codings a request names, in order; none means no coding at all. */
  function Wanted(req: Request): (r: seq<string>)
    ensures r != []
  {
    var text := Join(EscapeAll(GetAll(req.headers, "accept-encoding")), ',');
    var codings := NonEmpty(Split(Fold(text), ','));
    if codings == [] then ["identity"] else codings
  }

  // ---- Folding and concatenation -----------------------------------------

  lemma {:induction false} StripConcat(s: string, t: string, c: char)
    ensures Strip(s + t, c) == Strip(s, c) + Strip(t, c)
    decreases |s|
  {
    if s == [] {
      assert s + t == t;
    } else {
      assert (s + t)[1..] == s[1..] + t;
      StripConcat(s[1..], t, c);
    }
  }

  lemma FoldConcat(s: string, t: string)
    ensures Fold(s + t) == Fold(s) + Fold(t)
  {
    StripConcat(s, t, ' ');
    LowerConcat(Strip(s, ' '), Strip(t, ' '));
  }

  lemma FoldOne(c: char)
    requires c == ',' || c == ';'
    ensures Fold([c]) == [c]
  {
    assert [c][1..] == [];
    assert Strip([c], ' ') == [c];
    assert Lower([c]) == [c];
  }

  lemma {:induction false} FoldJoin(parts: seq<string>, c: char)
    requires c == ',' || c == ';'
    ensures Fold(Join(parts, c)) == Join(FoldAll(parts), c)
    decreases |parts|
  {
    if |parts| > 1 {
      var rest := Join(parts[1..], c);
      FoldConcat(parts[0] + [c], rest);
      FoldConcat(parts[0], [c]);
      FoldOne(c);
      FoldJoin(parts[1..], c);
      assert FoldAll(parts)[1..] == FoldAll(parts[1..]);
    }
  }

  lemma {:induction false} JoinSplit(s: string, c: char)
    ensures Join(Split(s, c), c) == s
    decreases |s|
  {
    if s != [] {
      JoinSplit(s[1..], c);
      JoinCons(s, c);
    }
  }

  lemma JoinCons(s: string, c: char)
    requires s != [] && Join(Split(s[1..], c), c) == s[1..]
    ensures Join(Split(s, c), c) == s
  {
    var rest, all := Split(s[1..], c), Split(s, c);
    assert s == [s[0]] + s[1..];
    assert all[1..] == if s[0] == c then rest else rest[1..];
  }

  lemma {:induction false} FoldKeepsOut(s: string, c: char)
    requires c !in s && (c == ',' || c == ';')
    ensures c !in Fold(s)
    decreases |s|
  {
    if s != [] {
      FoldKeepsOut(s[1..], c);
      assert s == [s[0]] + s[1..];
      FoldConcat([s[0]], s[1..]);
      FoldSingle(s[0], c);
    }
  }

  lemma FoldSingle(d: char, c: char)
    requires c != d && (c == ',' || c == ';')
    ensures c !in Fold([d])
  {
    assert [d][1..] == [];
    assert Strip([d], ' ') == if d == ' ' then [] else [d];
    assert Lower([d]) == [LowerChar(d)];
  }

  /** Folding each piece is folding the whole. */
  lemma SplitFold(s: string, c: char)
    requires c == ',' || c == ';'
    ensures Split(Fold(s), c) == FoldAll(Split(s, c))
  {
    var parts := Split(s, c);
    JoinSplit(s, c);
    FoldJoin(parts, c);
    SplitPieces(s, c);
    forall p | p in FoldAll(parts) ensures c !in p {
      var i :| 0 <= i < |parts| && FoldAll(parts)[i] == p;
      assert parts[i] in parts;
      FoldKeepsOut(parts[i], c);
    }
    SplitJoin(FoldAll(parts), c);
  }

  // ---- Tidying a piece ---------------------------------------------------

  /** The only space in it is the space character. */
  predicate Tame(s: string) {
    forall c :: c in s ==> Space(c) ==> c == ' '
  }

  lemma {:induction false} StripBlank(s: string)
    requires Blank(s) && Tame(s)
    ensures Strip(s, ' ') == ""
    decreases |s|
  {
    if s != [] {
      assert s[0] in s;
      StripBlank(s[1..]);
    }
  }

  lemma StripTrim(s: string)
    requires Tame(s)
    ensures Strip(Trim(s), ' ') == Strip(s, ' ')
  {
    var left, right := Cut(s);
    assert Tame(left) && Tame(right) by {
      assert forall c :: c in left ==> c in s;
      assert forall c :: c in right ==> c in s;
    }
    StripConcat(left + Trim(s), right, ' ');
    StripConcat(left, Trim(s), ' ');
    StripBlank(left);
    StripBlank(right);
  }

  lemma {:induction false} StripLower(s: string)
    ensures Strip(Lower(s), ' ') == Lower(Strip(s, ' '))
    decreases |s|
  {
    if s != [] {
      StripLower(s[1..]);
      assert Lower(s)[0] == LowerChar(s[0]) && Lower(s)[1..] == Lower(s[1..]);
      LowerConcat([s[0]], Strip(s[1..], ' '));
      assert [s[0]][1..] == [];
      assert Lower([s[0]]) == [LowerChar(s[0])];
      assert [] + Strip(s[1..], ' ') == Strip(s[1..], ' ');
    }
  }

  lemma {:induction false} PiecesAreFolded(pieces: seq<string>)
    requires forall p :: p in pieces ==> Tame(p)
    ensures NormalizePieces(pieces) == FoldAll(pieces)
    decreases |pieces|
  {
    if pieces != [] {
      assert pieces[0] in pieces;
      StripLower(Trim(pieces[0]));
      StripTrim(pieces[0]);
      PiecesAreFolded(pieces[1..]);
    }
  }

  lemma {:induction false} SplitTame(s: string, c: char)
    requires Tame(s)
    ensures forall p :: p in Split(s, c) ==> Tame(p)
    decreases |s|
  {
    if s != [] {
      assert s[0] in s;
      SplitTame(s[1..], c);
      var rest := Split(s[1..], c);
      assert rest[0] in rest;
    }
  }

  lemma CodingIsFolded(coding: string)
    requires Tame(coding)
    ensures NormalizeCoding(coding) == Fold(coding)
  {
    SplitTame(coding, ';');
    PiecesAreFolded(Split(coding, ';'));
    FoldJoin(Split(coding, ';'), ';');
    JoinSplit(coding, ';');
  }

  lemma {:induction false} CodingsAreFolded(codings: seq<string>)
    requires forall c :: c in codings ==> Tame(c)
    ensures NormalizeCodings(codings) == NonEmpty(FoldAll(codings))
    decreases |codings|
  {
    if codings != [] {
      assert codings[0] in codings;
      CodingIsFolded(codings[0]);
      CodingsAreFolded(codings[1..]);
      assert FoldAll(codings)[1..] == FoldAll(codings[1..]);
    }
  }

  lemma {:induction false} JoinTame(parts: seq<string>, c: char)
    requires !Space(c) && forall p :: p in parts ==> Tame(p)
    ensures Tame(Join(parts, c))
    decreases |parts|
  {
    if parts != [] {
      assert parts[0] in parts;
    }
    if |parts| > 1 {
      JoinTame(parts[1..], c);
    }
  }

  // ---- The theorem -------------------------------------------------------

  lemma EncodingIsWanted(req: Request)
    ensures AcceptEncoding(req) == Join(Wanted(req), ',')
  {
    var parts := EscapeAll(GetAll(req.headers, "accept-encoding"));
    var text := Join(parts, ',');
    JoinTame(parts, ',');
    SplitTame(text, ',');
    CodingsAreFolded(Split(text, ','));
    SplitFold(text, ',');
  }

  lemma WantedPlain(req: Request)
    ensures forall p :: p in Wanted(req) ==> ',' !in p
  {
    var text := Join(EscapeAll(GetAll(req.headers, "accept-encoding")), ',');
    SplitPieces(Fold(text), ',');
  }

  /**
    Two requests have the same content-coding entry exactly when, case and spaces
    aside, they name the same codings in the same order; naming none is naming
    `identity`.
   */
  lemma SameEncodingIff(a: Request, b: Request)
    ensures AcceptEncoding(a) == AcceptEncoding(b) <==> Wanted(a) == Wanted(b)
  {
    EncodingIsWanted(a);
    EncodingIsWanted(b);
    WantedPlain(a);
    WantedPlain(b);
    SplitJoin(Wanted(a), ',');
    SplitJoin(Wanted(b), ',');
  }
}
