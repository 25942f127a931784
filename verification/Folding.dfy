/** Case folding and trimming, said of the text itself rather than of the loops that do them. */
module Folding {
  import opened Texts

  // ---- Letters of either case --------------------------------------------

  /** The same byte, or the same ASCII letter in the other case. */
  predicate SameLetter(c: char, d: char) {
    || c == d
    || ('a' <= c <= 'z' && c as int == d as int + 32)
    || ('a' <= d <= 'z' && d as int == c as int + 32)
  }

  predicate Caseless(a: string, b: string) {
    |a| == |b| && forall i :: 0 <= i < |a| ==> SameLetter(a[i], b[i])
  }

  lemma LetterIff(c: char, d: char)
    ensures LowerChar(c) == LowerChar(d) <==> SameLetter(c, d)
  {}

  lemma CaselessTail(a: string, b: string)
    requires a != [] && b != []
    ensures Caseless(a, b) <==> SameLetter(a[0], b[0]) && Caseless(a[1..], b[1..])
  {
    if SameLetter(a[0], b[0]) && Caseless(a[1..], b[1..]) {
      forall i | 0 <= i < |a| ensures SameLetter(a[i], b[i]) {
        if i > 0 {
          assert a[i] == a[1..][i - 1] && b[i] == b[1..][i - 1];
        }
      }
    }
  }

  lemma {:induction false} LowerIff(a: string, b: string)
    ensures Lower(a) == Lower(b) <==> Caseless(a, b)
    decreases |a|
  {
    if a != [] && b != [] {
      LetterIff(a[0], b[0]);
      LowerIff(a[1..], b[1..]);
      CaselessTail(a, b);
      HeadTail(LowerChar(a[0]), Lower(a[1..]), LowerChar(b[0]), Lower(b[1..]));
    }
  }

  lemma HeadTail(c: char, s: string, d: char, t: string)
    ensures [c] + s == [d] + t <==> c == d && s == t
  {
    assert ([c] + s)[0] == c && ([d] + t)[0] == d;
    assert ([c] + s)[1..] == s && ([d] + t)[1..] == t;
  }

  lemma {:induction false} LowerAt(s: string, i: nat)
    requires i < |s|
    ensures Lower(s)[i] == LowerChar(s[i])
    decreases |s|
  {
    if i > 0 {
      LowerAt(s[1..], i - 1);
    }
  }

  lemma {:induction false} LowerFixed(s: string)
    requires forall i :: 0 <= i < |s| ==> !('A' <= s[i] <= 'Z')
    ensures Lower(s) == s
  {
    forall i | 0 <= i < |s| ensures Lower(s)[i] == s[i] {
      LowerAt(s, i);
    }
  }

  lemma {:induction false} LowerConcat(s: string, t: string)
    ensures Lower(s + t) == Lower(s) + Lower(t)
    decreases |s|
  {
    if s == [] {
      assert s + t == t;
    } else {
      assert (s + t)[1..] == s[1..] + t;
      LowerConcat(s[1..], t);
    }
  }

  // ---- Surrounding space -------------------------------------------------

  predicate Blank(s: string) {
    forall c :: c in s ==> Space(c)
  }

  /** No space at either end. */
  predicate Neat(s: string) {
    s == "" || (!Space(s[0]) && !Space(s[|s| - 1]))
  }

  lemma {:induction false} TrimStartBlank(left: string, rest: string)
    requires Blank(left) && (rest == "" || !Space(rest[0]))
    ensures TrimStart(left + rest) == rest
    decreases |left|
  {
    if left == [] {
      assert left + rest == rest;
    } else {
      assert (left + rest)[1..] == left[1..] + rest;
      TrimStartBlank(left[1..], rest);
    }
  }

  lemma {:induction false} TrimEndBlank(rest: string, right: string)
    requires Blank(right) && (rest == "" || !Space(rest[|rest| - 1]))
    ensures TrimEnd(rest + right) == rest
    decreases |right|
  {
    if right == [] {
      assert rest + right == rest;
    } else {
      assert (rest + right)[..|rest + right| - 1] == rest + right[..|right| - 1];
      TrimEndBlank(rest, right[..|right| - 1]);
    }
  }

  lemma TrimBlank(left: string, text: string, right: string)
    requires Blank(left) && Blank(right) && Neat(text)
    ensures Trim(left + text + right) == text
  {
    if text == "" {
      assert left + text + right == left + right + "";
      TrimStartBlank(left + right, "");
    } else {
      assert left + text + right == left + (text + right);
      TrimStartBlank(left, text + right);
      TrimEndBlank(text, right);
    }
  }

  lemma {:induction false} CutStart(s: string) returns (left: string)
    ensures s == left + TrimStart(s) && Blank(left)
    ensures TrimStart(s) == "" || !Space(TrimStart(s)[0])
    decreases |s|
  {
    left := "";
    if s != [] && Space(s[0]) {
      var more := CutStart(s[1..]);
      left := [s[0]] + more;
      assert s == [s[0]] + s[1..];
    }
  }

  lemma {:induction false} CutEnd(s: string) returns (right: string)
    ensures s == TrimEnd(s) + right && Blank(right)
    ensures TrimEnd(s) == "" || (!Space(TrimEnd(s)[|TrimEnd(s)| - 1]) && TrimEnd(s)[0] == s[0])
    decreases |s|
  {
    right := "";
    if s != [] && Space(s[|s| - 1]) {
      var more := CutEnd(s[..|s| - 1]);
      right := more + [s[|s| - 1]];
      assert s == s[..|s| - 1] + [s[|s| - 1]];
    }
  }

  lemma Cut(s: string) returns (left: string, right: string)
    ensures s == left + Trim(s) + right && Blank(left) && Blank(right) && Neat(Trim(s))
  {
    left := CutStart(s);
    right := CutEnd(TrimStart(s));
  }
}
