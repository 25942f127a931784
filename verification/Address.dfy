/** Addresses, blocks of addresses, and comparing them octet by octet. */
module Addresses {
  import opened Machine

  type Octets4 = s: Bytes | |s| == 4 witness [0, 0, 0, 0]
  type Octets16 = s: Bytes | |s| == 16 witness seq(16, _ => 0)

  datatype Address = V4(v4: Octets4) | V6(v6: Octets16)

  datatype Block = Block(network: Address, prefix: nat)

  function Width(a: Address): nat {
    if a.V4? then 32 else 128
  }

  /** A block whose prefix fits its own family, as parsing guarantees. */
  type Cidr = c: Block | c.prefix <= Width(c.network) witness Block(V4([0, 0, 0, 0]), 0)

  // ---- Bits --------------------------------------------------------------

  function Shl(x: nat, n: nat): nat {
    if n == 0 then x else 2 * Shl(x, n - 1)
  }

  function Shr(x: nat, n: nat): nat {
    if n == 0 then x else Shr(x / 2, n - 1)
  }

  /** One less than the power of two. */
  function Ones(n: nat): nat {
    if n == 0 then 0 else 2 * Ones(n - 1) + 1
  }

  /** Shifting right is division by the power of two, rounded down: what is lost is below that power. */
  lemma {:induction false} ShrIsQuotient(x: nat, n: nat)
    ensures Shl(Shr(x, n), n) <= x <= Shl(Shr(x, n), n) + Ones(n)
    decreases n
  {
    if n > 0 {
      ShrIsQuotient(x / 2, n - 1);
    }
  }

  /** Bitwise and, one bit at a time. */
  function And(x: nat, y: nat): nat {
    if x == 0 || y == 0 then 0
    else (if x % 2 == 1 && y % 2 == 1 then 1 else 0) + 2 * And(x / 2, y / 2)
  }

  /** All ones shifted left within a byte. */
  function Mask(leftover: nat): nat
    requires 0 < leftover < 8
  {
    Shl(255, 8 - leftover) % 256
  }

  /** Do two addresses agree on their first `prefix` bits? */
  predicate PrefixEq(a: Bytes, b: Bytes, prefix: nat)
    requires |a| == |b| && prefix <= 8 * |a|
  {
    var whole, leftover := prefix / 8, prefix % 8;
    a[..whole] == b[..whole]
    && (leftover == 0 || And(a[whole] as nat, Mask(leftover)) == And(b[whole] as nat, Mask(leftover)))
  }

  // ---- Addresses as integers ---------------------------------------------

  function Number(s: Bytes): nat {
    if s == [] then 0 else 256 * Number(s[..|s| - 1]) + s[|s| - 1] as nat
  }

  /** The address as an integer, divided down to its first `prefix` bits. */
  function TopBits(s: Bytes, prefix: nat): nat
    requires prefix <= 8 * |s|
  {
    Shr(Number(s), 8 * |s| - prefix)
  }

  lemma {:induction false} NumberInjective(a: Bytes, b: Bytes)
    requires |a| == |b|
    ensures Number(a) == Number(b) <==> a == b
    decreases |a|
  {
    if a != [] {
      var n := |a| - 1;
      NumberInjective(a[..n], b[..n]);
      assert a == a[..n] + [a[n]] && b == b[..n] + [b[n]];
    }
  }

  /** An octet past the prefix does not matter. */
  lemma TopBitsDrop(s: Bytes, prefix: nat)
    requires s != [] && prefix <= 8 * (|s| - 1)
    ensures TopBits(s, prefix) == TopBits(s[..|s| - 1], prefix)
  {
    ShrOctet(Number(s), 8 * (|s| - 1) - prefix);
  }

  lemma ShrOctet(x: nat, k: nat)
    ensures Shr(x, k + 8) == Shr(x / 256, k)
  {
    ShrTwice(x, k + 6);
    ShrTwice(x / 4, k + 4);
    ShrTwice(x / 16, k + 2);
    ShrTwice(x / 64, k);
  }

  lemma ShrTwice(x: nat, k: nat)
    ensures Shr(x, k + 2) == Shr(x / 4, k)
  {
    assert Shr(x, k + 2) == Shr(x / 2, k + 1) == Shr(x / 2 / 2, k);
  }

  // ---- The mask keeps exactly the high bits ------------------------------

  lemma {:induction false} AndOnes(x: nat, n: nat)
    requires x <= Ones(n)
    ensures And(x, Ones(n)) == x
    decreases n
  {
    if n > 0 && x > 0 {
      AndOnes(x / 2, n - 1);
    }
  }

  lemma {:induction false} AndShl(x: nat, y: nat, n: nat)
    ensures And(x, Shl(y, n)) == Shl(And(Shr(x, n), y), n)
    decreases n
  {
    if n > 0 {
      AndShl(x / 2, y, n - 1);
    }
  }

  lemma {:induction false} ShlInjective(a: nat, b: nat, n: nat)
    ensures Shl(a, n) == Shl(b, n) <==> a == b
    decreases n
  {
    if n > 0 {
      ShlInjective(a, b, n - 1);
    }
  }

  lemma {:induction false} ShrBelow(x: nat, l: nat, n: nat)
    requires x <= Ones(l + n)
    ensures Shr(x, n) <= Ones(l)
    decreases n
  {
    if n > 0 {
      ShrBelow(x / 2, l, n - 1);
    }
  }

  lemma OnesTable()
    ensures Ones(1) == 1 && Ones(2) == 3 && Ones(3) == 7 && Ones(4) == 15
    ensures Ones(5) == 31 && Ones(6) == 63 && Ones(7) == 127 && Ones(8) == 255
  {}

  lemma MaskIsOnes(leftover: nat)
    requires 0 < leftover < 8
    ensures Mask(leftover) == Shl(Ones(leftover), 8 - leftover)
  {
    OnesTable();
    if leftover == 1 {
      assert Shl(255, 7) == 255 * 128 && Shl(1, 7) == 128;
    } else if leftover == 2 {
      assert Shl(255, 6) == 255 * 64 && Shl(3, 6) == 192;
    } else if leftover == 3 {
      assert Shl(255, 5) == 255 * 32 && Shl(7, 5) == 224;
    } else if leftover == 4 {
      assert Shl(255, 4) == 255 * 16 && Shl(15, 4) == 240;
    } else if leftover == 5 {
      assert Shl(255, 3) == 255 * 8 && Shl(31, 3) == 248;
    } else if leftover == 6 {
      assert Shl(255, 2) == 255 * 4 && Shl(63, 2) == 252;
    } else {
      assert Shl(255, 1) == 255 * 2 && Shl(127, 1) == 254;
    }
  }

  lemma HighBits(x: nat, leftover: nat)
    requires x < 256 && 0 < leftover < 8
    ensures Shr(x, 8 - leftover) <= Ones(leftover)
    ensures And(x, Mask(leftover)) == Shl(Shr(x, 8 - leftover), 8 - leftover)
  {
    OnesTable();
    ShrBelow(x, leftover, 8 - leftover);
    MaskIsOnes(leftover);
    AndShl(x, Ones(leftover), 8 - leftover);
    AndOnes(Shr(x, 8 - leftover), leftover);
  }

  // ---- Octets against integers -------------------------------------------

  /** Comparing octets under a mask is comparing the addresses, as integers, down to the prefix. */
  lemma {:induction false} PrefixEqIsInteger(a: Bytes, b: Bytes, prefix: nat)
    requires |a| == |b| && prefix <= 8 * |a|
    ensures PrefixEq(a, b, prefix) <==> TopBits(a, prefix) == TopBits(b, prefix)
    decreases |a|
  {
    var n := |a| - 1;
    if prefix == 8 * |a| {
      assert a[..|a|] == a && b[..|b|] == b;
      NumberInjective(a, b);
    } else if prefix <= 8 * n {
      PrefixEqIsInteger(a[..n], b[..n], prefix);
      TopBitsDrop(a, prefix);
      TopBitsDrop(b, prefix);
      PrefixEqDrop(a, b, prefix);
    } else {
      LastOctet(a, b, prefix - 8 * n);
    }
  }

  lemma PrefixEqDrop(a: Bytes, b: Bytes, prefix: nat)
    requires |a| == |b| && a != [] && prefix <= 8 * (|a| - 1)
    ensures PrefixEq(a, b, prefix) == PrefixEq(a[..|a| - 1], b[..|a| - 1], prefix)
  {
    var whole := prefix / 8;
    assert a[..|a| - 1][..whole] == a[..whole] && b[..|a| - 1][..whole] == b[..whole];
  }

  lemma LastOctet(a: Bytes, b: Bytes, leftover: nat)
    requires |a| == |b| && a != [] && 0 < leftover < 8
    ensures var prefix := 8 * (|a| - 1) + leftover;
            PrefixEq(a, b, prefix) <==> TopBits(a, prefix) == TopBits(b, prefix)
  {
    var n, m := |a| - 1, 8 - leftover;
    var x, y := Shr(a[n] as nat, m), Shr(b[n] as nat, m);
    SplitTop(a, leftover);
    SplitTop(b, leftover);
    NumberInjective(a[..n], b[..n]);
    HighBits(a[n] as nat, leftover);
    HighBits(b[n] as nat, leftover);
    ShlInjective(x, y, m);
    SameDigits(Number(a[..n]), x, Number(b[..n]), y, leftover);
  }

  lemma SplitTop(s: Bytes, leftover: nat)
    requires s != [] && 0 < leftover < 8
    ensures TopBits(s, 8 * (|s| - 1) + leftover)
         == Shl(Number(s[..|s| - 1]), leftover) + Shr(s[|s| - 1] as nat, 8 - leftover)
  {
    var n := Number(s[..|s| - 1]);
    ShlOctet(n);
    ShrSum(n, s[|s| - 1] as nat, leftover, 8 - leftover);
  }

  lemma ShlOctet(x: nat)
    ensures Shl(x, 8) == 256 * x
  {
    assert Shl(x, 8) == 4 * Shl(x, 6) && Shl(x, 6) == 4 * Shl(x, 4) && Shl(x, 4) == 4 * Shl(x, 2);
    assert Shl(x, 1) == 2 * x && Shl(x, 2) == 4 * x;
  }

  lemma {:induction false} ShrSum(x: nat, d: nat, l: nat, n: nat)
    ensures Shr(Shl(x, l + n) + d, n) == Shl(x, l) + Shr(d, n)
    decreases n
  {
    if n > 0 {
      ShrSum(x, d / 2, l, n - 1);
      assert (Shl(x, l + n) + d) / 2 == Shl(x, l + n - 1) + d / 2;
    }
  }

  lemma {:induction false} SameDigits(m: nat, x: nat, n: nat, y: nat, l: nat)
    requires x <= Ones(l) && y <= Ones(l)
    ensures Shl(m, l) + x == Shl(n, l) + y <==> m == n && x == y
    decreases l
  {
    if l > 0 {
      SameDigits(m, x / 2, n, y / 2, l - 1);
    }
  }

  // ---- Blocks ------------------------------------------------------------

  const MAPPED: Bytes := [0, 0, 0, 0, 0, 0, 0, 0, 0, 0, 255, 255]

  /** The IPv4 address inside an IPv4-mapped IPv6 address. */
  function ToV4Mapped(a: Octets16): (r: seq<Octets4>)
    ensures |r| <= 1
  {
    if a[..12] == MAPPED then [a[12..]] else []
  }

  predicate Contains(c: Cidr, a: Address) {
    match (c.network, a)
    case (V4(n), V4(x)) => PrefixEq(n, x, c.prefix)
    case (V6(n), V6(x)) => PrefixEq(n, x, c.prefix)
    case (V4(n), V6(x)) => ToV4Mapped(x) != [] && PrefixEq(n, ToV4Mapped(x)[0], c.prefix)
    case (V6(_), V4(_)) => false
  }

  /** An address as the 128-bit integer a dual-stack listener would report. */
  function Wide(a: Address): Octets16 {
    match a
    case V4(x) => MAPPED + x
    case V6(x) => x
  }

  function WidePrefix(c: Cidr): nat {
    if c.network.V4? then 96 + c.prefix else c.prefix
  }

  /**
    One rule covers every family: a block contains an address exactly when the two
    agree, as 128-bit integers, above the prefix. The one exception is an IPv4
    address, which no IPv6 block contains.
   */
  lemma ContainsIsInteger(c: Cidr, a: Address)
    ensures WidePrefix(c) <= 128
    ensures Contains(c, a) <==>
              (c.network.V4? || a.V6?) && TopBits(Wide(a), WidePrefix(c)) == TopBits(Wide(c.network), WidePrefix(c))
  {
    PrefixEqIsInteger(Wide(c.network), Wide(a), WidePrefix(c));
    if c.network.V4? {
      MappedPrefix(c.network.v4, Wide(a), c.prefix);
      if a.V4? {
        assert Wide(a)[..12] == MAPPED && Wide(a)[12..] == a.v4;
      }
    }
  }

  lemma MappedPrefix(n: Octets4, x: Octets16, prefix: nat)
    requires prefix <= 32
    ensures PrefixEq(MAPPED + n, x, 96 + prefix) <==> x[..12] == MAPPED && PrefixEq(n, x[12..], prefix)
  {
    var m, whole := MAPPED + n, prefix / 8;
    assert (96 + prefix) / 8 == 12 + whole && (96 + prefix) % 8 == prefix % 8;
    assert m[..12 + whole] == MAPPED + n[..whole];
    assert x[..12 + whole] == x[..12] + x[12..][..whole];
    if m[..12 + whole] == x[..12 + whole] {
      assert m[..12 + whole][..12] == MAPPED && x[..12 + whole][..12] == x[..12];
      assert m[..12 + whole][12..] == n[..whole] && x[..12 + whole][12..] == x[12..][..whole];
    }
  }
}
