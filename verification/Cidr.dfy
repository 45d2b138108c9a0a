/**
 * IPv4 block matching with JavaScript's 32-bit operators, and the reserved-range test
 * on the first two octets.
 */
module Cidr {
  /** Number(text): not-a-number or an integer. */
  datatype Number = NaN | Whole(n: int)

  function Pow2(k: nat): (r: nat)
    ensures r >= 1
  {
    if k == 0 then 1 else 2 * Pow2(k - 1)
  }

  const WORD := 0x1_0000_0000

  // ----- 32-bit operators -----

  function ToUint32(x: int): (r: nat)
    ensures r < WORD
  {
    x % WORD
  }

  function ToInt32(x: int): int {
    var m := x % WORD;
    if m >= 0x8000_0000 then m - WORD else m
  }

  function Bits(v: Number): int {
    if v.NaN? then 0 else v.n
  }

  /** x << k, for shift counts as they arise here. */
  function ShiftLeft(x: int, k: nat): int {
    ToInt32(ToInt32(x) * Pow2(k % 32))
  }

  /** The bitwise AND of two words of n bits. */
  function AndBits(x: nat, y: nat, n: nat): nat {
    if n == 0 then 0 else 2 * AndBits(x / 2, y / 2, n - 1) + (x % 2) * (y % 2)
  }

  function BitAnd(x: int, y: int): int {
    ToInt32(AndBits(ToUint32(x), ToUint32(y), 32))
  }

  // ----- the matcher -----

  function Plus(x: int, v: Number): Number {
    if v.NaN? then NaN else Whole(x + v.n)
  }

  /** The reduce over the octets: (result << 8) + Number(octet). */
  function Fold(result: Number, octets: seq<Number>): Number
    decreases |octets|
  {
    if octets == [] then result else Fold(Plus(ShiftLeft(Bits(result), 8), octets[0]), octets[1..])
  }

  function ToNumber(octets: seq<Number>): nat {
    ToUint32(Bits(Fold(Whole(0), octets)))
  }

  /** 0xffffffff << (32 - prefix), except that a prefix of 0 masks everything; a NaN shift count is 0. */
  function Mask(prefix: Number): nat
    requires prefix.Whole? ==> 0 <= prefix.n <= 32
  {
    if prefix == Whole(0) then 0
    else ToUint32(ShiftLeft(0xffff_ffff, if prefix.NaN? then 0 else 32 - prefix.n))
  }

  datatype Address = Address(text: string, octets: seq<Number>)

  datatype Rule = Exact(text: string) | Block(network: seq<Number>, prefix: Number)

  predicate IpMatches(ip: Address, rule: Rule) {
    match rule
    case Exact(text) => ip.text == text
    case Block(network, prefix) =>
      if prefix.Whole? && (prefix.n < 0 || prefix.n > 32) then false
      else BitAnd(ToNumber(ip.octets), Mask(prefix)) == BitAnd(ToNumber(network), Mask(prefix))
  }

  // ----- dotted quads -----

  datatype Quad = Quad(a: nat, b: nat, c: nat, d: nat) {
    predicate Valid() {
      a < 256 && b < 256 && c < 256 && d < 256
    }
    function Octets(): seq<Number> {
      [Whole(a), Whole(b), Whole(c), Whole(d)]
    }
    /** The 32-bit address. */
    function Value(): nat {
      ((a * 256 + b) * 256 + c) * 256 + d
    }
  }

  lemma PowerTable()
    ensures Pow2(8) == 256 && Pow2(16) == 0x1_0000 && Pow2(32) == WORD
  {
    assert Pow2(4) == 16;
    assert Pow2(8) == 256;
    assert Pow2(12) == 4096;
    assert Pow2(16) == 0x1_0000;
    assert Pow2(20) == 0x10_0000;
    assert Pow2(24) == 0x100_0000;
    assert Pow2(28) == 0x1000_0000;
  }

  lemma ShiftByOctet(x: nat)
    requires x < 0x100_0000
    ensures ShiftLeft(x, 8) == if x * 256 >= 0x8000_0000 then x * 256 - WORD else x * 256
  {
    hide Pow2;
    PowerTable();
  }

  lemma FoldStep(r: int, v: nat, rest: seq<Number>)
    ensures Fold(Whole(r), [Whole(v)] + rest) == Fold(Whole(ShiftLeft(r, 8) + v), rest)
  {
    hide ShiftLeft;
    assert ([Whole(v)] + rest)[1..] == rest;
  }

  /** The shifted fold yields the address although its last shift wraps to a negative number. */
  lemma QuadNumber(q: Quad)
    requires q.Valid()
    ensures ToNumber(q.Octets()) == q.Value()
  {
    hide ShiftLeft;
    var r2 := q.a * 256 + q.b;
    var r3 := r2 * 256 + q.c;
    ShiftByOctet(0);
    ShiftByOctet(q.a);
    ShiftByOctet(r2);
    ShiftByOctet(r3);
    FoldStep(0, q.a, [Whole(q.b), Whole(q.c), Whole(q.d)]);
    FoldStep(q.a, q.b, [Whole(q.c), Whole(q.d)]);
    FoldStep(r2, q.c, [Whole(q.d)]);
    FoldStep(r3, q.d, []);
    assert q.Octets() == [Whole(q.a)] + [Whole(q.b), Whole(q.c), Whole(q.d)];
    assert [Whole(q.b), Whole(q.c), Whole(q.d)] == [Whole(q.b)] + [Whole(q.c), Whole(q.d)];
    assert [Whole(q.c), Whole(q.d)] == [Whole(q.c)] + [Whole(q.d)];
    assert [Whole(q.d)] == [Whole(q.d)] + [];
  }

  lemma DivModUnique(x: nat, m: nat, q: nat, r: nat)
    requires m > 0 && r < m && x == q * m + r
    ensures x / m == q && x % m == r
  {
    var k := x / m - q;
    assert x == (x / m) * m + x % m;
    assert k * m == r - x % m;
    Times(k, m);
  }

  lemma Times(k: int, m: nat)
    ensures k >= 1 ==> k * m >= m
    ensures k <= -1 ==> k * m + m <= 0
  {
  }

  lemma HalvedModulus(x: nat, m: nat)
    requires m > 0
    ensures x % (2 * m) == 2 * ((x / 2) % m) + x % 2
    ensures x / (2 * m) == (x / 2) / m
  {
    var q, r := (x / 2) / m, (x / 2) % m;
    assert x == 2 * (x / 2) + x % 2;
    assert x / 2 == q * m + r;
    assert x == q * (2 * m) + (2 * r + x % 2);
    DivModUnique(x, 2 * m, q, 2 * r + x % 2);
  }

  lemma {:induction false} PowMonotone(j: nat, k: nat)
    requires j <= k
    ensures Pow2(j) <= Pow2(k)
  {
    if j < k {
      PowMonotone(j, k - 1);
    }
  }

  lemma AndStep(x: nat, m: nat, n: nat)
    requires n > 0
    ensures m % 2 == 0 ==> AndBits(x, m, n) == 2 * AndBits(x / 2, m / 2, n - 1)
    ensures m % 2 == 1 ==> AndBits(x, m, n) == 2 * AndBits(x / 2, m / 2, n - 1) + x % 2
  {
  }

  /** ANDing with the mask of the n - k upper bits clears the k lower bits. */
  lemma {:induction false} MaskClears(x: nat, k: nat, n: nat)
    requires k <= n && x < Pow2(n)
    ensures Pow2(k) <= Pow2(n)
    ensures AndBits(x, Pow2(n) - Pow2(k), n) == x - x % Pow2(k)
  {
    hide AndBits, Pow2;
    PowMonotone(k, n);
    if n > 0 {
      PowStep(n);
      var m := Pow2(n) - Pow2(k);
      AndStep(x, m, n);
      if k == 0 {
        PowStep(0);
        PowMonotone(0, n - 1);
        MaskClears(x / 2, 0, n - 1);
        assert m == 2 * (Pow2(n - 1) - 1) + 1;
      } else {
        PowStep(k);
        PowMonotone(k - 1, n - 1);
        MaskClears(x / 2, k - 1, n - 1);
        assert m == 2 * (Pow2(n - 1) - Pow2(k - 1));
        HalvedModulus(x, Pow2(k - 1));
      }
    } else {
      PowStep(0);
      NoBits(x);
    }
  }

  lemma PowStep(k: nat)
    ensures Pow2(k) == if k == 0 then 1 else 2 * Pow2(k - 1)
  {
  }

  lemma NoBits(x: nat)
    requires x < Pow2(0)
    ensures AndBits(x, Pow2(0) - Pow2(0), 0) == x - x % Pow2(0)
  {
  }

  lemma {:induction false} NothingMasked(x: nat, n: nat)
    ensures AndBits(x, 0, n) == 0
  {
    if n > 0 {
      NothingMasked(x / 2, n - 1);
    }
  }

  lemma NegativeWord(p: int)
    requires 1 <= p <= 0x8000_0000
    ensures ToInt32(-p) == -p && ToUint32(-p) == WORD - p
  {
    assert -p == (-1) * WORD + (WORD - p);
    assert (-p) % WORD == WORD - p;
  }

  lemma AllOnes()
    ensures ToInt32(0xffff_ffff) == -1
  {
  }

  lemma MaskValue(p: nat)
    requires 1 <= p <= 32
    ensures Pow2(32 - p) < WORD
    ensures Mask(Whole(p)) == WORD - Pow2(32 - p)
  {
    hide Pow2, ToInt32, ToUint32;
    PowMonotone(32 - p, 31);
    HalfWord();
    AllOnes();
    NegativeWord(Pow2(32 - p));
  }

  lemma HalfWord()
    ensures Pow2(31) == 0x8000_0000
  {
    PowerTable();
    assert Pow2(32) == 2 * Pow2(31);
  }

  lemma EqualPrefix(x: nat, y: nat, m: nat)
    requires m > 0
    ensures x - x % m == y - y % m <==> x / m == y / m
  {
    assert x - x % m == (x / m) * m;
    assert y - y % m == (y / m) * m;
    if x / m < y / m {
      Times(y / m - x / m, m);
      assert (y / m) * m - (x / m) * m == (y / m - x / m) * m;
    } else if y / m < x / m {
      Times(x / m - y / m, m);
      assert (x / m) * m - (y / m) * m == (x / m - y / m) * m;
    }
  }

  lemma SameSigned(x: nat, y: nat)
    requires x < WORD && y < WORD
    ensures ToInt32(x) == ToInt32(y) <==> x == y
  {
  }

  /**
   * The shift-and-mask test is equality of the leading p bits, for every two dotted
   * quads and every prefix length.
   */
  lemma BlockMatchIsPrefixEquality(ip: Quad, text: string, network: Quad, p: nat)
    requires ip.Valid() && network.Valid() && p <= 32
    ensures IpMatches(Address(text, ip.Octets()), Block(network.Octets(), Whole(p)))
            <==> ip.Value() / Pow2(32 - p) == network.Value() / Pow2(32 - p)
  {
    hide IpMatches, Quad.Octets, Quad.Value, Mask, Pow2;
    MatchesMasked(ip, text, network, p);
    PowerTable();
    QuadNumber(ip);
    QuadNumber(network);
    if p == 0 {
      MaskOfZero();
      ZeroMask(ip.Value(), network.Value());
    } else {
      MaskValue(p);
      MaskedEquality(ip.Value(), network.Value(), 32 - p);
    }
  }

  lemma MatchesMasked(ip: Quad, text: string, network: Quad, p: nat)
    requires ip.Valid() && network.Valid() && p <= 32
    ensures IpMatches(Address(text, ip.Octets()), Block(network.Octets(), Whole(p)))
            <==> BitAnd(ip.Value(), Mask(Whole(p))) == BitAnd(network.Value(), Mask(Whole(p)))
  {
    hide ToNumber, BitAnd, Mask, Quad.Octets, Quad.Value;
    QuadNumber(ip);
    QuadNumber(network);
  }

  lemma SmallWord(x: nat)
    requires x < WORD
    ensures ToUint32(x) == x && x / WORD == 0
  {
  }

  lemma WordAnd(x: nat, y: nat)
    requires x < WORD && y < WORD
    ensures BitAnd(x, y) == ToInt32(AndBits(x, y, 32))
  {
    hide AndBits, ToInt32, ToUint32;
    SmallWord(x);
    SmallWord(y);
  }

  lemma ZeroMask(x: nat, y: nat)
    requires x < WORD && y < WORD
    ensures BitAnd(x, 0) == BitAnd(y, 0) && x / WORD == y / WORD
  {
    hide AndBits, ToInt32, ToUint32, BitAnd;
    WordAnd(x, 0);
    WordAnd(y, 0);
    NothingMasked(x, 32);
    NothingMasked(y, 32);
    SmallWord(x);
    SmallWord(y);
  }

  lemma MaskedEquality(x: nat, y: nat, k: nat)
    requires k < 32 && x < WORD && y < WORD && Pow2(k) < WORD
    ensures BitAnd(x, WORD - Pow2(k)) == BitAnd(y, WORD - Pow2(k)) <==> x / Pow2(k) == y / Pow2(k)
  {
    hide AndBits, Pow2, ToInt32, BitAnd;
    PowerTable();
    var m := Pow2(k);
    WordAnd(x, WORD - m);
    WordAnd(y, WORD - m);
    MaskClears(x, k, 32);
    MaskClears(y, k, 32);
    EqualPrefix(x, y, m);
    SameSigned(x - x % m, y - y % m);
  }

  lemma MaskOfZero()
    ensures Mask(Whole(0)) == 0
  {
  }

  lemma {:induction false} CoarserDivision(x: nat, y: nat, j: nat, k: nat)
    requires j <= k && x / Pow2(j) == y / Pow2(j)
    ensures x / Pow2(k) == y / Pow2(k)
  {
    if j < k {
      CoarserDivision(x, y, j, k - 1);
      DivTwice(x, Pow2(k - 1));
      DivTwice(y, Pow2(k - 1));
    }
  }

  lemma DivTwice(x: nat, m: nat)
    requires m > 0
    ensures x / (2 * m) == (x / m) / 2
  {
    var q := x / m;
    assert x == q * m + x % m;
    assert q == 2 * (q / 2) + q % 2;
    assert x == (q / 2) * (2 * m) + ((q % 2) * m + x % m) by {
      assert q * m == (2 * (q / 2) + q % 2) * m == (q / 2) * (2 * m) + (q % 2) * m;
    }
    assert (q % 2) * m <= m;
    DivModUnique(x, 2 * m, q / 2, (q % 2) * m + x % m);
  }

  /** A longer prefix matches no more addresses. */
  lemma LongerPrefixMatchesLess(ip: Quad, text: string, network: Quad, p: nat, q: nat)
    requires ip.Valid() && network.Valid() && p <= q <= 32
    requires IpMatches(Address(text, ip.Octets()), Block(network.Octets(), Whole(q)))
    ensures IpMatches(Address(text, ip.Octets()), Block(network.Octets(), Whole(p)))
  {
    hide IpMatches, Pow2;
    BlockMatchIsPrefixEquality(ip, text, network, q);
    BlockMatchIsPrefixEquality(ip, text, network, p);
    CoarserDivision(ip.Value(), network.Value(), 32 - q, 32 - p);
  }

  /** A prefix that is not a number compares the whole addresses; one outside 0..32 matches nothing. */
  lemma OddPrefixes(ip: Quad, text: string, network: Quad, n: int)
    requires ip.Valid() && network.Valid()
    ensures IpMatches(Address(text, ip.Octets()), Block(network.Octets(), NaN)) <==> ip == network
    ensures n < 0 || n > 32 ==> !IpMatches(Address(text, ip.Octets()), Block(network.Octets(), Whole(n)))
  {
    hide ToNumber, Quad.Octets, Quad.Value, BitAnd, Mask, Pow2;
    SameMask();
    BlockMatchIsPrefixEquality(ip, text, network, 32);
    PowStep(0);
    SameQuad(ip, network);
  }

  lemma SameQuad(q: Quad, r: Quad)
    requires q.Valid() && r.Valid()
    ensures q.Value() == r.Value() <==> q == r
  {
    if q.Value() == r.Value() {
      SameDigit((q.a * 256 + q.b) * 256 + q.c, q.d, (r.a * 256 + r.b) * 256 + r.c, r.d);
      SameDigit(q.a * 256 + q.b, q.c, r.a * 256 + r.b, r.c);
      SameDigit(q.a, q.b, r.a, r.b);
    }
  }

  lemma SameDigit(x: nat, d: nat, y: nat, e: nat)
    requires d < 256 && e < 256 && x * 256 + d == y * 256 + e
    ensures x == y && d == e
  {
  }

  lemma SameMask()
    ensures Mask(NaN) == Mask(Whole(32))
  {
  }

  // ----- malformed addresses and plain rules -----

  lemma {:induction false} FoldAppend(r: Number, a: seq<Number>, b: seq<Number>)
    ensures Fold(r, a + b) == Fold(Fold(r, a), b)
    decreases |a|
  {
    hide ShiftLeft, Bits;
    if a == [] {
      assert a + b == b;
    } else {
      assert (a + b)[0] == a[0] && (a + b)[1..] == a[1..] + b;
      FoldAppend(Plus(ShiftLeft(Bits(r), 8), a[0]), a[1..], b);
    }
  }

  /** An octet that is not a number makes the fold forget everything up to it. */
  lemma MalformedOctet(before: seq<Number>, after: seq<Number>)
    ensures ToNumber(before + [NaN] + after) == ToNumber(after)
    ensures after == [] ==> ToNumber(before + [NaN] + after) == 0
  {
    hide ShiftLeft;
    FoldAppend(Whole(0), before + [NaN], after);
    FoldAppend(Whole(0), before, [NaN]);
    var x := Fold(Whole(0), before);
    assert [NaN][1..] == [];
    assert Fold(x, [NaN]) == Fold(NaN, []) == NaN;
    if after == [] {
      assert Fold(NaN, after) == NaN && Fold(Whole(0), after) == Whole(0);
    }
  }

  /** A rule without a slash matches its own text and no other, also another spelling of the same address. */
  lemma ExactRule(ip: Address, text: string)
    ensures IpMatches(ip, Exact(text)) <==> ip.text == text
  {
  }

  /** Shift counts are taken modulo 32, so a shift by 32 is none. */
  lemma ShiftCounts(x: int, k: nat)
    ensures ShiftLeft(x, k + 32) == ShiftLeft(x, k) && ShiftLeft(x, 32) == ToInt32(ToInt32(x))
  {
    assert (k + 32) % 32 == k % 32;
    PowStep(0);
  }

  // ----- reserved ranges -----

  /** The test on the first two octets. */
  predicate IsPrivate(q: Quad) {
    q.a == 0 || q.a == 10 || q.a == 127 || q.a >= 224
    || (q.a == 169 && q.b == 254)
    || (q.a == 172 && 16 <= q.b <= 31)
    || (q.a == 192 && q.b == 168)
    || (q.a == 100 && 64 <= q.b <= 127)
  }

  /** The blocks as network and prefix length. */
  const RESERVED: seq<(Quad, nat)> := [
    (Quad(0, 0, 0, 0), 8), (Quad(10, 0, 0, 0), 8), (Quad(127, 0, 0, 0), 8), (Quad(224, 0, 0, 0), 3),
    (Quad(169, 254, 0, 0), 16), (Quad(172, 16, 0, 0), 12), (Quad(192, 168, 0, 0), 16), (Quad(100, 64, 0, 0), 10)]

  lemma LeadingBits(q: Quad)
    requires q.Valid()
    ensures q.Value() / 0x100_0000 == q.a
    ensures q.Value() / 0x2000_0000 == q.a / 32
    ensures q.Value() / 0x1_0000 == q.a * 256 + q.b
    ensures q.Value() / 0x10_0000 == q.a * 16 + q.b / 16
    ensures q.Value() / 0x40_0000 == q.a * 4 + q.b / 64
  {
  }

  lemma BlockSizes()
    ensures Pow2(24) == 0x100_0000 && Pow2(29) == 0x2000_0000 && Pow2(20) == 0x10_0000 && Pow2(22) == 0x40_0000
  {
    assert Pow2(4) == 16;
    assert Pow2(8) == 256;
    assert Pow2(12) == 0x1000;
    assert Pow2(16) == 0x1_0000;
    assert Pow2(20) == 0x10_0000;
    assert Pow2(24) == 0x100_0000;
    assert Pow2(28) == 0x1000_0000;
  }

  lemma InBlock(q: Quad, text: string, i: nat)
    requires q.Valid() && i < |RESERVED|
    ensures IpMatches(Address(text, q.Octets()), Block(RESERVED[i].0.Octets(), Whole(RESERVED[i].1))) <==>
            match i
            case 0 => q.a == 0
            case 1 => q.a == 10
            case 2 => q.a == 127
            case 3 => q.a >= 224
            case 4 => q.a == 169 && q.b == 254
            case 5 => q.a == 172 && 16 <= q.b <= 31
            case 6 => q.a == 192 && q.b == 168
            case _ => q.a == 100 && 64 <= q.b <= 127
  {
    hide IpMatches, Quad.Octets, Quad.Value, Pow2;
    var (network, p) := RESERVED[i];
    assert network.Valid();
    BlockMatchIsPrefixEquality(q, text, network, p);
    LeadingBits(q);
    LeadingBits(network);
    PowerTable();
    BlockSizes();
  }

  /** The octet test is membership in the union of the eight reserved blocks, as the block matcher decides it. */
  lemma PrivateIsUnionOfBlocks(q: Quad, text: string)
    requires q.Valid()
    ensures IsPrivate(q) <==>
            exists i :: 0 <= i < |RESERVED|
                && IpMatches(Address(text, q.Octets()), Block(RESERVED[i].0.Octets(), Whole(RESERVED[i].1)))
  {
    hide IpMatches, Quad.Octets;
    forall i | 0 <= i < |RESERVED|
      ensures IpMatches(Address(text, q.Octets()), Block(RESERVED[i].0.Octets(), Whole(RESERVED[i].1))) ==> IsPrivate(q)
    {
      InBlock(q, text, i);
    }
    InBlock(q, text, 0);
    InBlock(q, text, 1);
    InBlock(q, text, 2);
    InBlock(q, text, 3);
    InBlock(q, text, 4);
    InBlock(q, text, 5);
    InBlock(q, text, 6);
    InBlock(q, text, 7);
  }
}
