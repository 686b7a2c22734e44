/**
 What the definitions of the MD5 specification mean, said in other terms than
 their own: bit by bit, as numbers, and as the byte lists of RFC 1321.
 */
module Md5Meaning {
  import opened ByteOrder
  import opened Integers
  import opened Words
  import opened Md5Spec
  import opened Md5Codec
  import opened Md5Padding

  // ------------------------------------- the auxiliary functions, bit by bit

  /** Where `x` is one, `F` is `y`, elsewhere `z`. */
  lemma BitsOfF(x: word, y: word, z: word)
    ensures F(x, y, z) & x == y & x && F(x, y, z) & !x == z & !x
  {
  }

  /** Where `z` is one, `G` is `x`, elsewhere `y`. */
  lemma BitsOfG(x: word, y: word, z: word)
    ensures G(x, y, z) & z == x & z && G(x, y, z) & !z == y & !z
  {
  }

  /** `H` is one where one of the three is, or all are. */
  lemma BitsOfH(x: word, y: word, z: word)
    ensures H(x, y, z) == (x & !y & !z) | (!x & y & !z) | (!x & !y & z) | (x & y & z)
  {
  }

  /** `I` is `y` where `x` is zero and `z` one, and its complement elsewhere. */
  lemma BitsOfI(x: word, y: word, z: word)
    ensures I(x, y, z) & (!x & z) == y & (!x & z) && I(x, y, z) & (x | !z) == !y & (x | !z)
  {
  }

  // --------------------------------------------------- sums as sums of numbers

  lemma WideSum(a: word, b: word, u: bv33)
    requires u == (a as bv33) + (b as bv33)
    ensures u as int == a as int + b as int
  {
  }

  lemma WideSumOf(a: word, b: word) returns (u: bv33)
    ensures u as int == a as int + b as int
    ensures (u & 0xffff_ffff) as bv32 == Sum(a, b)
  {
    u := (a as bv33) + (b as bv33);
    WideSum(a, b, u);
  }

  lemma LowPart(u: bv33, s: word)
    requires s == (u & 0xffff_ffff) as bv32
    ensures u as int == s as int || u as int == s as int + 0x1_0000_0000
  {
  }

  /** The sum of two numbers, or 2^32 less. */
  predicate SumsTo(x: int, y: int, s: int) {
    x + y == s || x + y == s + 0x1_0000_0000
  }

  lemma SumOfParts(a: word, b: word, u: bv33, s: word)
    requires u as int == a as int + b as int && s == (u & 0xffff_ffff) as bv32
    ensures SumsTo(a as int, b as int, s as int)
  {
    LowPart(u, s);
  }

  lemma WordSums(a: word, b: word)
    ensures SumsTo(a as int, b as int, Sum(a, b) as int)
  {
    var u := WideSumOf(a, b);
    SumOfParts(a, b, u, Sum(a, b));
  }

  lemma SumModulo(x: int, y: int, s: int)
    requires SumsTo(x, y, s) && 0 <= s < 0x1_0000_0000
    ensures s == (x + y) % 0x1_0000_0000
  {
  }

  /** The sum of words is the sum of numbers modulo 2^32. */
  lemma SumValue(a: word, b: word)
    ensures Sum(a, b) as int == (a as int + b as int) % 0x1_0000_0000
  {
    WordSums(a, b);
    SumModulo(a as int, b as int, Sum(a, b) as int);
  }

  /** The final additions add each register to itself, modulo 2^32. */
  lemma PlusValue(s: State, t: State)
    ensures Plus(s, t).a as int == (s.a as int + t.a as int) % 0x1_0000_0000
    ensures Plus(s, t).b as int == (s.b as int + t.b as int) % 0x1_0000_0000
    ensures Plus(s, t).c as int == (s.c as int + t.c as int) % 0x1_0000_0000
    ensures Plus(s, t).d as int == (s.d as int + t.d as int) % 0x1_0000_0000
  {
    SumValue(s.a, t.a);
    SumValue(s.b, t.b);
    SumValue(s.c, t.c);
    SumValue(s.d, t.d);
  }

  // ----------------------------------------------------- rotations as numbers

  /** A number below 2^32 doubled, its top bit coming back in below. */
  function Doubled(v: nat): nat {
    2 * v % 0x1_0000_0000 + v / 0x8000_0000
  }

  function DoubledTimes(v: nat, k: nat): nat {
    if k == 0 then v else Doubled(DoubledTimes(v, k - 1))
  }

  lemma DoubledBySum(v: nat, w: nat, n: nat)
    requires v < 0x1_0000_0000 && n == if v < 0x8000_0000 then 0 else 1
    requires w == ((v + v) % 0x1_0000_0000 + n) % 0x1_0000_0000
    ensures w == Doubled(v)
  {
  }

  lemma SumOf(a: word, b: word, x: nat, y: nat)
    requires a as int == x && b as int == y
    ensures Sum(a, b) as int == (x + y) % 0x1_0000_0000
  {
    SumValue(a, b);
  }

  lemma TwoSums(x: word, c: word, v: nat, n: nat)
    requires x as int == v && c as int == n
    ensures Sum(Sum(x, x), c) as int == ((v + v) % 0x1_0000_0000 + n) % 0x1_0000_0000
  {
    SumOf(x, x, v, v);
    SumOf(Sum(x, x), c, (v + v) % 0x1_0000_0000, n);
  }

  lemma DoubledByWords(x: word, c: word, v: nat, n: nat)
    requires x as int == v && c as int == n && n == if v < 0x8000_0000 then 0 else 1
    ensures Sum(Sum(x, x), c) as int == Doubled(v)
  {
    DoubledBySum(v, ((v + v) % 0x1_0000_0000 + n) % 0x1_0000_0000, n);
    TwoSums(x, c, v, n);
  }

  lemma TopBitOff(x: word)
    requires x & 0x8000_0000 == 0
    ensures x as int < 0x8000_0000
  {
    PushZero(x, (x << 1) | 0);
  }

  lemma HighBit(low: word, x: word)
    requires low & 0x8000_0000 == 0 && x == low | 0x8000_0000
    ensures x as int == low as int + 0x8000_0000
  {
  }

  lemma LowBits(x: word, low: word)
    requires x & 0x8000_0000 != 0 && low == x & 0x7fff_ffff
    ensures low & 0x8000_0000 == 0 && x == low | 0x8000_0000
  {
  }

  lemma TopBitOn(x: word)
    requires x & 0x8000_0000 != 0
    ensures x as int >= 0x8000_0000
  {
    var low := x & 0x7fff_ffff;
    LowBits(x, low);
    HighBit(low, x);
  }

  lemma TurnOff(x: word)
    requires x & 0x8000_0000 == 0
    ensures RotateLeft(x, 1) == Sum(Sum(x, x), 0)
  {
  }

  lemma TurnOn(x: word)
    requires x & 0x8000_0000 != 0
    ensures RotateLeft(x, 1) == Sum(Sum(x, x), 1)
  {
  }

  lemma OneTurnOff(x: word)
    requires x & 0x8000_0000 == 0
    ensures RotateLeft(x, 1) as int == Doubled(x as int)
  {
    TurnOff(x);
    TopBitOff(x);
    DoubledByWords(x, 0, x as int, 0);
  }

  lemma OneTurnOn(x: word)
    requires x & 0x8000_0000 != 0
    ensures RotateLeft(x, 1) as int == Doubled(x as int)
  {
    TurnOn(x);
    TopBitOn(x);
    DoubledByWords(x, 1, x as int, 1);
  }

  lemma OneTurn(x: word)
    ensures RotateLeft(x, 1) as int == Doubled(x as int)
  {
    if x & 0x8000_0000 == 0 {
      OneTurnOff(x);
    } else {
      OneTurnOn(x);
    }
  }

  // Again decided distance by distance.

  lemma OneMoreTo8(x: word, y: word, n: rotation)
    requires 1 <= n <= 8 && y == RotateLeft(x, n)
    ensures RotateLeft(x, n + 1) == RotateLeft(y, 1)
  {
    if n == 1 { } else if n == 2 { } else if n == 3 { } else if n == 4 { }
    else if n == 5 { } else if n == 6 { } else if n == 7 { } else { }
  }

  lemma OneMoreTo16(x: word, y: word, n: rotation)
    requires 9 <= n <= 16 && y == RotateLeft(x, n)
    ensures RotateLeft(x, n + 1) == RotateLeft(y, 1)
  {
    if n == 9 { } else if n == 10 { } else if n == 11 { } else if n == 12 { }
    else if n == 13 { } else if n == 14 { } else if n == 15 { } else { }
  }

  lemma OneMoreTo24(x: word, y: word, n: rotation)
    requires 17 <= n <= 24 && y == RotateLeft(x, n)
    ensures RotateLeft(x, n + 1) == RotateLeft(y, 1)
  {
    if n == 17 { } else if n == 18 { } else if n == 19 { } else if n == 20 { }
    else if n == 21 { } else if n == 22 { } else if n == 23 { } else { }
  }

  lemma OneMoreTo30(x: word, y: word, n: rotation)
    requires 25 <= n <= 30 && y == RotateLeft(x, n)
    ensures RotateLeft(x, n + 1) == RotateLeft(y, 1)
  {
    if n == 25 { } else if n == 26 { } else if n == 27 { } else if n == 28 { }
    else if n == 29 { } else { }
  }

  lemma OneMore(x: word, n: rotation)
    requires n < 31
    ensures RotateLeft(x, n + 1) == RotateLeft(RotateLeft(x, n), 1)
  {
    var y := RotateLeft(x, n);
    if n <= 8 {
      OneMoreTo8(x, y, n);
    } else if n <= 16 {
      OneMoreTo16(x, y, n);
    } else if n <= 24 {
      OneMoreTo24(x, y, n);
    } else {
      OneMoreTo30(x, y, n);
    }
  }

  lemma OneLess(n: rotation, m: bv6)
    requires 1 < n && m == n - 1
    ensures 0 < m < 31 && m as int == n as int - 1 && n == m + 1
  {
  }

  lemma NextTurn(x: word, m: rotation, n: rotation)
    requires m < 31 && n == m + 1
    ensures RotateLeft(x, n) as int == Doubled(RotateLeft(x, m) as int)
  {
    OneMore(x, m);
    OneTurn(RotateLeft(x, m));
  }

  /** Rotating left by `n` doubles the number `n` times, the top bits coming back in below. */
  lemma {:induction false} RotateValue(x: word, n: rotation)
    ensures RotateLeft(x, n) as int == DoubledTimes(x as int, n as int)
    decreases n as int
  {
    if n == 1 {
      OneTurn(x);
    } else {
      var m: bv6 := n - 1;
      OneLess(n, m);
      RotateValue(x, m);
      NextTurn(x, m, n);
    }
  }

  // ------------------------------------------ registers as bytes, section 3.3

  /** The initial registers as RFC 1321 lists them, low-order bytes first. */
  const INITIAL_BYTES: seq<byte> := [
    0x01, 0x23, 0x45, 0x67, 0x89, 0xab, 0xcd, 0xef,
    0xfe, 0xdc, 0xba, 0x98, 0x76, 0x54, 0x32, 0x10
  ]

  lemma InitialBytes()
    ensures EncodeState(INITIAL) == INITIAL_BYTES
  {
  }

  lemma EncodedWord(words: seq<word>, k: nat)
    requires k < |words|
    ensures Bytes(words[k] as int, 4) == Values(EncodeWords(words))[4 * k..4 * k + 4]
  {
    EncodedAt(words, k);
    ValuesAt(EncodeWords(words), words[k], k, words[k] as int);
  }

  lemma FourQuarters(values: seq<uchar>)
    requires |values| == 16
    ensures values == values[0..4] + values[4..8] + values[8..12] + values[12..16]
  {
  }

  /** A digest is the numbers in A, B, C and D, each low byte first. */
  lemma EncodeStateValues(s: State)
    ensures Values(EncodeState(s))
            == Bytes(s.a as int, 4) + Bytes(s.b as int, 4) + Bytes(s.c as int, 4) + Bytes(s.d as int, 4)
  {
    var words := [s.a, s.b, s.c, s.d];
    EncodedWord(words, 0);
    EncodedWord(words, 1);
    EncodedWord(words, 2);
    EncodedWord(words, 3);
    FourQuarters(Values(EncodeWords(words)));
  }

  // --------------------------------------------- padding as bits, section 3.1

  /** Bit `k` of a byte, the high-order bit first. */
  predicate BitAt(b: byte, k: nat) {
    match k
    case 0 => b & 0x80 != 0
    case 1 => b & 0x40 != 0
    case 2 => b & 0x20 != 0
    case 3 => b & 0x10 != 0
    case 4 => b & 0x08 != 0
    case 5 => b & 0x04 != 0
    case 6 => b & 0x02 != 0
    case _ => b & 0x01 != 0
  }

  /** The bit string that bytes stand for (section 2). */
  function AllBits(bytes: seq<byte>): (bits: seq<bool>)
    ensures |bits| == 8 * |bytes|
  {
    seq(8 * |bytes|, i requires 0 <= i < 8 * |bytes| => BitAt(bytes[i / 8], i % 8))
  }

  function Falses(n: nat): (bits: seq<bool>)
    ensures |bits| == n
  {
    seq(n, _ => false)
  }

  lemma AllBitsAppend(a: seq<byte>, b: seq<byte>)
    ensures AllBits(a + b) == AllBits(a) + AllBits(b)
  {
  }

  lemma BitOfPadding(n: nat, i: nat)
    requires i < 8 * PadLength(n)
    ensures AllBits(Padding(n))[i] == (i == 0)
  {
  }

  /** The padding is a single one bit and then zero bits. */
  lemma PaddingBits(n: nat)
    ensures AllBits(Padding(n)) == [true] + Falses(8 * PadLength(n) - 1)
  {
    forall i | 0 <= i < 8 * PadLength(n)
      ensures AllBits(Padding(n))[i] == (i == 0)
    {
      BitOfPadding(n, i);
    }
  }

  lemma BitsModulo(n: nat, k: nat)
    requires (n + k) % 64 == 56
    ensures (8 * n + 8 * k) % 512 == 448
  {
  }

  /**
   The padded form in bits: the message, a one, the fewest zeros that reach 448
   modulo 512, and the 64 bits of the length field.
   */
  lemma PaddedBits(message: seq<byte>)
    ensures var k := 8 * PadLength(|message|) - 1;
            && AllBits(Padded(message)) == AllBits(message) + [true] + Falses(k) + AllBits(LengthField(|message|))
            && k < 512 && (|AllBits(message)| + 1 + k) % 512 == 448
  {
    AllBitsAppend(message, Padding(|message|));
    AllBitsAppend(message + Padding(|message|), LengthField(|message|));
    PaddingBits(|message|);
    BitsModulo(|message|, PadLength(|message|));
  }
}
