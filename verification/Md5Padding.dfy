/**
 The padding of sections 3.1 and 3.2 of RFC 1321: how long it is, and that the
 padded form determines the message.
 */
module Md5Padding {
  import opened ByteOrder
  import opened Integers
  import opened Words
  import opened Md5Spec
  import opened Md5Codec

  lemma SameResidue(x: nat, y: nat)
    requires x % 64 == y % 64 && -64 < x - y < 64
    ensures x == y
  {
  }

  /** There is exactly one padding length from 1 to 64 that reaches 56 modulo 64. */
  lemma PadLengthUnique(n: nat, k: nat)
    requires 1 <= k <= 64 && (n + k) % 64 == 56
    ensures k == PadLength(n)
  {
    SameResidue(n + k, n + PadLength(n));
  }

  /** The two-branch formula of `MD5::final`. */
  lemma PadLengthByBranch(n: nat)
    ensures PadLength(n) == if n % 64 < 56 then 56 - n % 64 else 120 - n % 64
  {
  }

  // ------------------------------------------------------ the length field

  lemma FourValues(values: seq<uchar>, i: nat, n: nat)
    requires i + 4 <= |values|
    requires n == values[i] as int + 0x100 * values[i + 1] as int
                  + 0x1_0000 * values[i + 2] as int + 0x100_0000 * values[i + 3] as int
    ensures Bytes(n, 4) == values[i..i + 4]
  {
    Unfold4(values[i..i + 4]);
    StoreOfLoad(values[i..i + 4]);
  }

  lemma ValuesOfFour(bytes: seq<byte>, i: nat, n: nat)
    requires i + 3 < |bytes|
    requires n == (bytes[i] as int) + 0x100 * (bytes[i + 1] as int)
                  + 0x1_0000 * (bytes[i + 2] as int) + 0x100_0000 * (bytes[i + 3] as int)
    ensures Bytes(n, 4) == Values(bytes)[i..i + 4]
  {
    FourValues(Values(bytes), i, n);
  }

  lemma ValuesAt(bytes: seq<byte>, w: word, k: nat, n: nat)
    requires 4 * k + 3 < |bytes| && WordAt(bytes, w, k) && w as int == n
    ensures Bytes(n, 4) == Values(bytes)[4 * k..4 * k + 4]
  {
    WordValue(w, bytes[4 * k], bytes[4 * k + 1], bytes[4 * k + 2], bytes[4 * k + 3]);
    ValuesOfFour(bytes, 4 * k, n);
  }

  /** The bytes of a counter word are the four low bytes of the number it holds. */
  lemma WordBytes(n: uint32, k: nat, words: seq<word>)
    requires k < |words| && words[k] == WordBits(n)
    ensures Bytes(n, 4) == Values(EncodeWords(words))[4 * k..4 * k + 4]
  {
    EncodedAt(words, k);
    WordBitsValue(n);
    ValuesAt(EncodeWords(words), words[k], k, n);
  }

  lemma HalvesOf(x: nat)
    ensures x % 0x1_0000_0000_0000_0000 % 0x1_0000_0000 == x % 0x1_0000_0000
    ensures x % 0x1_0000_0000_0000_0000 / 0x1_0000_0000 == x / 0x1_0000_0000 % 0x1_0000_0000
  {
  }

  /** The length field is the bit length modulo 2^64, low byte first. */
  lemma LengthFieldBytes(n: nat)
    ensures Values(LengthField(n)) == Bytes(8 * n % 0x1_0000_0000_0000_0000, 8)
  {
    var low, high := 8 * n % 0x1_0000_0000, 8 * n / 0x1_0000_0000 % 0x1_0000_0000;
    var words := [WordBits(low), WordBits(high)];
    WordBytes(low, 0, words);
    WordBytes(high, 1, words);
    HalvesOf(8 * n);
    TwoHalves(8 * n % 0x1_0000_0000_0000_0000);
    var values := Values(LengthField(n));
    assert values == values[0..4] + values[4..8];
  }

  lemma SameMultiple(m: nat, n: nat)
    requires 8 * m % 0x1_0000_0000_0000_0000 == 8 * n % 0x1_0000_0000_0000_0000
    requires -0x2000_0000_0000_0000 < m - n < 0x2000_0000_0000_0000
    ensures m == n
  {
  }

  lemma NumberOf(values: seq<uchar>, x: uint64)
    requires values == Bytes(x, 8)
    ensures Value(values) == x
  {
    LoadOfStore(x, 8);
    Powers();
  }

  lemma FieldNumber(field: seq<byte>, n: nat)
    requires field == LengthField(n)
    ensures Value(Values(field)) == 8 * n % 0x1_0000_0000_0000_0000
  {
    LengthFieldBytes(n);
    NumberOf(Values(field), 8 * n % 0x1_0000_0000_0000_0000);
  }

  /** The length field determines the length, up to 2^61. */
  lemma LengthFieldInjective(m: nat, n: nat)
    requires LengthField(m) == LengthField(n)
    requires -0x2000_0000_0000_0000 < m - n < 0x2000_0000_0000_0000
    ensures m == n
  {
    FieldNumber(LengthField(m), m);
    FieldNumber(LengthField(m), n);
    SameMultiple(m, n);
  }

  lemma PaddedEndsWithLength(message: seq<byte>)
    ensures var p := Padded(message); p[|p| - 8..] == LengthField(|message|)
  {
  }

  lemma PaddedStartsWithMessage(message: seq<byte>)
    ensures Padded(message)[..|message|] == message
  {
  }

  lemma SamePaddedLength(a: seq<byte>, b: seq<byte>)
    requires |Padded(a)| == |Padded(b)|
    ensures -64 < |a| - |b| < 64
  {
    assert |a| + PadLength(|a|) == |b| + PadLength(|b|);
  }

  /** Messages of any lengths have the same padded form only if they are equal. */
  lemma PaddedInjective(a: seq<byte>, b: seq<byte>)
    ensures Padded(a) == Padded(b) <==> a == b
  {
    if Padded(a) == Padded(b) {
      PaddedEndsWithLength(a);
      PaddedEndsWithLength(b);
      SamePaddedLength(a, b);
      LengthFieldInjective(|a|, |b|);
      PaddedStartsWithMessage(a);
      PaddedStartsWithMessage(b);
    }
  }
}
