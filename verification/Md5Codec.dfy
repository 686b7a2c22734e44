/**
 The byte orders of the MD5 code: words to bytes and back, and bytes to
 hexadecimal text and back.
 */
module Md5Codec {
  import opened Integers
  import opened Words
  import opened Md5Spec

  /** The four bytes of a word lie where the word's place says. */
  ghost predicate WordAt(bytes: seq<byte>, w: word, k: nat)
    requires 4 * k + 3 < |bytes|
  {
    && bytes[4 * k] == ByteAt(w, 0) && bytes[4 * k + 1] == ByteAt(w, 1)
    && bytes[4 * k + 2] == ByteAt(w, 2) && bytes[4 * k + 3] == ByteAt(w, 3)
  }

  lemma PlaceOf(k: nat, r: nat)
    requires r < 4
    ensures (4 * k + r) / 4 == k && (4 * k + r) % 4 == r
  {
  }

  lemma EncodedAt(words: seq<word>, k: nat)
    requires k < |words|
    ensures WordAt(EncodeWords(words), words[k], k)
  {
    PlaceOf(k, 0);
    PlaceOf(k, 1);
    PlaceOf(k, 2);
    PlaceOf(k, 3);
  }

  lemma DecodedAt(bytes: seq<byte>, w: word, k: nat)
    requires |bytes| % 4 == 0 && 4 * k + 3 < |bytes| && WordAt(bytes, w, k)
    ensures DecodeWords(bytes)[k] == w
  {
    JoinOfBytes(w);
  }

  /** Encoding loses no word. */
  lemma DecodeEncode(words: seq<word>)
    ensures DecodeWords(EncodeWords(words)) == words
  {
    forall k | 0 <= k < |words|
      ensures DecodeWords(EncodeWords(words))[k] == words[k]
    {
      EncodedAt(words, k);
      DecodedAt(EncodeWords(words), words[k], k);
    }
  }

  /** Decoding loses no byte. */
  lemma EncodeDecode(bytes: seq<byte>)
    requires |bytes| % 4 == 0
    ensures EncodeWords(DecodeWords(bytes)) == bytes
  {
    var words := DecodeWords(bytes);
    forall i | 0 <= i < |bytes|
      ensures EncodeWords(words)[i] == bytes[i]
    {
      var k := i / 4;
      BytesOfJoin(bytes[4 * k], bytes[4 * k + 1], bytes[4 * k + 2], bytes[4 * k + 3]);
    }
  }

  /** Different register states have different digests. */
  lemma EncodeStateInjective(s: State, t: State)
    requires EncodeState(s) == EncodeState(t)
    ensures s == t
  {
    DecodeEncode([s.a, s.b, s.c, s.d]);
    DecodeEncode([t.a, t.b, t.c, t.d]);
    assert [s.a, s.b, s.c, s.d] == [t.a, t.b, t.c, t.d];
  }

  lemma ByteOfWord(bytes: seq<byte>, w: word, k: nat, r: nat)
    requires r < 4 && 4 * k + 3 < |bytes| && WordAt(bytes, w, k)
    ensures bytes[4 * k + r] == ByteAt(w, r)
  {
  }

  lemma EncodedByte(words: seq<word>, i: nat)
    requires i < 4 * |words|
    ensures EncodeWords(words)[i] == ByteAt(words[i / 4], i % 4)
  {
  }

  lemma AllEncoded(words: seq<word>, bytes: seq<byte>, n: nat)
    requires n <= |words| && 4 * n <= |bytes|
    requires forall k :: 0 <= k < n ==> WordAt(bytes, words[k], k)
    ensures bytes[..4 * n] == EncodeWords(words[..n])
  {
    forall i | 0 <= i < 4 * n
      ensures bytes[i] == EncodeWords(words[..n])[i]
    {
      ByteOfWord(bytes, words[i / 4], i / 4, i % 4);
      EncodedByte(words[..n], i);
    }
  }

  /** `MD5::encode`: the loop over the words. */
  method Encode(input: seq<word>, output: array<byte>, length: nat)
    requires length % 4 == 0 && length <= 4 * |input| && length <= output.Length
    modifies output
    ensures output[..length] == EncodeWords(input[..length / 4])
    ensures output[length..] == old(output[length..])
  {
    var i, j := 0, 0;
    while j < length
      invariant j == 4 * i && j <= length
      invariant forall k :: 0 <= k < i ==> WordAt(output[..], input[k], k)
      invariant forall k :: length <= k < output.Length ==> output[k] == old(output[k])
    {
      output[j] := (input[i] & 0xff) as bv8;
      output[j + 1] := ((input[i] >> 8) & 0xff) as bv8;
      output[j + 2] := ((input[i] >> 16) & 0xff) as bv8;
      output[j + 3] := ((input[i] >> 24) & 0xff) as bv8;
      i, j := i + 1, j + 4;
    }
    AllEncoded(input, output[..], i);
  }

  /** `MD5::decode`: the loop over the bytes. */
  method Decode(input: seq<byte>, output: array<word>, length: nat)
    requires length % 4 == 0 && length <= |input| && length <= 4 * output.Length
    modifies output
    ensures output[..length / 4] == DecodeWords(input[..length])
    ensures output[length / 4..] == old(output[length / 4..])
  {
    var i, j := 0, 0;
    while j < length
      invariant j == 4 * i && j <= length
      invariant forall k :: 0 <= k < i ==>
                  output[k] == Join(input[4 * k], input[4 * k + 1], input[4 * k + 2], input[4 * k + 3])
      invariant forall k :: length / 4 <= k < output.Length ==> output[k] == old(output[k])
    {
      output[i] := (input[j] as bv32) | ((input[j + 1] as bv32) << 8) |
                   ((input[j + 2] as bv32) << 16) | ((input[j + 3] as bv32) << 24);
      i, j := i + 1, j + 4;
    }
  }

  // -------------------------------------------------------------- hexadecimal

  const HEX := ['0', '1', '2', '3', '4', '5', '6', '7', '8', '9', 'a', 'b', 'c', 'd', 'e', 'f']

  function HexDigit(n: nat): char
    requires n < 16
  {
    if n < 10 then '0' + n as char else 'a' + (n - 10) as char
  }

  predicate IsHexDigit(c: char) {
    '0' <= c <= '9' || 'a' <= c <= 'f'
  }

  /** The numbers that bytes stand for. */
  function Values(bytes: seq<byte>): (values: seq<uchar>)
    ensures |values| == |bytes|
  {
    seq(|bytes|, i requires 0 <= i < |bytes| => bytes[i] as int)
  }

  /** Two lower-case digits a value, high half first. */
  function Hex(values: seq<uchar>): (text: string)
    ensures |text| == 2 * |values|
    ensures forall i :: 0 <= i < |text| ==> IsHexDigit(text[i])
  {
    seq(2 * |values|, i requires 0 <= i < 2 * |values| =>
      HexDigit(if i % 2 == 0 then values[i / 2] / 16 else values[i / 2] % 16))
  }

  function DigitValue(c: char): (n: nat)
    requires IsHexDigit(c)
    ensures n < 16
  {
    if c <= '9' then (c - '0') as nat else (c - 'a') as nat + 10
  }

  /** The reader of such a text. */
  function ParseHex(text: string): seq<uchar>
    requires |text| % 2 == 0
    requires forall i :: 0 <= i < |text| ==> IsHexDigit(text[i])
  {
    seq(|text| / 2, k requires 0 <= k < |text| / 2 => 16 * DigitValue(text[2 * k]) + DigitValue(text[2 * k + 1]))
  }

  lemma DigitRoundTrip(n: nat)
    requires n < 16
    ensures IsHexDigit(HexDigit(n)) && DigitValue(HexDigit(n)) == n
  {
  }

  lemma TableDigit(n: nat)
    requires n < 16
    ensures HEX[n] == HexDigit(n)
  {
  }

  lemma HexAt(values: seq<uchar>, i: nat)
    requires i < |values|
    ensures Hex(values)[2 * i] == HexDigit(values[i] / 16) && Hex(values)[2 * i + 1] == HexDigit(values[i] % 16)
  {
  }

  /** The sixteen digits in order. */
  lemma HexAlphabet()
    ensures Hex([0x01, 0x23, 0x45, 0x67, 0x89, 0xab, 0xcd, 0xef]) == "0123456789abcdef"
  {
  }

  /** Hexadecimal text loses nothing: reading it gives the values back. */
  lemma ParseOfHex(values: seq<uchar>)
    ensures ParseHex(Hex(values)) == values
  {
    var text := Hex(values);
    forall k | 0 <= k < |values|
      ensures ParseHex(text)[k] == values[k]
    {
      HexAt(values, k);
      DigitRoundTrip(values[k] / 16);
      DigitRoundTrip(values[k] % 16);
    }
  }

  lemma ByteEquality(a: byte, b: byte)
    requires a as int == b as int
    ensures a == b
  {
    assert (a as int) as bv8 == a;
    assert (b as int) as bv8 == b;
  }

  /** The text of a digest determines the digest. */
  lemma HexInjective(a: seq<byte>, b: seq<byte>)
    requires Hex(Values(a)) == Hex(Values(b))
    ensures a == b
  {
    ParseOfHex(Values(a));
    ParseOfHex(Values(b));
    assert |a| == |Values(a)| == |Values(b)| == |b|;
    forall i | 0 <= i < |a|
      ensures a[i] == b[i]
    {
      assert Values(a)[i] == Values(b)[i];
      ByteEquality(a[i], b[i]);
    }
  }

  lemma TakeTwoMore(text: string, i: nat)
    requires i + 2 <= |text|
    ensures text[..i] + [text[i]] + [text[i + 1]] == text[..i + 2]
  {
  }

  lemma HexGrows(values: seq<uchar>, i: nat, t: uchar)
    requires i < |values| && t == values[i]
    ensures Hex(values)[..2 * i] + [HEX[t / 16]] + [HEX[t % 16]] == Hex(values)[..2 * i + 2]
  {
    TableDigit(t / 16);
    TableDigit(t % 16);
    HexAt(values, i);
    TakeTwoMore(Hex(values), 2 * i);
  }

  /** `MD5::bytesToHexString`. */
  method BytesToHexString(input: seq<byte>) returns (str: string)
    ensures str == Hex(Values(input))
  {
    str := "";
    for i := 0 to |input|
      invariant str == Hex(Values(input))[..2 * i]
    {
      var t := input[i] as int;
      var a := t / 16;
      var b := t % 16;
      HexGrows(Values(input), i, t);
      str := str + [HEX[a]];
      str := str + [HEX[b]];
    }
  }
}
