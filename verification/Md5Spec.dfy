/**
 MD5 as RFC 1321 defines it: one function from a whole message to its digest,
 with no buffer, no counter and no chunks.  Section numbers refer to that RFC.
 */
module Md5Spec {
  import opened Words

  /** The four-word buffer (A, B, C, D) of section 3.3. */
  datatype State = State(a: word, b: word, c: word, d: word)

  const INITIAL := State(0x67452301, 0xefcdab89, 0x98badcfe, 0x10325476)

  // ------------------------------------------- section 3.4: one 64-byte block

  function F(x: word, y: word, z: word): word { (x & y) | (!x & z) }
  function G(x: word, y: word, z: word): word { (x & z) | (y & !z) }
  function H(x: word, y: word, z: word): word { x ^ y ^ z }
  function I(x: word, y: word, z: word): word { y ^ (x | !z) }

  /** The four rounds, each with its auxiliary function. */
  datatype Round = Round1 | Round2 | Round3 | Round4 {
    function Auxiliary(x: word, y: word, z: word): word {
      match this
      case Round1 => F(x, y, z)
      case Round2 => G(x, y, z)
      case Round3 => H(x, y, z)
      case Round4 => I(x, y, z)
    }
  }

  type rotation = n: bv6 | 0 < n < 32 witness 1

  /** One line `[abcd k s i]` of the RFC with the word `X[k]` looked up. */
  datatype Op = Op(round: Round, x: word, shift: rotation, constant: word)

  /** Which of the sixteen words of the block step `j` of a round reads. */
  function WordIndex(round: Round, j: nat): (k: nat)
    requires j < 16
    ensures k < 16
  {
    match round
    case Round1 => j
    case Round2 => (1 + 5 * j) % 16
    case Round3 => (5 + 3 * j) % 16
    case Round4 => 7 * j % 16
  }

  /** The entry for position `j` in a row of four. */
  function Pick<T>(j: nat, t0: T, t1: T, t2: T, t3: T): T {
    if j == 0 then t0 else if j == 1 then t1 else if j == 2 then t2 else t3
  }

  /** How far step `j` of a round rotates. */
  function Shift(round: Round, j: nat): rotation {
    match round
    case Round1 => Pick(j % 4, 7, 12, 17, 22)
    case Round2 => Pick(j % 4, 5, 9, 14, 20)
    case Round3 => Pick(j % 4, 4, 11, 16, 23)
    case Round4 => Pick(j % 4, 6, 10, 15, 21)
  }

  /** The additive constant of step `j` of a round, from the table T of the RFC. */
  function Additive(round: Round, j: nat): word {
    match round
    case Round1 =>
      if j < 4 then Pick(j, 0xd76aa478, 0xe8c7b756, 0x242070db, 0xc1bdceee)
      else if j < 8 then Pick(j - 4, 0xf57c0faf, 0x4787c62a, 0xa8304613, 0xfd469501)
      else if j < 12 then Pick(j - 8, 0x698098d8, 0x8b44f7af, 0xffff5bb1, 0x895cd7be)
      else Pick(j - 12, 0x6b901122, 0xfd987193, 0xa679438e, 0x49b40821)
    case Round2 =>
      if j < 4 then Pick(j, 0xf61e2562, 0xc040b340, 0x265e5a51, 0xe9b6c7aa)
      else if j < 8 then Pick(j - 4, 0xd62f105d, 0x02441453, 0xd8a1e681, 0xe7d3fbc8)
      else if j < 12 then Pick(j - 8, 0x21e1cde6, 0xc33707d6, 0xf4d50d87, 0x455a14ed)
      else Pick(j - 12, 0xa9e3e905, 0xfcefa3f8, 0x676f02d9, 0x8d2a4c8a)
    case Round3 =>
      if j < 4 then Pick(j, 0xfffa3942, 0x8771f681, 0x6d9d6122, 0xfde5380c)
      else if j < 8 then Pick(j - 4, 0xa4beea44, 0x4bdecfa9, 0xf6bb4b60, 0xbebfbc70)
      else if j < 12 then Pick(j - 8, 0x289b7ec6, 0xeaa127fa, 0xd4ef3085, 0x04881d05)
      else Pick(j - 12, 0xd9d4d039, 0xe6db99e5, 0x1fa27cf8, 0xc4ac5665)
    case Round4 =>
      if j < 4 then Pick(j, 0xf4292244, 0x432aff97, 0xab9423a7, 0xfc93a039)
      else if j < 8 then Pick(j - 4, 0x655b59c3, 0x8f0ccc92, 0xffeff47d, 0x85845dd1)
      else if j < 12 then Pick(j - 8, 0x6fa87e4f, 0xfe2ce6e0, 0xa3014314, 0x4e0811a1)
      else Pick(j - 12, 0xf7537e82, 0xbd3af235, 0x2ad7d2bb, 0xeb86d391)
  }

  /** Circular left shift. */
  function RotateLeft(x: word, n: rotation): word {
    (x << n) | (x >> (32 - n))
  }

  /** Step `j` of a round. */
  function OpAt(x: seq<word>, round: Round, j: nat): Op
    requires |x| == 16 && j < 16
  {
    Op(round, x[WordIndex(round, j)], Shift(round, j), Additive(round, j))
  }

  function RoundOps(x: seq<word>, round: Round): (ops: seq<Op>)
    requires |x| == 16
    ensures |ops| == 16
  {
    seq(16, j requires 0 <= j < 16 => OpAt(x, round, j))
  }

  /** The sixty-four steps on the sixteen words of a block. */
  function Schedule(x: seq<word>): (ops: seq<Op>)
    requires |x| == 16
    ensures |ops| == 64
  {
    RoundOps(x, Round1) + RoundOps(x, Round2) + RoundOps(x, Round3) + RoundOps(x, Round4)
  }

  /** The new value of the register in role A. */
  function Turn(a: word, b: word, f: word, x: word, t: word, n: rotation): word {
    b + RotateLeft(a + f + x + t, n)
  }

  /**
   One step: the register in role A is replaced, and then every register moves
   on by one role.
   */
  function Step(s: State, op: Op): State {
    State(s.d, Turn(s.a, s.b, op.round.Auxiliary(s.b, s.c, s.d), op.x, op.constant, op.shift), s.b, s.c)
  }

  /** The registers after all the steps. */
  function Steps(s: State, ops: seq<Op>): State
    decreases |ops|
  {
    if |ops| == 0 then s else Steps(Step(s, ops[0]), ops[1..])
  }

  function Plus(s: State, t: State): State {
    State(Sum(s.a, t.a), Sum(s.b, t.b), Sum(s.c, t.c), Sum(s.d, t.d))
  }

  /** A block of bytes as words, low-order byte first (section 2). */
  function DecodeWords(bytes: seq<byte>): (words: seq<word>)
    requires |bytes| % 4 == 0
    ensures 4 * |words| == |bytes|
  {
    seq(|bytes| / 4, k requires 0 <= k < |bytes| / 4 =>
      Join(bytes[4 * k], bytes[4 * k + 1], bytes[4 * k + 2], bytes[4 * k + 3]))
  }

  /** The block function: four rounds over the sixteen words, then the sums. */
  function Compress(s: State, block: seq<byte>): State
    requires |block| == 64
  {
    Plus(s, Steps(s, Schedule(DecodeWords(block))))
  }

  // ------------------------------------------------ sections 3.1, 3.2 and 3.5

  /** Words as bytes, low-order byte first. */
  function EncodeWords(words: seq<word>): (bytes: seq<byte>)
    ensures |bytes| == 4 * |words|
  {
    seq(4 * |words|, i requires 0 <= i < 4 * |words| => ByteAt(words[i / 4], i % 4))
  }

  function Zeros(n: nat): (bytes: seq<byte>)
    ensures |bytes| == n
  {
    seq(n, _ => 0)
  }

  /** The 64-bit bit length of an `n`-byte message, low-order word first. */
  function LengthField(n: nat): (bytes: seq<byte>)
    ensures |bytes| == 8
  {
    EncodeWords([WordBits(8 * n % 0x1_0000_0000), WordBits(8 * n / 0x1_0000_0000 % 0x1_0000_0000)])
  }

  /** How many padding bytes bring an `n`-byte message to 56 modulo 64. */
  function PadLength(n: nat): (k: nat)
    ensures 1 <= k <= 64 && (n + k) % 64 == 56
  {
    1 + (119 - n % 64) % 64
  }

  /** Section 3.1: a one bit, then zero bits. */
  function Padding(n: nat): (bytes: seq<byte>)
    ensures |bytes| == PadLength(n)
  {
    [0x80] + Zeros(PadLength(n) - 1)
  }

  function Padded(message: seq<byte>): (p: seq<byte>)
    ensures |p| == |message| + PadLength(|message|) + 8
  {
    message + Padding(|message|) + LengthField(|message|)
  }

  lemma WholeBlocks(n: nat, k: nat)
    requires (n + k) % 64 == 56
    ensures (n + k + 8) % 64 == 0
  {
  }

  lemma PaddedIsWhole(message: seq<byte>)
    ensures |Padded(message)| % 64 == 0
  {
    WholeBlocks(|message|, PadLength(|message|));
  }

  /** The block function folded over a whole number of blocks. */
  function Fold(s: State, blocks: seq<byte>): State
    requires |blocks| % 64 == 0
  {
    if |blocks| == 0 then s
    else
      var j := |blocks| - 64;
      Compress(Fold(s, blocks[..j]), blocks[j..])
  }

  function EncodeState(s: State): (bytes: seq<byte>)
    ensures |bytes| == 16
  {
    EncodeWords([s.a, s.b, s.c, s.d])
  }

  /** The MD5 digest of a message. */
  function Md5(message: seq<byte>): (digest: seq<byte>)
    ensures |digest| == 16
  {
    PaddedIsWhole(message);
    EncodeState(Fold(INITIAL, Padded(message)))
  }
}
