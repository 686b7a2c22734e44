/**
 What the streaming object stands for: the message so far, cut into the whole
 blocks that are already folded into the registers and the tail that waits.
 */
module Md5Stream {
  import opened Integers
  import opened Words
  import opened Md5Spec
  import opened Md5Padding

  /** How many bytes wait in the buffer. */
  function Pending(message: seq<byte>): (n: nat)
    ensures n < 64 && n <= |message|
  {
    |message| % 64
  }

  function Whole(message: seq<byte>): (w: seq<byte>)
    ensures |w| % 64 == 0
  {
    message[..|message| - Pending(message)]
  }

  function Tail(message: seq<byte>): (t: seq<byte>)
    ensures |t| == Pending(message)
  {
    message[|message| - Pending(message)..]
  }

  /**
   A function on registers and blocks.  The streaming lemmas hold for any such
   function; only `IsBlockFunction` ties it to the one of the RFC.
   */
  type BlockFunction = (State, seq<byte>) -> State

  ghost predicate IsBlockFunction(f: BlockFunction) {
    forall s: State, block: seq<byte> {:trigger Compress(s, block)} ::
      |block| == 64 ==> f(s, block) == Compress(s, block)
  }

  function FoldWith(f: BlockFunction, s: State, blocks: seq<byte>): State
    requires |blocks| % 64 == 0
  {
    if |blocks| == 0 then s
    else
      var j := |blocks| - 64;
      f(FoldWith(f, s, blocks[..j]), blocks[j..])
  }

  /** The registers after the whole blocks of a message. */
  function Absorbed(f: BlockFunction, message: seq<byte>): State {
    FoldWith(f, INITIAL, Whole(message))
  }

  /** The digest, for any block function. */
  function Hash(f: BlockFunction, message: seq<byte>): (digest: seq<byte>)
    ensures |digest| == 16
  {
    PaddedIsWhole(message);
    EncodeState(FoldWith(f, INITIAL, Padded(message)))
  }

  lemma BlockFunctionIs(f: BlockFunction, s: State, block: seq<byte>)
    requires IsBlockFunction(f) && |block| == 64
    ensures f(s, block) == Compress(s, block)
  {
  }

  lemma {:induction false} FoldWithIsFold(f: BlockFunction, s: State, blocks: seq<byte>)
    requires IsBlockFunction(f) && |blocks| % 64 == 0
    ensures FoldWith(f, s, blocks) == Fold(s, blocks)
  {
    if |blocks| == 0 {
    } else {
      var j := |blocks| - 64;
      FoldWithIsFold(f, s, blocks[..j]);
      BlockFunctionIs(f, Fold(s, blocks[..j]), blocks[j..]);
    }
  }

  /** With the block function of the RFC the digest is that of the RFC. */
  lemma HashIsMd5(f: BlockFunction, message: seq<byte>)
    requires IsBlockFunction(f)
    ensures Hash(f, message) == Md5(message)
  {
    PaddedIsWhole(message);
    FoldWithIsFold(f, INITIAL, Padded(message));
  }

  lemma FoldSnoc(f: BlockFunction, s: State, blocks: seq<byte>, block: seq<byte>)
    requires |blocks| % 64 == 0 && |block| == 64
    ensures |blocks + block| % 64 == 0
    ensures FoldWith(f, s, blocks + block) == f(FoldWith(f, s, blocks), block)
  {
    assert (blocks + block)[..|blocks|] == blocks;
    assert (blocks + block)[|blocks|..] == block;
  }

  // ------------------------------------- what the pieces of an update amount to

  lemma Residues(n: nat, k: nat)
    requires (n % 64 + k) % 64 == 0
    ensures (n + k) % 64 == 0
  {
  }

  /** The bytes that complete the waiting block. */
  lemma FillBlock(f: BlockFunction, m: seq<byte>, part: seq<byte>)
    requires |part| == 64 - Pending(m)
    ensures Pending(m + part) == 0
    ensures Absorbed(f, m + part) == f(Absorbed(f, m), Tail(m) + part)
  {
    Residues(|m|, |part|);
    FoldSnoc(f, INITIAL, Whole(m), Tail(m) + part);
    assert Whole(m + part) == Whole(m) + (Tail(m) + part);
  }

  /** A further whole block. */
  lemma NextBlock(f: BlockFunction, m: seq<byte>, block: seq<byte>)
    requires Pending(m) == 0 && |block| == 64
    ensures Pending(m + block) == 0
    ensures Absorbed(f, m + block) == f(Absorbed(f, m), block)
  {
    FoldSnoc(f, INITIAL, m, block);
    assert Whole(m) == m;
    assert Whole(m + block) == m + block;
  }

  /** The same, for a block inside the input of an update. */
  lemma NextBlockOf(f: BlockFunction, m: seq<byte>, input: seq<byte>, i: nat)
    requires i + 64 <= |input| && Pending(m + input[..i]) == 0
    ensures Pending(m + input[..i + 64]) == 0
    ensures Absorbed(f, m + input[..i + 64]) == f(Absorbed(f, m + input[..i]), input[i..i + 64])
  {
    NextBlock(f, m + input[..i], input[i..i + 64]);
    assert m + input[..i] + input[i..i + 64] == m + input[..i + 64];
  }

  lemma SmallSum(n: nat, k: nat)
    requires n % 64 + k < 64
    ensures (n + k) % 64 == n % 64 + k
  {
  }

  /** Bytes too few to complete a block. */
  lemma RestWaits(f: BlockFunction, m: seq<byte>, rest: seq<byte>)
    requires Pending(m) + |rest| < 64
    ensures Absorbed(f, m + rest) == Absorbed(f, m) && Tail(m + rest) == Tail(m) + rest
  {
    SmallSum(|m|, |rest|);
    assert Whole(m + rest) == Whole(m);
  }

  /** The end of an update: what is left of the input goes behind the tail. */
  lemma EndOfUpdate(f: BlockFunction, m: seq<byte>, input: seq<byte>, i: nat)
    requires i <= |input| && Pending(m + input[..i]) + (|input| - i) < 64
    ensures Absorbed(f, m + input) == Absorbed(f, m + input[..i])
    ensures Tail(m + input) == Tail(m + input[..i]) + input[i..]
  {
    RestWaits(f, m + input[..i], input[i..]);
    assert m + input[..i] + input[i..] == m + input;
  }

  // ------------------------------------------------------------ bit counter

  /** The 64-bit number in the two counter words. */
  function CountOf(low: uint32, high: uint32): nat {
    high * 0x1_0000_0000 + low
  }

  /** The two counter words hold `8 * n` modulo 2^64. */
  ghost predicate Counts(low: uint32, high: uint32, n: nat) {
    CountOf(low, high) == 8 * n % 0x1_0000_0000_0000_0000
  }

  /** `(length << 3)` in 32 bits. */
  function LowBitsOf(length: nat): uint32 {
    length % 0x1_0000_0000 * 8 % 0x1_0000_0000
  }

  function NextLow(low: uint32, length: nat): uint32 {
    (low + LowBitsOf(length)) % 0x1_0000_0000
  }

  /** The carry is noticed when the sum is below the summand. */
  function Carry(low: uint32, length: nat): (c: nat)
    ensures c <= 1
  {
    if NextLow(low, length) < LowBitsOf(length) then 1 else 0
  }

  function NextHigh(low: uint32, high: uint32, length: nat): uint32 {
    ((high + Carry(low, length)) % 0x1_0000_0000 + length % 0x1_0000_0000 / 0x2000_0000) % 0x1_0000_0000
  }

  /** Nothing of the length is lost between the two words. */
  lemma CarryIsExact(low: uint32, length: nat)
    requires length < 0x1_0000_0000
    ensures low + 8 * length == NextLow(low, length) + 0x1_0000_0000 * (length / 0x2000_0000 + Carry(low, length))
  {
    assert 8 * length == LowBitsOf(length) + 0x1_0000_0000 * (length / 0x2000_0000);
  }

  lemma WrapTwice(high: uint32, carry: nat, more: nat)
    requires carry <= 1
    ensures ((high + carry) % 0x1_0000_0000 + more) % 0x1_0000_0000 == (high + carry + more) % 0x1_0000_0000
  {
    assert (high + carry) % 0x1_0000_0000 == high + carry
           || (high + carry) % 0x1_0000_0000 == high + carry - 0x1_0000_0000;
  }

  lemma HighIsSum(low: uint32, high: uint32, length: nat)
    requires length < 0x1_0000_0000
    ensures NextHigh(low, high, length) == (high + Carry(low, length) + length / 0x2000_0000) % 0x1_0000_0000
  {
    assert length % 0x1_0000_0000 == length;
    WrapTwice(high, Carry(low, length), length / 0x2000_0000);
  }

  /** `8 * n` and a 64-bit pattern that agree modulo 2^64. */
  lemma Modulo64(x: int, q: int, high: int, low: int)
    requires x == q * 0x1_0000_0000_0000_0000 + 0x1_0000_0000 * high + low
    requires 0 <= low < 0x1_0000_0000 && 0 <= high < 0x1_0000_0000
    ensures x % 0x1_0000_0000_0000_0000 == high * 0x1_0000_0000 + low
  {
  }

  lemma Quotient64(x: nat, high: nat, low: nat)
    requires x % 0x1_0000_0000_0000_0000 == high * 0x1_0000_0000 + low
    ensures x == x / 0x1_0000_0000_0000_0000 * 0x1_0000_0000_0000_0000 + 0x1_0000_0000 * high + low
  {
  }

  lemma TwoWords(sum: nat, low: uint32)
    ensures (0x1_0000_0000 * sum + low) % 0x1_0000_0000_0000_0000 == sum % 0x1_0000_0000 * 0x1_0000_0000 + low
  {
    Modulo64(0x1_0000_0000 * sum + low, sum / 0x1_0000_0000, sum % 0x1_0000_0000, low);
  }

  /** The two words with their compare-based carry add modulo 2^64. */
  lemma AdditionIsExact(low: uint32, high: uint32, length: nat)
    requires length < 0x1_0000_0000
    ensures CountOf(NextLow(low, length), NextHigh(low, high, length))
            == (CountOf(low, high) + 8 * length) % 0x1_0000_0000_0000_0000
  {
    var sum := high + Carry(low, length) + length / 0x2000_0000;
    CarryIsExact(low, length);
    HighIsSum(low, high, length);
    TwoWords(sum, NextLow(low, length));
    assert CountOf(low, high) + 8 * length == 0x1_0000_0000 * sum + NextLow(low, length);
  }

  /** A count of `n` bytes and the addition of `length` more make a count of both. */
  lemma CounterAdvances(count: nat, n: nat, length: nat)
    requires count == 8 * n % 0x1_0000_0000_0000_0000
    ensures (count + 8 * length) % 0x1_0000_0000_0000_0000 == 8 * (n + length) % 0x1_0000_0000_0000_0000
  {
  }

  lemma DivideBy8(low: uint32, n: nat, q: nat)
    requires 8 * n == 0x1_0000_0000 * q + low
    ensures n == low / 8 + 0x2000_0000 * q
  {
  }

  lemma BlocksAway(x: nat, q: nat, y: nat)
    requires x == 64 * q + y
    ensures x % 64 == y % 64
  {
  }

  lemma ResidueOf(n: nat, m: nat, q: nat)
    requires n == m + 0x2000_0000 * q
    ensures n % 64 == m % 64
  {
    BlocksAway(n, 0x80_0000 * q, m);
  }

  /** `(count >> 3) & 0x3f` is the number of pending bytes. */
  lemma IndexIsPending(low: uint32, high: uint32, n: nat)
    requires Counts(low, high, n)
    ensures low / 8 % 64 == n % 64
  {
    Quotient64(8 * n, high, low);
    var q := 0x1_0000_0000 * (8 * n / 0x1_0000_0000_0000_0000) + high;
    DivideBy8(low, n, q);
    ResidueOf(n, low / 8, q);
  }

  /** The counter words are those of the length field. */
  lemma CounterWords(low: uint32, high: uint32, n: nat)
    requires Counts(low, high, n)
    ensures low == 8 * n % 0x1_0000_0000 && high == 8 * n / 0x1_0000_0000 % 0x1_0000_0000
  {
    var q := 8 * n / 0x1_0000_0000_0000_0000;
    assert 8 * n == 0x1_0000_0000 * (0x1_0000_0000 * q + high) + low;
    assert 8 * n / 0x1_0000_0000 == 0x1_0000_0000 * q + high;
  }

  /** What a fresh object holds. */
  lemma NothingYet(f: BlockFunction)
    ensures Absorbed(f, []) == INITIAL && Counts(0, 0, 0) && Tail([]) == []
  {
    assert Whole([]) == [];
  }

  // ------------------------------------------------------------- the buffer

  /**
   The whole buffer after an update, stale bytes included, when `n` bytes were
   pending: blocks after the first never pass through it.
   */
  function BufferAfter(buffer: seq<byte>, n: nat, input: seq<byte>): (after: seq<byte>)
    requires |buffer| == 64 && n < 64
    ensures |after| == 64
  {
    if n + |input| < 64 then buffer[..n] + input + buffer[n + |input|..]
    else
      var filled := buffer[..n] + input[..64 - n];
      var rest := (n + |input|) % 64;
      input[|input| - rest..] + filled[rest..]
  }

  /** The buffer between the two copies of an update, `i` bytes into the input. */
  function BufferMidway(buffer: seq<byte>, n: nat, input: seq<byte>): (midway: seq<byte>)
    requires |buffer| == 64 && n < 64
    ensures |midway| == 64
  {
    if n + |input| < 64 then buffer else buffer[..n] + input[..64 - n]
  }

  lemma Leftover(n: nat, length: nat, i: nat)
    requires n < 64 && 64 <= n + length && i <= length < i + 64 && (n + i) % 64 == 0
    ensures length - i == (n + length) % 64
  {
  }

  lemma CopyInFront(midway: seq<byte>, input: seq<byte>, i: nat)
    requires i <= |input| && |input| - i <= |midway|
    ensures midway[..0] + input[i..] + midway[|input| - i..] == input[i..] + midway[|input| - i..]
  {
    assert midway[..0] + input[i..] == input[i..];
  }

  lemma BufferAfterBlocks(buffer: seq<byte>, n: nat, input: seq<byte>, rest: nat)
    requires |buffer| == 64 && n < 64 <= n + |input| && rest == (n + |input|) % 64
    ensures rest <= |input|
    ensures BufferAfter(buffer, n, input) == input[|input| - rest..] + BufferMidway(buffer, n, input)[rest..]
  {
  }

  lemma LongBufferAfter(buffer: seq<byte>, n: nat, input: seq<byte>, i: nat)
    requires |buffer| == 64 && n < 64 && i <= |input| < i + 64
    requires 64 <= n + |input| && (n + i) % 64 == 0
    ensures BufferAfter(buffer, n, input) == input[i..] + BufferMidway(buffer, n, input)[|input| - i..]
  {
    Leftover(n, |input|, i);
    BufferAfterBlocks(buffer, n, input, |input| - i);
  }

  /** The whole buffer after the second copy, for both branches before it. */
  lemma SecondCopy(buffer: seq<byte>, midway: seq<byte>, n: nat, input: seq<byte>, i: nat, index: nat)
    requires |buffer| == 64 && n < 64 && i <= |input| < i + 64
    requires if n + |input| < 64 then i == 0 && index == n else index == 0 && (n + i) % 64 == 0
    requires midway == BufferMidway(buffer, n, input)
    ensures index + (|input| - i) <= 64
    ensures midway[..index] + input[i..] + midway[index + (|input| - i)..] == BufferAfter(buffer, n, input)
  {
    if 64 <= n + |input| {
      LongBufferAfter(buffer, n, input, i);
      CopyInFront(midway, input, i);
    } else {
      assert input[i..] == input;
    }
  }

  /** What the second copy leaves at the front of the buffer. */
  lemma FrontOfBuffer(midway: seq<byte>, rest: nat, piece: seq<byte>, tail: seq<byte>)
    requires rest + |piece| <= |midway| && midway[..rest] == tail
    ensures (midway[..rest] + piece + midway[rest + |piece|..])[..rest + |piece|] == tail + piece
  {
  }

  lemma NothingWaits(m: seq<byte>, input: seq<byte>, i: nat)
    requires i <= |input| && Pending(m + input[..i]) == 0
    ensures (Pending(m) + i) % 64 == 0 && Tail(m + input[..i]) == []
  {
  }

  lemma NothingTaken(m: seq<byte>, input: seq<byte>)
    ensures m + input[..0] == m
  {
  }

  // ------------------------------------------------------ finishing a digest

  /** What the two updates of `final` leave in the buffer when padding overflows it. */
  function Leftovers(n: nat): (bytes: seq<byte>)
    ensures |bytes| == 64
  {
    Zeros(56) + LengthField(n)
  }

  /**
   The message that the object stands for after a digest.  Registers and counter
   are restored but the buffer is not, so a tail of 56 bytes or more is lost.
   */
  function AfterDigest(message: seq<byte>): (after: seq<byte>)
    ensures |after| == |message|
  {
    if Pending(message) < 56 then message
    else Whole(message) + Leftovers(|message|)[..Pending(message)]
  }

  lemma AfterDigestParts(message: seq<byte>)
    ensures Whole(AfterDigest(message)) == Whole(message)
    ensures Pending(message) < 56 ==> Tail(AfterDigest(message)) == Tail(message)
    ensures Pending(message) >= 56 ==> Tail(AfterDigest(message)) == Leftovers(|message|)[..Pending(message)]
  {
  }

  /** The buffer after the padding and the length have gone through it. */
  lemma BufferAfterFinal(buffer: seq<byte>, n: nat, pad: seq<byte>, bits: seq<byte>)
    requires |buffer| == 64 && n < 64 && |bits| == 8
    requires |pad| == (if n < 56 then 56 - n else 120 - n)
    ensures BufferAfter(BufferAfter(buffer, n, pad), 56, bits)
            == (if n < 56 then buffer[..n] + pad else pad[64 - n..]) + bits
  {
  }

  lemma ZerosFrom(n: nat, k: nat)
    requires 1 <= k <= PadLength(n)
    ensures Padding(n)[k..] == Zeros(PadLength(n) - k)
  {
  }

  /** The pending bytes that the buffer holds after `final`. */
  lemma FinalTail(buffer: seq<byte>, message: seq<byte>, after: seq<byte>)
    requires |buffer| == 64 && buffer[..Pending(message)] == Tail(message)
    requires after == BufferAfter(BufferAfter(buffer, Pending(message), Padding(|message|)), 56, LengthField(|message|))
    ensures after[..Pending(message)] == Tail(AfterDigest(message))
  {
    var n := Pending(message);
    PadLengthByBranch(|message|);
    BufferAfterFinal(buffer, n, Padding(|message|), LengthField(|message|));
    AfterDigestParts(message);
    if n >= 56 {
      ZerosFrom(|message|, 64 - n);
    }
  }

  /** The digest is there once the padded form of the message has been absorbed. */
  lemma HashOfAbsorbed(f: BlockFunction, message: seq<byte>)
    ensures Pending(Padded(message)) == 0
    ensures Hash(f, message) == EncodeState(Absorbed(f, Padded(message)))
  {
    PaddedIsWhole(message);
    assert Whole(Padded(message)) == Padded(message);
  }

  /** Registers, counter and buffer of before, with the buffer's new tail. */
  lemma Restored(f: BlockFunction, message: seq<byte>, low: uint32, high: uint32)
    requires Counts(low, high, |message|)
    ensures Counts(low, high, |AfterDigest(message)|)
    ensures Absorbed(f, AfterDigest(message)) == Absorbed(f, message)
    ensures Pending(AfterDigest(message)) == Pending(message)
  {
    AfterDigestParts(message);
  }

  lemma PendingAfterPadding(message: seq<byte>)
    ensures Pending(message + Padding(|message|)) == 56
  {
  }

  lemma CountField(low: uint32, high: uint32, n: nat)
    requires Counts(low, high, n)
    ensures EncodeWords([WordBits(low), WordBits(high)]) == LengthField(n)
  {
    CounterWords(low, high, n);
  }
}
