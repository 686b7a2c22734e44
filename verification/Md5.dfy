/**
 The class `MD5`: registers, bit counter and block buffer, updated in place.
 The ghost field `message` is the byte string the object stands for.
 */
module Md5Object {
  import opened ByteOrder
  import opened Integers
  import opened Words
  import opened Md5Spec
  import opened Md5Codec
  import opened Md5Rounds
  import opened Md5Padding
  import opened Md5Stream
  import opened Md5Loop
  import opened Md5Meaning

  const PADDING: seq<byte> := [0x80] + Zeros(63)

  lemma PaddingPrefix(n: nat)
    ensures PADDING[..PadLength(n)] == Padding(n)
  {
  }

  lemma TakeMore(m: seq<byte>, contents: seq<byte>, read: nat, length: nat)
    requires read + length <= |contents|
    ensures m + contents[..read] + contents[read..read + length] == m + contents[..read + length]
  {
  }

  class MD5 {
    /** The four registers `_state[0]` to `_state[3]`. */
    var state: State
    /** The counter words `_count[0]` and `_count[1]`. */
    var low: uint32
    var high: uint32
    const buffer: array<byte>
    const digestBytes: array<byte>
    var finished: bool
    ghost var message: seq<byte>
    ghost const f: BlockFunction

    ghost predicate Shape() {
      buffer.Length == 64 && digestBytes.Length == 16 && buffer != digestBytes && IsBlockFunction(f)
    }

    /** The fields stand for `message`; bytes past the pending ones are arbitrary. */
    ghost predicate Holds()
      reads this, buffer
    {
      && Shape()
      && Counts(low, high, |message|)
      && state == Absorbed(f, message)
      && buffer[..Pending(message)] == Tail(message)
    }

    /** Between calls the object is never marked as finished. */
    ghost predicate Valid()
      reads this, buffer
    {
      Holds() && !finished
    }

    constructor ()
      ensures Valid() && message == []
      ensures EncodeState(state) == INITIAL_BYTES
      ensures fresh(buffer) && fresh(digestBytes)
    {
      buffer := new byte[64];
      digestBytes := new byte[16];
      f := (s: State, block: seq<byte>) => if |block| == 64 then Compress(s, block) else s;
      new;
      Reset();
    }

    method Reset()
      requires Shape()
      modifies this
      ensures Valid() && message == []
      ensures EncodeState(state) == INITIAL_BYTES
    {
      finished := false;
      low, high := 0, 0;
      state := INITIAL;
      message := [];
      NothingYet(f);
      InitialBytes();
    }

    method Transform(block: seq<byte>)
      requires Shape() && |block| == 64
      modifies this`state
      ensures state == f(old(state), block)
    {
      var x := new word[16];
      Decode(block, x, 64);
      assert block[..64] == block && x[..64 / 4] == x[..];
      var a, b, c, d := RunRounds(state.a, state.b, state.c, state.d, x[..]);
      CompressIs(state, block, State(a, b, c, d));
      state := Plus(state, State(a, b, c, d));
    }

    /** The two words of the sum, in 32-bit arithmetic. */
    method AddBits(length: nat)
      modifies this`low, this`high
      ensures low == NextLow(old(low), length) && high == NextHigh(old(low), old(high), length)
    {
      var bits := length % 0x1_0000_0000 * 8 % 0x1_0000_0000;
      assert bits == LowBitsOf(length);
      low := (low + bits) % 0x1_0000_0000;
      assert low == NextLow(old(low), length);
      if low < bits {
        high := (high + 1) % 0x1_0000_0000;
      }
      assert high == (old(high) + Carry(old(low), length)) % 0x1_0000_0000;
      high := (high + length % 0x1_0000_0000 / 0x2000_0000) % 0x1_0000_0000;
    }

    /** Adds the bits of `length` bytes to the counter. */
    method AddToCount(length: nat, ghost n: nat)
      modifies this`low, this`high
      ensures Counts(old(low), old(high), n) && length < 0x1_0000_0000 ==> Counts(low, high, n + length)
    {
      if Counts(low, high, n) && length < 0x1_0000_0000 {
        CounterAdvances(CountOf(low, high), n, length);
        AdditionIsExact(low, high, length);
      }
      AddBits(length);
    }

    /** `(_count[0] >> 3) & 0x3f`. */
    method BufferIndex() returns (index: nat)
      requires Counts(low, high, |message|)
      ensures index == Pending(message)
    {
      IndexIsPending(low, high, |message|);
      index := low / 8 % 64;
    }

    /** The `memcpy` into the buffer. */
    method CopyToBuffer(index: nat, bytes: seq<byte>)
      requires Shape() && index + |bytes| <= 64
      modifies buffer
      ensures buffer[..] == old(buffer[..index]) + bytes + old(buffer[index + |bytes|..])
    {
      forall k | 0 <= k < |bytes| {
        buffer[index + k] := bytes[k];
      }
    }

    /** The registers have absorbed `message` and the first `i` bytes of `input`. */
    ghost predicate AbsorbedUpTo(input: seq<byte>, i: nat)
      requires i <= |input|
      reads this
    {
      Pending(message + input[..i]) == 0 && state == Absorbed(f, message + input[..i])
    }

    /** One round of the block loop. */
    method AbsorbBlock(input: seq<byte>, i: nat)
      requires Shape() && i + 64 <= |input| && AbsorbedUpTo(input, i)
      modifies this`state
      ensures AbsorbedUpTo(input, i + 64)
    {
      NextBlockOf(f, message, input, i);
      Transform(input[i..i + 64]);
    }

    /**
     The loop over the whole blocks of `input` from `start` on.  The position is
     a 32-bit word, so its test can wrap; the bound on the length rules that out.
     */
    method AbsorbBlocks(input: seq<byte>, start: nat) returns (i: nat)
      requires Shape() && start <= |input| && 1 <= start <= 64
      requires |input| + (64 - start) < 0x1_0000_0000
      requires AbsorbedUpTo(input, start)
      modifies this`state
      ensures start <= i <= |input| < i + 64 && AbsorbedUpTo(input, i)
      ensures exists k: nat :: i == Position(start, k) && !Continues(start, k, |input|)
    {
      i := start;
      ghost var k := 0;
      while (i + 63) % 0x1_0000_0000 < |input|
        invariant i == start + 64 * k <= |input| && AbsorbedUpTo(input, i)
        decreases |input| - i
      {
        LoopGoesOn(start, k, |input|, i);
        AbsorbBlock(input, i);
        i, k := (i + 64) % 0x1_0000_0000, k + 1;
      }
      LoopEnds(start, k, |input|, i);
    }

    /** The lines of an update that complete the waiting block and go on from there. */
    method FillAndAbsorb(index: nat, input: seq<byte>) returns (i: nat)
      requires Shape() && state == Absorbed(f, message)
      requires index == Pending(message) && buffer[..index] == Tail(message)
      requires 64 - index <= |input| && |input| + index < 0x1_0000_0000
      modifies this`state, buffer
      ensures i <= |input| < i + 64 && AbsorbedUpTo(input, i)
      ensures buffer[..] == old(buffer[..index]) + input[..64 - index]
    {
      var partLen := 64 - index;
      CopyToBuffer(index, input[..partLen]);
      FillBlock(f, message, input[..partLen]);
      assert buffer[..] == Tail(message) + input[..partLen];
      Transform(buffer[..]);
      i := AbsorbBlocks(input, partLen);
    }

    /** The first half of an update: everything but the last copy. */
    method AbsorbWhatFits(index: nat, input: seq<byte>) returns (i: nat, rest: nat)
      requires Shape() && state == Absorbed(f, message)
      requires index == Pending(message) && buffer[..index] == Tail(message)
      requires |input| + index < 0x1_0000_0000
      modifies this`state, buffer
      ensures i <= |input| < i + 64
      ensures if index + |input| < 64 then i == 0 && rest == index else rest == 0 && (index + i) % 64 == 0
      ensures rest == Pending(message + input[..i]) && buffer[..rest] == Tail(message + input[..i])
      ensures state == Absorbed(f, message + input[..i])
      ensures buffer[..] == BufferMidway(old(buffer[..]), index, input)
    {
      i, rest := 0, index;
      if |input| >= 64 - index {
        i := FillAndAbsorb(index, input);
        rest := 0;
        NothingWaits(message, input, i);
      } else {
        NothingTaken(message, input);
      }
    }

    /** The last copy of an update: what is left of `input` waits in the buffer. */
    method KeepRest(input: seq<byte>, i: nat, rest: nat)
      requires Shape() && i <= |input| && rest + (|input| - i) < 64
      requires rest == Pending(message + input[..i]) && buffer[..rest] == Tail(message + input[..i])
      modifies buffer
      ensures Absorbed(f, message + input) == Absorbed(f, message + input[..i])
      ensures buffer[..Pending(message + input)] == Tail(message + input)
      ensures buffer[..] == old(buffer[..rest]) + input[i..] + old(buffer[rest + |input[i..]|..])
    {
      FrontOfBuffer(buffer[..], rest, input[i..], Tail(message + input[..i]));
      EndOfUpdate(f, message, input, i);
      CopyToBuffer(rest, input[i..]);
    }

    /** Everything an update does to registers and buffer. */
    method TakeIn(index: nat, input: seq<byte>)
      requires Shape() && state == Absorbed(f, message)
      requires index == Pending(message) && buffer[..index] == Tail(message)
      requires |input| + index < 0x1_0000_0000
      modifies this`state, buffer
      ensures state == Absorbed(f, message + input)
      ensures buffer[..Pending(message + input)] == Tail(message + input)
      ensures buffer[..] == BufferAfter(old(buffer[..]), index, input)
    {
      var i, rest := AbsorbWhatFits(index, input);
      SecondCopy(old(buffer[..]), buffer[..], index, input, i, rest);
      KeepRest(input, i, rest);
    }

    /** `update` on a byte buffer. */
    method Update(input: seq<byte>)
      requires Holds() && |input| + Pending(message) < 0x1_0000_0000
      modifies this, buffer
      ensures Valid() && message == old(message) + input
      ensures buffer[..] == BufferAfter(old(buffer[..]), Pending(old(message)), input)
    {
      finished := false;
      var index := BufferIndex();
      ghost var next := message + input;
      AddToCount(|input|, |message|);
      assert Counts(low, high, |next|);
      TakeIn(index, input);
      message := next;
    }

    /** The first `encode` of `final`. */
    method EncodeCount(bits: array<byte>)
      requires Holds() && bits.Length == 8 && bits != buffer && bits != digestBytes
      modifies bits
      ensures bits[..] == LengthField(|message|)
      ensures Values(bits[..]) == Bytes(CountOf(low, high), 8)
    {
      CountField(low, high, |message|);
      LengthFieldBytes(|message|);
      var words := [WordBits(low), WordBits(high)];
      assert words[..8 / 4] == words;
      Encode(words, bits, 8);
      assert bits[..8] == bits[..];
    }

    /** The pad bytes, through `update` like any input. */
    method AppendPad()
      requires Holds()
      modifies this, buffer
      ensures Valid() && message == old(message) + Padding(|old(message)|) && Pending(message) == 56
      ensures buffer[..] == BufferAfter(old(buffer[..]), Pending(old(message)), Padding(|old(message)|))
    {
      var index := BufferIndex();
      var padLen := if index < 56 then 56 - index else 120 - index;
      PadLengthByBranch(|message|);
      PaddingPrefix(|message|);
      PendingAfterPadding(message);
      Update(PADDING[..padLen]);
    }

    /** The pad bytes and then the length. */
    method AppendPadding(bits: seq<byte>)
      requires Holds() && |bits| == 8
      modifies this, buffer
      ensures Valid() && message == old(message) + Padding(|old(message)|) + bits
      ensures buffer[..]
              == BufferAfter(BufferAfter(old(buffer[..]), Pending(old(message)), Padding(|old(message)|)), 56, bits)
    {
      AppendPad();
      Update(bits);
    }

    /** The second `encode` of `final`. */
    method EncodeRegisters()
      requires Shape()
      modifies digestBytes
      ensures digestBytes[..] == EncodeState(state)
      ensures Values(digestBytes[..])
              == Bytes(state.a as int, 4) + Bytes(state.b as int, 4)
                 + Bytes(state.c as int, 4) + Bytes(state.d as int, 4)
    {
      var words := [state.a, state.b, state.c, state.d];
      assert words[..16 / 4] == words;
      Encode(words, digestBytes, 16);
      assert digestBytes[..16] == digestBytes[..];
      EncodeStateValues(state);
    }

    /** `final`: computes the digest, then restores registers and counter. */
    method Final()
      requires Holds()
      modifies this, buffer, digestBytes
      ensures Valid() && message == AfterDigest(old(message))
      ensures digestBytes[..] == Hash(f, old(message))
    {
      var bits := new byte[8];
      var oldState, oldLow, oldHigh := state, low, high;
      EncodeCount(bits);
      assert buffer[..] == old(buffer[..]);
      AppendPadding(bits[..]);
      FinalTail(old(buffer[..]), old(message), buffer[..]);
      HashOfAbsorbed(f, old(message));
      EncodeRegisters();
      state, low, high := oldState, oldLow, oldHigh;
      Restored(f, old(message), low, high);
      message := AfterDigest(old(message));
    }

    /** `digest`. */
    method Digest() returns (d: array<byte>)
      requires Valid()
      modifies this, buffer, digestBytes
      ensures Valid() && message == AfterDigest(old(message))
      ensures d == digestBytes && d[..] == Md5(old(message))
    {
      HashIsMd5(f, message);
      if !finished {
        finished := true;
        Final();
      }
      d := digestBytes;
    }

    /** `toString`. */
    method ToString() returns (str: string)
      requires Valid()
      modifies this, buffer, digestBytes
      ensures Valid() && message == AfterDigest(old(message))
      ensures str == Hex(Values(Md5(old(message))))
    {
      var d := Digest();
      str := BytesToHexString(d[..]);
    }

    /**
     `update` on a file: reads of 1024 bytes until one falls short.  A stream in
     a failed state is left alone.
     */
    method UpdateFile(good: bool, contents: seq<byte>)
      requires Valid()
      modifies this, buffer
      ensures Valid() && message == old(message) + if good then contents else []
    {
      if !good {
        return;
      }
      var read, eof := 0, false;
      while !eof
        invariant Valid() && read <= |contents|
        invariant eof ==> read == |contents|
        invariant message == old(message) + contents[..read]
        decreases |contents| - read, !eof
      {
        var length := if |contents| - read < 1024 then |contents| - read else 1024;
        eof := length < 1024;
        if length > 0 {
          TakeMore(old(message), contents, read, length);
          Update(contents[read..read + length]);
        }
        read := read + length;
      }
    }
  }

  /**
   Two objects that stand for the same message have the same registers, counter
   and pending bytes, whatever calls made them and whatever else they hold.
   */
  lemma MessageDetermines(a: MD5, b: MD5)
    requires a.Valid() && b.Valid() && a.message == b.message
    ensures a.state == b.state && a.low == b.low && a.high == b.high
    ensures a.buffer[..Pending(a.message)] == b.buffer[..Pending(b.message)]
  {
    FoldWithIsFold(a.f, INITIAL, Whole(a.message));
    FoldWithIsFold(b.f, INITIAL, Whole(b.message));
    CounterWords(a.low, a.high, |a.message|);
    CounterWords(b.low, b.high, |b.message|);
  }
}
