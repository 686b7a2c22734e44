/**
 The block loop of `MD5::update` in the 32-bit arithmetic of its position: which
 lengths it comes to an end for.
 */
module Md5Loop {

  /** The 32-bit position after `k` rounds of the block loop of an update. */
  function Position(start: nat, k: nat): nat {
    (start + 64 * k) % 0x1_0000_0000
  }

  /** The loop test in 32-bit arithmetic. */
  predicate Continues(start: nat, k: nat, length: nat) {
    (Position(start, k) + 63) % 0x1_0000_0000 < length
  }

  /** While the position is within the input, `i + 63` stays below 2^32. */
  lemma NoWrap(start: nat, k: nat, length: nat)
    requires 1 <= start <= 64 && length + (64 - start) < 0x1_0000_0000
    requires start + 64 * k <= length
    ensures start + 64 * k + 63 < 0x1_0000_0000
  {
  }

  /** The loop test lets a whole block through, and the next position does not wrap. */
  lemma LoopGoesOn(start: nat, k: nat, length: nat, i: nat)
    requires 1 <= start <= 64 && length + (64 - start) < 0x1_0000_0000
    requires i == start + 64 * k <= length && (i + 63) % 0x1_0000_0000 < length
    ensures i + 64 <= length && (i + 64) % 0x1_0000_0000 == start + 64 * (k + 1)
  {
    NoWrap(start, k, length);
  }

  /** Where the loop test fails, less than a block is left. */
  lemma LoopEnds(start: nat, k: nat, length: nat, i: nat)
    requires 1 <= start <= 64 && length + (64 - start) < 0x1_0000_0000
    requires i == start + 64 * k <= length <= (i + 63) % 0x1_0000_0000
    ensures length < i + 64 && i == Position(start, k) && !Continues(start, k, length)
  {
    NoWrap(start, k, length);
  }

  lemma Unwrapped(p: nat, length: nat)
    requires p + 63 < 0x1_0000_0000 && length < p + 64
    ensures (p % 0x1_0000_0000 + 63) % 0x1_0000_0000 >= length
  {
  }

  lemma EndsAt(start: nat, length: nat)
    requires 1 <= start <= 64 && start <= length && length + (64 - start) < 0x1_0000_0000
    ensures !Continues(start, (length - start) / 64, length)
  {
    var k := (length - start) / 64;
    NoWrap(start, k, length);
    Unwrapped(start + 64 * k, length);
  }

  lemma WrappedTest(p: nat, start: nat, j: int)
    requires 1 <= start <= 64 && p < 0x1_0000_0000 && p == start + 64 * j
    ensures (p + 63) % 0x1_0000_0000 < 0xffff_ffff - 63 + start
  {
  }

  lemma NeverEnds(start: nat, length: nat, k: nat)
    requires 1 <= start <= 64 && 0x1_0000_0000 <= length + (64 - start)
    ensures Continues(start, k, length)
  {
    var q := (start + 64 * k) / 0x1_0000_0000;
    WrappedTest(Position(start, k), start, k - 0x400_0000 * q);
  }

  /**
   The block loop of an update, entered at `start`, ends exactly if the length
   and the bytes pending before it add up to less than 2^32.
   */
  lemma LoopEndsIff(start: nat, length: nat)
    requires 1 <= start <= 64 && start <= length
    ensures (exists k: nat :: !Continues(start, k, length)) <==> length + (64 - start) < 0x1_0000_0000
  {
    if length + (64 - start) < 0x1_0000_0000 {
      EndsAt(start, length);
    } else {
      forall k: nat
        ensures Continues(start, k, length)
      {
        NeverEnds(start, length, k);
      }
    }
  }
}
