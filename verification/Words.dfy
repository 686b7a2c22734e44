/**
 The machine integers of the MD5 code.  Bytes and 32-bit words are bit vectors,
 so shifts, masks, rotations and wrapping addition are the machine's own.  Bit
 counts are numbers kept below 2^32; `WordBits` is the word that holds one.
 */
module Words {
  import opened Integers

  type byte = bv8
  type word = bv32

  /** Wrapping addition. */
  function Sum(p: word, q: word): word {
    p + q
  }

  // ------------------------------------------------- numbers as bit patterns

  /** The `k` lowest binary digits of a number, lowest first. */
  function Digits(n: nat, k: nat): (bits: seq<bool>)
    ensures |bits| == k
  {
    if k == 0 then [] else [n % 2 == 1] + Digits(n / 2, k - 1)
  }

  function PushLow(w: word, bit: bool): word {
    (w << 1) | (if bit then 1 else 0)
  }

  /** The word whose binary digits are `bits`, lowest first. */
  function Pack(bits: seq<bool>): word {
    if |bits| == 0 then 0 else PushLow(Pack(bits[1..]), bits[0])
  }

  /** The machine word that holds a counter value. */
  function WordBits(n: uint32): word {
    Pack(Digits(n, 32))
  }

  // ----------------------------------- few digits leave the high bits clear

  /** The `k` low bits of a word. */
  function LowMask(k: nat): word {
    if k == 0 then 0 else PushLow(LowMask(k - 1), true)
  }

  lemma PushLowStays(w: word, pushed: word, mask: word, grown: word, bit: bool)
    requires w & !mask == 0
    requires pushed == PushLow(w, bit) && grown == PushLow(mask, true)
    ensures pushed & !grown == 0
  {
  }

  lemma NothingStays(mask: word)
    ensures 0 & !mask == 0
  {
  }

  lemma {:induction false} PackStaysLow(bits: seq<bool>)
    ensures Pack(bits) & !LowMask(|bits|) == 0
  {
    if |bits| == 0 {
      NothingStays(LowMask(0));
    } else {
      var rest := bits[1..];
      PackStaysLow(rest);
      PushLowStays(Pack(rest), Pack(bits), LowMask(|rest|), LowMask(|bits|), bits[0]);
    }
  }

  lemma {:induction false} MaskGrows(k: nat)
    ensures LowMask(k) & !LowMask(k + 1) == 0
  {
    if k == 0 {
    } else {
      MaskGrows(k - 1);
      PushLowStays(LowMask(k - 1), LowMask(k), LowMask(k), LowMask(k + 1), true);
    }
  }

  lemma Within(w: word, small: word, big: word)
    requires w & !small == 0 && small & !big == 0
    ensures w & !big == 0
  {
  }

  lemma {:induction false} FitsIn31(w: word, k: nat)
    requires k <= 31 && w & !LowMask(k) == 0
    ensures w & !LowMask(31) == 0
    decreases 31 - k
  {
    if k == 31 {
    } else {
      MaskGrows(k);
      Within(w, LowMask(k), LowMask(k + 1));
      FitsIn31(w, k + 1);
    }
  }

  lemma MaskOf31()
    ensures LowMask(31) == 0x7fff_ffff
  {
    assert LowMask(8) == 0xff;
    assert LowMask(16) == 0xffff;
    assert LowMask(24) == 0xff_ffff;
  }

  lemma TopIsAbove(w: word)
    requires w & !0x7fff_ffff == 0
    ensures w & 0x8000_0000 == 0
  {
  }

  lemma TopBitClear(bits: seq<bool>)
    requires |bits| <= 31
    ensures Pack(bits) & 0x8000_0000 == 0
  {
    PackStaysLow(bits);
    FitsIn31(Pack(bits), |bits|);
    MaskOf31();
    TopIsAbove(Pack(bits));
  }

  // ------------------------------------------------- the number that a word is

  lemma PushOne(w: word, v: word)
    requires w & 0x8000_0000 == 0 && v == (w << 1) | 1
    ensures v as int == 2 * (w as int) + 1
  {
  }

  lemma PushZero(w: word, v: word)
    requires w & 0x8000_0000 == 0 && v == (w << 1) | 0
    ensures v as int == 2 * (w as int)
  {
  }

  lemma PushLowValue(w: word, bit: bool)
    requires w & 0x8000_0000 == 0
    ensures PushLow(w, bit) as int == 2 * (w as int) + if bit then 1 else 0
  {
    if bit {
      PushOne(w, PushLow(w, bit));
    } else {
      PushZero(w, PushLow(w, bit));
    }
  }

  function Pow2(k: nat): nat {
    if k == 0 then 1 else 2 * Pow2(k - 1)
  }

  lemma PowerOf32()
    ensures Pow2(32) == 0x1_0000_0000
  {
    assert Pow2(8) == 0x100;
    assert Pow2(16) == 0x1_0000;
    assert Pow2(24) == 0x100_0000;
  }

  lemma {:induction false} PackValue(n: nat, k: nat)
    requires k <= 32 && n < Pow2(k)
    ensures Pack(Digits(n, k)) as int == n
  {
    if k == 0 {
    } else {
      var bits := Digits(n, k);
      assert bits[1..] == Digits(n / 2, k - 1);
      PackValue(n / 2, k - 1);
      TopBitClear(bits[1..]);
      PushLowValue(Pack(bits[1..]), bits[0]);
    }
  }

  /** The word of a counter value is that value. */
  lemma WordBitsValue(n: uint32)
    ensures WordBits(n) as int == n
  {
    PowerOf32();
    PackValue(n, 32);
  }

  // ------------------------------------------- words and bytes, low byte first

  /** The word whose bytes are `b0` (lowest) to `b3`. */
  function Join(b0: byte, b1: byte, b2: byte, b3: byte): word {
    (b0 as bv32) | ((b1 as bv32) << 8) | ((b2 as bv32) << 16) | ((b3 as bv32) << 24)
  }

  /** Byte `k` of a word, counted from the lowest. */
  function ByteAt(w: word, k: nat): byte {
    match k
    case 0 => (w & 0xff) as bv8
    case 1 => ((w >> 8) & 0xff) as bv8
    case 2 => ((w >> 16) & 0xff) as bv8
    case _ => ((w >> 24) & 0xff) as bv8
  }

  lemma BytesOfJoin(b0: byte, b1: byte, b2: byte, b3: byte)
    ensures ByteAt(Join(b0, b1, b2, b3), 0) == b0
    ensures ByteAt(Join(b0, b1, b2, b3), 1) == b1
    ensures ByteAt(Join(b0, b1, b2, b3), 2) == b2
    ensures ByteAt(Join(b0, b1, b2, b3), 3) == b3
  {
  }

  lemma JoinOfBytes(w: word)
    ensures Join(ByteAt(w, 0), ByteAt(w, 1), ByteAt(w, 2), ByteAt(w, 3)) == w
  {
  }

  lemma WideByte(b: byte, v: word)
    requires v == b as bv32
    ensures v as int == b as int
  {
  }

  lemma PushByte(w: word, b: byte, v: word)
    requires w & 0xff00_0000 == 0 && v == (w << 8) | (b as bv32)
    ensures v as int == 0x100 * (w as int) + (b as int)
  {
  }

  lemma JoinByPushing(b0: byte, b1: byte, b2: byte, b3: byte, v3: word, v2: word, v1: word, v: word)
    requires v3 == b3 as bv32 && v2 == (v3 << 8) | (b2 as bv32)
    requires v1 == (v2 << 8) | (b1 as bv32) && v == (v1 << 8) | (b0 as bv32)
    ensures v == Join(b0, b1, b2, b3)
    ensures v3 & 0xff00_0000 == 0 && v2 & 0xff00_0000 == 0 && v1 & 0xff00_0000 == 0
  {
  }

  /** A word is the number its bytes stand for, low byte first. */
  lemma JoinValue(b0: byte, b1: byte, b2: byte, b3: byte)
    ensures Join(b0, b1, b2, b3) as int
            == (b0 as int) + 0x100 * (b1 as int) + 0x1_0000 * (b2 as int) + 0x100_0000 * (b3 as int)
  {
    var v3 := b3 as bv32;
    var v2 := (v3 << 8) | (b2 as bv32);
    var v1 := (v2 << 8) | (b1 as bv32);
    var v := (v1 << 8) | (b0 as bv32);
    JoinByPushing(b0, b1, b2, b3, v3, v2, v1, v);
    WideByte(b3, v3);
    PushByte(v3, b2, v2);
    PushByte(v2, b1, v1);
    PushByte(v1, b0, v);
  }

  lemma WordValue(w: word, b0: byte, b1: byte, b2: byte, b3: byte)
    requires b0 == ByteAt(w, 0) && b1 == ByteAt(w, 1) && b2 == ByteAt(w, 2) && b3 == ByteAt(w, 3)
    ensures w as int == (b0 as int) + 0x100 * (b1 as int) + 0x1_0000 * (b2 as int) + 0x100_0000 * (b3 as int)
  {
    JoinOfBytes(w);
    JoinValue(b0, b1, b2, b3);
  }
}
