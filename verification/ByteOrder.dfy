/**
 The byte-order functions of the MySQL headers: loads and stores of 2 to 8 bytes,
 low byte first.  Bytes and words are numbers here; a left shift by 8 is written
 as a product with 0x100, a right shift as a quotient, and a cast to a narrower
 type as a remainder.
 */
module ByteOrder {

  import opened Integers

  // ------------------------------------------------------- one specification

  /** The number that bytes stand for, low byte first. */
  function Value(bytes: seq<uchar>): nat {
    if |bytes| == 0 then 0 else bytes[0] as int + 0x100 * Value(bytes[1..])
  }

  /** The `k` low bytes of a number, low byte first. */
  function Bytes(n: nat, k: nat): (bytes: seq<uchar>)
    ensures |bytes| == k
  {
    if k == 0 then [] else [n % 0x100] + Bytes(n / 0x100, k - 1)
  }

  function Pow256(k: nat): (p: nat)
    ensures p > 0
  {
    if k == 0 then 1 else 0x100 * Pow256(k - 1)
  }

  lemma Powers()
    ensures Pow256(0) == 1 && Pow256(1) == 0x100 && Pow256(2) == 0x1_0000
    ensures Pow256(3) == 0x100_0000 && Pow256(4) == 0x1_0000_0000
    ensures Pow256(5) == 0x100_0000_0000 && Pow256(6) == 0x1_0000_0000_0000
    ensures Pow256(8) == 0x1_0000_0000_0000_0000
  {
    assert Pow256(4) == 0x1_0000_0000;
  }

  lemma {:induction false} ValueBound(bytes: seq<uchar>)
    ensures Value(bytes) < Pow256(|bytes|)
  {
    if |bytes| == 0 {
    } else {
      ValueBound(bytes[1..]);
    }
  }

  lemma ProductAtLeast(m: nat, d: nat)
    requires d > 0
    ensures m * d >= m
  {
    assert m * d == m + m * (d - 1);
  }

  lemma DivisionIs(x: nat, m: nat, q: nat, r: nat)
    requires x == m * q + r && r < m
    ensures x / m == q && x % m == r
  {
    var p, s := x / m, x % m;
    assert x == m * p + s;
    assert m * (p - q) == r - s && m * (q - p) == s - r;
    if p > q {
      ProductAtLeast(m, p - q);
    } else if q > p {
      ProductAtLeast(m, q - p);
    }
  }

  lemma DivideTwice(n: nat, p: nat)
    requires p > 0
    ensures n / 0x100 / p == n / (0x100 * p)
    ensures n % 0x100 + 0x100 * (n / 0x100 % p) == n % (0x100 * p)
  {
    var q, r := n / 0x100 / p, n / 0x100 % p;
    assert n / 0x100 == p * q + r;
    assert n == 0x100 * (p * q + r) + n % 0x100;
    assert n == (0x100 * p) * q + (0x100 * r + n % 0x100);
    DivisionIs(n, 0x100 * p, q, 0x100 * r + n % 0x100);
  }

  /** Storing `k` bytes and loading them keeps the number modulo 2^(8k). */
  lemma {:induction false} LoadOfStore(n: nat, k: nat)
    ensures Value(Bytes(n, k)) == n % Pow256(k)
  {
    if k == 0 {
    } else {
      LoadOfStore(n / 0x100, k - 1);
      DivideTwice(n, Pow256(k - 1));
      assert Bytes(n, k)[1..] == Bytes(n / 0x100, k - 1);
    }
  }

  lemma {:induction false} BytesAt(n: nat, k: nat, i: nat)
    requires i < k
    ensures Bytes(n, k)[i] == n / Pow256(i) % 0x100
  {
    if i == 0 {
    } else {
      BytesAt(n / 0x100, k - 1, i - 1);
      DivideTwice(n, Pow256(i - 1));
    }
  }

  lemma LowByte(b: uchar, v: nat)
    ensures (b + 0x100 * v) % 0x100 == b && (b + 0x100 * v) / 0x100 == v
  {
  }

  /** Loading bytes and storing the number gives the bytes back. */
  lemma {:induction false} StoreOfLoad(bytes: seq<uchar>)
    ensures Bytes(Value(bytes), |bytes|) == bytes
  {
    if |bytes| == 0 {
    } else {
      LowByte(bytes[0], Value(bytes[1..]));
      StoreOfLoad(bytes[1..]);
    }
  }

  /** A number below 2^(8k) read as a two's complement number of `k` bytes. */
  function Signed(n: nat, k: nat): int
    requires k > 0
  {
    if n < Pow256(k) / 2 then n else n - Pow256(k)
  }

  lemma HalfOfPower(k: nat)
    requires k > 0
    ensures Pow256(k) == 2 * (Pow256(k) / 2) && Pow256(k) / 2 > 0
  {
    assert Pow256(k) == 0x100 * Pow256(k - 1);
  }

  /** It is the number in the signed range of `k` bytes that differs by nothing or 2^(8k). */
  lemma SignedRange(n: nat, k: nat)
    requires k > 0 && n < Pow256(k)
    ensures -(Pow256(k) / 2) <= Signed(n, k) < Pow256(k) / 2
    ensures Signed(n, k) == n || Signed(n, k) == n - Pow256(k)
  {
    HalfOfPower(k);
  }

  // ------------------------------------ the portable forms (byte_order_generic.h)

  function ToInt16(n: int): int {
    if n % 0x1_0000 < 0x8000 then n % 0x1_0000 else n % 0x1_0000 - 0x1_0000
  }

  function ToInt32(n: int): int {
    if n % 0x1_0000_0000 < 0x8000_0000 then n % 0x1_0000_0000 else n % 0x1_0000_0000 - 0x1_0000_0000
  }

  function ToInt64(n: int): int {
    var m := n % 0x1_0000_0000_0000_0000;
    if m < 0x8000_0000_0000_0000 then m else m - 0x1_0000_0000_0000_0000
  }

  /** The sum of four shifted bytes in 32-bit unsigned arithmetic. */
  function Sum32(a: seq<uchar>): (n: nat)
    requires |a| >= 4
    ensures n < 0x1_0000_0000
  {
    (a[0] as int + a[1] as int * 0x100 + a[2] as int * 0x1_0000 + a[3] as int * 0x100_0000) % 0x1_0000_0000
  }

  function Uint2Korr(a: seq<uchar>): nat
    requires |a| >= 2
  {
    (a[0] as int + a[1] as int * 0x100) % 0x1_0000
  }

  function Uint3Korr(a: seq<uchar>): nat
    requires |a| >= 3
  {
    (a[0] as int + a[1] as int * 0x100 + a[2] as int * 0x1_0000) % 0x1_0000_0000
  }

  function Uint4Korr(a: seq<uchar>): nat
    requires |a| >= 4
  {
    Sum32(a)
  }

  function Uint5Korr(a: seq<uchar>): nat
    requires |a| >= 5
  {
    (Sum32(a) + a[4] as int * 0x1_0000_0000) % 0x1_0000_0000_0000_0000
  }

  function Uint6Korr(a: seq<uchar>): nat
    requires |a| >= 6
  {
    (Sum32(a) + a[4] as int * 0x1_0000_0000 + a[5] as int * 0x100_0000_0000) % 0x1_0000_0000_0000_0000
  }

  function Uint8Korr(a: seq<uchar>): nat
    requires |a| >= 8
  {
    (Sum32(a) + Sum32(a[4..]) * 0x1_0000_0000) % 0x1_0000_0000_0000_0000
  }

  function Sint2Korr(a: seq<uchar>): int
    requires |a| >= 2
  {
    ToInt16(a[0] as int + a[1] as int * 0x100)
  }

  /** The top bit of the third byte decides whether the fourth is all ones. */
  function Sint3Korr(a: seq<uchar>): int
    requires |a| >= 3
  {
    var low := a[2] as int * 0x1_0000 + a[1] as int * 0x100 + a[0] as int;
    ToInt32(if a[2] as int / 128 % 2 == 1 then 255 * 0x100_0000 + low else low)
  }

  function Sint4Korr(a: seq<uchar>): int
    requires |a| >= 4
  {
    ToInt32(a[0] as int + a[1] as int * 0x100 + a[2] as int * 0x1_0000 + a[3] as int * 0x100_0000)
  }

  function Sint8Korr(a: seq<uchar>): int
    requires |a| >= 8
  {
    ToInt64(Uint8Korr(a))
  }

  lemma Unfold2(a: seq<uchar>)
    requires |a| == 2
    ensures Value(a) == a[0] as int + a[1] as int * 0x100
  {
    assert Value(a[1..]) == a[1] as int + 0x100 * Value(a[1..][1..]);
  }

  lemma Unfold3(a: seq<uchar>)
    requires |a| == 3
    ensures Value(a) == a[0] as int + a[1] as int * 0x100 + a[2] as int * 0x1_0000
  {
    Unfold2(a[1..]);
  }

  lemma Unfold4(a: seq<uchar>)
    requires |a| == 4
    ensures Value(a) == a[0] as int + a[1] as int * 0x100 + a[2] as int * 0x1_0000 + a[3] as int * 0x100_0000
  {
    Unfold3(a[1..]);
  }

  lemma Unfold5(a: seq<uchar>)
    requires |a| == 5
    ensures Value(a) == a[0] as int + a[1] as int * 0x100 + a[2] as int * 0x1_0000 + a[3] as int * 0x100_0000
                        + a[4] as int * 0x1_0000_0000
  {
    Unfold4(a[1..]);
  }

  lemma Unfold6(a: seq<uchar>)
    requires |a| == 6
    ensures Value(a) == a[0] as int + a[1] as int * 0x100 + a[2] as int * 0x1_0000 + a[3] as int * 0x100_0000
                        + a[4] as int * 0x1_0000_0000 + a[5] as int * 0x100_0000_0000
  {
    Unfold5(a[1..]);
  }

  lemma Unfold8(a: seq<uchar>)
    requires |a| == 8
    ensures Value(a) == Value(a[..4]) + 0x1_0000_0000 * Value(a[4..])
  {
    Unfold6(a[2..]);
    assert Value(a[1..]) == a[1] as int + 0x100 * Value(a[2..]) by { assert a[1..][1..] == a[2..]; }
    Unfold4(a[..4]);
    Unfold4(a[4..]);
  }

  lemma Load2(a: seq<uchar>)
    requires |a| >= 2
    ensures Uint2Korr(a) == Value(a[..2]) && Sint2Korr(a) == Signed(Value(a[..2]), 2)
  {
    Unfold2(a[..2]);
    Powers();
  }

  lemma Load3(a: seq<uchar>)
    requires |a| >= 3
    ensures Uint3Korr(a) == Value(a[..3]) && Sint3Korr(a) == Signed(Value(a[..3]), 3)
  {
    Unfold3(a[..3]);
    Powers();
  }

  lemma Load4(a: seq<uchar>)
    requires |a| >= 4
    ensures Uint4Korr(a) == Value(a[..4]) && Sint4Korr(a) == Signed(Value(a[..4]), 4)
  {
    Unfold4(a[..4]);
    Powers();
  }

  lemma Load5(a: seq<uchar>)
    requires |a| >= 5
    ensures Uint5Korr(a) == Value(a[..5])
  {
    Unfold5(a[..5]);
  }

  lemma Load6(a: seq<uchar>)
    requires |a| >= 6
    ensures Uint6Korr(a) == Value(a[..6])
  {
    Unfold6(a[..6]);
  }

  lemma Load8(a: seq<uchar>)
    requires |a| >= 8
    ensures Uint8Korr(a) == Value(a[..8]) && Sint8Korr(a) == Signed(Value(a[..8]), 8)
  {
    var b := a[..8];
    Unfold8(b);
    assert b[..4] == a[..4] && b[4..] == a[4..][..4];
    Load4(a);
    Load4(a[4..]);
    ValueBound(b);
    Powers();
  }

  /** Every unsigned load is the one specification at its own width. */
  lemma UnsignedLoads(a: seq<uchar>)
    ensures |a| >= 2 ==> Uint2Korr(a) == Value(a[..2])
    ensures |a| >= 3 ==> Uint3Korr(a) == Value(a[..3])
    ensures |a| >= 4 ==> Uint4Korr(a) == Value(a[..4])
    ensures |a| >= 5 ==> Uint5Korr(a) == Value(a[..5])
    ensures |a| >= 6 ==> Uint6Korr(a) == Value(a[..6])
    ensures |a| >= 8 ==> Uint8Korr(a) == Value(a[..8])
  {
    if |a| >= 2 { Load2(a); }
    if |a| >= 3 { Load3(a); }
    if |a| >= 4 { Load4(a); }
    if |a| >= 5 { Load5(a); }
    if |a| >= 6 { Load6(a); }
    if |a| >= 8 { Load8(a); }
  }

  /** The signed loads are two's complement readings of the same number. */
  lemma SignedLoads(a: seq<uchar>)
    ensures |a| >= 2 ==> Sint2Korr(a) == Signed(Value(a[..2]), 2)
    ensures |a| >= 3 ==> Sint3Korr(a) == Signed(Value(a[..3]), 3)
    ensures |a| >= 4 ==> Sint4Korr(a) == Signed(Value(a[..4]), 4)
    ensures |a| >= 8 ==> Sint8Korr(a) == Signed(Value(a[..8]), 8)
  {
    if |a| >= 2 { Load2(a); }
    if |a| >= 3 { Load3(a); }
    if |a| >= 4 { Load4(a); }
    if |a| >= 8 { Load8(a); }
  }

  // ------------------------------ the direct forms (byte_order_generic_x86.h)

  /** On a little-endian host the first `k` bytes of memory are the word `w`. */
  ghost predicate HostWord(a: seq<uchar>, k: nat, w: nat) {
    k <= |a| && w < Pow256(k) && forall i :: 0 <= i < k ==> a[i] as int == w / Pow256(i) % 0x100
  }

  lemma SmallRemainder(w: nat, m: nat)
    requires w < m
    ensures w % m == w
  {
  }

  lemma HostWordBytes(a: seq<uchar>, k: nat, w: nat)
    ensures HostWord(a, k, w) <==> k <= |a| && w < Pow256(k) && a[..k] == Bytes(w, k)
  {
    forall i | 0 <= i < k
      ensures Bytes(w, k)[i] as int == w / Pow256(i) % 0x100
    {
      BytesAt(w, k, i);
    }
  }

  lemma HostWordValue(a: seq<uchar>, k: nat, w: nat)
    requires HostWord(a, k, w)
    ensures Value(a[..k]) == w
  {
    HostWordBytes(a, k, w);
    LoadOfStore(w, k);
    SmallRemainder(w, Pow256(k));
  }

  /** The casts to signed types are two's complement readings. */
  lemma SignedWords(w: nat)
    ensures w < Pow256(2) ==> Signed(w, 2) == ToInt16(w)
    ensures w < Pow256(4) ==> Signed(w, 4) == ToInt32(w)
    ensures w < Pow256(8) ==> Signed(w, 8) == ToInt64(w)
  {
    Powers();
  }

  lemma Direct2(a: seq<uchar>, w: nat)
    requires HostWord(a, 2, w)
    ensures Uint2Korr(a) == w && Sint2Korr(a) == ToInt16(w)
  {
    HostWordValue(a, 2, w);
    Load2(a);
    SignedWords(w);
  }

  lemma Direct4(a: seq<uchar>, w: nat)
    requires HostWord(a, 4, w)
    ensures Uint4Korr(a) == w && Sint4Korr(a) == ToInt32(w)
  {
    HostWordValue(a, 4, w);
    Load4(a);
    SignedWords(w);
  }

  lemma Direct8(a: seq<uchar>, w: nat)
    requires HostWord(a, 8, w)
    ensures Uint8Korr(a) == w && Sint8Korr(a) == ToInt64(w)
  {
    HostWordValue(a, 8, w);
    Load8(a);
    SignedWords(w);
  }

  /** The portable loads read what a load through a cast pointer reads. */
  lemma PortableLoadsAreDirect(a: seq<uchar>, w: nat)
    ensures HostWord(a, 2, w) ==> Uint2Korr(a) == w && Sint2Korr(a) == ToInt16(w)
    ensures HostWord(a, 4, w) ==> Uint4Korr(a) == w && Sint4Korr(a) == ToInt32(w)
    ensures HostWord(a, 8, w) ==> Uint8Korr(a) == w && Sint8Korr(a) == ToInt64(w)
  {
    if HostWord(a, 2, w) { Direct2(a, w); }
    if HostWord(a, 4, w) { Direct4(a, w); }
    if HostWord(a, 8, w) { Direct8(a, w); }
  }

  // -------------------------------------------------------------- the stores

  lemma AllBytes(n: nat, k: nat)
    ensures forall i :: 0 <= i < k ==> Bytes(n, k)[i] as int == n / Pow256(i) % 0x100
  {
    forall i | 0 <= i < k
      ensures Bytes(n, k)[i] as int == n / Pow256(i) % 0x100
    {
      BytesAt(n, k, i);
    }
  }

  /** What is left of a number without its `j` low bytes. */
  function Rest(n: nat, j: nat): nat {
    if j == 0 then n else Rest(n / 0x100, j - 1)
  }

  lemma {:induction false} BytesSplit(n: nat, j: nat, k: nat)
    ensures Bytes(n, j + k) == Bytes(n, j) + Bytes(Rest(n, j), k)
  {
    if j == 0 {
    } else {
      BytesSplit(n / 0x100, j - 1, k);
    }
  }

  lemma RestAfterTwo(n: nat)
    ensures Rest(n, 2) == n / 0x1_0000
  {
    assert Rest(n / 0x100, 1) == Rest(n / 0x100 / 0x100, 0);
  }

  lemma RestAfterFour(n: nat)
    ensures Rest(n, 4) == n / 0x1_0000_0000
  {
    assert Rest(n, 4) == Rest(n / 0x100, 3) == Rest(n / 0x100 / 0x100, 2);
    RestAfterTwo(n / 0x100 / 0x100);
  }

  lemma {:induction false} LowBytes(n: nat, j: nat)
    ensures Bytes(n % Pow256(j), j) == Bytes(n, j)
  {
    if j == 0 {
    } else {
      LowBytes(n / 0x100, j - 1);
      DivideTwice(n, Pow256(j - 1));
      LowByte(n % 0x100, n / 0x100 % Pow256(j - 1));
    }
  }

  /** Storing the two halves of eight bytes stores the whole. */
  lemma TwoHalves(n: nat)
    ensures Bytes(n % 0x1_0000_0000, 4) + Bytes(n / 0x1_0000_0000, 4) == Bytes(n, 8)
  {
    BytesSplit(n, 4, 4);
    RestAfterFour(n);
    LowBytes(n, 4);
    Powers();
  }

  method Int2Store(t: array<uchar>, off: nat, a: uint16)
    requires off + 2 <= t.Length
    modifies t
    ensures t[..] == old(t[..off]) + Bytes(a, 2) + old(t[off + 2..])
  {
    AllBytes(a, 2);
    Powers();
    t[off] := a % 0x100;
    t[off + 1] := a / 0x100 % 0x100;
  }

  method Int3Store(t: array<uchar>, off: nat, a: uint32)
    requires off + 3 <= t.Length
    modifies t
    ensures t[..] == old(t[..off]) + Bytes(a, 3) + old(t[off + 3..])
  {
    AllBytes(a, 3);
    Powers();
    t[off] := a % 0x100;
    t[off + 1] := a / 0x100 % 0x100;
    t[off + 2] := a / 0x1_0000 % 0x100;
  }

  method Int4Store(t: array<uchar>, off: nat, a: uint32)
    requires off + 4 <= t.Length
    modifies t
    ensures t[..] == old(t[..off]) + Bytes(a, 4) + old(t[off + 4..])
  {
    AllBytes(a, 4);
    Powers();
    t[off] := a % 0x100;
    t[off + 1] := a / 0x100 % 0x100;
    t[off + 2] := a / 0x1_0000 % 0x100;
    t[off + 3] := a / 0x100_0000 % 0x100;
  }

  method Int5Store(t: array<uchar>, off: nat, a: uint64)
    requires off + 5 <= t.Length
    modifies t
    ensures t[..] == old(t[..off]) + Bytes(a, 5) + old(t[off + 5..])
  {
    AllBytes(a, 5);
    Powers();
    t[off] := a % 0x100;
    t[off + 1] := a / 0x100 % 0x100;
    t[off + 2] := a / 0x1_0000 % 0x100;
    t[off + 3] := a / 0x100_0000 % 0x100;
    t[off + 4] := a / 0x1_0000_0000 % 0x100;
  }

  method Int6Store(t: array<uchar>, off: nat, a: uint64)
    requires off + 6 <= t.Length
    modifies t
    ensures t[..] == old(t[..off]) + Bytes(a, 6) + old(t[off + 6..])
  {
    AllBytes(a, 6);
    Powers();
    t[off] := a % 0x100;
    t[off + 1] := a / 0x100 % 0x100;
    t[off + 2] := a / 0x1_0000 % 0x100;
    t[off + 3] := a / 0x100_0000 % 0x100;
    t[off + 4] := a / 0x1_0000_0000 % 0x100;
    t[off + 5] := a / 0x100_0000_0000 % 0x100;
  }

  method Int8Store(t: array<uchar>, off: nat, a: uint64)
    requires off + 8 <= t.Length
    modifies t
    ensures t[..] == old(t[..off]) + Bytes(a, 8) + old(t[off + 8..])
  {
    var low, high := a % 0x1_0000_0000, a / 0x1_0000_0000;
    Int4Store(t, off, low);
    Int4Store(t, off + 4, high);
    TwoHalves(a);
  }

  lemma StoredValue(front: seq<uchar>, n: nat, k: nat, back: seq<uchar>)
    ensures Value((front + Bytes(n, k) + back)[|front|..][..k]) == n % Pow256(k)
  {
    assert (front + Bytes(n, k) + back)[|front|..][..k] == Bytes(n, k);
    LoadOfStore(n, k);
  }

  /** What a store of `k` bytes leaves, the load of `k` bytes reads modulo 2^(8k). */
  lemma StoreThenLoad(front: seq<uchar>, n: nat, back: seq<uchar>)
    ensures Uint2Korr((front + Bytes(n, 2) + back)[|front|..]) == n % 0x1_0000
    ensures Uint3Korr((front + Bytes(n, 3) + back)[|front|..]) == n % 0x100_0000
    ensures Uint4Korr((front + Bytes(n, 4) + back)[|front|..]) == n % 0x1_0000_0000
    ensures Uint5Korr((front + Bytes(n, 5) + back)[|front|..]) == n % 0x100_0000_0000
    ensures Uint6Korr((front + Bytes(n, 6) + back)[|front|..]) == n % 0x1_0000_0000_0000
    ensures Uint8Korr((front + Bytes(n, 8) + back)[|front|..]) == n % 0x1_0000_0000_0000_0000
  {
    Powers();
    StoredValue(front, n, 2, back);
    StoredValue(front, n, 3, back);
    StoredValue(front, n, 4, back);
    StoredValue(front, n, 5, back);
    StoredValue(front, n, 6, back);
    StoredValue(front, n, 8, back);
    UnsignedLoads((front + Bytes(n, 2) + back)[|front|..]);
    UnsignedLoads((front + Bytes(n, 3) + back)[|front|..]);
    UnsignedLoads((front + Bytes(n, 4) + back)[|front|..]);
    UnsignedLoads((front + Bytes(n, 5) + back)[|front|..]);
    UnsignedLoads((front + Bytes(n, 6) + back)[|front|..]);
    UnsignedLoads((front + Bytes(n, 8) + back)[|front|..]);
  }

  /**
   Memory after a portable store is memory after a store through a cast pointer:
   the word at its place and everything else as before.
   */
  lemma PortableStoresAreDirect(before: seq<uchar>, after: seq<uchar>, off: nat, k: nat, w: nat)
    requires |after| == |before| && off + k <= |before| && w < Pow256(k)
    ensures after == before[..off] + Bytes(w, k) + before[off + k..]
            <==> HostWord(after[off..], k, w) && after[..off] == before[..off] && after[off + k..] == before[off + k..]
  {
    HostWordBytes(after[off..], k, w);
    assert after == after[..off] + after[off..][..k] + after[off + k..];
  }
}
