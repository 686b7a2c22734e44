/**
 The two fast forms of `skip_trailing_space` and the plain loop they replace.
 A result is given as a length or, where alignment matters, as an address.
 */
module TrailingSpace {
  import opened ByteOrder
  import opened Integers

  predicate AllSpaces(s: seq<uchar>, from: nat) {
    forall i :: from <= i < |s| ==> s[i] == 0x20
  }

  /** `r` ends the longest prefix that does not end in a space. */
  predicate EndsText(s: seq<uchar>, r: nat) {
    r <= |s| && AllSpaces(s, r) && (r > 0 ==> s[r - 1] != 0x20)
  }

  /** What the plain loop finds, going down one byte at a time. */
  function TextLength(s: seq<uchar>): (r: nat)
    ensures r <= |s|
  {
    if |s| > 0 && s[|s| - 1] == 0x20 then TextLength(s[..|s| - 1]) else |s|
  }

  lemma EndsNoLater(s: seq<uchar>, q: nat, r: nat)
    requires AllSpaces(s, q) && EndsText(s, r)
    ensures r <= q
  {
    if r > 0 {
      assert s[r - 1] != 0x20;
    }
  }

  lemma {:induction false} TextLengthEnds(s: seq<uchar>)
    ensures EndsText(s, TextLength(s))
  {
    if |s| == 0 || s[|s| - 1] != 0x20 {
    } else {
      TextLengthEnds(s[..|s| - 1]);
    }
  }

  /** The plain loop's result is the only end of the text. */
  lemma {:induction false} EndsTextIff(s: seq<uchar>, r: nat)
    ensures EndsText(s, r) <==> r == TextLength(s)
  {
    TextLengthEnds(s);
    if EndsText(s, r) {
      EndsNoLater(s, r, TextLength(s));
      EndsNoLater(s, TextLength(s), r);
    }
  }

  function Text(s: seq<uchar>): seq<uchar> {
    s[..TextLength(s)]
  }

  function Spaces(n: nat): (s: seq<uchar>)
    ensures |s| == n
  {
    seq(n, _ => 0x20)
  }

  lemma SpacesAreBlanks(n: nat, i: nat)
    requires i < n
    ensures Spaces(n)[i] as char == ' '
  {
  }

  lemma TextAndSpaces(s: seq<uchar>)
    ensures s == Text(s) + Spaces(|s| - |Text(s)|)
  {
    TextLengthEnds(s);
  }

  lemma SpacesAdded(s: seq<uchar>, n: nat)
    ensures Text(s + Spaces(n)) == Text(s)
  {
    TextLengthEnds(s);
    EndsTextIff(s + Spaces(n), TextLength(s));
  }

  lemma PaddedTo(s: seq<uchar>, t: seq<uchar>)
    requires Text(s) == Text(t) && |s| <= |t|
    ensures s + Spaces(|t| - |s|) == t
  {
    TextAndSpaces(s);
    TextAndSpaces(t);
    assert Spaces(|s| - |Text(s)|) + Spaces(|t| - |s|) == Spaces(|t| - |Text(t)|);
    assert Text(s) + Spaces(|s| - |Text(s)|) + Spaces(|t| - |s|)
           == Text(s) + (Spaces(|s| - |Text(s)|) + Spaces(|t| - |s|));
  }

  /** Two strings have the same text exactly if one is the other padded with spaces. */
  lemma SameText(s: seq<uchar>, t: seq<uchar>)
    ensures Text(s) == Text(t) <==> exists n: nat :: s + Spaces(n) == t || t + Spaces(n) == s
  {
    if Text(s) == Text(t) {
      if |s| <= |t| {
        PaddedTo(s, t);
      } else {
        PaddedTo(t, s);
      }
    }
    forall n: nat
      ensures Text(s + Spaces(n)) == Text(s) && Text(t + Spaces(n)) == Text(t)
    {
      SpacesAdded(s, n);
      SpacesAdded(t, n);
    }
  }

  // --------------------------------------------------------- words of spaces

  lemma ValueInjective(a: seq<uchar>, b: seq<uchar>)
    requires |a| == |b|
    ensures Value(a) == Value(b) <==> a == b
  {
    StoreOfLoad(a);
    StoreOfLoad(b);
  }

  lemma WordsOfSpaces()
    ensures Value(Spaces(4)) == 0x2020_2020
    ensures Value(Spaces(8)) == 0x2020_2020_2020_2020
  {
    Unfold4(Spaces(4));
    Unfold8(Spaces(8));
    assert Spaces(8)[..4] == Spaces(4) && Spaces(8)[4..] == Spaces(4);
  }

  /** Eight bytes read as the word of spaces exactly if each one is a space. */
  lemma EightSpaces(a: seq<uchar>)
    requires |a| >= 8
    ensures Uint8Korr(a) == 0x2020_2020_2020_2020 <==> AllSpaces(a[..8], 0)
  {
    Load8(a);
    WordsOfSpaces();
    ValueInjective(a[..8], Spaces(8));
  }

  function Reversed(s: seq<uchar>): (r: seq<uchar>)
    ensures |r| == |s|
  {
    seq(|s|, i requires 0 <= i < |s| => s[|s| - 1 - i])
  }

  /** A whole word in the byte order of the host. */
  function HostValue(bytes: seq<uchar>, bigEndian: bool): nat {
    Value(if bigEndian then Reversed(bytes) else bytes)
  }

  function SpaceInt(size: nat): nat {
    if size == 4 then 0x2020_2020 else 0x2020_2020_2020_2020
  }

  lemma ReversedSpaces(s: seq<uchar>)
    ensures Reversed(s) == Spaces(|s|) <==> s == Spaces(|s|)
  {
    assert Reversed(Reversed(s)) == s;
    assert Reversed(Spaces(|s|)) == Spaces(|s|);
  }

  /** In either byte order a word is all spaces exactly if each byte is one. */
  lemma WordOfSpaces(bytes: seq<uchar>, bigEndian: bool)
    requires |bytes| == 4 || |bytes| == 8
    ensures HostValue(bytes, bigEndian) == SpaceInt(|bytes|) <==> AllSpaces(bytes, 0)
  {
    WordsOfSpaces();
    ReversedSpaces(bytes);
    ValueInjective(bytes, Spaces(|bytes|));
    ValueInjective(Reversed(bytes), Spaces(|bytes|));
    assert AllSpaces(bytes, 0) <==> bytes == Spaces(|bytes|);
  }

  // -------------------------------------------------------------- the loops

  /** The loop over single bytes that ends both forms. */
  method SkipBytes(s: seq<uchar>, from: nat) returns (end: nat)
    requires from <= |s| && AllSpaces(s, from)
    ensures end == TextLength(s)
  {
    end := from;
    while end > 0 && s[end - 1] == 0x20
      invariant end <= |s| && AllSpaces(s, end)
    {
      end := end - 1;
    }
    EndsTextIff(s, end);
  }

  /** The form that reads eight bytes at a time, wherever they are. */
  method SkipTrailingSpace(s: seq<uchar>) returns (end: nat)
    ensures end == TextLength(s)
  {
    end := |s|;
    while end >= 8
      invariant end <= |s| && AllSpaces(s, end)
    {
      EightSpaces(s[end - 8..end]);
      if Uint8Korr(s[end - 8..end]) != 0x2020_2020_2020_2020 {
        break;
      }
      assert forall i :: end - 8 <= i < end ==> s[i] == s[end - 8..end][..8][i - (end - 8)];
      end := end - 8;
    }
    end := SkipBytes(s, end);
  }

  // ------------------------------------------------------- by whole words

  predicate Aligned(p: nat, size: nat)
    requires size > 0
  {
    p % size == 0
  }

  lemma RoundDown(p: nat, size: nat)
    requires size == 4 || size == 8
    ensures Aligned(p / size * size, size) && p / size * size <= p < p / size * size + size
  {
    if size == 4 {
    } else {
    }
  }

  lemma OneWordDown(end: nat, start: nat, size: nat)
    requires size == 4 || size == 8
    requires Aligned(end, size) && Aligned(start, size) && start < end
    ensures start + size <= end && Aligned(end - size, size)
  {
    if size == 4 {
    } else {
    }
  }

  /** The word at an address: it must be aligned and within the string at `ptr`. */
  function LoadWord(ptr: nat, s: seq<uchar>, at: nat, size: nat, bigEndian: bool): nat
    requires size > 0 && Aligned(at, size)
    requires ptr <= at && at + size <= ptr + |s|
  {
    HostValue(s[at - ptr..at - ptr + size], bigEndian)
  }

  lemma WordBefore(s: seq<uchar>, r: nat, size: nat, bigEndian: bool)
    requires (size == 4 || size == 8) && size <= r <= |s| && AllSpaces(s, r)
    requires HostValue(s[r - size..r], bigEndian) == SpaceInt(size)
    ensures AllSpaces(s, r - size)
  {
    WordOfSpaces(s[r - size..r], bigEndian);
    forall i | r - size <= i < r
      ensures s[i] == 0x20
    {
      assert s[i] == s[r - size..r][i - (r - size)];
    }
  }

  /** The loop over the aligned words, from the end of the last one down. */
  method SkipWords(ptr: nat, s: seq<uchar>, from: nat, startWords: nat, size: nat, bigEndian: bool)
    returns (end: nat)
    requires size == 4 || size == 8
    requires ptr <= startWords <= from <= ptr + |s|
    requires Aligned(startWords, size) && Aligned(from, size) && AllSpaces(s, from - ptr)
    ensures startWords <= end <= from && AllSpaces(s, end - ptr) && Aligned(end, size)
    ensures end == startWords
            || (startWords + size <= end && !AllSpaces(s[end - size - ptr..end - ptr], 0))
  {
    end := from;
    while end > startWords
      invariant startWords <= end <= from && Aligned(end, size) && AllSpaces(s, end - ptr)
    {
      OneWordDown(end, startWords, size);
      WordOfSpaces(s[end - size - ptr..end - ptr], bigEndian);
      if LoadWord(ptr, s, end - size, size, bigEndian) != SpaceInt(size) {
        break;
      }
      WordBefore(s, end - ptr, size, bigEndian);
      end := end - size;
    }
  }

  /** The first and the last word boundary of a string that is long enough. */
  lemma Zones(ptr: nat, length: nat, size: nat, startWords: nat, endWords: nat)
    requires (size == 4 || size == 8) && length > 20 && ptr + length < 0x1_0000_0000_0000_0000
    requires endWords == (ptr + length) / size * size
    requires startWords == (ptr + size - 1) % 0x1_0000_0000_0000_0000 / size * size
    ensures Aligned(startWords, size) && Aligned(endWords, size)
    ensures ptr <= startWords && ptr < endWords <= ptr + length
  {
    RoundDown(ptr + length, size);
    RoundDown(ptr + size - 1, size);
  }

  /** The part for long strings: single bytes down to a boundary, then whole words. */
  method SkipZones(ptr: nat, s: seq<uchar>, size: nat, bigEndian: bool) returns (end: nat)
    requires (size == 4 || size == 8) && |s| > 20 && ptr + |s| < 0x1_0000_0000_0000_0000
    ensures ptr <= end <= ptr + |s| && AllSpaces(s, end - ptr)
  {
    end := ptr + |s|;
    var endWords := end / size * size;
    var startWords := (ptr + size - 1) % 0x1_0000_0000_0000_0000 / size * size;
    Zones(ptr, |s|, size, startWords, endWords);
    assert endWords > ptr;
    while end > endWords && s[end - 1 - ptr] == 0x20
      invariant endWords <= end <= ptr + |s| && AllSpaces(s, end - ptr)
    {
      end := end - 1;
    }
    if s[end - 1 - ptr] == 0x20 && startWords < endWords {
      end := SkipWords(ptr, s, end, startWords, size, bigEndian);
    }
  }

  /**
   The form that splits the string at `ptr` by alignment.  `size` is the size of
   an `int`; addresses are 64-bit words, and the string lies within them.
   */
  method SkipTrailingSpaceByWords(ptr: nat, s: seq<uchar>, size: nat, bigEndian: bool) returns (end: nat)
    requires size == 4 || size == 8
    requires ptr + |s| < 0x1_0000_0000_0000_0000
    ensures end == ptr + TextLength(s)
  {
    end := ptr + |s|;
    if |s| > 20 {
      end := SkipZones(ptr, s, size, bigEndian);
    }
    var length := SkipBytes(s, end - ptr);
    end := ptr + length;
  }
}
