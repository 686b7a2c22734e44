/**
 The unrolled rounds of `MD5::transform`, line by line, against the table-driven
 steps of RFC 1321.  Each round of sixteen lines is split after every fourth
 line, where the register names are back in the roles they started in.
 */
module Md5Rounds {
  import opened Words
  import opened Md5Spec
  import opened Md5Macros

  method Round1a(a0: word, b0: word, c0: word, d0: word, x: seq<word>, ghost run: Run)
    returns (a: word, b: word, c: word, d: word)
    requires run.Follows(Round1) && x == run.words && run.trace[0] == State(a0, b0, c0, d0)
    ensures run.trace[4] == State(a, b, c, d)
  {
    a, b, c, d := a0, b0, c0, d0;
    a := FFAt(a, b, c, d, x[0], S11, 0xd76aa478, run, 0);
    d := FFAt(d, a, b, c, x[1], S12, 0xe8c7b756, run, 1);
    c := FFAt(c, d, a, b, x[2], S13, 0x242070db, run, 2);
    b := FFAt(b, c, d, a, x[3], S14, 0xc1bdceee, run, 3);
  }

  method Round1b(a0: word, b0: word, c0: word, d0: word, x: seq<word>, ghost run: Run)
    returns (a: word, b: word, c: word, d: word)
    requires run.Follows(Round1) && x == run.words && run.trace[4] == State(a0, b0, c0, d0)
    ensures run.trace[8] == State(a, b, c, d)
  {
    a, b, c, d := a0, b0, c0, d0;
    a := FFAt(a, b, c, d, x[4], S11, 0xf57c0faf, run, 4);
    d := FFAt(d, a, b, c, x[5], S12, 0x4787c62a, run, 5);
    c := FFAt(c, d, a, b, x[6], S13, 0xa8304613, run, 6);
    b := FFAt(b, c, d, a, x[7], S14, 0xfd469501, run, 7);
  }

  method Round1c(a0: word, b0: word, c0: word, d0: word, x: seq<word>, ghost run: Run)
    returns (a: word, b: word, c: word, d: word)
    requires run.Follows(Round1) && x == run.words && run.trace[8] == State(a0, b0, c0, d0)
    ensures run.trace[12] == State(a, b, c, d)
  {
    a, b, c, d := a0, b0, c0, d0;
    a := FFAt(a, b, c, d, x[8], S11, 0x698098d8, run, 8);
    d := FFAt(d, a, b, c, x[9], S12, 0x8b44f7af, run, 9);
    c := FFAt(c, d, a, b, x[10], S13, 0xffff5bb1, run, 10);
    b := FFAt(b, c, d, a, x[11], S14, 0x895cd7be, run, 11);
  }

  method Round1d(a0: word, b0: word, c0: word, d0: word, x: seq<word>, ghost run: Run)
    returns (a: word, b: word, c: word, d: word)
    requires run.Follows(Round1) && x == run.words && run.trace[12] == State(a0, b0, c0, d0)
    ensures run.trace[16] == State(a, b, c, d)
  {
    a, b, c, d := a0, b0, c0, d0;
    a := FFAt(a, b, c, d, x[12], S11, 0x6b901122, run, 12);
    d := FFAt(d, a, b, c, x[13], S12, 0xfd987193, run, 13);
    c := FFAt(c, d, a, b, x[14], S13, 0xa679438e, run, 14);
    b := FFAt(b, c, d, a, x[15], S14, 0x49b40821, run, 15);
  }

  method RunRound1(a0: word, b0: word, c0: word, d0: word, x: seq<word>)
    returns (a: word, b: word, c: word, d: word)
    requires |x| == 16
    ensures State(a, b, c, d) == Steps(State(a0, b0, c0, d0), RoundOps(x, Round1))
  {
    ghost var run := RunOf(State(a0, b0, c0, d0), x, Round1);
    a, b, c, d := Round1a(a0, b0, c0, d0, x, run);
    a, b, c, d := Round1b(a, b, c, d, x, run);
    a, b, c, d := Round1c(a, b, c, d, x, run);
    a, b, c, d := Round1d(a, b, c, d, x, run);
  }

  method Round2a(a0: word, b0: word, c0: word, d0: word, x: seq<word>, ghost run: Run)
    returns (a: word, b: word, c: word, d: word)
    requires run.Follows(Round2) && x == run.words && run.trace[0] == State(a0, b0, c0, d0)
    ensures run.trace[4] == State(a, b, c, d)
  {
    a, b, c, d := a0, b0, c0, d0;
    a := GGAt(a, b, c, d, x[1], S21, 0xf61e2562, run, 0);
    d := GGAt(d, a, b, c, x[6], S22, 0xc040b340, run, 1);
    c := GGAt(c, d, a, b, x[11], S23, 0x265e5a51, run, 2);
    b := GGAt(b, c, d, a, x[0], S24, 0xe9b6c7aa, run, 3);
  }

  method Round2b(a0: word, b0: word, c0: word, d0: word, x: seq<word>, ghost run: Run)
    returns (a: word, b: word, c: word, d: word)
    requires run.Follows(Round2) && x == run.words && run.trace[4] == State(a0, b0, c0, d0)
    ensures run.trace[8] == State(a, b, c, d)
  {
    a, b, c, d := a0, b0, c0, d0;
    a := GGAt(a, b, c, d, x[5], S21, 0xd62f105d, run, 4);
    d := GGAt(d, a, b, c, x[10], S22, 0x02441453, run, 5);
    c := GGAt(c, d, a, b, x[15], S23, 0xd8a1e681, run, 6);
    b := GGAt(b, c, d, a, x[4], S24, 0xe7d3fbc8, run, 7);
  }

  method Round2c(a0: word, b0: word, c0: word, d0: word, x: seq<word>, ghost run: Run)
    returns (a: word, b: word, c: word, d: word)
    requires run.Follows(Round2) && x == run.words && run.trace[8] == State(a0, b0, c0, d0)
    ensures run.trace[12] == State(a, b, c, d)
  {
    a, b, c, d := a0, b0, c0, d0;
    a := GGAt(a, b, c, d, x[9], S21, 0x21e1cde6, run, 8);
    d := GGAt(d, a, b, c, x[14], S22, 0xc33707d6, run, 9);
    c := GGAt(c, d, a, b, x[3], S23, 0xf4d50d87, run, 10);
    b := GGAt(b, c, d, a, x[8], S24, 0x455a14ed, run, 11);
  }

  method Round2d(a0: word, b0: word, c0: word, d0: word, x: seq<word>, ghost run: Run)
    returns (a: word, b: word, c: word, d: word)
    requires run.Follows(Round2) && x == run.words && run.trace[12] == State(a0, b0, c0, d0)
    ensures run.trace[16] == State(a, b, c, d)
  {
    a, b, c, d := a0, b0, c0, d0;
    a := GGAt(a, b, c, d, x[13], S21, 0xa9e3e905, run, 12);
    d := GGAt(d, a, b, c, x[2], S22, 0xfcefa3f8, run, 13);
    c := GGAt(c, d, a, b, x[7], S23, 0x676f02d9, run, 14);
    b := GGAt(b, c, d, a, x[12], S24, 0x8d2a4c8a, run, 15);
  }

  method RunRound2(a0: word, b0: word, c0: word, d0: word, x: seq<word>)
    returns (a: word, b: word, c: word, d: word)
    requires |x| == 16
    ensures State(a, b, c, d) == Steps(State(a0, b0, c0, d0), RoundOps(x, Round2))
  {
    ghost var run := RunOf(State(a0, b0, c0, d0), x, Round2);
    a, b, c, d := Round2a(a0, b0, c0, d0, x, run);
    a, b, c, d := Round2b(a, b, c, d, x, run);
    a, b, c, d := Round2c(a, b, c, d, x, run);
    a, b, c, d := Round2d(a, b, c, d, x, run);
  }

  method Round3a(a0: word, b0: word, c0: word, d0: word, x: seq<word>, ghost run: Run)
    returns (a: word, b: word, c: word, d: word)
    requires run.Follows(Round3) && x == run.words && run.trace[0] == State(a0, b0, c0, d0)
    ensures run.trace[4] == State(a, b, c, d)
  {
    a, b, c, d := a0, b0, c0, d0;
    a := HHAt(a, b, c, d, x[5], S31, 0xfffa3942, run, 0);
    d := HHAt(d, a, b, c, x[8], S32, 0x8771f681, run, 1);
    c := HHAt(c, d, a, b, x[11], S33, 0x6d9d6122, run, 2);
    b := HHAt(b, c, d, a, x[14], S34, 0xfde5380c, run, 3);
  }

  method Round3b(a0: word, b0: word, c0: word, d0: word, x: seq<word>, ghost run: Run)
    returns (a: word, b: word, c: word, d: word)
    requires run.Follows(Round3) && x == run.words && run.trace[4] == State(a0, b0, c0, d0)
    ensures run.trace[8] == State(a, b, c, d)
  {
    a, b, c, d := a0, b0, c0, d0;
    a := HHAt(a, b, c, d, x[1], S31, 0xa4beea44, run, 4);
    d := HHAt(d, a, b, c, x[4], S32, 0x4bdecfa9, run, 5);
    c := HHAt(c, d, a, b, x[7], S33, 0xf6bb4b60, run, 6);
    b := HHAt(b, c, d, a, x[10], S34, 0xbebfbc70, run, 7);
  }

  method Round3c(a0: word, b0: word, c0: word, d0: word, x: seq<word>, ghost run: Run)
    returns (a: word, b: word, c: word, d: word)
    requires run.Follows(Round3) && x == run.words && run.trace[8] == State(a0, b0, c0, d0)
    ensures run.trace[12] == State(a, b, c, d)
  {
    a, b, c, d := a0, b0, c0, d0;
    a := HHAt(a, b, c, d, x[13], S31, 0x289b7ec6, run, 8);
    d := HHAt(d, a, b, c, x[0], S32, 0xeaa127fa, run, 9);
    c := HHAt(c, d, a, b, x[3], S33, 0xd4ef3085, run, 10);
    b := HHAt(b, c, d, a, x[6], S34, 0x04881d05, run, 11);
  }

  method Round3d(a0: word, b0: word, c0: word, d0: word, x: seq<word>, ghost run: Run)
    returns (a: word, b: word, c: word, d: word)
    requires run.Follows(Round3) && x == run.words && run.trace[12] == State(a0, b0, c0, d0)
    ensures run.trace[16] == State(a, b, c, d)
  {
    a, b, c, d := a0, b0, c0, d0;
    a := HHAt(a, b, c, d, x[9], S31, 0xd9d4d039, run, 12);
    d := HHAt(d, a, b, c, x[12], S32, 0xe6db99e5, run, 13);
    c := HHAt(c, d, a, b, x[15], S33, 0x1fa27cf8, run, 14);
    b := HHAt(b, c, d, a, x[2], S34, 0xc4ac5665, run, 15);
  }

  method RunRound3(a0: word, b0: word, c0: word, d0: word, x: seq<word>)
    returns (a: word, b: word, c: word, d: word)
    requires |x| == 16
    ensures State(a, b, c, d) == Steps(State(a0, b0, c0, d0), RoundOps(x, Round3))
  {
    ghost var run := RunOf(State(a0, b0, c0, d0), x, Round3);
    a, b, c, d := Round3a(a0, b0, c0, d0, x, run);
    a, b, c, d := Round3b(a, b, c, d, x, run);
    a, b, c, d := Round3c(a, b, c, d, x, run);
    a, b, c, d := Round3d(a, b, c, d, x, run);
  }

  method Round4a(a0: word, b0: word, c0: word, d0: word, x: seq<word>, ghost run: Run)
    returns (a: word, b: word, c: word, d: word)
    requires run.Follows(Round4) && x == run.words && run.trace[0] == State(a0, b0, c0, d0)
    ensures run.trace[4] == State(a, b, c, d)
  {
    a, b, c, d := a0, b0, c0, d0;
    a := IIAt(a, b, c, d, x[0], S41, 0xf4292244, run, 0);
    d := IIAt(d, a, b, c, x[7], S42, 0x432aff97, run, 1);
    c := IIAt(c, d, a, b, x[14], S43, 0xab9423a7, run, 2);
    b := IIAt(b, c, d, a, x[5], S44, 0xfc93a039, run, 3);
  }

  method Round4b(a0: word, b0: word, c0: word, d0: word, x: seq<word>, ghost run: Run)
    returns (a: word, b: word, c: word, d: word)
    requires run.Follows(Round4) && x == run.words && run.trace[4] == State(a0, b0, c0, d0)
    ensures run.trace[8] == State(a, b, c, d)
  {
    a, b, c, d := a0, b0, c0, d0;
    a := IIAt(a, b, c, d, x[12], S41, 0x655b59c3, run, 4);
    d := IIAt(d, a, b, c, x[3], S42, 0x8f0ccc92, run, 5);
    c := IIAt(c, d, a, b, x[10], S43, 0xffeff47d, run, 6);
    b := IIAt(b, c, d, a, x[1], S44, 0x85845dd1, run, 7);
  }

  method Round4c(a0: word, b0: word, c0: word, d0: word, x: seq<word>, ghost run: Run)
    returns (a: word, b: word, c: word, d: word)
    requires run.Follows(Round4) && x == run.words && run.trace[8] == State(a0, b0, c0, d0)
    ensures run.trace[12] == State(a, b, c, d)
  {
    a, b, c, d := a0, b0, c0, d0;
    a := IIAt(a, b, c, d, x[8], S41, 0x6fa87e4f, run, 8);
    d := IIAt(d, a, b, c, x[15], S42, 0xfe2ce6e0, run, 9);
    c := IIAt(c, d, a, b, x[6], S43, 0xa3014314, run, 10);
    b := IIAt(b, c, d, a, x[13], S44, 0x4e0811a1, run, 11);
  }

  method Round4d(a0: word, b0: word, c0: word, d0: word, x: seq<word>, ghost run: Run)
    returns (a: word, b: word, c: word, d: word)
    requires run.Follows(Round4) && x == run.words && run.trace[12] == State(a0, b0, c0, d0)
    ensures run.trace[16] == State(a, b, c, d)
  {
    a, b, c, d := a0, b0, c0, d0;
    a := IIAt(a, b, c, d, x[4], S41, 0xf7537e82, run, 12);
    d := IIAt(d, a, b, c, x[11], S42, 0xbd3af235, run, 13);
    c := IIAt(c, d, a, b, x[2], S43, 0x2ad7d2bb, run, 14);
    b := IIAt(b, c, d, a, x[9], S44, 0xeb86d391, run, 15);
  }

  method RunRound4(a0: word, b0: word, c0: word, d0: word, x: seq<word>)
    returns (a: word, b: word, c: word, d: word)
    requires |x| == 16
    ensures State(a, b, c, d) == Steps(State(a0, b0, c0, d0), RoundOps(x, Round4))
  {
    ghost var run := RunOf(State(a0, b0, c0, d0), x, Round4);
    a, b, c, d := Round4a(a0, b0, c0, d0, x, run);
    a, b, c, d := Round4b(a, b, c, d, x, run);
    a, b, c, d := Round4c(a, b, c, d, x, run);
    a, b, c, d := Round4d(a, b, c, d, x, run);
  }

  lemma {:induction false} StepsAppend(s: State, ops: seq<Op>, more: seq<Op>)
    ensures Steps(s, ops + more) == Steps(Steps(s, ops), more)
    decreases |ops|
  {
    if |ops| == 0 {
      assert ops + more == more;
    } else {
      assert (ops + more)[1..] == ops[1..] + more;
      StepsAppend(Step(s, ops[0]), ops[1..], more);
    }
  }

  /** The four rounds one after the other are the whole schedule. */
  lemma RoundsMakeSchedule(s: State, x: seq<word>)
    requires |x| == 16
    ensures Steps(s, Schedule(x))
            == Steps(Steps(Steps(Steps(s, RoundOps(x, Round1)), RoundOps(x, Round2)),
                           RoundOps(x, Round3)), RoundOps(x, Round4))
  {
    var r1, r2, r3, r4 := RoundOps(x, Round1), RoundOps(x, Round2), RoundOps(x, Round3), RoundOps(x, Round4);
    StepsAppend(s, r1 + r2 + r3, r4);
    StepsAppend(s, r1 + r2, r3);
    StepsAppend(s, r1, r2);
  }

  /** All sixty-four lines. */
  method RunRounds(a0: word, b0: word, c0: word, d0: word, x: seq<word>)
    returns (a: word, b: word, c: word, d: word)
    requires |x| == 16
    ensures State(a, b, c, d) == Steps(State(a0, b0, c0, d0), Schedule(x))
  {
    a, b, c, d := RunRound1(a0, b0, c0, d0, x);
    a, b, c, d := RunRound2(a, b, c, d, x);
    a, b, c, d := RunRound3(a, b, c, d, x);
    a, b, c, d := RunRound4(a, b, c, d, x);
    RoundsMakeSchedule(State(a0, b0, c0, d0), x);
  }

  lemma CompressIs(s: State, block: seq<byte>, t: State)
    requires |block| == 64 && Steps(s, Schedule(DecodeWords(block))) == t
    ensures Compress(s, block) == Plus(s, t)
  {
  }
}
