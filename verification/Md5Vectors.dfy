/**
 Two examples of RFC 1321, section A.5, worked through step by step: they hold the
 tables, the constants and the order of everything to printed numbers.  A line
 of `FourTurns` gives four registers and the four values that replace them.
 */
module Md5Vectors {
  import opened ByteOrder
  import opened Integers
  import opened Words
  import opened Md5Spec
  import opened Md5Codec
  import opened Md5Padding
  import opened Md5Rounds

  /** The value that step `j` of a round puts in place of `a`. */
  function TurnAt(x: seq<word>, round: Round, j: nat, a: word, b: word, c: word, d: word): word
    requires |x| == 16 && j < 16
  {
    Turn(a, b, round.Auxiliary(b, c, d), x[WordIndex(round, j)], Additive(round, j), Shift(round, j))
  }

  /** The registers after the steps of a round from step `j` on. */
  function Rest(s: State, x: seq<word>, round: Round, j: nat): State
    requires |x| == 16 && j <= 16
  {
    Steps(s, RoundOps(x, round)[j..])
  }

  lemma Next(x: seq<word>, round: Round, j: nat, a: word, b: word, c: word, d: word)
    requires |x| == 16 && j < 16
    ensures Rest(State(a, b, c, d), x, round, j)
            == Rest(State(d, TurnAt(x, round, j, a, b, c, d), b, c), x, round, j + 1)
  {
    var ops := RoundOps(x, round);
    assert ops[j..][0] == ops[j] == OpAt(x, round, j) && ops[j..][1..] == ops[j + 1..];
  }

  /** Four steps from `j` on replace the registers, in the order of their replacement. */
  predicate FourTurns(x: seq<word>, round: Round, j: nat, a: word, d: word, c: word, b: word,
                      r0: word, r1: word, r2: word, r3: word)
    requires |x| == 16 && j + 3 < 16
    ensures FourTurns(x, round, j, a, d, c, b, r0, r1, r2, r3)
            ==> Rest(State(a, b, c, d), x, round, j) == Rest(State(r0, r3, r2, r1), x, round, j + 4)
  {
    Next(x, round, j, a, b, c, d);
    Next(x, round, j + 1, d, r0, b, c);
    Next(x, round, j + 2, c, r1, r0, b);
    Next(x, round, j + 3, b, r2, r1, r0);
    && r0 == TurnAt(x, round, j, a, b, c, d)
    && r1 == TurnAt(x, round, j + 1, d, r0, b, c)
    && r2 == TurnAt(x, round, j + 2, c, r1, r0, b)
    && r3 == TurnAt(x, round, j + 3, b, r2, r1, r0)
  }

  lemma RoundRun(x: seq<word>, round: Round, s: State, t: State)
    requires |x| == 16 && Rest(s, x, round, 0) == Rest(t, x, round, 16)
    ensures Steps(s, RoundOps(x, round)) == t
  {
    assert RoundOps(x, round)[0..] == RoundOps(x, round);
  }

  // The words each round reads, in order.

  lemma WordsRead1()
    ensures WordIndex(Round1, 0) == 0 && WordIndex(Round1, 1) == 1
    ensures WordIndex(Round1, 2) == 2 && WordIndex(Round1, 3) == 3
    ensures WordIndex(Round1, 4) == 4 && WordIndex(Round1, 5) == 5
    ensures WordIndex(Round1, 6) == 6 && WordIndex(Round1, 7) == 7
    ensures WordIndex(Round1, 8) == 8 && WordIndex(Round1, 9) == 9
    ensures WordIndex(Round1, 10) == 10 && WordIndex(Round1, 11) == 11
    ensures WordIndex(Round1, 12) == 12 && WordIndex(Round1, 13) == 13
    ensures WordIndex(Round1, 14) == 14 && WordIndex(Round1, 15) == 15
  {
  }

  lemma WordsRead2()
    ensures WordIndex(Round2, 0) == 1 && WordIndex(Round2, 1) == 6
    ensures WordIndex(Round2, 2) == 11 && WordIndex(Round2, 3) == 0
    ensures WordIndex(Round2, 4) == 5 && WordIndex(Round2, 5) == 10
    ensures WordIndex(Round2, 6) == 15 && WordIndex(Round2, 7) == 4
    ensures WordIndex(Round2, 8) == 9 && WordIndex(Round2, 9) == 14
    ensures WordIndex(Round2, 10) == 3 && WordIndex(Round2, 11) == 8
    ensures WordIndex(Round2, 12) == 13 && WordIndex(Round2, 13) == 2
    ensures WordIndex(Round2, 14) == 7 && WordIndex(Round2, 15) == 12
  {
  }

  lemma WordsRead3()
    ensures WordIndex(Round3, 0) == 5 && WordIndex(Round3, 1) == 8
    ensures WordIndex(Round3, 2) == 11 && WordIndex(Round3, 3) == 14
    ensures WordIndex(Round3, 4) == 1 && WordIndex(Round3, 5) == 4
    ensures WordIndex(Round3, 6) == 7 && WordIndex(Round3, 7) == 10
    ensures WordIndex(Round3, 8) == 13 && WordIndex(Round3, 9) == 0
    ensures WordIndex(Round3, 10) == 3 && WordIndex(Round3, 11) == 6
    ensures WordIndex(Round3, 12) == 9 && WordIndex(Round3, 13) == 12
    ensures WordIndex(Round3, 14) == 15 && WordIndex(Round3, 15) == 2
  {
  }

  lemma WordsRead4()
    ensures WordIndex(Round4, 0) == 0 && WordIndex(Round4, 1) == 7
    ensures WordIndex(Round4, 2) == 14 && WordIndex(Round4, 3) == 5
    ensures WordIndex(Round4, 4) == 12 && WordIndex(Round4, 5) == 3
    ensures WordIndex(Round4, 6) == 10 && WordIndex(Round4, 7) == 1
    ensures WordIndex(Round4, 8) == 8 && WordIndex(Round4, 9) == 15
    ensures WordIndex(Round4, 10) == 6 && WordIndex(Round4, 11) == 13
    ensures WordIndex(Round4, 12) == 4 && WordIndex(Round4, 13) == 11
    ensures WordIndex(Round4, 14) == 2 && WordIndex(Round4, 15) == 9
  {
  }

  // -------------------------------------------- the block of the empty message

  ghost predicate IsEmpty(x: seq<word>) {
    && |x| == 16
    && x[0] == 0x00000080 && x[1] == 0x00000000 && x[2] == 0x00000000 && x[3] == 0x00000000
    && x[4] == 0x00000000 && x[5] == 0x00000000 && x[6] == 0x00000000 && x[7] == 0x00000000
    && x[8] == 0x00000000 && x[9] == 0x00000000 && x[10] == 0x00000000 && x[11] == 0x00000000
    && x[12] == 0x00000000 && x[13] == 0x00000000 && x[14] == 0x00000000 && x[15] == 0x00000000
  }

  lemma Empty1a(x: seq<word>)
    requires IsEmpty(x)
    ensures Rest(State(0x67452301, 0xefcdab89, 0x98badcfe, 0x10325476), x, Round1, 0)
            == Rest(State(0x32033344, 0x9bc13ce9, 0xf5b158db, 0x2f35d494), x, Round1, 8)
  {
    WordsRead1();
    assert FourTurns(x, Round1, 0, 0x67452301, 0x10325476, 0x98badcfe, 0xefcdab89,
                     0xa5202774, 0xf59592dd, 0xe7f06b23, 0x1b163203);
    assert FourTurns(x, Round1, 4, 0xa5202774, 0xf59592dd, 0xe7f06b23, 0x1b163203,
                     0x32033344, 0x2f35d494, 0xf5b158db, 0x9bc13ce9);
  }

  lemma Empty1b(x: seq<word>)
    requires IsEmpty(x)
    ensures Rest(State(0x32033344, 0x9bc13ce9, 0xf5b158db, 0x2f35d494), x, Round1, 8)
            == Rest(State(0xf56c7cf1, 0xd6819c6a, 0x5aa53f75, 0x374943a7), x, Round1, 16)
  {
    WordsRead1();
    assert FourTurns(x, Round1, 8, 0x32033344, 0x2f35d494, 0xf5b158db, 0x9bc13ce9,
                     0x3893b991, 0xfce4a312, 0xe1ef0576, 0x70768a29);
    assert FourTurns(x, Round1, 12, 0x3893b991, 0xfce4a312, 0xe1ef0576, 0x70768a29,
                     0xf56c7cf1, 0x374943a7, 0x5aa53f75, 0xd6819c6a);
  }

  lemma Empty2a(x: seq<word>)
    requires IsEmpty(x)
    ensures Rest(State(0xf56c7cf1, 0xd6819c6a, 0x5aa53f75, 0x374943a7), x, Round2, 0)
            == Rest(State(0x3d1e3e6c, 0xe422531a, 0xeb41643e, 0x68b7b3e3), x, Round2, 8)
  {
    WordsRead2();
    assert FourTurns(x, Round2, 0, 0xf56c7cf1, 0x374943a7, 0x5aa53f75, 0xd6819c6a,
                     0x1c7d7513, 0x7bd57a3a, 0xc095f13a, 0xbd782e17);
    assert FourTurns(x, Round2, 4, 0x1c7d7513, 0x7bd57a3a, 0xc095f13a, 0xbd782e17,
                     0x3d1e3e6c, 0x68b7b3e3, 0xeb41643e, 0xe422531a);
  }

  lemma Empty2b(x: seq<word>)
    requires IsEmpty(x)
    ensures Rest(State(0x3d1e3e6c, 0xe422531a, 0xeb41643e, 0x68b7b3e3), x, Round2, 8)
            == Rest(State(0x13707036, 0xa2205f1f, 0x1c31c384, 0xae7813db), x, Round2, 16)
  {
    WordsRead2();
    assert FourTurns(x, Round2, 8, 0x3d1e3e6c, 0x68b7b3e3, 0xeb41643e, 0xe422531a,
                     0x306ec122, 0xd28c77c2, 0xa3c663da, 0xa0572807);
    assert FourTurns(x, Round2, 12, 0x306ec122, 0xd28c77c2, 0xa3c663da, 0xa0572807,
                     0x13707036, 0xae7813db, 0x1c31c384, 0xa2205f1f);
  }

  lemma Empty3a(x: seq<word>)
    requires IsEmpty(x)
    ensures Rest(State(0x13707036, 0xa2205f1f, 0x1c31c384, 0xae7813db), x, Round3, 0)
            == Rest(State(0x5f7a9b2e, 0xc5dc8c15, 0x91ca4cb7, 0xabc34e16), x, Round3, 8)
  {
    WordsRead3();
    assert FourTurns(x, Round3, 0, 0x13707036, 0xae7813db, 0x1c31c384, 0xa2205f1f,
                     0xdf63eaa1, 0xc3689f5b, 0x12f3e755, 0x004b6669);
    assert FourTurns(x, Round3, 4, 0xdf63eaa1, 0xc3689f5b, 0x12f3e755, 0x004b6669,
                     0x5f7a9b2e, 0xabc34e16, 0x91ca4cb7, 0xc5dc8c15);
  }

  lemma Empty3b(x: seq<word>)
    requires IsEmpty(x)
    ensures Rest(State(0x5f7a9b2e, 0xc5dc8c15, 0x91ca4cb7, 0xabc34e16), x, Round3, 8)
            == Rest(State(0x3f55edfd, 0xca7d2dbd, 0x68d84ea2, 0x22a31f54), x, Round3, 16)
  {
    WordsRead3();
    assert FourTurns(x, Round3, 8, 0x5f7a9b2e, 0xabc34e16, 0x91ca4cb7, 0xc5dc8c15,
                     0x4497169d, 0x76fd93d4, 0xfd95f243, 0x0fe32453);
    assert FourTurns(x, Round3, 12, 0x4497169d, 0x76fd93d4, 0xfd95f243, 0x0fe32453,
                     0x3f55edfd, 0x22a31f54, 0x68d84ea2, 0xca7d2dbd);
  }

  lemma Empty4a(x: seq<word>)
    requires IsEmpty(x)
    ensures Rest(State(0x3f55edfd, 0xca7d2dbd, 0x68d84ea2, 0x22a31f54), x, Round4, 0)
            == Rest(State(0x5625a114, 0x1e77fa61, 0x392ad0d0, 0x3450f42b), x, Round4, 8)
  {
    WordsRead4();
    assert FourTurns(x, Round4, 0, 0x3f55edfd, 0x22a31f54, 0x68d84ea2, 0xca7d2dbd,
                     0x93aa2577, 0x1688dc85, 0xcd85b8cb, 0x561e0689);
    assert FourTurns(x, Round4, 4, 0x93aa2577, 0x1688dc85, 0xcd85b8cb, 0x561e0689,
                     0x5625a114, 0x3450f42b, 0x392ad0d0, 0x1e77fa61);
  }

  lemma Empty4b(x: seq<word>)
    requires IsEmpty(x)
    ensures Rest(State(0x5625a114, 0x1e77fa61, 0x392ad0d0, 0x3450f42b), x, Round4, 8)
            == Rest(State(0x7246fad3, 0x14e45506, 0xff4ea3eb, 0x6e10a476), x, Round4, 16)
  {
    WordsRead4();
    assert FourTurns(x, Round4, 8, 0x5625a114, 0x3450f42b, 0x392ad0d0, 0x1e77fa61,
                     0x474a9c8c, 0xdfce00bc, 0x36594b14, 0x30130182);
    assert FourTurns(x, Round4, 12, 0x474a9c8c, 0xdfce00bc, 0x36594b14, 0x30130182,
                     0x7246fad3, 0x6e10a476, 0xff4ea3eb, 0x14e45506);
  }

  lemma EmptySteps(x: seq<word>)
    requires IsEmpty(x)
    ensures Steps(State(0x67452301, 0xefcdab89, 0x98badcfe, 0x10325476), Schedule(x))
            == State(0x7246fad3, 0x14e45506, 0xff4ea3eb, 0x6e10a476)
  {
    Empty1a(x);
    Empty1b(x);
    RoundRun(x, Round1, State(0x67452301, 0xefcdab89, 0x98badcfe, 0x10325476),
             State(0xf56c7cf1, 0xd6819c6a, 0x5aa53f75, 0x374943a7));
    Empty2a(x);
    Empty2b(x);
    RoundRun(x, Round2, State(0xf56c7cf1, 0xd6819c6a, 0x5aa53f75, 0x374943a7),
             State(0x13707036, 0xa2205f1f, 0x1c31c384, 0xae7813db));
    Empty3a(x);
    Empty3b(x);
    RoundRun(x, Round3, State(0x13707036, 0xa2205f1f, 0x1c31c384, 0xae7813db),
             State(0x3f55edfd, 0xca7d2dbd, 0x68d84ea2, 0x22a31f54));
    Empty4a(x);
    Empty4b(x);
    RoundRun(x, Round4, State(0x3f55edfd, 0xca7d2dbd, 0x68d84ea2, 0x22a31f54),
             State(0x7246fad3, 0x14e45506, 0xff4ea3eb, 0x6e10a476));
    RoundsMakeSchedule(State(0x67452301, 0xefcdab89, 0x98badcfe, 0x10325476), x);
  }

  lemma EmptySums()
    ensures Plus(State(0x67452301, 0xefcdab89, 0x98badcfe, 0x10325476),
                 State(0x7246fad3, 0x14e45506, 0xff4ea3eb, 0x6e10a476))
            == State(0xd98c1dd4, 0x04b2008f, 0x980980e9, 0x7e42f8ec)
  {
  }

  // --------------------------------------------- the first block of the digits

  ghost predicate IsDigits(x: seq<word>) {
    && |x| == 16
    && x[0] == 0x34333231 && x[1] == 0x38373635 && x[2] == 0x32313039 && x[3] == 0x36353433
    && x[4] == 0x30393837 && x[5] == 0x34333231 && x[6] == 0x38373635 && x[7] == 0x32313039
    && x[8] == 0x36353433 && x[9] == 0x30393837 && x[10] == 0x34333231 && x[11] == 0x38373635
    && x[12] == 0x32313039 && x[13] == 0x36353433 && x[14] == 0x30393837 && x[15] == 0x34333231
  }

  lemma Digits1a(x: seq<word>)
    requires IsDigits(x)
    ensures Rest(State(0x67452301, 0xefcdab89, 0x98badcfe, 0x10325476), x, Round1, 0)
            == Rest(State(0x8c17de9f, 0xc57e78c1, 0xe99fec1b, 0xc0f32d81), x, Round1, 8)
  {
    WordsRead1();
    assert FourTurns(x, Round1, 0, 0x67452301, 0x10325476, 0x98badcfe, 0xefcdab89,
                     0xbeb8ff8e, 0x7d989d89, 0xf8cdf95d, 0x862797b0);
    assert FourTurns(x, Round1, 4, 0xbeb8ff8e, 0x7d989d89, 0xf8cdf95d, 0x862797b0,
                     0x8c17de9f, 0xc0f32d81, 0xe99fec1b, 0xc57e78c1);
  }

  lemma Digits1b(x: seq<word>)
    requires IsDigits(x)
    ensures Rest(State(0x8c17de9f, 0xc57e78c1, 0xe99fec1b, 0xc0f32d81), x, Round1, 8)
            == Rest(State(0x5157e49e, 0xaf506a03, 0x27e983a0, 0xffac907e), x, Round1, 16)
  {
    WordsRead1();
    assert FourTurns(x, Round1, 8, 0x8c17de9f, 0xc0f32d81, 0xe99fec1b, 0xc57e78c1,
                     0x7c0aceb7, 0x8869d2d8, 0x5186a8ba, 0xa5f36f8d);
    assert FourTurns(x, Round1, 12, 0x7c0aceb7, 0x8869d2d8, 0x5186a8ba, 0xa5f36f8d,
                     0x5157e49e, 0xffac907e, 0x27e983a0, 0xaf506a03);
  }

  lemma Digits2a(x: seq<word>)
    requires IsDigits(x)
    ensures Rest(State(0x5157e49e, 0xaf506a03, 0x27e983a0, 0xffac907e), x, Round2, 0)
            == Rest(State(0x78929ee0, 0xad400a91, 0xb18aca50, 0x375c6c2c), x, Round2, 8)
  {
    WordsRead2();
    assert FourTurns(x, Round2, 0, 0x5157e49e, 0xffac907e, 0x27e983a0, 0xaf506a03,
                     0x8d18e0e8, 0x07de0df2, 0xef223167, 0x04280170);
    assert FourTurns(x, Round2, 4, 0x8d18e0e8, 0x07de0df2, 0xef223167, 0x04280170,
                     0x78929ee0, 0x375c6c2c, 0xb18aca50, 0xad400a91);
  }

  lemma Digits2b(x: seq<word>)
    requires IsDigits(x)
    ensures Rest(State(0x78929ee0, 0xad400a91, 0xb18aca50, 0x375c6c2c), x, Round2, 8)
            == Rest(State(0xf8bcfbb0, 0x1bf25662, 0x99a0f1b8, 0xd760ed39), x, Round2, 16)
  {
    WordsRead2();
    assert FourTurns(x, Round2, 8, 0x78929ee0, 0x375c6c2c, 0xb18aca50, 0xad400a91,
                     0xbb45f43f, 0xd61f8a0f, 0x98ade6b5, 0xb70e35a9);
    assert FourTurns(x, Round2, 12, 0xbb45f43f, 0xd61f8a0f, 0x98ade6b5, 0xb70e35a9,
                     0xf8bcfbb0, 0xd760ed39, 0x99a0f1b8, 0x1bf25662);
  }

  lemma Digits3a(x: seq<word>)
    requires IsDigits(x)
    ensures Rest(State(0xf8bcfbb0, 0x1bf25662, 0x99a0f1b8, 0xd760ed39), x, Round3, 0)
            == Rest(State(0x3b32c408, 0x1d4d6f72, 0x9ef871ad, 0x7338d8b7), x, Round3, 8)
  {
    WordsRead3();
    assert FourTurns(x, Round3, 0, 0xf8bcfbb0, 0xd760ed39, 0x99a0f1b8, 0x1bf25662,
                     0x3dbd76ca, 0xfd056171, 0xc7ed7c30, 0xe0162f49);
    assert FourTurns(x, Round3, 4, 0x3dbd76ca, 0xfd056171, 0xc7ed7c30, 0xe0162f49,
                     0x3b32c408, 0x7338d8b7, 0x9ef871ad, 0x1d4d6f72);
  }

  lemma Digits3b(x: seq<word>)
    requires IsDigits(x)
    ensures Rest(State(0x3b32c408, 0x1d4d6f72, 0x9ef871ad, 0x7338d8b7), x, Round3, 8)
            == Rest(State(0x697032ec, 0xdb4197da, 0xefc2c171, 0xfa597bfc), x, Round3, 16)
  {
    WordsRead3();
    assert FourTurns(x, Round3, 8, 0x3b32c408, 0x7338d8b7, 0x9ef871ad, 0x1d4d6f72,
                     0xc661460a, 0xd2bf04c9, 0xd6d5b879, 0x89e3c4d7);
    assert FourTurns(x, Round3, 12, 0xc661460a, 0xd2bf04c9, 0xd6d5b879, 0x89e3c4d7,
                     0x697032ec, 0xfa597bfc, 0xefc2c171, 0xdb4197da);
  }

  lemma Digits4a(x: seq<word>)
    requires IsDigits(x)
    ensures Rest(State(0x697032ec, 0xdb4197da, 0xefc2c171, 0xfa597bfc), x, Round4, 0)
            == Rest(State(0x633d3f7c, 0x7713f5df, 0xccaa1524, 0x1a4d3beb), x, Round4, 8)
  {
    WordsRead4();
    assert FourTurns(x, Round4, 0, 0x697032ec, 0xfa597bfc, 0xefc2c171, 0xdb4197da,
                     0x57b91aca, 0x210c9ebc, 0x21efbd88, 0xcaa25b01);
    assert FourTurns(x, Round4, 4, 0x57b91aca, 0x210c9ebc, 0x21efbd88, 0xcaa25b01,
                     0x633d3f7c, 0x1a4d3beb, 0xccaa1524, 0x7713f5df);
  }

  lemma Digits4b(x: seq<word>)
    requires IsDigits(x)
    ensures Rest(State(0x633d3f7c, 0x7713f5df, 0xccaa1524, 0x1a4d3beb), x, Round4, 8)
            == Rest(State(0x614868eb, 0xb4d33102, 0x5133129b, 0xa09f38a7), x, Round4, 16)
  {
    WordsRead4();
    assert FourTurns(x, Round4, 8, 0x633d3f7c, 0x1a4d3beb, 0xccaa1524, 0x7713f5df,
                     0x8448b430, 0x71c93463, 0x7e294727, 0x660a801d);
    assert FourTurns(x, Round4, 12, 0x8448b430, 0x71c93463, 0x7e294727, 0x660a801d,
                     0x614868eb, 0xa09f38a7, 0x5133129b, 0xb4d33102);
  }

  lemma DigitsSteps(x: seq<word>)
    requires IsDigits(x)
    ensures Steps(State(0x67452301, 0xefcdab89, 0x98badcfe, 0x10325476), Schedule(x))
            == State(0x614868eb, 0xb4d33102, 0x5133129b, 0xa09f38a7)
  {
    Digits1a(x);
    Digits1b(x);
    RoundRun(x, Round1, State(0x67452301, 0xefcdab89, 0x98badcfe, 0x10325476),
             State(0x5157e49e, 0xaf506a03, 0x27e983a0, 0xffac907e));
    Digits2a(x);
    Digits2b(x);
    RoundRun(x, Round2, State(0x5157e49e, 0xaf506a03, 0x27e983a0, 0xffac907e),
             State(0xf8bcfbb0, 0x1bf25662, 0x99a0f1b8, 0xd760ed39));
    Digits3a(x);
    Digits3b(x);
    RoundRun(x, Round3, State(0xf8bcfbb0, 0x1bf25662, 0x99a0f1b8, 0xd760ed39),
             State(0x697032ec, 0xdb4197da, 0xefc2c171, 0xfa597bfc));
    Digits4a(x);
    Digits4b(x);
    RoundRun(x, Round4, State(0x697032ec, 0xdb4197da, 0xefc2c171, 0xfa597bfc),
             State(0x614868eb, 0xb4d33102, 0x5133129b, 0xa09f38a7));
    RoundsMakeSchedule(State(0x67452301, 0xefcdab89, 0x98badcfe, 0x10325476), x);
  }

  lemma DigitsSums()
    ensures Plus(State(0x67452301, 0xefcdab89, 0x98badcfe, 0x10325476),
                 State(0x614868eb, 0xb4d33102, 0x5133129b, 0xa09f38a7))
            == State(0xc88d8bec, 0xa4a0dc8b, 0xe9edef99, 0xb0d18d1d)
  {
  }

  // -------------------------------------------- the second block of the digits

  ghost predicate IsLast(x: seq<word>) {
    && |x| == 16
    && x[0] == 0x38373635 && x[1] == 0x32313039 && x[2] == 0x36353433 && x[3] == 0x30393837
    && x[4] == 0x00000080 && x[5] == 0x00000000 && x[6] == 0x00000000 && x[7] == 0x00000000
    && x[8] == 0x00000000 && x[9] == 0x00000000 && x[10] == 0x00000000 && x[11] == 0x00000000
    && x[12] == 0x00000000 && x[13] == 0x00000000 && x[14] == 0x00000280 && x[15] == 0x00000000
  }

  lemma Last1a(x: seq<word>)
    requires IsLast(x)
    ensures Rest(State(0xc88d8bec, 0xa4a0dc8b, 0xe9edef99, 0xb0d18d1d), x, Round1, 0)
            == Rest(State(0x3527497e, 0x377c7d0a, 0x948347ae, 0xab92660e), x, Round1, 8)
  {
    WordsRead1();
    assert FourTurns(x, Round1, 0, 0xc88d8bec, 0xb0d18d1d, 0xe9edef99, 0xa4a0dc8b,
                     0x353af7cf, 0x3a4f735a, 0x63356537, 0x45e88f2c);
    assert FourTurns(x, Round1, 4, 0x353af7cf, 0x3a4f735a, 0x63356537, 0x45e88f2c,
                     0x3527497e, 0xab92660e, 0x948347ae, 0x377c7d0a);
  }

  lemma Last1b(x: seq<word>)
    requires IsLast(x)
    ensures Rest(State(0x3527497e, 0x377c7d0a, 0x948347ae, 0xab92660e), x, Round1, 8)
            == Rest(State(0xdb4ff71c, 0x58b12eab, 0x04396a39, 0x9b6b4960), x, Round1, 16)
  {
    WordsRead1();
    assert FourTurns(x, Round1, 8, 0x3527497e, 0xab92660e, 0x948347ae, 0x377c7d0a,
                     0xcc912f27, 0x6945a3d5, 0xae23894d, 0xb9ede40c);
    assert FourTurns(x, Round1, 12, 0xcc912f27, 0x6945a3d5, 0xae23894d, 0xb9ede40c,
                     0xdb4ff71c, 0x9b6b4960, 0x04396a39, 0x58b12eab);
  }

  lemma Last2a(x: seq<word>)
    requires IsLast(x)
    ensures Rest(State(0xdb4ff71c, 0x58b12eab, 0x04396a39, 0x9b6b4960), x, Round2, 0)
            == Rest(State(0x0d6e6d91, 0x043cb080, 0xd5b7a850, 0x17d64195), x, Round2, 8)
  {
    WordsRead2();
    assert FourTurns(x, Round2, 0, 0xdb4ff71c, 0x9b6b4960, 0x04396a39, 0x58b12eab,
                     0x52c00cae, 0xaad2a216, 0xa476af6f, 0x50f8de8c);
    assert FourTurns(x, Round2, 4, 0x52c00cae, 0xaad2a216, 0xa476af6f, 0x50f8de8c,
                     0x0d6e6d91, 0x17d64195, 0xd5b7a850, 0x043cb080);
  }

  lemma Last2b(x: seq<word>)
    requires IsLast(x)
    ensures Rest(State(0x0d6e6d91, 0x043cb080, 0xd5b7a850, 0x17d64195), x, Round2, 8)
            == Rest(State(0x8761f38e, 0x67092c33, 0x061bc867, 0x7a516116), x, Round2, 16)
  {
    WordsRead2();
    assert FourTurns(x, Round2, 8, 0x0d6e6d91, 0x17d64195, 0xd5b7a850, 0x043cb080,
                     0x74f9377e, 0x01f2addd, 0xe775c8ca, 0xcb00b96e);
    assert FourTurns(x, Round2, 12, 0x74f9377e, 0x01f2addd, 0xe775c8ca, 0xcb00b96e,
                     0x8761f38e, 0x7a516116, 0x061bc867, 0x67092c33);
  }

  lemma Last3a(x: seq<word>)
    requires IsLast(x)
    ensures Rest(State(0x8761f38e, 0x67092c33, 0x061bc867, 0x7a516116), x, Round3, 0)
            == Rest(State(0xae26ed7d, 0xdbd1bff6, 0xff4a94dc, 0x71d8ecea), x, Round3, 8)
  {
    WordsRead3();
    assert FourTurns(x, Round3, 0, 0x8761f38e, 0x7a516116, 0x061bc867, 0x67092c33,
                     0x91044d5d, 0x610954eb, 0xc0175fa8, 0x2ee1e3fe);
    assert FourTurns(x, Round3, 4, 0x91044d5d, 0x610954eb, 0xc0175fa8, 0x2ee1e3fe,
                     0xae26ed7d, 0x71d8ecea, 0xff4a94dc, 0xdbd1bff6);
  }

  lemma Last3b(x: seq<word>)
    requires IsLast(x)
    ensures Rest(State(0xae26ed7d, 0xdbd1bff6, 0xff4a94dc, 0x71d8ecea), x, Round3, 8)
            == Rest(State(0x71123afa, 0x1df7010a, 0xe6a8a386, 0xdc9c8ddb), x, Round3, 16)
  {
    WordsRead3();
    assert FourTurns(x, Round3, 8, 0xae26ed7d, 0x71d8ecea, 0xff4a94dc, 0xdbd1bff6,
                     0x9c350028, 0x97e5da92, 0xfacaaf06, 0x56b3692f);
    assert FourTurns(x, Round3, 12, 0x9c350028, 0x97e5da92, 0xfacaaf06, 0x56b3692f,
                     0x71123afa, 0xdc9c8ddb, 0xe6a8a386, 0x1df7010a);
  }

  lemma Last4a(x: seq<word>)
    requires IsLast(x)
    ensures Rest(State(0x71123afa, 0x1df7010a, 0xe6a8a386, 0xdc9c8ddb), x, Round4, 0)
            == Rest(State(0x7a504abd, 0x9b31b114, 0xa290d6ce, 0x211cc65d), x, Round4, 8)
  {
    WordsRead4();
    assert FourTurns(x, Round4, 0, 0x71123afa, 0xdc9c8ddb, 0xe6a8a386, 0x1df7010a,
                     0xd29007e7, 0x7241a77e, 0xd3248109, 0xc8797828);
    assert FourTurns(x, Round4, 4, 0xd29007e7, 0x7241a77e, 0xd3248109, 0xc8797828,
                     0x7a504abd, 0x211cc65d, 0xa290d6ce, 0x9b31b114);
  }

  lemma Last4b(x: seq<word>)
    requires IsLast(x)
    ensures Rest(State(0x7a504abd, 0x9b31b114, 0xa290d6ce, 0x211cc65d), x, Round4, 8)
            == Rest(State(0xda67616b, 0xb12906a0, 0x44ec5a13, 0xc9e47a04), x, Round4, 16)
  {
    WordsRead4();
    assert FourTurns(x, Round4, 8, 0x7a504abd, 0x211cc65d, 0xa290d6ce, 0x9b31b114,
                     0x723fd22d, 0xd21d6a3b, 0x3d79cf74, 0x4dc4f33d);
    assert FourTurns(x, Round4, 12, 0x723fd22d, 0xd21d6a3b, 0x3d79cf74, 0x4dc4f33d,
                     0xda67616b, 0xc9e47a04, 0x44ec5a13, 0xb12906a0);
  }

  lemma LastSteps(x: seq<word>)
    requires IsLast(x)
    ensures Steps(State(0xc88d8bec, 0xa4a0dc8b, 0xe9edef99, 0xb0d18d1d), Schedule(x))
            == State(0xda67616b, 0xb12906a0, 0x44ec5a13, 0xc9e47a04)
  {
    Last1a(x);
    Last1b(x);
    RoundRun(x, Round1, State(0xc88d8bec, 0xa4a0dc8b, 0xe9edef99, 0xb0d18d1d),
             State(0xdb4ff71c, 0x58b12eab, 0x04396a39, 0x9b6b4960));
    Last2a(x);
    Last2b(x);
    RoundRun(x, Round2, State(0xdb4ff71c, 0x58b12eab, 0x04396a39, 0x9b6b4960),
             State(0x8761f38e, 0x67092c33, 0x061bc867, 0x7a516116));
    Last3a(x);
    Last3b(x);
    RoundRun(x, Round3, State(0x8761f38e, 0x67092c33, 0x061bc867, 0x7a516116),
             State(0x71123afa, 0x1df7010a, 0xe6a8a386, 0xdc9c8ddb));
    Last4a(x);
    Last4b(x);
    RoundRun(x, Round4, State(0x71123afa, 0x1df7010a, 0xe6a8a386, 0xdc9c8ddb),
             State(0xda67616b, 0xb12906a0, 0x44ec5a13, 0xc9e47a04));
    RoundsMakeSchedule(State(0xc88d8bec, 0xa4a0dc8b, 0xe9edef99, 0xb0d18d1d), x);
  }

  lemma LastSums()
    ensures Plus(State(0xc88d8bec, 0xa4a0dc8b, 0xe9edef99, 0xb0d18d1d),
                 State(0xda67616b, 0xb12906a0, 0x44ec5a13, 0xc9e47a04))
            == State(0xa2f4ed57, 0x55c9e32b, 0x2eda49ac, 0x7ab60721)
  {
  }

  // ------------------------------------------------------- the two messages

  lemma FieldIs(n: nat, field: seq<byte>)
    requires Values(field) == Bytes(8 * n % 0x1_0000_0000_0000_0000, 8)
    ensures LengthField(n) == field
  {
    LengthFieldBytes(n);
    assert Values(LengthField(n)) == Values(field);
    ParseOfHex(Values(field));
    HexInjective(LengthField(n), field);
  }

  lemma FieldOf0(n: nat, field: seq<byte>)
    requires n == 0 && field == Zeros(8)
    ensures LengthField(n) == field
  {
    assert Values(field) == Bytes(0, 8);
    FieldIs(n, field);
  }

  /** 640 bits. */
  lemma FieldOf80(n: nat, field: seq<byte>)
    requires n == 80 && field == [0x80, 0x02] + Zeros(6)
    ensures LengthField(n) == field
  {
    assert Values(field) == Bytes(640, 8);
    FieldIs(n, field);
  }

  /** Every four digits of the second message as a word. */
  function DigitWord(k: nat): word {
    match k % 5
    case 0 => 0x34333231
    case 1 => 0x38373635
    case 2 => 0x32313039
    case 3 => 0x36353433
    case _ => 0x30393837
  }

  function DigitWords(n: nat): (words: seq<word>)
    ensures |words| == n
  {
    seq(n, k requires 0 <= k < n => DigitWord(k))
  }

  /** The second message. */
  function Digits80(): (m: seq<byte>)
    ensures |m| == 80
  {
    EncodeWords(DigitWords(20))
  }

  lemma DigitByte(k: nat, r: nat)
    requires r < 4
    ensures ByteAt(DigitWord(k), r) as int == 0x30 + (4 * (k % 5) + r + 1) % 10
  {
  }

  lemma TensAway(x: nat, q: nat, y: nat)
    requires x == 10 * q + y
    ensures x % 10 == y % 10
  {
  }

  lemma TwentyApart(i: nat)
    ensures (i + 1) % 10 == (4 * (i / 4 % 5) + i % 4 + 1) % 10
  {
    TensAway(i + 1, 2 * (i / 4 / 5), 4 * (i / 4 % 5) + i % 4 + 1);
  }

  /** It is the text "1234567890", eight times. */
  lemma DigitsText(i: nat)
    requires i < 80
    ensures Digits80()[i] as int == '0' as int + (i + 1) % 10
  {
    DigitByte(i / 4, i % 4);
    TwentyApart(i);
  }

  lemma DecodeAppend(a: seq<byte>, b: seq<byte>)
    requires |a| % 4 == 0 && |b| % 4 == 0
    ensures DecodeWords(a + b) == DecodeWords(a) + DecodeWords(b)
  {
  }

  lemma EncodeSplit(words: seq<word>, j: nat)
    requires j <= |words|
    ensures EncodeWords(words)[..4 * j] == EncodeWords(words[..j])
    ensures EncodeWords(words)[4 * j..] == EncodeWords(words[j..])
  {
  }

  lemma FirstDigits(x: seq<word>)
    requires x == DigitWords(20)[..16]
    ensures IsDigits(x)
  {
  }

  lemma DigitsWords()
    ensures IsDigits(DecodeWords(Digits80()[..64]))
  {
    EncodeSplit(DigitWords(20), 16);
    DecodeEncode(DigitWords(20)[..16]);
    FirstDigits(DigitWords(20)[..16]);
  }

  lemma PadWords(n: nat)
    requires n % 4 == 3
    ensures DecodeWords([0x80] + Zeros(n)) == [0x80] + seq((n - 3) / 4, _ => 0)
  {
  }

  lemma FieldWords()
    ensures DecodeWords([0x80, 0x02] + Zeros(6)) == [0x280, 0]
  {
  }

  lemma EmptyWords()
    ensures IsEmpty(DecodeWords([0x80] + Zeros(63)))
  {
    PadWords(63);
  }

  lemma LastDigits(x: seq<word>)
    requires x == DigitWords(20)[16..] + ([0x80] + seq(9, _ => 0)) + [0x280, 0]
    ensures IsLast(x)
  {
  }

  lemma ThreeParts(a: seq<byte>, b: seq<byte>, c: seq<byte>)
    requires |a| % 4 == 0 && |b| % 4 == 0 && |c| % 4 == 0
    ensures DecodeWords(a + b + c) == DecodeWords(a) + DecodeWords(b) + DecodeWords(c)
  {
    DecodeAppend(a + b, c);
    DecodeAppend(a, b);
  }

  lemma RestWords(rest: seq<byte>)
    requires rest == Digits80()[64..]
    ensures |rest| == 16 && DecodeWords(rest) == DigitWords(20)[16..]
  {
    EncodeSplit(DigitWords(20), 16);
    DecodeEncode(DigitWords(20)[16..]);
  }

  lemma LastWords(rest: seq<byte>, pad: seq<byte>, field: seq<byte>)
    requires rest == Digits80()[64..] && pad == [0x80] + Zeros(39) && field == [0x80, 0x02] + Zeros(6)
    ensures |rest + pad + field| == 64 && IsLast(DecodeWords(rest + pad + field))
  {
    ThreeParts(rest, pad, field);
    PadWords(39);
    FieldWords();
    RestWords(rest);
    LastDigits(DecodeWords(rest) + DecodeWords(pad) + DecodeWords(field));
  }

  // ------------------------------------------------------------- the digests

  lemma PadOf0(n: nat)
    requires n == 0
    ensures Padding(n) == [0x80] + Zeros(55)
  {
    PadLengthUnique(n, 56);
  }

  lemma PadOf80(n: nat)
    requires n == 80
    ensures Padding(n) == [0x80] + Zeros(39)
  {
    PadLengthUnique(n, 40);
  }

  lemma PaddedIs(m: seq<byte>, pad: seq<byte>, field: seq<byte>)
    requires Padding(|m|) == pad && LengthField(|m|) == field
    ensures Padded(m) == m + pad + field
  {
  }

  lemma ZerosInFront(m: seq<byte>, a: seq<byte>, k: nat)
    requires m == []
    ensures m + (a + Zeros(k)) + Zeros(8) == a + Zeros(k + 8)
  {
  }

  lemma EmptyPadded(m: seq<byte>)
    requires m == []
    ensures Padded(m) == [0x80] + Zeros(63)
  {
    FieldOf0(|m|, Zeros(8));
    PadOf0(|m|);
    PaddedIs(m, [0x80] + Zeros(55), Zeros(8));
    ZerosInFront(m, [0x80], 55);
  }

  lemma CutAt64(m: seq<byte>, pad: seq<byte>, field: seq<byte>)
    requires |m| >= 64
    ensures m + pad + field == m[..64] + (m[64..] + pad + field)
  {
  }

  lemma DigitsPadded(m: seq<byte>, pad: seq<byte>, field: seq<byte>)
    requires |m| == 80 && pad == [0x80] + Zeros(39) && field == [0x80, 0x02] + Zeros(6)
    ensures Padded(m) == m[..64] + (m[64..] + pad + field)
  {
    FieldOf80(|m|, field);
    PadOf80(|m|);
    PaddedIs(m, pad, field);
    CutAt64(m, pad, field);
  }

  lemma FoldOne(s: State, a: seq<byte>)
    requires |a| == 64
    ensures Fold(s, a) == Compress(s, a)
  {
    assert a[..0] == [] && a[0..] == a;
  }

  lemma FoldTwo(s: State, a: seq<byte>, b: seq<byte>)
    requires |a| == 64 && |b| == 64
    ensures Fold(s, a + b) == Compress(Compress(s, a), b)
  {
    assert (a + b)[..64] == a && (a + b)[64..] == b;
    FoldOne(s, a);
  }

  lemma EmptyBlock(block: seq<byte>)
    requires block == [0x80] + Zeros(63)
    ensures Compress(State(0x67452301, 0xefcdab89, 0x98badcfe, 0x10325476), block)
            == State(0xd98c1dd4, 0x04b2008f, 0x980980e9, 0x7e42f8ec)
  {
    EmptyWords();
    EmptySteps(DecodeWords(block));
    EmptySums();
  }

  lemma DigitsBlock(block: seq<byte>)
    requires block == Digits80()[..64]
    ensures Compress(State(0x67452301, 0xefcdab89, 0x98badcfe, 0x10325476), block)
            == State(0xc88d8bec, 0xa4a0dc8b, 0xe9edef99, 0xb0d18d1d)
  {
    DigitsWords();
    DigitsSteps(DecodeWords(block));
    DigitsSums();
  }

  lemma LastBlock(rest: seq<byte>, pad: seq<byte>, field: seq<byte>)
    requires rest == Digits80()[64..] && pad == [0x80] + Zeros(39) && field == [0x80, 0x02] + Zeros(6)
    ensures |rest + pad + field| == 64
    ensures Compress(State(0xc88d8bec, 0xa4a0dc8b, 0xe9edef99, 0xb0d18d1d), rest + pad + field)
            == State(0xa2f4ed57, 0x55c9e32b, 0x2eda49ac, 0x7ab60721)
  {
    LastWords(rest, pad, field);
    LastSteps(DecodeWords(rest + pad + field));
    LastSums();
  }

  const EMPTY_DIGEST: seq<byte> := [
    0xd4, 0x1d, 0x8c, 0xd9, 0x8f, 0x00, 0xb2, 0x04,
    0xe9, 0x80, 0x09, 0x98, 0xec, 0xf8, 0x42, 0x7e
  ]

  const DIGITS_DIGEST: seq<byte> := [
    0x57, 0xed, 0xf4, 0xa2, 0x2b, 0xe3, 0xc9, 0x55,
    0xac, 0x49, 0xda, 0x2e, 0x21, 0x07, 0xb6, 0x7a
  ]

  lemma EmptyEncoded()
    ensures EncodeState(State(0xd98c1dd4, 0x04b2008f, 0x980980e9, 0x7e42f8ec)) == EMPTY_DIGEST
  {
  }

  lemma DigitsEncoded()
    ensures EncodeState(State(0xa2f4ed57, 0x55c9e32b, 0x2eda49ac, 0x7ab60721)) == DIGITS_DIGEST
  {
  }

  /** MD5 ("") of section A.5. */
  lemma DigestOfEmpty()
    ensures Md5([]) == EMPTY_DIGEST
  {
    PaddedIsWhole([]);
    EmptyPadded([]);
    FoldOne(INITIAL, [0x80] + Zeros(63));
    EmptyBlock([0x80] + Zeros(63));
    EmptyEncoded();
  }

  /** MD5 ("1234567890" eight times) of section A.5. */
  lemma DigestOfDigits()
    ensures Md5(Digits80()) == DIGITS_DIGEST
  {
    var m := Digits80();
    var pad, field := [0x80] + Zeros(39), [0x80, 0x02] + Zeros(6);
    PaddedIsWhole(m);
    DigitsPadded(m, pad, field);
    LastBlock(m[64..], pad, field);
    FoldTwo(INITIAL, m[..64], m[64..] + pad + field);
    DigitsBlock(m[..64]);
    DigitsEncoded();
  }
}
