/**
 The macros FF, GG, HH and II of the MD5 code: each is one step of RFC 1321.
 */
module Md5Macros {
  import opened Words
  import opened Md5Spec

  const S11: rotation := 7
  const S12: rotation := 12
  const S13: rotation := 17
  const S14: rotation := 22
  const S21: rotation := 5
  const S22: rotation := 9
  const S23: rotation := 14
  const S24: rotation := 20
  const S31: rotation := 4
  const S32: rotation := 11
  const S33: rotation := 16
  const S34: rotation := 23
  const S41: rotation := 6
  const S42: rotation := 10
  const S43: rotation := 15
  const S44: rotation := 21

  ghost predicate IsStep(step: (State, Op) -> State) {
    forall s: State, op: Op {:trigger Step(s, op)} :: step(s, op) == Step(s, op)
  }

  ghost predicate IsTrace(step: (State, Op) -> State, ops: seq<Op>, trace: seq<State>)
    requires |trace| == |ops| + 1
  {
    |ops| > 0 ==> trace[1] == step(trace[0], ops[0]) && IsTrace(step, ops[1..], trace[1..])
  }

  /**
   What the proof of the unrolled code remembers about one round: the registers
   before each step, and the step that leads from one entry to the next.  The
   step is a parameter here, so that the proof of a round does not look inside.
   */
  datatype Run = Run(step: (State, Op) -> State, words: seq<word>, trace: seq<State>) {

    ghost predicate Follows(round: Round) {
      && |words| == 16 && |trace| == 17
      && IsTrace(step, RoundOps(words, round), trace)
      && IsStep(step)
    }
  }

  lemma {:induction false} TraceStep(step: (State, Op) -> State, ops: seq<Op>, trace: seq<State>, i: nat)
    requires |trace| == |ops| + 1 && i < |ops| && IsTrace(step, ops, trace)
    ensures trace[i + 1] == step(trace[i], ops[i])
  {
    if i == 0 {
    } else {
      TraceStep(step, ops[1..], trace[1..], i - 1);
    }
  }

  lemma {:induction false} TraceEnds(step: (State, Op) -> State, ops: seq<Op>, trace: seq<State>)
    requires |trace| == |ops| + 1 && IsTrace(step, ops, trace) && IsStep(step)
    ensures trace[|ops|] == Steps(trace[0], ops)
  {
    if |ops| == 0 {
    } else {
      TraceEnds(step, ops[1..], trace[1..]);
      assert trace[1] == Step(trace[0], ops[0]);
    }
  }

  ghost function TraceOf(step: (State, Op) -> State, s: State, ops: seq<Op>): (trace: seq<State>)
    ensures |trace| == |ops| + 1 && trace[0] == s && IsTrace(step, ops, trace)
    decreases |ops|
  {
    if |ops| == 0 then [s]
    else
      var rest := TraceOf(step, step(s, ops[0]), ops[1..]);
      assert ([s] + rest)[1..] == rest;
      [s] + rest
  }

  /** The run of a round on given words and registers. */
  ghost function RunOf(s: State, words: seq<word>, round: Round): (run: Run)
    requires |words| == 16
    ensures run.words == words && run.Follows(round) && run.trace[0] == s
    ensures run.trace[16] == Steps(s, RoundOps(words, round))
  {
    var step := (s: State, op: Op) => Step(s, op);
    var ops := RoundOps(words, round);
    var trace := TraceOf(step, s, ops);
    TraceEnds(step, ops, trace);
    Run(step, words, trace)
  }

  /** Step `i` of the round runs operation `op`. */
  lemma RunsAt(run: Run, i: nat, s: State, op: Op)
    requires run.Follows(op.round) && i < 16
    requires OpAt(run.words, op.round, i) == op && run.trace[i] == s
    ensures run.trace[i + 1] == Step(s, op)
  {
    TraceStep(run.step, RoundOps(run.words, op.round), run.trace, i);
  }

  /** The macros add in another order than the RFC. */
  lemma MacroTurns(a: word, b: word, f: word, x: word, t: word, n: rotation)
    ensures Turn(a, b, f, x, t, n) == RotateLeft(a + (f + x + t), n) + b
  {
  }

  /** The value each macro assigns is that of the register a step replaces. */
  lemma MacroFSteps(a: word, b: word, c: word, d: word, x: word, s: rotation, ac: word)
    ensures Step(State(a, b, c, d), Op(Round1, x, s, ac))
            == State(d, RotateLeft(a + (F(b, c, d) + x + ac), s) + b, b, c)
  {
    MacroTurns(a, b, F(b, c, d), x, ac, s);
  }

  lemma MacroGSteps(a: word, b: word, c: word, d: word, x: word, s: rotation, ac: word)
    ensures Step(State(a, b, c, d), Op(Round2, x, s, ac))
            == State(d, RotateLeft(a + (G(b, c, d) + x + ac), s) + b, b, c)
  {
    MacroTurns(a, b, G(b, c, d), x, ac, s);
  }

  lemma MacroHSteps(a: word, b: word, c: word, d: word, x: word, s: rotation, ac: word)
    ensures Step(State(a, b, c, d), Op(Round3, x, s, ac))
            == State(d, RotateLeft(a + (H(b, c, d) + x + ac), s) + b, b, c)
  {
    MacroTurns(a, b, H(b, c, d), x, ac, s);
  }

  lemma MacroISteps(a: word, b: word, c: word, d: word, x: word, s: rotation, ac: word)
    ensures Step(State(a, b, c, d), Op(Round4, x, s, ac))
            == State(d, RotateLeft(a + (I(b, c, d) + x + ac), s) + b, b, c)
  {
    MacroTurns(a, b, I(b, c, d), x, ac, s);
  }

  method FF(a: word, b: word, c: word, d: word, x: word, s: rotation, ac: word) returns (r: word)
    ensures Step(State(a, b, c, d), Op(Round1, x, s, ac)) == State(d, r, b, c)
  {
    MacroFSteps(a, b, c, d, x, s, ac);
    r := RotateLeft(a + (F(b, c, d) + x + ac), s) + b;
  }

  method GG(a: word, b: word, c: word, d: word, x: word, s: rotation, ac: word) returns (r: word)
    ensures Step(State(a, b, c, d), Op(Round2, x, s, ac)) == State(d, r, b, c)
  {
    MacroGSteps(a, b, c, d, x, s, ac);
    r := RotateLeft(a + (G(b, c, d) + x + ac), s) + b;
  }

  method HH(a: word, b: word, c: word, d: word, x: word, s: rotation, ac: word) returns (r: word)
    ensures Step(State(a, b, c, d), Op(Round3, x, s, ac)) == State(d, r, b, c)
  {
    MacroHSteps(a, b, c, d, x, s, ac);
    r := RotateLeft(a + (H(b, c, d) + x + ac), s) + b;
  }

  method II(a: word, b: word, c: word, d: word, x: word, s: rotation, ac: word) returns (r: word)
    ensures Step(State(a, b, c, d), Op(Round4, x, s, ac)) == State(d, r, b, c)
  {
    MacroISteps(a, b, c, d, x, s, ac);
    r := RotateLeft(a + (I(b, c, d) + x + ac), s) + b;
  }

  // The macros again, each at step `i` of a round whose run is remembered: the
  // arguments must be those of that step, and the run is then one entry further.

  method FFAt(a: word, b: word, c: word, d: word, x: word, s: rotation, ac: word, ghost run: Run, ghost i: nat)
    returns (r: word)
    requires i < 16 && |run.words| == 16 && |run.trace| == 17
    requires OpAt(run.words, Round1, i) == Op(Round1, x, s, ac) && run.trace[i] == State(a, b, c, d)
    ensures run.Follows(Round1) ==> run.trace[i + 1] == State(d, r, b, c)
  {
    r := FF(a, b, c, d, x, s, ac);
    if run.Follows(Round1) {
      RunsAt(run, i, State(a, b, c, d), Op(Round1, x, s, ac));
    }
  }

  method GGAt(a: word, b: word, c: word, d: word, x: word, s: rotation, ac: word, ghost run: Run, ghost i: nat)
    returns (r: word)
    requires i < 16 && |run.words| == 16 && |run.trace| == 17
    requires OpAt(run.words, Round2, i) == Op(Round2, x, s, ac) && run.trace[i] == State(a, b, c, d)
    ensures run.Follows(Round2) ==> run.trace[i + 1] == State(d, r, b, c)
  {
    r := GG(a, b, c, d, x, s, ac);
    if run.Follows(Round2) {
      RunsAt(run, i, State(a, b, c, d), Op(Round2, x, s, ac));
    }
  }

  method HHAt(a: word, b: word, c: word, d: word, x: word, s: rotation, ac: word, ghost run: Run, ghost i: nat)
    returns (r: word)
    requires i < 16 && |run.words| == 16 && |run.trace| == 17
    requires OpAt(run.words, Round3, i) == Op(Round3, x, s, ac) && run.trace[i] == State(a, b, c, d)
    ensures run.Follows(Round3) ==> run.trace[i + 1] == State(d, r, b, c)
  {
    r := HH(a, b, c, d, x, s, ac);
    if run.Follows(Round3) {
      RunsAt(run, i, State(a, b, c, d), Op(Round3, x, s, ac));
    }
  }

  method IIAt(a: word, b: word, c: word, d: word, x: word, s: rotation, ac: word, ghost run: Run, ghost i: nat)
    returns (r: word)
    requires i < 16 && |run.words| == 16 && |run.trace| == 17
    requires OpAt(run.words, Round4, i) == Op(Round4, x, s, ac) && run.trace[i] == State(a, b, c, d)
    ensures run.Follows(Round4) ==> run.trace[i + 1] == State(d, r, b, c)
  {
    r := II(a, b, c, d, x, s, ac);
    if run.Follows(Round4) {
      RunsAt(run, i, State(a, b, c, d), Op(Round4, x, s, ac));
    }
  }
}
