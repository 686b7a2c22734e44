/**
 Without the final additions the sixty-four steps of the block function lose
 nothing: for every block they are a bijection on the four registers, and
 running them backwards is its inverse.
 */
module Md5Inverse {
  import opened Words
  import opened Md5Spec

  function RotateRight(x: word, n: rotation): word {
    (x >> n) | (x << (32 - n))
  }

  // A rotation is decided distance by distance: with a constant distance the
  // shifts cancel by rewriting, with a variable one the solver has to search.

  lemma UndoneTo8(x: word, y: word, n: rotation)
    requires 1 <= n <= 8 && y == RotateLeft(x, n)
    ensures RotateRight(y, n) == x
  {
    if n == 1 { } else if n == 2 { } else if n == 3 { } else if n == 4 { }
    else if n == 5 { } else if n == 6 { } else if n == 7 { } else { }
  }

  lemma UndoneTo16(x: word, y: word, n: rotation)
    requires 9 <= n <= 16 && y == RotateLeft(x, n)
    ensures RotateRight(y, n) == x
  {
    if n == 9 { } else if n == 10 { } else if n == 11 { } else if n == 12 { }
    else if n == 13 { } else if n == 14 { } else if n == 15 { } else { }
  }

  lemma UndoneTo24(x: word, y: word, n: rotation)
    requires 17 <= n <= 24 && y == RotateLeft(x, n)
    ensures RotateRight(y, n) == x
  {
    if n == 17 { } else if n == 18 { } else if n == 19 { } else if n == 20 { }
    else if n == 21 { } else if n == 22 { } else if n == 23 { } else { }
  }

  lemma UndoneTo31(x: word, y: word, n: rotation)
    requires 25 <= n <= 31 && y == RotateLeft(x, n)
    ensures RotateRight(y, n) == x
  {
    if n == 25 { } else if n == 26 { } else if n == 27 { } else if n == 28 { }
    else if n == 29 { } else if n == 30 { } else { }
  }

  lemma RotateRightUndoes(x: word, n: rotation)
    ensures RotateRight(RotateLeft(x, n), n) == x
  {
    var y := RotateLeft(x, n);
    if n <= 8 {
      UndoneTo8(x, y, n);
    } else if n <= 16 {
      UndoneTo16(x, y, n);
    } else if n <= 24 {
      UndoneTo24(x, y, n);
    } else {
      UndoneTo31(x, y, n);
    }
  }

  /** Rotating left is rotating right by the rest of the word. */
  lemma RotateOtherWay(x: word, n: rotation)
    ensures RotateLeft(x, n) == RotateRight(x, 32 - n)
  {
  }

  lemma RotateLeftUndoes(x: word, n: rotation)
    ensures RotateLeft(RotateRight(x, n), n) == x
  {
    var m: rotation := 32 - n;
    RotateOtherWay(RotateRight(x, n), n);
    RotateOtherWay(x, m);
    RotateRightUndoes(x, m);
  }

  function Minus(p: word, q: word): word {
    p - q
  }

  /** The value that `Turn` replaced. */
  function Unturn(r: word, b: word, f: word, x: word, t: word, n: rotation): word {
    RotateRight(r - b, n) - (f + x + t)
  }

  // The next lemmas are quantified so that their instances are simplified as
  // terms: sums that cancel disappear instead of being compared bit by bit.

  lemma RightOfLeft(s: word, n: rotation, k: word)
    ensures Minus(RotateRight(RotateLeft(s, n), n), k) == s - k
  {
    RotateRightUndoes(s, n);
  }

  lemma RightOfLeftAll()
    ensures forall s: word, n: rotation, k: word {:trigger Minus(RotateRight(RotateLeft(s, n), n), k)} ::
              Minus(RotateRight(RotateLeft(s, n), n), k) == s - k
  {
    forall s: word, n: rotation, k: word
      ensures Minus(RotateRight(RotateLeft(s, n), n), k) == s - k
    {
      RightOfLeft(s, n, k);
    }
  }

  lemma LeftOfRight(s: word, n: rotation, b: word)
    ensures Sum(b, RotateLeft(RotateRight(s, n), n)) == b + s
  {
    RotateLeftUndoes(s, n);
  }

  lemma LeftOfRightAll()
    ensures forall s: word, n: rotation, b: word {:trigger Sum(b, RotateLeft(RotateRight(s, n), n))} ::
              Sum(b, RotateLeft(RotateRight(s, n), n)) == b + s
  {
    forall s: word, n: rotation, b: word
      ensures Sum(b, RotateLeft(RotateRight(s, n), n)) == b + s
    {
      LeftOfRight(s, n, b);
    }
  }

  lemma UnturnOfTurn(a: word, b: word, f: word, x: word, t: word, n: rotation)
    ensures Unturn(Turn(a, b, f, x, t, n), b, f, x, t, n) == Unturn(b + RotateLeft(a + f + x + t, n), b, f, x, t, n)
  {
  }

  lemma UnturnOfSum(a: word, b: word, f: word, x: word, t: word, n: rotation)
    ensures Unturn(b + RotateLeft(a + f + x + t, n), b, f, x, t, n)
            == Minus(RotateRight(RotateLeft(a + f + x + t, n), n), f + x + t)
  {
  }

  lemma UnturnTurn(a: word, b: word, f: word, x: word, t: word, n: rotation)
    ensures Unturn(Turn(a, b, f, x, t, n), b, f, x, t, n) == a
  {
    UnturnOfTurn(a, b, f, x, t, n);
    UnturnOfSum(a, b, f, x, t, n);
    RightOfLeftAll();
  }

  lemma UnturnValue(r: word, b: word, f: word, x: word, t: word, n: rotation)
    ensures Unturn(r, b, f, x, t, n) == RotateRight(r - b, n) - (f + x + t)
  {
  }

  lemma TurnValue(r: word, b: word, f: word, x: word, t: word, n: rotation)
    ensures Turn(RotateRight(r - b, n) - (f + x + t), b, f, x, t, n) == Sum(b, RotateLeft(RotateRight(r - b, n), n))
  {
  }

  lemma TurnOfUnturn(r: word, b: word, f: word, x: word, t: word, n: rotation)
    ensures Turn(Unturn(r, b, f, x, t, n), b, f, x, t, n) == Sum(b, RotateLeft(RotateRight(r - b, n), n))
  {
    UnturnValue(r, b, f, x, t, n);
    TurnValue(r, b, f, x, t, n);
  }

  lemma SumOfLeft(r: word, b: word, n: rotation)
    ensures Sum(b, RotateLeft(RotateRight(r - b, n), n)) == r
  {
    LeftOfRightAll();
  }

  lemma TurnUnturn(r: word, b: word, f: word, x: word, t: word, n: rotation)
    ensures Turn(Unturn(r, b, f, x, t, n), b, f, x, t, n) == r
  {
    TurnOfUnturn(r, b, f, x, t, n);
    SumOfLeft(r, b, n);
  }

  /** One step backwards: roles move back, then the replaced register returns. */
  function Unstep(s: State, op: Op): State {
    State(Unturn(s.b, s.c, op.round.Auxiliary(s.c, s.d, s.a), op.x, op.constant, op.shift), s.c, s.d, s.a)
  }

  lemma UnstepStep(s: State, op: Op)
    ensures Unstep(Step(s, op), op) == s
  {
    UnturnTurn(s.a, s.b, op.round.Auxiliary(s.b, s.c, s.d), op.x, op.constant, op.shift);
  }

  lemma StepUnstep(s: State, op: Op)
    ensures Step(Unstep(s, op), op) == s
  {
    TurnUnturn(s.b, s.c, op.round.Auxiliary(s.c, s.d, s.a), op.x, op.constant, op.shift);
  }

  /** All the steps backwards, last first. */
  function Unsteps(s: State, ops: seq<Op>): State
    decreases |ops|
  {
    if |ops| == 0 then s else Unstep(Unsteps(s, ops[1..]), ops[0])
  }

  lemma {:induction false} UnstepsSteps(s: State, ops: seq<Op>)
    ensures Unsteps(Steps(s, ops), ops) == s
    decreases |ops|
  {
    if |ops| == 0 {
    } else {
      UnstepsSteps(Step(s, ops[0]), ops[1..]);
      UnstepStep(s, ops[0]);
    }
  }

  lemma {:induction false} StepsUnsteps(s: State, ops: seq<Op>)
    ensures Steps(Unsteps(s, ops), ops) == s
    decreases |ops|
  {
    if |ops| == 0 {
    } else {
      StepsUnsteps(s, ops[1..]);
      StepUnstep(Unsteps(s, ops[1..]), ops[0]);
    }
  }

  /** For a fixed block every register state is reached from exactly one other. */
  lemma StepsAreBijective(x: seq<word>, target: State)
    requires |x| == 16
    ensures exists s :: Steps(s, Schedule(x)) == target
    ensures forall s, t :: Steps(s, Schedule(x)) == Steps(t, Schedule(x)) ==> s == t
  {
    StepsUnsteps(target, Schedule(x));
    forall s, t | Steps(s, Schedule(x)) == Steps(t, Schedule(x))
      ensures s == t
    {
      UnstepsSteps(s, Schedule(x));
      UnstepsSteps(t, Schedule(x));
    }
  }

  // -------------------------------------------------- what each round reads

  /** The step of a round that reads a given word. */
  function ReadingStep(round: Round, k: nat): (j: nat)
    requires k < 16
    ensures j < 16
  {
    match round
    case Round1 => k
    case Round2 => 13 * (k + 15) % 16
    case Round3 => 11 * (k + 11) % 16
    case Round4 => 7 * k % 16
  }

  lemma Remainder(x: int, q: int, r: int)
    requires x == 16 * q + r && 0 <= r < 16
    ensures x % 16 == r
  {
  }

  lemma Round2Back(j: nat)
    requires j < 16
    ensures 13 * ((1 + 5 * j) % 16 + 15) % 16 == j
  {
    var q := (1 + 5 * j) / 16;
    Remainder(13 * ((1 + 5 * j) % 16 + 15), 13 + 4 * j - 13 * q, j);
  }

  lemma Round2Forth(k: nat)
    requires k < 16
    ensures (1 + 5 * (13 * (k + 15) % 16)) % 16 == k
  {
    var q := 13 * (k + 15) / 16;
    Remainder(1 + 5 * (13 * (k + 15) % 16), 61 + 4 * k - 5 * q, k);
  }

  lemma Round3Back(j: nat)
    requires j < 16
    ensures 11 * ((5 + 3 * j) % 16 + 11) % 16 == j
  {
    var q := (5 + 3 * j) / 16;
    Remainder(11 * ((5 + 3 * j) % 16 + 11), 11 + 2 * j - 11 * q, j);
  }

  lemma Round3Forth(k: nat)
    requires k < 16
    ensures (5 + 3 * (11 * (k + 11) % 16)) % 16 == k
  {
    var q := 11 * (k + 11) / 16;
    Remainder(5 + 3 * (11 * (k + 11) % 16), 23 + 2 * k - 3 * q, k);
  }

  lemma Round4Back(j: nat)
    requires j < 16
    ensures 7 * (7 * j % 16) % 16 == j
  {
    var q := 7 * j / 16;
    Remainder(7 * (7 * j % 16), 3 * j - 7 * q, j);
  }

  lemma StepReadsItsWord(round: Round, j: nat)
    requires j < 16
    ensures ReadingStep(round, WordIndex(round, j)) == j
  {
    match round
    case Round1 =>
    case Round2 => Round2Back(j);
    case Round3 => Round3Back(j);
    case Round4 => Round4Back(j);
  }

  lemma WordReadAtItsStep(round: Round, k: nat)
    requires k < 16
    ensures WordIndex(round, ReadingStep(round, k)) == k
  {
    match round
    case Round1 =>
    case Round2 => Round2Forth(k);
    case Round3 => Round3Forth(k);
    case Round4 => Round4Back(k);
  }

  /** Each round reads each of the sixteen words exactly once. */
  lemma EachWordReadOnce(round: Round, j: nat, k: nat)
    requires j < 16 && k < 16
    ensures WordIndex(round, j) == k <==> j == ReadingStep(round, k)
  {
    StepReadsItsWord(round, j);
    WordReadAtItsStep(round, k);
  }
}
