/**
 The state machine of the reference count leaves nothing out: whatever references
 the threads hold, and whichever of them stand between decrement and test, some
 run of a new object leads there.
 */
module RefCountReach {
  import opened RefCount

  /** The run with one more step behind it. */
  lemma {:induction false} OneStepMore(w: World, run: seq<Action>, a: Action)
    requires Possible(w, run) && Enabled(End(w, run), a)
    ensures Possible(w, run + [a]) && End(w, run + [a]) == Apply(End(w, run), a)
    decreases |run|
  {
    if |run| == 0 {
      assert run + [a] == [a] && [a][1..] == [];
    } else {
      OneStepMore(Apply(w, run[0]), run[1..], a);
      assert (run + [a])[1..] == run[1..] + [a];
    }
  }

  /** All threads outside, with these references. */
  function Standing(held: seq<nat>): (threads: seq<Thread>)
    ensures |threads| == |held|
  {
    seq(|held|, i requires 0 <= i < |held| => Thread(held[i], Outside))
  }

  predicate NoneHeld(held: seq<nat>) {
    forall i :: 0 <= i < |held| ==> held[i] == 0
  }

  /** The run leads to the threads holding exactly these references. */
  ghost predicate Distributes(run: seq<Action>, held: seq<nat>) {
    var w := Start(|held|);
    && Possible(w, run)
    && End(w, run).threads == Standing(held)
    && (End(w, run).started <==> !NoneHeld(held))
    && End(w, run).deletions == 0
  }

  lemma FirstReference(run: seq<Action>, held: seq<nat>, i: nat)
    requires i < |held| && Distributes(run, held) && NoneHeld(held)
    ensures Distributes(run + [AddRef(i)], held[i := 1])
  {
    OneStepMore(Start(|held|), run, AddRef(i));
    assert held[i := 1][i] > 0;
  }

  lemma FurtherReference(run: seq<Action>, held: seq<nat>, j: nat)
    requires j < |held| && Distributes(run, held) && held[j] > 0
    ensures Distributes(run + [AddRef(j)], held[j := held[j] + 1])
  {
    OneStepMore(Start(|held|), run, AddRef(j));
    assert held[j := held[j] + 1][j] > 0;
  }

  lemma PassedOn(run: seq<Action>, held: seq<nat>, j: nat, i: nat)
    requires i < |held| && j < |held| && i != j && Distributes(run, held) && held[j] > 0
    ensures Distributes(run + [Pass(j, i)], held[j := held[j] - 1][i := held[i] + 1])
  {
    OneStepMore(Start(|held|), run, Pass(j, i));
    assert held[j := held[j] - 1][i := held[i] + 1][i] > 0;
  }

  /** One reference more for thread `i`: its own, or passed on by a thread that has one. */
  lemma OneMore(run: seq<Action>, held: seq<nat>, i: nat) returns (longer: seq<Action>)
    requires i < |held| && Distributes(run, held)
    ensures Distributes(longer, held[i := held[i] + 1])
  {
    if NoneHeld(held) {
      FirstReference(run, held, i);
      assert held[i] == 0;
      longer := run + [AddRef(i)];
    } else {
      var j: nat :| j < |held| && held[j] > 0;
      FurtherReference(run, held, j);
      longer := run + [AddRef(j)];
      if j != i {
        var more := held[j := held[j] + 1];
        PassedOn(longer, more, j, i);
        assert more[j := more[j] - 1][i := more[i] + 1] == held[i := held[i] + 1];
        longer := longer + [Pass(j, i)];
      }
    }
  }

  lemma OneLess(held: seq<nat>, i: nat)
    requires i < |held| && held[i] > 0
    ensures Total(Standing(held[i := held[i] - 1]), Held) < Total(Standing(held), Held)
  {
    TotalChange(Standing(held), Held, i, Thread(held[i] - 1, Outside));
    assert Standing(held[i := held[i] - 1]) == Standing(held)[i := Thread(held[i] - 1, Outside)];
  }

  /** Every distribution of references is reached. */
  lemma Distribute(held: seq<nat>) returns (run: seq<Action>)
    ensures Distributes(run, held)
    decreases Total(Standing(held), Held)
  {
    if NoneHeld(held) {
      run := [];
    } else {
      var i: nat :| i < |held| && held[i] > 0;
      var less := held[i := held[i] - 1];
      OneLess(held, i);
      run := Distribute(less);
      run := OneMore(run, less, i);
      assert less[i := less[i] + 1] == held;
    }
  }

  /** The references before the first `k` threads have made their decrements. */
  function Before(held: seq<nat>, testing: seq<bool>): (before: seq<nat>)
    requires |held| == |testing|
    ensures |before| == |held|
  {
    seq(|held|, i requires 0 <= i < |held| => held[i] + if testing[i] then 1 else 0)
  }

  /** The first `k` threads are where they are meant to be, the others still outside. */
  ghost predicate Situation(w: World, held: seq<nat>, testing: seq<bool>, k: nat)
    requires |held| == |testing|
  {
    && |w.threads| == |held| && w.deletions == 0
    && (forall i :: 0 <= i < |held| && i < k ==>
          w.threads[i].held == held[i] && (w.threads[i].place.Testing? <==> testing[i]))
    && (forall i :: k <= i < |held| ==> w.threads[i] == Thread(Before(held, testing)[i], Outside))
  }

  ghost predicate Reaches(run: seq<Action>, held: seq<nat>, testing: seq<bool>, k: nat)
    requires |held| == |testing|
  {
    Possible(Start(|held|), run) && Situation(End(Start(|held|), run), held, testing, k)
  }

  lemma {:induction false} Arrange(held: seq<nat>, testing: seq<bool>, k: nat) returns (run: seq<Action>)
    requires |held| == |testing| && k <= |held|
    ensures Reaches(run, held, testing, k)
    decreases k
  {
    if k == 0 {
      run := Distribute(Before(held, testing));
    } else {
      run := Arrange(held, testing, k - 1);
      if testing[k - 1] {
        OneStepMore(Start(|held|), run, Decrement(k - 1));
        run := run + [Decrement(k - 1)];
      }
    }
  }

  /**
   For any number of threads, any references they hold and any set of them, some
   run of a new object has exactly these threads between decrement and test and
   nothing deleted yet.
   */
  lemma EverySituation(held: seq<nat>, testing: seq<bool>)
    requires |held| == |testing|
    ensures exists run :: Reaches(run, held, testing, |held|)
  {
    var run := Arrange(held, testing, |held|);
  }
}
