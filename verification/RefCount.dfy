/**
 The reference count of the device-event callback.  `Release` is two steps, the
 atomic decrement and the test of its result, and the steps of any number of
 threads interleave freely.
 */
module RefCount {
  import opened ByteOrder
  import opened Integers

  // --------------------------------------------------------------- one object

  function Incremented(count: int): int {
    ToInt32(count + 1)
  }

  function Decremented(count: int): int {
    ToInt32(count - 1)
  }

  lemma CountUp(n: int)
    ensures Incremented(ToInt32(n)) == ToInt32(n + 1)
  {
  }

  lemma CountDown(n: int)
    ensures Decremented(ToInt32(n)) == ToInt32(n - 1)
    ensures ToInt32(n) == 0 <==> n % 0x1_0000_0000 == 0
  {
  }

  /** The callback object; `references` is how many references are outstanding. */
  class Callback {
    var m_ref: int
    ghost var references: nat
    ghost var deleted: bool

    ghost predicate Valid()
      reads this
    {
      !deleted && m_ref == ToInt32(references)
    }

    constructor ()
      ensures Valid() && references == 0
    {
      m_ref := 0;
      references := 0;
      deleted := false;
    }

    method AddRef() returns (ref: uint32)
      requires Valid()
      modifies this
      ensures Valid() && references == old(references) + 1
      ensures ref == references % 0x1_0000_0000
    {
      CountUp(references);
      m_ref := Incremented(m_ref);
      references := references + 1;
      ref := m_ref % 0x1_0000_0000;
    }

    /** Deletes the object exactly if the references left are a multiple of 2^32. */
    method Release() returns (result: uint32)
      requires Valid() && references > 0
      modifies this
      ensures references == old(references) - 1
      ensures m_ref == ToInt32(references)
      ensures deleted <==> references % 0x1_0000_0000 == 0
      ensures result == references % 0x1_0000_0000
    {
      CountDown(references);
      CountDown(references - 1);
      m_ref := Decremented(m_ref);
      references := references - 1;
      var ref := m_ref;
      if ref == 0 {
        deleted := true;
      }
      result := ref % 0x1_0000_0000;
    }
  }

  // ------------------------------------------------------------- all threads

  /** Where a thread is: outside, or in `Release` with the decrement's result. */
  datatype Place = Outside | Testing(ref: int)

  datatype Thread = Thread(held: nat, place: Place)

  /** `started` says whether the creator has taken the first reference. */
  datatype World = World(count: int, threads: seq<Thread>, started: bool, deletions: nat)

  datatype Action = AddRef(i: nat) | Pass(i: nat, j: nat) | Decrement(i: nat) | Test(i: nat)

  function Total(threads: seq<Thread>, f: Thread -> nat): nat {
    if |threads| == 0 then 0 else f(threads[0]) + Total(threads[1..], f)
  }

  function Held(t: Thread): nat {
    t.held
  }

  function SawZero(t: Thread): nat {
    if t.place == Testing(0) then 1 else 0
  }

  /** The references held by all threads together. */
  function Outstanding(w: World): nat {
    Total(w.threads, Held)
  }

  /** The threads about to delete the object. */
  function Deleting(w: World): nat {
    Total(w.threads, SawZero)
  }

  predicate Enabled(w: World, a: Action) {
    a.i < |w.threads| &&
    match a
    case AddRef(i) => w.threads[i].place.Outside? && (w.threads[i].held > 0 || !w.started)
    case Pass(i, j) => w.threads[i].place.Outside? && w.threads[i].held > 0 && j < |w.threads| && j != i
    case Decrement(i) => w.threads[i].place.Outside? && w.threads[i].held > 0
    case Test(i) => w.threads[i].place.Testing?
  }

  function Apply(w: World, a: Action): World
    requires Enabled(w, a)
  {
    var t := w.threads[a.i];
    match a
    case AddRef(i) =>
      World(Incremented(w.count), w.threads[i := Thread(t.held + 1, Outside)], true, w.deletions)
    case Pass(i, j) =>
      var u := w.threads[j];
      w.(threads := w.threads[i := t.(held := t.held - 1)][j := u.(held := u.held + 1)])
    case Decrement(i) =>
      var ref := Decremented(w.count);
      w.(count := ref, threads := w.threads[i := Thread(t.held - 1, Testing(ref))])
    case Test(i) =>
      w.(threads := w.threads[i := t.(place := Outside)],
         deletions := if t.place.ref == 0 then w.deletions + 1 else w.deletions)
  }

  /** The new object, with a count of zero and any number of threads. */
  function Start(n: nat): World {
    World(0, seq(n, _ => Thread(0, Outside)), false, 0)
  }

  predicate Possible(w: World, run: seq<Action>)
    decreases |run|
  {
    |run| == 0 || (Enabled(w, run[0]) && Possible(Apply(w, run[0]), run[1..]))
  }

  function End(w: World, run: seq<Action>): World
    requires Possible(w, run)
    decreases |run|
  {
    if |run| == 0 then w else End(Apply(w, run[0]), run[1..])
  }

  /** At no point of the run more than `bound` references are outstanding. */
  predicate Within(w: World, run: seq<Action>, bound: nat)
    requires Possible(w, run)
    decreases |run|
  {
    Outstanding(w) <= bound && (|run| > 0 ==> Within(Apply(w, run[0]), run[1..], bound))
  }

  // --------------------------------------------------------- what steps keep

  lemma {:induction false} TotalChange(threads: seq<Thread>, f: Thread -> nat, i: nat, t: Thread)
    requires i < |threads|
    ensures Total(threads[i := t], f) + f(threads[i]) == Total(threads, f) + f(t)
    decreases |threads|
  {
    if i == 0 {
    } else {
      TotalChange(threads[1..], f, i - 1, t);
      assert threads[i := t][1..] == threads[1..][i - 1 := t];
    }
  }

  lemma {:induction false} TotalAtLeast(threads: seq<Thread>, f: Thread -> nat, i: nat)
    requires i < |threads|
    ensures f(threads[i]) <= Total(threads, f)
    decreases |threads|
  {
    if i == 0 {
    } else {
      TotalAtLeast(threads[1..], f, i - 1);
    }
  }

  lemma {:induction false} TotalZero(threads: seq<Thread>, f: Thread -> nat)
    requires forall t :: t in threads ==> f(t) == 0
    ensures Total(threads, f) == 0
  {
    if |threads| == 0 {
    } else {
      TotalZero(threads[1..], f);
    }
  }

  /**
   Nothing a thread does stops another: a step that a thread can make, it can
   still make after a step of another one.
   */
  lemma StepsDoNotDisable(w: World, a: Action, b: Action)
    requires Enabled(w, a) && Enabled(w, b) && a.i != b.i
    requires b.AddRef? ==> w.threads[b.i].held > 0
    ensures Enabled(Apply(w, a), b)
  {
    var t, u := w.threads[b.i], Apply(w, a).threads[b.i];
    assert u.place == t.place && u.held >= t.held;
  }

  /** How one step changes the references held and the threads about to delete. */
  lemma StepChange(w: World, a: Action)
    requires Enabled(w, a)
    ensures Outstanding(Apply(w, a)) - Outstanding(w) == (if a.AddRef? then 1 else if a.Decrement? then -1 else 0)
    ensures Deleting(Apply(w, a)) + Apply(w, a).deletions - (Deleting(w) + w.deletions)
            == (if a.Decrement? && Decremented(w.count) == 0 then 1 else 0)
  {
    var t, v := w.threads[a.i], Apply(w, a).threads[a.i];
    TotalChange(w.threads, Held, a.i, v);
    TotalChange(w.threads, SawZero, a.i, v);
    if a.Pass? {
      var mid := w.threads[a.i := v];
      TotalChange(mid, Held, a.j, Apply(w, a).threads[a.j]);
      TotalChange(mid, SawZero, a.j, Apply(w, a).threads[a.j]);
    }
  }

  /** The count is the number of references, as a 32-bit number. */
  predicate Counted(w: World) {
    w.count == ToInt32(Outstanding(w)) && (!w.started ==> Outstanding(w) == 0)
  }

  lemma StepCounted(w: World, a: Action)
    requires Enabled(w, a) && Counted(w)
    ensures Counted(Apply(w, a))
  {
    StepChange(w, a);
    CountUp(Outstanding(w));
    CountDown(Outstanding(w));
    TotalAtLeast(w.threads, Held, a.i);
  }

  /**
   An `AddRef` with nothing in between does to the counted world what the method
   of the class does to the object.
   */
  lemma AddRefAlone(w: World, i: nat)
    requires Counted(w) && Enabled(w, AddRef(i))
    ensures var v := Apply(w, AddRef(i));
            && Counted(v) && Outstanding(v) == Outstanding(w) + 1
            && v.deletions == w.deletions && v.threads[i] == Thread(w.threads[i].held + 1, Outside)
  {
    StepChange(w, AddRef(i));
    StepCounted(w, AddRef(i));
  }

  /** The same for the two steps of a `Release`, with nothing in between. */
  lemma ReleaseAlone(w: World, i: nat)
    requires Counted(w) && Enabled(w, Decrement(i))
    ensures var u := Apply(w, Decrement(i));
            && Enabled(u, Test(i))
            && var v := Apply(u, Test(i));
            && Counted(v) && Outstanding(v) == Outstanding(w) - 1
            && v.deletions == w.deletions + (if Outstanding(v) % 0x1_0000_0000 == 0 then 1 else 0)
            && v.threads[i] == Thread(w.threads[i].held - 1, Outside)
  {
    var u := Apply(w, Decrement(i));
    StepChange(w, Decrement(i));
    StepCounted(w, Decrement(i));
    StepChange(u, Test(i));
    StepCounted(u, Test(i));
    CountDown(Outstanding(w) - 1);
  }

  lemma StartCounted(n: nat)
    ensures Outstanding(Start(n)) == 0 && Deleting(Start(n)) == 0 && Counted(Start(n))
  {
    TotalZero(Start(n).threads, Held);
    TotalZero(Start(n).threads, SawZero);
  }

  lemma {:induction false} RunCounted(w: World, run: seq<Action>)
    requires Counted(w) && Possible(w, run)
    ensures Counted(End(w, run))
    decreases |run|
  {
    if |run| == 0 {
    } else {
      StepCounted(w, run[0]);
      RunCounted(Apply(w, run[0]), run[1..]);
    }
  }

  /**
   The object is alive, or exactly one thread is about to delete it, or it has
   been deleted once: never two of these.
   */
  predicate OneFate(w: World) {
    w.deletions + Deleting(w) + (if Outstanding(w) > 0 || !w.started then 1 else 0) == 1
  }

  lemma StepOneFate(w: World, a: Action)
    requires Enabled(w, a) && Counted(w) && OneFate(w) && Outstanding(w) <= 0x1_0000_0000
    ensures OneFate(Apply(w, a))
  {
    StepChange(w, a);
    CountDown(Outstanding(w));
    CountDown(Outstanding(w) - 1);
    TotalAtLeast(w.threads, Held, a.i);
  }

  lemma {:induction false} RunOneFate(w: World, run: seq<Action>)
    requires Counted(w) && OneFate(w) && Possible(w, run) && Within(w, run, 0x1_0000_0000)
    ensures OneFate(End(w, run))
    decreases |run|
  {
    if |run| == 0 {
    } else {
      StepCounted(w, run[0]);
      StepOneFate(w, run[0]);
      RunOneFate(Apply(w, run[0]), run[1..]);
    }
  }

  // ------------------------------------------------------------ whole runs

  /** At every moment of every run the count is right. */
  lemma CountIsOutstanding(n: nat, run: seq<Action>)
    requires Possible(Start(n), run)
    ensures End(Start(n), run).count == ToInt32(Outstanding(End(Start(n), run)))
  {
    StartCounted(n);
    RunCounted(Start(n), run);
  }

  /** A decrement sees zero exactly if the references left are a multiple of 2^32. */
  lemma SeesZeroIff(n: nat, run: seq<Action>, i: nat)
    requires Possible(Start(n), run) && Enabled(End(Start(n), run), Decrement(i))
    ensures Apply(End(Start(n), run), Decrement(i)).threads[i].place == Testing(0)
            <==> (Outstanding(End(Start(n), run)) - 1) % 0x1_0000_0000 == 0
  {
    CountIsOutstanding(n, run);
    CountDown(Outstanding(End(Start(n), run)));
    CountDown(Outstanding(End(Start(n), run)) - 1);
  }

  /**
   With at most 2^32 references at a time: while anyone holds one the object is
   alive and nobody is about to delete it; it is deleted at most once; and once
   all are released and all tests are done it has been deleted.
   */
  lemma DeletedExactlyOnce(n: nat, run: seq<Action>)
    requires Possible(Start(n), run) && Within(Start(n), run, 0x1_0000_0000)
    ensures var w := End(Start(n), run);
            && w.deletions + Deleting(w) <= 1
            && (Outstanding(w) > 0 ==> w.deletions == 0 && Deleting(w) == 0)
            && (w.started && Outstanding(w) == 0 && (forall t :: t in w.threads ==> t.place.Outside?)
                ==> w.deletions == 1)
  {
    StartCounted(n);
    RunOneFate(Start(n), run);
    var w := End(Start(n), run);
    if forall t :: t in w.threads ==> t.place.Outside? {
      TotalZero(w.threads, SawZero);
    }
  }

  /** The steps that use the object's memory. */
  predicate Touches(w: World, a: Action)
    requires Enabled(w, a)
  {
    a.AddRef? || a.Decrement? || (a.Test? && w.threads[a.i].place.ref == 0)
  }

  /** No step of such a run touches the object after its deletion. */
  lemma NoUseAfterDelete(n: nat, run: seq<Action>, a: Action)
    requires Possible(Start(n), run) && Within(Start(n), run, 0x1_0000_0000)
    requires Enabled(End(Start(n), run), a) && Touches(End(Start(n), run), a)
    ensures End(Start(n), run).deletions == 0
  {
    StartCounted(n);
    RunOneFate(Start(n), run);
    var w := End(Start(n), run);
    TotalAtLeast(w.threads, Held, a.i);
    TotalAtLeast(w.threads, SawZero, a.i);
  }

  // --------------------------------------------------- exactly up to 2^32

  /** The object is deleted although somebody holds a reference. */
  predicate Broken(w: World) {
    w.deletions > 0 && Outstanding(w) > 0
  }

  function Alone(held: nat): World {
    World(ToInt32(held), [Thread(held, Outside)], held > 0, 0)
  }

  function AddRefs(k: nat): (run: seq<Action>)
    ensures |run| == k
  {
    if k == 0 then [] else [AddRef(0)] + AddRefs(k - 1)
  }

  lemma AloneUp(held: nat)
    ensures Enabled(Alone(held), AddRef(0)) && Apply(Alone(held), AddRef(0)) == Alone(held + 1)
    ensures Outstanding(Alone(held)) == held
  {
    CountUp(held);
  }

  /** The run leads from `w` to `v`, never above the bound. */
  predicate Leads(w: World, run: seq<Action>, v: World, bound: nat) {
    Possible(w, run) && Within(w, run, bound) && End(w, run) == v
  }

  lemma StepFirst(w: World, a: Action, rest: seq<Action>, v: World, bound: nat)
    requires Outstanding(w) <= bound && Enabled(w, a) && Leads(Apply(w, a), rest, v, bound)
    ensures Leads(w, [a] + rest, v, bound)
  {
    assert ([a] + rest)[1..] == rest;
  }

  lemma MoreAddRefs(k: nat, rest: seq<Action>)
    requires k > 0
    ensures AddRefs(k) + rest == [AddRef(0)] + (AddRefs(k - 1) + rest)
  {
  }

  /** Taking references one by one, and then the rest of the run. */
  lemma {:induction false} ClimbThen(held: nat, k: nat, rest: seq<Action>, v: World, bound: nat)
    requires held + k <= bound && Leads(Alone(held + k), rest, v, bound)
    ensures Leads(Alone(held), AddRefs(k) + rest, v, bound)
    decreases k
  {
    if k == 0 {
      assert AddRefs(0) + rest == rest;
    } else {
      AloneUp(held);
      ClimbThen(held + 1, k - 1, rest, v, bound);
      MoreAddRefs(k, rest);
      StepFirst(Alone(held), AddRef(0), AddRefs(k - 1) + rest, v, bound);
    }
  }

  /** One `Release` of 2^32 + 1 references held by a single thread. */
  lemma OneTooMany(top: nat)
    requires top == 0x1_0000_0001
    ensures Possible(Alone(top), [Decrement(0), Test(0)]) && Within(Alone(top), [Decrement(0), Test(0)], top)
    ensures Broken(End(Alone(top), [Decrement(0), Test(0)]))
  {
    var w := Alone(top);
    var u := Apply(w, Decrement(0));
    var v := Apply(u, Test(0));
    assert w.count == 1 && u.threads == [Thread(top - 1, Testing(0))] && v.threads == [Thread(top - 1, Outside)];
    assert Outstanding(w) == top && Outstanding(u) == top - 1 && Outstanding(v) == top - 1;
    assert [Decrement(0), Test(0)][1..] == [Test(0)] && [Test(0)][1..] == [];
  }

  lemma {:induction false} WithinMore(w: World, run: seq<Action>, bound: nat, more: nat)
    requires bound <= more && Possible(w, run) && Within(w, run, bound)
    ensures Within(w, run, more)
    decreases |run|
  {
    if |run| == 0 {
    } else {
      WithinMore(Apply(w, run[0]), run[1..], bound, more);
    }
  }

  /** A run of the new object that stays within the bound and breaks it. */
  predicate Breaks(n: nat, run: seq<Action>, bound: nat) {
    Possible(Start(n), run) && Within(Start(n), run, bound) && Broken(End(Start(n), run))
  }

  /** Above 2^32 there is such a run. */
  lemma BreakingRun(bound: nat, top: nat, run: seq<Action>)
    requires 0x1_0000_0001 == top <= bound && run == AddRefs(top) + [Decrement(0), Test(0)]
    ensures Breaks(1, run, bound)
  {
    var release := [Decrement(0), Test(0)];
    OneTooMany(top);
    ClimbThen(0, top, release, End(Alone(top), release), top);
    assert Alone(0) == Start(1);
    WithinMore(Start(1), run, top, bound);
  }

  /** Up to 2^32 there is none. */
  lemma NoBreakingRun(n: nat, run: seq<Action>, bound: nat)
    requires bound <= 0x1_0000_0000
    ensures !Breaks(n, run, bound)
  {
    if Possible(Start(n), run) && Within(Start(n), run, bound) {
      WithinMore(Start(n), run, bound, 0x1_0000_0000);
      DeletedExactlyOnce(n, run);
    }
  }

  /**
   No run with at most `bound` references at a time breaks, exactly if `bound` is
   at most 2^32.
   */
  lemma SafeUpTo(bound: nat)
    ensures (forall n: nat, run :: !Breaks(n, run, bound)) <==> bound <= 0x1_0000_0000
  {
    if bound <= 0x1_0000_0000 {
      forall n: nat, run
        ensures !Breaks(n, run, bound)
      {
        NoBreakingRun(n, run, bound);
      }
    } else {
      var top := 0x1_0000_0001;
      BreakingRun(bound, top, AddRefs(top) + [Decrement(0), Test(0)]);
    }
  }
}
