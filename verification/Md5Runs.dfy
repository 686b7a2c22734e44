/**
 Whole runs of public calls on one object: which messages its digests are of,
 and when those are the bytes it was given.
 */
module Md5Runs {
  import opened Words
  import opened Md5Spec
  import opened Md5Loop
  import opened Md5Stream
  import opened Md5Object

  /** The public calls, as far as they change the message. */
  datatype Call = Feed(bytes: seq<byte>) | Finish | Clear

  function After(message: seq<byte>, call: Call): seq<byte> {
    match call
    case Feed(bytes) => message + bytes
    case Finish => AfterDigest(message)
    case Clear => []
  }

  /** The message the object stands for after the calls. */
  function Outcome(message: seq<byte>, calls: seq<Call>): seq<byte>
    decreases |calls|
  {
    if |calls| == 0 then message else Outcome(After(message, calls[0]), calls[1..])
  }

  /** The messages that the digests taken on the way are of. */
  function Digested(message: seq<byte>, calls: seq<Call>): seq<seq<byte>>
    decreases |calls|
  {
    if |calls| == 0 then []
    else
      var rest := Digested(After(message, calls[0]), calls[1..]);
      if calls[0].Finish? then [message] + rest else rest
  }

  /** A function applied to every message of a list. */
  function Each(f: seq<byte> -> seq<byte>, messages: seq<seq<byte>>): (results: seq<seq<byte>>)
    ensures |results| == |messages|
  {
    seq(|messages|, i requires 0 <= i < |messages| => f(messages[i]))
  }

  function Digests(messages: seq<seq<byte>>): (digests: seq<seq<byte>>)
    ensures |digests| == |messages|
  {
    Each(Md5, messages)
  }

  /** Every update is short enough for its loop to end. */
  predicate Accepted(length: nat, calls: seq<Call>)
    decreases |calls|
  {
    |calls| == 0 ||
    match calls[0]
    case Feed(bytes) => |bytes| + length % 64 < 0x1_0000_0000 && Accepted(length + |bytes|, calls[1..])
    case Finish => Accepted(length, calls[1..])
    case Clear => Accepted(0, calls[1..])
  }

  /** An update with `start` bytes to go in its block ends: it does not fill it, or its loop stops. */
  ghost predicate UpdateEnds(start: nat, length: nat) {
    length < start || exists k: nat :: !Continues(start, k, length)
  }

  ghost predicate EveryUpdateEnds(length: nat, calls: seq<Call>)
    decreases |calls|
  {
    |calls| == 0 ||
    match calls[0]
    case Feed(bytes) => UpdateEnds(64 - length % 64, |bytes|) && EveryUpdateEnds(length + |bytes|, calls[1..])
    case Finish => EveryUpdateEnds(length, calls[1..])
    case Clear => EveryUpdateEnds(0, calls[1..])
  }

  lemma UpdateEndsIff(start: nat, length: nat)
    requires 1 <= start <= 64
    ensures UpdateEnds(start, length) <==> length + (64 - start) < 0x1_0000_0000
  {
    if start <= length {
      LoopEndsIff(start, length);
    }
  }

  /** A run is accepted exactly if every update in it comes to an end. */
  lemma {:induction false} AcceptedIff(length: nat, calls: seq<Call>)
    ensures Accepted(length, calls) <==> EveryUpdateEnds(length, calls)
    decreases |calls|
  {
    if |calls| == 0 {
    } else {
      match calls[0]
      case Feed(bytes) =>
        UpdateEndsIff(64 - length % 64, |bytes|);
        AcceptedIff(length + |bytes|, calls[1..]);
      case Finish => AcceptedIff(length, calls[1..]);
      case Clear => AcceptedIff(0, calls[1..]);
    }
  }

  lemma EachAppend(f: seq<byte> -> seq<byte>, a: seq<seq<byte>>, b: seq<seq<byte>>)
    ensures Each(f, a + b) == Each(f, a) + Each(f, b)
  {
  }

  /** The message that a call takes the digest of, if it takes one. */
  function Taken(message: seq<byte>, call: Call): seq<seq<byte>> {
    if call.Finish? then [message] else []
  }

  /** A run is its first call and the rest. */
  lemma FirstCall(message: seq<byte>, calls: seq<Call>)
    requires |calls| > 0
    ensures Outcome(message, calls) == Outcome(After(message, calls[0]), calls[1..])
    ensures Accepted(|message|, calls) ==> Accepted(|After(message, calls[0])|, calls[1..])
    ensures Digested(message, calls) == Taken(message, calls[0]) + Digested(After(message, calls[0]), calls[1..])
  {
  }

  /** One public call on the object itself. */
  method Perform(h: MD5, call: Call) returns (digests: seq<seq<byte>>)
    requires h.Valid() && (call.Feed? ==> |call.bytes| + Pending(h.message) < 0x1_0000_0000)
    modifies h, h.buffer, h.digestBytes
    ensures h.Valid() && h.message == After(old(h.message), call)
    ensures digests == Digests(Taken(old(h.message), call))
  {
    digests := [];
    match call
    case Feed(bytes) => h.Update(bytes);
    case Finish =>
      var d := h.Digest();
      digests := [d[..]];
    case Clear => h.Reset();
  }

  /** Any run of public calls on the object itself: the digests are those of `Digested`. */
  method Replay(h: MD5, calls: seq<Call>) returns (digests: seq<seq<byte>>)
    requires h.Valid() && Accepted(|h.message|, calls)
    modifies h, h.buffer, h.digestBytes
    ensures h.Valid() && h.message == Outcome(old(h.message), calls)
    ensures digests == Digests(Digested(old(h.message), calls))
    decreases |calls|
  {
    if |calls| == 0 {
      return [];
    }
    FirstCall(h.message, calls);
    EachAppend(Md5, Taken(h.message, calls[0]), Digested(After(h.message, calls[0]), calls[1..]));
    var first := Perform(h, calls[0]);
    var rest := Replay(h, calls[1..]);
    digests := first + rest;
  }

  // ----------------------------------------------------------- only updates

  function Feeds(chunks: seq<seq<byte>>): (calls: seq<Call>)
    ensures |calls| == |chunks|
  {
    seq(|chunks|, i requires 0 <= i < |chunks| => Feed(chunks[i]))
  }

  function Concat(chunks: seq<seq<byte>>): seq<byte> {
    if |chunks| == 0 then [] else chunks[0] + Concat(chunks[1..])
  }

  lemma RestOfFeeds(chunks: seq<seq<byte>>, more: seq<Call>)
    requires |chunks| > 0
    ensures Feeds(chunks)[0] == (Feeds(chunks) + more)[0] == Feed(chunks[0])
    ensures Feeds(chunks)[1..] == Feeds(chunks[1..])
    ensures (Feeds(chunks) + more)[1..] == Feeds(chunks[1..]) + more
  {
    assert (Feeds(chunks) + more)[1..] == Feeds(chunks)[1..] + more;
  }

  /** However the bytes are cut into updates, the object stands for all of them. */
  lemma {:induction false} ChunksDoNotMatter(message: seq<byte>, chunks: seq<seq<byte>>)
    ensures Outcome(message, Feeds(chunks)) == message + Concat(chunks)
    decreases |chunks|
  {
    if |chunks| == 0 {
      assert message + [] == message;
    } else {
      ChunksDoNotMatter(message + chunks[0], chunks[1..]);
      assert Feeds(chunks)[1..] == Feeds(chunks[1..]);
      assert message + chunks[0] + Concat(chunks[1..]) == message + Concat(chunks);
    }
  }

  lemma {:induction false} DigestAfterFeeds(message: seq<byte>, chunks: seq<seq<byte>>)
    ensures Digested(message, Feeds(chunks) + [Finish]) == [Outcome(message, Feeds(chunks))]
    decreases |chunks|
  {
    var calls := Feeds(chunks) + [Finish];
    if |chunks| == 0 {
      assert calls == [Finish];
    } else {
      DigestAfterFeeds(message + chunks[0], chunks[1..]);
      RestOfFeeds(chunks, [Finish]);
    }
  }

  /** The first digest after any updates is the MD5 digest of all their bytes. */
  lemma FirstDigestIsMd5(chunks: seq<seq<byte>>)
    ensures Digests(Digested([], Feeds(chunks) + [Finish])) == [Md5(Concat(chunks))]
  {
    DigestAfterFeeds([], chunks);
    ChunksDoNotMatter([], chunks);
    assert [] + Concat(chunks) == Concat(chunks);
  }

  /** A new object, any updates, one digest: the MD5 digest of all the bytes. */
  method HashChunks(chunks: seq<seq<byte>>) returns (digest: seq<byte>)
    requires Accepted(0, Feeds(chunks) + [Finish])
    ensures digest == Md5(Concat(chunks))
  {
    var h := new MD5();
    FirstDigestIsMd5(chunks);
    var digests := Replay(h, Feeds(chunks) + [Finish]);
    digest := digests[0];
  }

  // ------------------------------------------------------- repeated digests

  /** A second digest finds what the first one left. */
  lemma SecondDigestIsLast(message: seq<byte>)
    ensures AfterDigest(AfterDigest(message)) == AfterDigest(message)
  {
    AfterDigestParts(message);
  }

  function Finishes(k: nat): (calls: seq<Call>)
    ensures |calls| == k
  {
    if k == 0 then [] else [Finish] + Finishes(k - 1)
  }

  lemma FinishFirst(message: seq<byte>, k: nat)
    ensures Digested(message, Finishes(k + 1)) == [message] + Digested(AfterDigest(message), Finishes(k))
  {
    var calls := Finishes(k + 1);
    assert calls == [Finish] + Finishes(k);
    assert calls[0] == Finish && calls[1..] == Finishes(k);
  }

  lemma {:induction false} FinishedStays(message: seq<byte>, k: nat)
    requires AfterDigest(message) == message
    ensures Digested(message, Finishes(k)) == seq(k, _ => message)
  {
    if k == 0 {
    } else {
      FinishFirst(message, k - 1);
      FinishedStays(message, k - 1);
    }
  }

  /** Digests in a row: the first is of the message, all others of what it left. */
  lemma RepeatedDigests(message: seq<byte>, k: nat)
    ensures Digested(message, Finishes(k + 1)) == [message] + seq(k, _ => AfterDigest(message))
  {
    FinishFirst(message, k);
    SecondDigestIsLast(message);
    FinishedStays(AfterDigest(message), k);
  }

  /** Exactly when a digest leaves the message as it was. */
  lemma DigestKeepsMessage(message: seq<byte>)
    ensures AfterDigest(message) == message
            <==> (Pending(message) < 56 || Tail(message) == Leftovers(|message|)[..Pending(message)])
  {
    AfterDigestParts(message);
    assert message == Whole(message) + Tail(message);
  }

  // ------------------------------------------------ exactly the safe schedules

  /** A call with the contents left open. */
  datatype CallKind = Feeding(length: nat) | Finishing | Clearing

  ghost predicate Fits(call: Call, kind: CallKind) {
    match kind
    case Feeding(n) => call.Feed? && |call.bytes| == n
    case Finishing => call.Finish?
    case Clearing => call.Clear?
  }

  ghost predicate Fills(calls: seq<Call>, plan: seq<CallKind>) {
    |calls| == |plan| && forall i :: 0 <= i < |plan| ==> Fits(calls[i], plan[i])
  }

  /** The bytes given since the last `reset`, at every digest taken. */
  function Wanted(bytes: seq<byte>, calls: seq<Call>): seq<seq<byte>>
    decreases |calls|
  {
    if |calls| == 0 then []
    else
      match calls[0]
      case Feed(more) => Wanted(bytes + more, calls[1..])
      case Finish => [bytes] + Wanted(bytes, calls[1..])
      case Clear => Wanted([], calls[1..])
  }

  /**
   The check a caller can make beforehand, from the lengths alone: no digest
   follows, without a reset between them, one taken with 56 or more bytes pending.
   */
  predicate Safe(length: nat, safe: bool, plan: seq<CallKind>)
    decreases |plan|
  {
    |plan| == 0 ||
    match plan[0]
    case Feeding(n) => Safe(length + n, safe, plan[1..])
    case Finishing => safe && Safe(length, length % 64 < 56, plan[1..])
    case Clearing => Safe(0, true, plan[1..])
  }

  /** On a safe schedule every digest is of exactly the bytes given. */
  lemma {:induction false} SafeIsExact(message: seq<byte>, bytes: seq<byte>, safe: bool,
                                         calls: seq<Call>, plan: seq<CallKind>)
    requires |message| == |bytes| && (safe ==> message == bytes)
    requires Fills(calls, plan) && Safe(|message|, safe, plan)
    ensures Digested(message, calls) == Wanted(bytes, calls)
    decreases |plan|
  {
    if |plan| == 0 {
    } else {
      assert Fits(calls[0], plan[0]);
      assert Fills(calls[1..], plan[1..]);
      match plan[0]
      case Feeding(n) => SafeIsExact(message + calls[0].bytes, bytes + calls[0].bytes, safe, calls[1..], plan[1..]);
      case Finishing => SafeIsExact(AfterDigest(message), bytes, |message| % 64 < 56, calls[1..], plan[1..]);
      case Clearing => SafeIsExact([], [], true, calls[1..], plan[1..]);
    }
  }

  function Ones(n: nat): (bytes: seq<byte>)
    ensures |bytes| == n
  {
    seq(n, _ => 0xff)
  }

  lemma AfterDigestOfOnes()
    ensures AfterDigest(Ones(56)) == Zeros(56) && Zeros(56) != Ones(56)
  {
    AfterDigestParts(Ones(56));
    assert Whole(Ones(56)) == [];
    assert Leftovers(56)[..56] == Zeros(56);
    assert Zeros(56)[0] != Ones(56)[0];
  }

  /** 56 bytes 0xff: every digest but the first is that of 56 zero bytes. */
  lemma DigestsOfOnes(k: nat)
    ensures Digested(Ones(56), Finishes(k + 1)) == [Ones(56)] + seq(k, _ => Zeros(56))
    ensures Zeros(56) != Ones(56)
  {
    AfterDigestOfOnes();
    RepeatedDigests(Ones(56), k);
  }

  /** The plan with every byte 0xff. */
  function WithOnes(plan: seq<CallKind>): (calls: seq<Call>)
    ensures |calls| == |plan|
  {
    seq(|plan|, i requires 0 <= i < |plan| =>
      match plan[i] case Feeding(n) => Feed(Ones(n)) case Finishing => Finish case Clearing => Clear)
  }

  lemma WithOnesFills(plan: seq<CallKind>)
    ensures Fills(WithOnes(plan), plan)
  {
  }

  /** The first byte that an unsafe digest overwrites. */
  lemma UnsafeDigestZeroes(message: seq<byte>)
    requires Pending(message) >= 56
    ensures AfterDigest(message)[|message| - Pending(message)] == 0
  {
  }

  /** Off a safe schedule there are bytes for which one is not: all of them 0xff. */
  lemma {:induction false} UnsafeLoses(message: seq<byte>, n: nat, safe: bool, p: nat, plan: seq<CallKind>)
    requires |message| == n && (if safe then message == Ones(n) else p < n && message[p] == 0)
    requires !Safe(n, safe, plan)
    ensures Digested(message, WithOnes(plan)) != Wanted(Ones(n), WithOnes(plan))
    decreases |plan|, 1
  {
    var calls := WithOnes(plan);
    assert calls[1..] == WithOnes(plan[1..]);
    match plan[0]
    case Feeding(k) =>
      assert Ones(n) + Ones(k) == Ones(n + k);
      UnsafeLoses(message + Ones(k), n + k, safe, p, plan[1..]);
    case Finishing => UnsafeFinish(message, n, safe, p, plan);
    case Clearing => UnsafeLoses([], 0, true, 0, plan[1..]);
  }

  lemma {:induction false} UnsafeFinish(message: seq<byte>, n: nat, safe: bool, p: nat, plan: seq<CallKind>)
    requires |plan| > 0 && plan[0].Finishing?
    requires |message| == n && (if safe then message == Ones(n) else p < n && message[p] == 0)
    requires !Safe(n, safe, plan)
    ensures Digested(message, WithOnes(plan)) != Wanted(Ones(n), WithOnes(plan))
    decreases |plan|, 0
  {
    var calls := WithOnes(plan);
    assert calls[1..] == WithOnes(plan[1..]);
    if !safe {
      assert Digested(message, calls)[0] == message && Wanted(Ones(n), calls)[0] == Ones(n);
      assert message[p] != Ones(n)[p];
    } else {
      if n % 64 >= 56 {
        UnsafeDigestZeroes(message);
      }
      UnsafeLoses(AfterDigest(message), n, n % 64 < 56, n - n % 64, plan[1..]);
      assert Digested(message, calls)[1..] == Digested(AfterDigest(message), calls[1..]);
      assert Wanted(Ones(n), calls)[1..] == Wanted(Ones(n), calls[1..]);
    }
  }

  /**
   However digests, updates and resets are interleaved: all digests are of the
   bytes given, whatever those are, exactly if the schedule is safe.
   */
  lemma SafeSchedules(plan: seq<CallKind>)
    ensures (forall calls | Fills(calls, plan) :: Digested([], calls) == Wanted([], calls)) <==> Safe(0, true, plan)
  {
    if Safe(0, true, plan) {
      forall calls | Fills(calls, plan)
        ensures Digested([], calls) == Wanted([], calls)
      {
        SafeIsExact([], [], true, calls, plan);
      }
    } else {
      UnsafeLoses([], 0, true, 0, plan);
      WithOnesFills(plan);
      assert Ones(0) == [];
    }
  }
}
