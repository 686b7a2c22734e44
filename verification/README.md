# Verified model of the MD5 object, the byte-order functions and the callback's reference count

This Dafny project models three parts of the portable-device application and its
bundled headers, and proves what they are for.

**The streaming MD5 class.** `Md5Spec` is RFC 1321 as one function from a message
to its digest, with a table-driven loop of 64 steps. `Md5Macros` and `Md5Rounds`
hold the macros and the 64 unrolled lines of `transform`, proved equal to that
loop; `Md5Inverse` proves that loop a bijection; `Md5Codec` holds `encode`,
`decode` and the hexadecimal text. `Md5Stream` says what an object in the middle
of its input stands for, `Md5Padding` and `Md5Loop` treat the padding and the
32-bit loop position, and `Md5Object` is the class itself, updated in place.
`Md5Runs` is about whole sequences of calls on one object. `Md5Meaning` says what
the definitions of `Md5Spec` mean in other terms, bit by bit and as numbers, and
`Md5Vectors` derives two of the digests printed in RFC 1321, section A.5, step by
step, so that tables, constants and orders are those of the standard.

The object carries a ghost `message`, the byte string it stands for. The
invariant `Holds` says that the registers are the block function folded over the
whole blocks of it, that the buffer starts with the pending bytes, and that the
counter is its bit length modulo 2^64. Nothing is said about other bytes of the
buffer or about the digest field, so digests depend on the message alone.

Three things the code does that its comments do not say:

- The flag `_finished` is meant to keep a computed digest, but `final` calls
  `update`, which clears it. It is never set between calls, and every `digest`
  computes again (`Md5Object.MD5.Valid`).
- `final` restores registers and counter but not the buffer. With 56 or more
  bytes pending, the pending bytes are overwritten by zeros and length bytes, so
  a later `digest` or `update` goes on from another message (`AfterDigest`). The
  first digest is always right; `Md5Runs.SafeSchedules` says exactly which
  schedules of calls give only right ones, and `Md5Runs.DigestsOfOnes` is a
  concrete failure.
- The position of the block loop is a 32-bit word, and `i + 63 < length` wraps.
  `Md5Loop.LoopEndsIff` shows that the loop ends exactly if length and pending
  bytes together are below 2^32; this is what `Update` requires.

**The byte-order functions and `skip_trailing_space`.** `ByteOrder` has one
value function for bytes, low byte first, and proves every load and store
against it, the portable forms and the forms that go through a cast pointer.
`TrailingSpace` proves both fast forms of `skip_trailing_space` equal to the
plain loop. Where memory can be read as whole words, `LoadWord` demands that the
address is aligned and the word lies inside the string.

**The callback's reference count.** `RefCount` has the object as a class, and a
state machine in which any number of threads take, pass on and release
references; `Release` is an atomic decrement and a separate test, and without
anything in between the two do what the class does. The count is a
signed 32-bit number that wraps; `RefCount.SafeUpTo` gives the exact bound up to
which that does no harm. `RefCountReach` shows that the machine leaves nothing
out: every situation of any number of threads is reached by some run.

How things are written: bytes and words of the MD5 code are bit vectors; its bit
counter is a pair of numbers below 2^32 with the wrap-around written out, and
`Words.WordBits` is the word that holds such a number (`Words.WordBitsValue`). In
`ByteOrder` bytes and words are the bounded numbers of `Integers`, shifts are
products and quotients by powers of two. `memcpy`
is an assignment to a range of the array. A file is its contents and whether the
stream is good. The methods `Md5Rounds.Round1a` to `Round4d` are consecutive
lines of one function, cut after every fourth line; `FFAt` to `IIAt` are the
macros at a given line of it. The block function is a
ghost constant `f` of the object, tied to RFC 1321 by `IsBlockFunction`, so that
the streaming proofs do not look inside it.

Run `dafny verify dfyconfig.toml` with
`--resource-limit 2000000 --verification-time-limit 0` to check everything.

## Model

| member | source | states |
|---|---|---|
| `Md5Object.MD5.constructor` | WPD_MTP_data/verity/MyMd5.cpp:72-74 | a new object stands for the empty message, whatever its buffer contains, and its registers are the bytes of RFC 1321, section 3.3 |
| `Md5Object.MD5.Reset` | WPD_MTP_data/verity/MyMd5.cpp:105-115 | from any state, also one whose fields make no sense, the object stands for the empty message, and its registers are the bytes of RFC 1321, section 3.3 |
| `Md5Object.MD5.Update` | WPD_MTP_data/verity/MyMd5.cpp:150-185 | the object stands for the old message followed by the input: registers are the block function folded over the whole blocks, the buffer starts with the pending bytes, the counter is 8n modulo 2^64; the whole buffer is given, stale bytes included |
| `Md5Object.MD5.AddToCount` | WPD_MTP_data/verity/MyMd5.cpp:159-163 | words that count n bytes count n + length afterwards, modulo 2^64, for every length below 2^32 |
| `Md5Object.MD5.BufferIndex` | WPD_MTP_data/verity/MyMd5.cpp:157 | the bits of the counter read as an index are the number of pending bytes |
| `Md5Object.MD5.TakeIn` | WPD_MTP_data/verity/MyMd5.cpp:165-184 | what an update does to registers and buffer: all whole blocks folded, the rest pending, the whole buffer given |
| `Md5Object.MD5.KeepRest` | WPD_MTP_data/verity/MyMd5.cpp:183-184 | the last copy leaves the pending bytes of the longer message in the buffer and nothing for the registers to do |
| `Md5Object.MD5.AbsorbBlocks` | WPD_MTP_data/verity/MyMd5.cpp:173-175 | the loop, whose 32-bit test may wrap, ends at the first position where that test fails; that is after the last whole block, and every block has been folded in order |
| `Md5Object.MD5.AbsorbBlock` | WPD_MTP_data/verity/MyMd5.cpp:174 | one round folds exactly the next 64 input bytes into the registers |
| `Md5Object.MD5.FillAndAbsorb` | WPD_MTP_data/verity/MyMd5.cpp:165-175 | completes the waiting block with the first bytes of the input, folds it, and goes on with whole blocks |
| `Md5Object.MD5.AbsorbWhatFits` | WPD_MTP_data/verity/MyMd5.cpp:165-181 | both branches: which input bytes are consumed, what still waits in the buffer, and where the second copy goes |
| `Md5Object.MD5.CopyToBuffer` | WPD_MTP_data/verity/MyMd5.cpp:170-184 | the copied bytes and nothing else change, and the copy stays inside the 64 bytes |
| `Md5Object.MD5.AppendPad` | WPD_MTP_data/verity/MyMd5.cpp:204-207 | the two-branch length takes pad bytes from within the 64-byte table, and they bring any message to 56 pending bytes |
| `Md5Object.MD5.AppendPadding` | WPD_MTP_data/verity/MyMd5.cpp:204-210 | after the two updates the object stands for message, padding and length field; the whole buffer is given |
| `Md5Object.MD5.Final` | WPD_MTP_data/verity/MyMd5.cpp:190-218 | the digest field is the digest of the message; registers and counter are those from before, and the message afterwards is AfterDigest of it, for every pending count |
| `Md5Object.MD5.EncodeCount` | WPD_MTP_data/verity/MyMd5.cpp:201-202 | the encoded counter is the length field of RFC 1321, section 3.2, and as numbers its bytes are the eight low bytes of the 64-bit count |
| `Md5Object.MD5.EncodeRegisters` | WPD_MTP_data/verity/MyMd5.cpp:212-213 | the digest field holds the numbers in A, B, C and D, in this order, each low byte first |
| `Md5Object.MessageDetermines` | WPD_MTP_data/verity/MyMd5.cpp:72-218 | two objects that stand for the same message agree on registers, counter and pending bytes, whatever calls made them and whatever stale bytes they hold |
| `Md5Object.MD5.Digest` | WPD_MTP_data/verity/MyMd5.cpp:95-102 | every digest is the RFC 1321 digest of the message the object then stands for; it is always recomputed, since the finished flag is never set between calls |
| `Md5Object.MD5.ToString` | WPD_MTP_data/verity/MyMd5.cpp:345-347 | the hexadecimal text of the MD5 digest of the message |
| `Md5Object.MD5.UpdateFile` | WPD_MTP_data/verity/MyMd5.cpp:128-144 | reading a good stream in pieces of 1024 bytes adds exactly its contents; a failed stream adds nothing |
| `Md5Object.MD5.Transform` | WPD_MTP_data/verity/MyMd5.cpp:221-303 | the new registers are the block function of the old registers and the block |
| `Md5Loop.LoopEndsIff` | WPD_MTP_data/verity/MyMd5.cpp:152-175 | the loop on a 32-bit position ends if and only if length and pending bytes together are below 2^32 |
| `Md5Runs.Perform` | WPD_MTP_data/verity/MyMd5.cpp:95-185 | one public call changes the message as After says and returns the digest of the message before it |
| `Md5Runs.Replay` | WPD_MTP_data/verity/MyMd5.cpp:95-218 | for every sequence of update, digest and reset on one object, the digests returned are those of the messages listed by Digested |
| `Md5Runs.AcceptedIff` | WPD_MTP_data/verity/MyMd5.cpp:150-185 | the sequences that Replay takes are exactly those in which every update comes to an end |
| `Md5Runs.FirstDigestIsMd5` | WPD_MTP_data/verity/MyMd5.cpp:95-218 | for every way of cutting the input into updates the first digest is the one-shot MD5 of all the bytes |
| `Md5Runs.ChunksDoNotMatter` | WPD_MTP_data/verity/MyMd5.cpp:128-185 | however bytes are cut into updates, the object stands for their concatenation (and by MessageDetermines has the same registers, counter and pending bytes) |
| `Md5Runs.HashChunks` | WPD_MTP_data/verity/MyMd5.cpp:95-218 | a new object, fed any chunks whose loops end and then asked once, returns the MD5 digest of all the bytes |
| `Md5Runs.RepeatedDigests` | WPD_MTP_data/verity/MyMd5.cpp:95-102 | k + 1 digests in a row: the first is of the message, all later ones are of what the first left behind |
| `Md5Runs.SecondDigestIsLast` | WPD_MTP_data/verity/MyMd5.cpp:190-218 | a digest after a digest leaves the message as it is |
| `Md5Runs.DigestKeepsMessage` | WPD_MTP_data/verity/MyMd5.cpp:190-218 | a digest leaves the message unchanged exactly if fewer than 56 bytes are pending or the pending bytes are by chance the ones written over them |
| `Md5Runs.DigestsOfOnes` | WPD_MTP_data/verity/MyMd5.cpp:190-218 | a concrete input for which a repeated digest is of another message: 56 bytes 0xff, all of whose later digests are of 56 zero bytes |
| `Md5Runs.SafeSchedules` | WPD_MTP_data/verity/MyMd5.cpp:95-218 | for a schedule of updates, digests and resets given by lengths alone: all digests are of the bytes given, for all contents, if and only if no digest follows, without a reset between, one taken with 56 or more bytes pending |
| `Md5Runs.SafeIsExact` | WPD_MTP_data/verity/MyMd5.cpp:95-218 | the if half, for a run started anywhere |
| `Md5Runs.UnsafeLoses` | WPD_MTP_data/verity/MyMd5.cpp:95-218 | the only-if half: on an unsafe schedule the bytes 0xff show it |
| `Md5Stream.HashIsMd5` | WPD_MTP_data/verity/MyMd5.cpp:190-218 | the digest computed with any block function that agrees with RFC 1321 is the RFC 1321 digest |
| `Md5Stream.AdditionIsExact` | WPD_MTP_data/verity/MyMd5.cpp:160-163 | the two words with their compare-based carry add modulo 2^64, for any words and every length below 2^32 |
| `Md5Stream.CounterAdvances` | WPD_MTP_data/verity/MyMd5.cpp:160-163 | adding the bits of length bytes to a count of n bytes modulo 2^64 gives a count of n + length bytes |
| `Md5Stream.CarryIsExact` | WPD_MTP_data/verity/MyMd5.cpp:160-163 | low word, carry and high part together lose nothing of the added length |
| `Md5Stream.IndexIsPending` | WPD_MTP_data/verity/MyMd5.cpp:157 | bits 3 to 8 of the low counter word are the length modulo 64, also after the counter wrapped |
| `Md5Stream.FillBlock` | WPD_MTP_data/verity/MyMd5.cpp:168-171 | completing the waiting block folds exactly the waiting bytes and the new ones |
| `Md5Stream.NextBlockOf` | WPD_MTP_data/verity/MyMd5.cpp:173-175 | each further block of the input is folded once and in order |
| `Md5Stream.EndOfUpdate` | WPD_MTP_data/verity/MyMd5.cpp:183-184 | the last copy leaves registers alone and makes the rest of the input the pending bytes |
| `Md5Stream.SecondCopy` | WPD_MTP_data/verity/MyMd5.cpp:176-184 | the whole buffer after the last copy, with what earlier blocks left behind it |
| `Md5Stream.BufferAfterFinal` | WPD_MTP_data/verity/MyMd5.cpp:206-210 | the whole buffer after padding and length field, for both branches of the pad length |
| `Md5Stream.FinalTail` | WPD_MTP_data/verity/MyMd5.cpp:190-218 | the bytes that lie where the pending bytes were: the same ones below 56, zeros and length bytes from 56 on |
| `Md5Stream.HashOfAbsorbed` | WPD_MTP_data/verity/MyMd5.cpp:204-213 | after the two updates nothing is left unhashed |
| `Md5Stream.Restored` | WPD_MTP_data/verity/MyMd5.cpp:215-217 | restored registers and counter fit the message with its new tail |
| `Md5Meaning.PaddingBits` | WPD_MTP_data/verity/MyMd5.cpp:62 | the padding is a single one bit and then zero bits |
| `Md5Meaning.PaddedBits` | WPD_MTP_data/verity/MyMd5.cpp:204-210 | the padded form in bits: message, a one, fewer than 512 zeros up to 448 modulo 512, length field |
| `Md5Padding.PaddedInjective` | WPD_MTP_data/verity/MyMd5.cpp:202-210 | two messages, of any lengths, with the same padded form are equal |
| `Md5Padding.LengthFieldBytes` | WPD_MTP_data/verity/MyMd5.cpp:201-202 | the length field is the bit length modulo 2^64 as eight bytes, low byte first |
| `Md5Padding.LengthFieldInjective` | WPD_MTP_data/verity/MyMd5.cpp:202 | the eight length bytes determine the length among lengths closer than 2^61 |
| `Md5Padding.PadLengthByBranch` | WPD_MTP_data/verity/MyMd5.cpp:205-206 | the two-branch pad length is the one of RFC 1321, section 3.1 |
| `Md5Padding.PadLengthUnique` | WPD_MTP_data/verity/MyMd5.cpp:204-206 | there is exactly one length from 1 to 64 that pads to 56 modulo 64 |
| `Md5Macros.FF` | WPD_MTP_data/verity/MyMd5.cpp:40-44 | for all arguments: assigning the result to the first register is the step of round 1 that the arguments describe, with all roles moved on by one |
| `Md5Macros.MacroFSteps` | WPD_MTP_data/verity/MyMd5.cpp:40-44 | the macro's sums, in the macro's order, equal the step of RFC 1321, section 3.4 |
| `Md5Macros.GG` | WPD_MTP_data/verity/MyMd5.cpp:45-49 | for all arguments: assigning the result to the first register is the step of round 2 that the arguments describe, with all roles moved on by one |
| `Md5Macros.MacroGSteps` | WPD_MTP_data/verity/MyMd5.cpp:45-49 | the macro's sums, in the macro's order, equal the step of RFC 1321, section 3.4 |
| `Md5Macros.HH` | WPD_MTP_data/verity/MyMd5.cpp:50-54 | for all arguments: assigning the result to the first register is the step of round 3 that the arguments describe, with all roles moved on by one |
| `Md5Macros.MacroHSteps` | WPD_MTP_data/verity/MyMd5.cpp:50-54 | the macro's sums, in the macro's order, equal the step of RFC 1321, section 3.4 |
| `Md5Macros.II` | WPD_MTP_data/verity/MyMd5.cpp:55-59 | for all arguments: assigning the result to the first register is the step of round 4 that the arguments describe, with all roles moved on by one |
| `Md5Macros.MacroISteps` | WPD_MTP_data/verity/MyMd5.cpp:55-59 | the macro's sums, in the macro's order, equal the step of RFC 1321, section 3.4 |
| `Md5Rounds.Round1a` | WPD_MTP_data/verity/MyMd5.cpp:228-231 | these four lines are steps 0 to 3 of the table-driven round 1 |
| `Md5Rounds.Round1b` | WPD_MTP_data/verity/MyMd5.cpp:232-235 | these four lines are steps 4 to 7 of the table-driven round 1 |
| `Md5Rounds.Round1c` | WPD_MTP_data/verity/MyMd5.cpp:236-239 | these four lines are steps 8 to 11 of the table-driven round 1 |
| `Md5Rounds.Round1d` | WPD_MTP_data/verity/MyMd5.cpp:240-243 | these four lines are steps 12 to 15 of the table-driven round 1 |
| `Md5Rounds.RunRound1` | WPD_MTP_data/verity/MyMd5.cpp:228-243 | the sixteen unrolled lines equal round 1 of the table-driven loop |
| `Md5Rounds.Round2a` | WPD_MTP_data/verity/MyMd5.cpp:246-249 | these four lines are steps 0 to 3 of the table-driven round 2 |
| `Md5Rounds.Round2b` | WPD_MTP_data/verity/MyMd5.cpp:250-253 | these four lines are steps 4 to 7 of the table-driven round 2 |
| `Md5Rounds.Round2c` | WPD_MTP_data/verity/MyMd5.cpp:254-257 | these four lines are steps 8 to 11 of the table-driven round 2 |
| `Md5Rounds.Round2d` | WPD_MTP_data/verity/MyMd5.cpp:258-261 | these four lines are steps 12 to 15 of the table-driven round 2 |
| `Md5Rounds.RunRound2` | WPD_MTP_data/verity/MyMd5.cpp:246-261 | the sixteen unrolled lines equal round 2 of the table-driven loop |
| `Md5Rounds.Round3a` | WPD_MTP_data/verity/MyMd5.cpp:264-267 | these four lines are steps 0 to 3 of the table-driven round 3 |
| `Md5Rounds.Round3b` | WPD_MTP_data/verity/MyMd5.cpp:268-271 | these four lines are steps 4 to 7 of the table-driven round 3 |
| `Md5Rounds.Round3c` | WPD_MTP_data/verity/MyMd5.cpp:272-275 | these four lines are steps 8 to 11 of the table-driven round 3 |
| `Md5Rounds.Round3d` | WPD_MTP_data/verity/MyMd5.cpp:276-279 | these four lines are steps 12 to 15 of the table-driven round 3 |
| `Md5Rounds.RunRound3` | WPD_MTP_data/verity/MyMd5.cpp:264-279 | the sixteen unrolled lines equal round 3 of the table-driven loop |
| `Md5Rounds.Round4a` | WPD_MTP_data/verity/MyMd5.cpp:282-285 | these four lines are steps 0 to 3 of the table-driven round 4 |
| `Md5Rounds.Round4b` | WPD_MTP_data/verity/MyMd5.cpp:286-289 | these four lines are steps 4 to 7 of the table-driven round 4 |
| `Md5Rounds.Round4c` | WPD_MTP_data/verity/MyMd5.cpp:290-293 | these four lines are steps 8 to 11 of the table-driven round 4 |
| `Md5Rounds.Round4d` | WPD_MTP_data/verity/MyMd5.cpp:294-297 | these four lines are steps 12 to 15 of the table-driven round 4 |
| `Md5Rounds.RunRound4` | WPD_MTP_data/verity/MyMd5.cpp:282-297 | the sixteen unrolled lines equal round 4 of the table-driven loop |
| `Md5Rounds.RunRounds` | WPD_MTP_data/verity/MyMd5.cpp:227-297 | all unrolled lines equal the 64 steps of the table-driven loop |
| `Md5Meaning.BitsOfF` | WPD_MTP_data/verity/MyMd5.cpp:28 | F is y where x is one, and z elsewhere |
| `Md5Meaning.BitsOfG` | WPD_MTP_data/verity/MyMd5.cpp:29 | G is x where z is one, and y elsewhere |
| `Md5Meaning.BitsOfH` | WPD_MTP_data/verity/MyMd5.cpp:30 | H is one where exactly one or all three of its arguments are |
| `Md5Meaning.BitsOfI` | WPD_MTP_data/verity/MyMd5.cpp:31 | I is y where x is zero and z one, and its complement elsewhere |
| `Md5Meaning.RotateValue` | WPD_MTP_data/verity/MyMd5.cpp:35 | rotating left by n doubles the number n times, the top bit coming back in below |
| `Md5Meaning.PlusValue` | WPD_MTP_data/verity/MyMd5.cpp:299-302 | each register becomes the sum of its old and its new number modulo 2^32 |
| `Md5Meaning.InitialBytes` | WPD_MTP_data/verity/MyMd5.cpp:111-114 | the initial registers are the bytes 01 23 45 67 89 ab cd ef fe dc ba 98 76 54 32 10 |
| `Md5Meaning.EncodeStateValues` | WPD_MTP_data/verity/MyMd5.cpp:212-213 | a digest is the numbers in A, B, C and D, each low byte first |
| `Md5Vectors.DigestOfEmpty` | WPD_MTP_data/verity/MyMd5.cpp:221-303 | the digest of the empty message is the one printed in RFC 1321, section A.5 |
| `Md5Vectors.DigestOfDigits` | WPD_MTP_data/verity/MyMd5.cpp:150-303 | the digest of "1234567890" eight times, two blocks, is the one printed in RFC 1321, section A.5 |
| `Md5Inverse.EachWordReadOnce` | WPD_MTP_data/verity/MyMd5.cpp:227-297 | in every round each of the sixteen words is read at exactly one step |
| `Md5Inverse.StepsAreBijective` | WPD_MTP_data/verity/MyMd5.cpp:227-297 | for every block the 64 steps reach every register state from exactly one other |
| `Md5Inverse.UnstepsSteps` | WPD_MTP_data/verity/MyMd5.cpp:227-297 | the steps run backwards, with right rotations and subtractions, undo the steps |
| `Md5Inverse.StepsUnsteps` | WPD_MTP_data/verity/MyMd5.cpp:227-297 | and the steps undo the steps run backwards |
| `Md5Inverse.UnturnTurn` | WPD_MTP_data/verity/MyMd5.cpp:40-59 | one macro is undone by its inverse |
| `Md5Inverse.TurnUnturn` | WPD_MTP_data/verity/MyMd5.cpp:40-59 | and undoes it |
| `Md5Inverse.RotateRightUndoes` | WPD_MTP_data/verity/MyMd5.cpp:35 | rotating right undoes rotating left, for every distance from 1 to 31 |
| `Md5Codec.Encode` | WPD_MTP_data/verity/MyMd5.cpp:308-316 | the first length bytes of the output are the words, low byte first; the rest is unchanged |
| `Md5Codec.Decode` | WPD_MTP_data/verity/MyMd5.cpp:321-327 | the first length / 4 words of the output are the bytes, low byte first; the rest is unchanged |
| `Md5Codec.DecodeEncode` | WPD_MTP_data/verity/MyMd5.cpp:308-327 | decoding an encoding gives the words back, for any number of words |
| `Md5Codec.EncodeDecode` | WPD_MTP_data/verity/MyMd5.cpp:308-327 | encoding a decoding gives the bytes back, for any multiple of four |
| `Md5Codec.EncodeStateInjective` | WPD_MTP_data/verity/MyMd5.cpp:213 | different registers give different digests |
| `Md5Codec.BytesToHexString` | WPD_MTP_data/verity/MyMd5.cpp:330-342 | the text is two lower-case digits a byte, high half first |
| `Md5Codec.HexAlphabet` | WPD_MTP_data/verity/MyMd5.cpp:63-68 | the sixteen digits are 0 to 9 and a to f, in lower case |
| `Md5Codec.ParseOfHex` | WPD_MTP_data/verity/MyMd5.cpp:330-342 | reading the text gives the bytes back |
| `Md5Codec.HexInjective` | WPD_MTP_data/verity/MyMd5.cpp:330-347 | different byte strings, and so different digests, have different texts |
| `Words.WordBitsValue` | WPD_MTP_data/verity/MyMd5.cpp:202 | the machine word of a counter value is that number |
| `Words.JoinValue` | WPD_MTP_data/verity/MyMd5.cpp:321-327 | a decoded word is the number its four bytes stand for, low byte first |
| `ByteOrder.UnsignedLoads` | WPD_MTP_data/mysql/include/byte_order_generic.h:38-69 | the unsigned loads of 2 to 8 bytes are one little-endian value function |
| `ByteOrder.SignedLoads` | WPD_MTP_data/mysql/include/byte_order_generic.h:20-36 | the signed loads are two's complement readings of that value, at 2, 3, 4 and 8 bytes |
| `ByteOrder.SignedRange` | WPD_MTP_data/mysql/include/my_byteorder.h:31-43 | such a reading is in the signed range of its width and differs from the value by nothing or 2^(8k) |
| `ByteOrder.Load3` | WPD_MTP_data/mysql/include/my_byteorder.h:31-52 | the three-byte loads: the value of three bytes, and its 24-bit two's complement reading |
| `ByteOrder.Load5` | WPD_MTP_data/mysql/include/my_byteorder.h:54-63 | the five-byte load is the value of five bytes |
| `ByteOrder.Load6` | WPD_MTP_data/mysql/include/my_byteorder.h:65-75 | the six-byte load is the value of six bytes |
| `ByteOrder.Load8` | WPD_MTP_data/mysql/include/byte_order_generic.h:56-74 | the eight-byte loads, made of two 32-bit halves, are the value of eight bytes |
| `ByteOrder.LoadOfStore` | WPD_MTP_data/mysql/include/my_byteorder.h:31-101 | for every width, loading what was stored gives the number modulo 2^(8k) |
| `ByteOrder.StoreOfLoad` | WPD_MTP_data/mysql/include/my_byteorder.h:31-101 | for every width, storing what was loaded gives the bytes back |
| `ByteOrder.StoreThenLoad` | WPD_MTP_data/mysql/include/my_byteorder.h:45-101 | each load after the store of its width, at any place in memory, gives the number modulo 2^(8k) |
| `ByteOrder.Int2Store` | WPD_MTP_data/mysql/include/byte_order_generic.h:76-81 | two bytes of memory become the low bytes of the number, all others stay |
| `ByteOrder.Int3Store` | WPD_MTP_data/mysql/include/my_byteorder.h:77-82 | the same for three bytes |
| `ByteOrder.Int4Store` | WPD_MTP_data/mysql/include/byte_order_generic.h:83-89 | the same for four bytes |
| `ByteOrder.Int5Store` | WPD_MTP_data/mysql/include/my_byteorder.h:84-91 | the same for five bytes |
| `ByteOrder.Int6Store` | WPD_MTP_data/mysql/include/my_byteorder.h:93-101 | the same for six bytes |
| `ByteOrder.Int8Store` | WPD_MTP_data/mysql/include/byte_order_generic.h:91-97 | the same for eight bytes, stored as two halves of four |
| `ByteOrder.TwoHalves` | WPD_MTP_data/mysql/include/byte_order_generic.h:91-97 | the bytes of the two 32-bit halves are the bytes of the whole |
| `ByteOrder.PortableLoadsAreDirect` | WPD_MTP_data/mysql/include/byte_order_generic_x86.h:22-38 | on a little-endian host the portable loads give what the loads through a cast pointer give, signed and unsigned |
| `ByteOrder.PortableStoresAreDirect` | WPD_MTP_data/mysql/include/byte_order_generic_x86.h:40-56 | memory after a portable store is exactly memory after a store through a cast pointer |
| `TrailingSpace.SkipTrailingSpace` | WPD_MTP_data/mysql/include/m_string.h:314-326 | the eight-byte form finds what the plain loop finds, for every length and content |
| `TrailingSpace.SkipTrailingSpaceByWords` | WPD_MTP_data/mysql/include/m_string.h:277-307 | the alignment-split form finds what the plain loop finds, for every address, length, content, byte order and both sizes of int |
| `TrailingSpace.SkipZones` | WPD_MTP_data/mysql/include/m_string.h:290-303 | the part for long strings skips nothing but spaces and stays inside the string; the assertion of the source holds |
| `TrailingSpace.SkipWords` | WPD_MTP_data/mysql/include/m_string.h:301-302 | every word read is aligned and inside the string, only spaces are skipped, and it stops at the first word boundary or at a word that is not all spaces |
| `TrailingSpace.SkipBytes` | WPD_MTP_data/mysql/include/m_string.h:304-306 | the plain loop |
| `TrailingSpace.EndsTextIff` | WPD_MTP_data/mysql/include/m_string.h:304-306 | the plain loop finds the one end of the longest prefix that does not end in a space |
| `TrailingSpace.EightSpaces` | WPD_MTP_data/mysql/include/m_string.h:319 | eight bytes load as 0x2020202020202020 exactly if each one is 0x20 |
| `TrailingSpace.WordOfSpaces` | WPD_MTP_data/mysql/include/m_string.h:280-302 | a 4- or 8-byte word equals the mask exactly if each byte is 0x20, in either byte order |
| `TrailingSpace.SameText` | WPD_MTP_data/mysql/include/m_string.h:314-326 | two strings have the same text exactly if one is the other padded with spaces |
| `RefCount.Callback.constructor` | WPD_MTP_data/DeviceEvents.cpp:15-17 | a new object has a count of zero and no references |
| `RefCount.Callback.AddRef` | WPD_MTP_data/DeviceEvents.cpp:36-39 | one reference more; the count stays right modulo 2^32 |
| `RefCount.Callback.Release` | WPD_MTP_data/DeviceEvents.cpp:41-49 | one reference less and the count right again; the object is deleted exactly if the references left are a multiple of 2^32 |
| `RefCount.AddRefAlone` | WPD_MTP_data/DeviceEvents.cpp:36-39 | the atomic step of one thread does to the counted world what the method of the class does to the object |
| `RefCount.ReleaseAlone` | WPD_MTP_data/DeviceEvents.cpp:41-49 | a decrement and its test with nothing in between do to the counted world what Release of the class does to the object, deletion included |
| `RefCount.StepChange` | WPD_MTP_data/DeviceEvents.cpp:36-49 | how each atomic step of a thread changes the references held and the threads about to delete |
| `RefCount.CountIsOutstanding` | WPD_MTP_data/DeviceEvents.cpp:36-49 | at every moment of every run the count is the number of outstanding references as a 32-bit number |
| `RefCount.SeesZeroIff` | WPD_MTP_data/DeviceEvents.cpp:43-44 | a decrement sees zero exactly if the references left are a multiple of 2^32 |
| `RefCount.StepsDoNotDisable` | WPD_MTP_data/DeviceEvents.cpp:36-49 | no step of a thread stops a step of another: releases interleave freely |
| `RefCountReach.Distribute` | WPD_MTP_data/DeviceEvents.cpp:36-39 | every distribution of references over any number of threads is reached by a run of a new object |
| `RefCountReach.EverySituation` | WPD_MTP_data/DeviceEvents.cpp:41-49 | and with it any set of threads standing between decrement and test, with nothing deleted yet |
| `RefCount.DeletedExactlyOnce` | WPD_MTP_data/DeviceEvents.cpp:41-49 | any threads, any interleaving: while a reference is held the object is alive and nobody is about to delete it, never two threads delete it, and it has been deleted once all references are released and tested |
| `RefCount.NoUseAfterDelete` | WPD_MTP_data/DeviceEvents.cpp:36-49 | no step of such a run touches the object after its deletion |
| `RefCount.SafeUpTo` | WPD_MTP_data/DeviceEvents.cpp:36-65 | with at most `bound` references at a time no run deletes a referenced object, if and only if `bound` is at most 2^32 |
| `RefCount.OneTooMany` | WPD_MTP_data/DeviceEvents.cpp:41-49 | the run that breaks: one release out of 2^32 + 1 references |

## Left out

- Registers and counter are fields of their own (`state`, `low`, `high`) instead of the arrays `_state[4]` and `_count[2]`; that `encode` could be given overlapping arrays is not captured.
- The three constructors with arguments and the `update` overloads for `string` and `void*`: each is `reset` and `update`, or `update` alone, on the same bytes.
- That the first and the later digests in `Md5Runs.DigestsOfOnes` have different values: `Md5Runs` says which message a digest is of, and only the two digests of `Md5Vectors` are computed. Nothing is claimed about collisions or cryptographic strength.
- Deriving the 64 additive constants from the sine function: they are a table, in the specification and in the unrolled lines, and the two digests of `Md5Vectors` depend on all of them.
- Stream errors in the middle of a file, and closing it.
- What `update` does beyond a length of 2^32 minus the pending bytes, except that its loop does not end.
- `ByteOrder` leaves out the floating-point loads and stores, and the overloads for `char*`, which only cast.
- `TrailingSpace.SkipTrailingSpaceByWords`: addresses are 64-bit numbers and the string does not wrap around the address space; pointer provenance is not modelled.
- `RefCount` assumes that a thread calls `AddRef` only while it holds a reference, except for the first one, and releases only what it holds; `QueryInterface` and `OnEvent` are only represented by the fact that holders may call them.
- The rest of `DeviceEvents.cpp`, `DeviceCapabilities.cpp`, the dialogs and the console output: device calls and printing without an algorithm.
- `sqlite3.h`, `mysql.h`, `keycache.h`, `decimal.h`, `my_alloc.h`, `my_list.h`, `my_xml.h`, `m_ctype.h`, `my_getopt.h`, `MyAec.h`: declarations of code that is not part of this model.
- The buffered-read macros of `my_sys.h` and the `timespec` helpers of `my_global.h`: they would only add easy members.
