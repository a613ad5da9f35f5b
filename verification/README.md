# Verified model of the streams, URL and platform core

A Dafny 4.11 model of the parts of this repository whose correctness hangs on an invariant that
spans many functions, with proofs of those invariants and of what follows from them.
`dafny verify dfyconfig.toml` checks everything.

**Writable streams** (`lib/whatwg/streams/writable.js`, section 5 of the WHATWG Streams Standard).
`WritableModel` gives the stream, its controller and its writer as one value with an operation for
each function of the source, and the steps of the system: the public calls, and the settlement, with
either outcome, of each promise the sink returned. `WritableInvariant` and `WritableSafety` are the
one inductive invariant and its preservation, `WritableCalls` what each call does, case by case,
`WritableRuns` what holds in every run, `WritableOutcomes` what each promise comes to, and
`WritableStream.dfy` the classes that update the slots in place. Chunks queue in the container of
`SizedQueue` (`helpers.js`).

**Readable byte streams** (`lib/whatwg/streams/readable.js`, section 4 of the same standard).
`ByteModel` is the BYOB path on byte sequences, `ByteSafety` its invariant and the conservation of
bytes, `ByteCalls` what each call does, `ByteShares` which read is given which bytes, and
`ByteStream.dfy` the classes with buffers, offsets, queue entries and pull-into descriptors that are
filled in place.

**Readable streams with a default controller** (same file): `ReadableModel`, `ReadableSafety`,
`ReadableCalls` and the class of `ReadableStream.dfy`: the queue and the pull protocol.

**IPv6 and IPv4 hosts** (`lib/whatwg/url/parser.js`, `lib/whatwg/url.js`; sections 3.5 and 3.6 of
the URL Standard, RFC 4291, RFC 5952). `IPv6Grammar` says what texts an address has; the parser is
proved to accept exactly those. `IPv6` and `IPv6Print` are the loops, `IPv4` the dotted forms.

**Query parameters** (`lib/whatwg/url.js`; sections 5.1 and 5.2 of the URL Standard, RFC 3629,
ECMA-262 section 19.2.6): `Unicode`, `Splitting`, `UrlEncoded`, and `UrlEncodedForms` for what the
encoder writes and which texts are read. Strings are sequences of UTF-16 code units.

**The URL parser** (`lib/whatwg/url/parser.js`, section 4.4 of the URL Standard): `UrlRecord` the
record and its tests, `UrlParts` what its small operations come to, `UrlParser` what the loop does in
each of its 21 states, `UrlSafety` and `UrlRuns` that it ends and what its records satisfy. `UrlTexts`
says, part by part and not step by step, what each text means against each base, and proves that the
loop makes just that of it, over all texts; `UrlOverrides` does the same for each state override, and
`UrlBasicParse` has the loop. `UrlReading`, `UrlAuthority` and `UrlSchemes` are the stages of these
proofs. `UrlDeviations` says where the code departs from the standard, and exactly when; the model
follows the code.

**The worker platform** (`src/zero_platform.cc`): `TaskQueue.dfy` the queue, `Platform` the worker
threads, the drain loop and the shutdown as an interleaving transition system over any number of
workers, `PlatformSteps` what each step does, and `PlatformSafety` its properties.

In the stream models an assert of the source is a check that sets a flag when it is false; the
theorems say when the flag can be set. Histories (calls to the sink, settlements, accepted chunks)
are part of the values, so that statements about runs can refer to them.

## What the proofs found

- An assert of `lib/whatwg/streams/writable.js:997` can fail: the sink's abort settles while the
  stream is held by a writer that was acquired after the stream had errored.
  `WritableRuns.AssertsFailExactly` says that this is the only way, `WritableRuns.AnAssertCanFail`
  gives a run.
- `respondWithNewView` (`lib/whatwg/streams/readable.js:1852-1867`) compares the length of the view
  with the whole length of the descriptor and replaces the buffer before the length is checked
  against what is left. When the head descriptor already has bytes, the call throws and those bytes
  are gone. `ByteSafety.NewViewKeeps` gives the exact condition, `ByteSafety.BytesCanBeLost` a run.
- `appendOrEscape` (`lib/whatwg/url/parser.js:141-148`) looks the escape up by the character and not
  by its number, so that an escaped character becomes U+0000. `UrlDeviations.EscapingHelpsNothing`:
  an escaped text is free of what has to be escaped only if the text was.
- `percentEncode` (line 391) gets a character where a number is meant.
  `UrlDeviations.OpaqueHostIsPrintable` says exactly which opaque hosts end up printable,
  `UrlDeviations.ControlIsKept` gives one that does not.
- `STATE_PATH_OR_AUTHORITY` (lines 638-644) drops a character unless it is a slash:
  `UrlDeviations.SlashDecides`, and `OneSlashDropsNext` for whole texts, such as that of
  `OneSlashExample`.
- In `STATE_RELATIVE` reached from `STATE_NO_SCHEME` a backslash is not yet known to be a slash:
  `UrlDeviations.BackslashDecides`, and `BackslashGoesOn` for whole texts, such as that of
  `BackslashExample`. `UrlDeviations.DepartsExactly` says for which texts a parse meets either.
- A parse under a state override starts in a blank record (lines 469-488), whose scheme is not
  special. So what a setter takes from it is not what section 6.1 of the URL Standard says:
  `UrlOverrides.SchemeIsNeverSpecial` and `SpecialSchemeIsEmpty` for `protocol`, `NoAtIsNoName` for
  `username` and `password`, `HostIsNoNumber` for `host` and `hostname`, `PortIsTaken` for `port`.
- The round trip of query parameters holds for exactly the lists without lone surrogates.

## Model

| member | source | states |
|---|---|---|
| `SizedQueue.DequeueKeepsTotal` | lib/whatwg/streams/helpers.js:177-188 | over exact numbers the clamp at zero never acts: after a dequeue the running total is still the sum of the sizes left |
| `SizedQueue.EnqueueKeepsTotal` | lib/whatwg/streams/helpers.js:190-200 | adding an entry keeps the running total equal to the sum of the sizes |
| `SizedQueue.Container.DequeueValue` | lib/whatwg/streams/helpers.js:177-188 | first in, first out: returns the value at the front and keeps the rest; a total that was the sum stays the sum and drops by exactly the size returned |
| `SizedQueue.Container.EnqueueValueWithSize` | lib/whatwg/streams/helpers.js:190-200 | accepts exactly the finite non-negative sizes; a refused one changes nothing |
| `SizedQueue.Container.ResetQueue` | lib/whatwg/streams/helpers.js:210-215 | leaves an empty queue whose total agrees with it |
| `WritableSafety.StartErroringKeeps` | lib/whatwg/streams/writable.js:242-259 | starting an error from the writable state, with an operation in flight or not, keeps the whole invariant and falsifies no assert |
| `WritableSafety.FinishErroringKeeps` | lib/whatwg/streams/writable.js:261-298 | finishing an error keeps the whole invariant and falsifies no assert, whether an abort is waiting or not and whichever way it came |
| `WritableSafety.AbortKeeps` | lib/whatwg/streams/writable.js:177-212 | abort keeps the invariant in every state, with a write or a close in flight or not, and gives out at most one outstanding abort promise |
| `WritableSafety.WriteKeeps` | lib/whatwg/streams/writable.js:679-710 | write keeps the invariant whatever its size function does, and in every state |
| `WritableSafety.CloseKeeps` | lib/whatwg/streams/writable.js:574-606 | close keeps the invariant: at most one close is requested, and its marker is the last entry of the queue |
| `WritableSafety.AdvanceKeeps` | lib/whatwg/streams/writable.js:854-884 | advancing the queue keeps the whole invariant and falsifies no assert, whatever is at its front |
| `WritableSafety.WriteSettledKeeps` | lib/whatwg/streams/writable.js:912-939 | after the sink settles a write, the invariant holds again whether it fulfils or rejects, erroring or not |
| `WritableSafety.CloseSucceedsKeeps` | lib/whatwg/streams/writable.js:316-343 | the invariant holds again after the sink fulfils a close, whether or not an error came meanwhile and an abort waits, and no assert fails |
| `WritableSafety.CloseFailsKeeps` | lib/whatwg/streams/writable.js:345-359 | the invariant holds again after the sink rejects a close, whether or not an abort waits, and no assert fails |
| `WritableSafety.AbortSettledKeeps` | lib/whatwg/streams/writable.js:278-297 | the invariant holds again after the sink's abort settles; an assert is false then exactly when the stream is held by a writer acquired after it had errored |
| `WritableSafety.StartSettledKeeps` | lib/whatwg/streams/writable.js:776-796 | the invariant holds again after start settles, either way, and no assert fails |
| `WritableRuns.StepKeeps` | lib/whatwg/streams/writable.js:177-421 | every public call and every settlement of the sink, in any order, keeps the one invariant of the stream; and a step falsifies an assert of the source if and only if it is the sink's abort settling under a late writer |
| `WritableRuns.AssertsFailExactly` | lib/whatwg/streams/writable.js:996-1000 | in a run of calls and sink settlements an assert of the source fails if and only if, at some step, the sink's abort settles under a writer acquired after the stream had errored |
| `WritableRuns.AnAssertCanFail` | lib/whatwg/streams/writable.js:390-403 | a run of six events in which that assert fails: abort, start settles, release, a new writer, and the sink's abort settles |
| `WritableRuns.SinkMeans` | lib/whatwg/streams/writable.js:854-939 | what the sink may see: start first, one call at a time, no call but abort after a failure, and a close or an abort only as the last call |
| `WritableRuns.SinkSeesDiscipline` | lib/whatwg/streams/writable.js:177-358 | in every run the sink sees only that, also when abort races a write or a close in flight |
| `WritableRuns.WritesReachTheSinkInOrder` | lib/whatwg/streams/writable.js:833-852 | the chunks handed to the sink are a prefix of the chunks accepted, in the order of the write calls |
| `WritableRuns.PromisesSettleOnce` | lib/whatwg/streams/writable.js:214-403 | no write, close or abort promise is settled twice |
| `WritableRuns.WritesAreConserved` | lib/whatwg/streams/writable.js:679-710 | at every moment each accepted write is fulfilled, rejected, queued or in flight; as many are fulfilled as the sink has completed |
| `WritableRuns.RestMeansSettled` | lib/whatwg/streams/writable.js:261-358 | when the sink owes no answer, no promise given out is left unsettled |
| `WritableRuns.BackpressureFollowsTheQueue` | lib/whatwg/streams/writable.js:405-461 | while writable with no close queued or in flight: backpressure holds exactly when the high-water mark less the sum of the sizes is not positive, and the attached writer's ready promise is pending exactly then, across release and re-acquire |
| `WritableRuns.AnswerCountsDown` | lib/whatwg/streams/writable.js:854-939 | each settlement of the sink brings the stream strictly closer to rest, unless somebody calls in |
| `WritableRuns.TheStreamComesToRest` | lib/whatwg/streams/writable.js:261-358 | after any run, once the callers stop, a bounded number of sink settlements, each of either outcome, leaves no promise unsettled |
| `WritableOutcomes.FinishErroringSettles` | lib/whatwg/streams/writable.js:261-298 | finishing an error empties the queue and rejects its writes with the stored error, in order; an abort that started the error is called at the sink, once, and it and a waiting close stay unsettled; otherwise both are rejected with the stored error |
| `WritableOutcomes.StartErroringTurns` | lib/whatwg/streams/writable.js:242-259 | starting an error stores its reason; with an operation in flight or before start has settled nothing settles, nothing is called and an abort goes on waiting |
| `WritableOutcomes.AdvanceHandsOver` | lib/whatwg/streams/writable.js:854-910 | the queue goes on only when the sink is idle: it hands over the first chunk, which is the one accepted under the request that goes in flight, or the close |
| `WritableOutcomes.FailureErrors` | lib/whatwg/streams/writable.js:776-796 | a start, a write or a close that the sink rejects errors the stream at once, with that error unless another came before |
| `WritableOutcomes.CloseAnswerSettles` | lib/whatwg/streams/writable.js:316-358 | the sink's answer to a close, fulfilled or rejected, is what the close and an abort that waited for it come to; a success closes the stream whatever error came meanwhile |
| `WritableOutcomes.AbortAnswerSettles` | lib/whatwg/streams/writable.js:278-297 | the sink's answer to an abort is what the abort comes to, and a waiting close is rejected with the stored error |
| `WritableOutcomes.WritesSettleAsAnswered` | lib/whatwg/streams/writable.js:261-330 | in every run the i-th accepted write, once settled, is fulfilled if the sink completed it, rejected with the sink's error if it failed there, and rejected with the stored error if it was dropped |
| `WritableOutcomes.CloseSettlesAsAnswered` | lib/whatwg/streams/writable.js:261-358 | in every run a settled close is fulfilled exactly when the sink's close succeeded, and else rejected with the sink's error, or with the stored error if the sink was not asked |
| `WritableOutcomes.AbortSettlesAsAnswered` | lib/whatwg/streams/writable.js:177-358 | in every run a settled abort is fulfilled exactly when the sink's abort succeeded or the close in flight did, and else rejected with the error of what the sink was asked for, or with the stored error |
| `WritableStreams.WritableStream.UpdateBackpressure` | lib/whatwg/streams/writable.js:405-421 | in place: resets or resolves the writer's ready promise exactly when the signal changes, and touches nothing else |
| `WritableStreams.WritableStream.StartErroring` | lib/whatwg/streams/writable.js:242-259 | in place, the value's StartErroring, with the writer still linked to the stream |
| `WritableStreams.WritableStream.FinishErroring` | lib/whatwg/streams/writable.js:261-298 | in place, the value's FinishErroring: queue, requests, promises and sink call together |
| `WritableStreams.WritableStream.RejectWriteRequests` | lib/whatwg/streams/writable.js:268-272 | the loop rejects each pending write with the stored error, in order, and leaves none |
| `WritableStreams.WritableStream.AdvanceQueueIfNeeded` | lib/whatwg/streams/writable.js:854-884 | in place, the value's AdvanceQueueIfNeeded, through ProcessWrite and ProcessClose |
| `WritableStreams.WritableStream.StreamAbort` | lib/whatwg/streams/writable.js:177-212 | in place, one step of the model, and the invariant again |
| `WritableStreams.WritableStream.Write` | lib/whatwg/streams/writable.js:679-710 | in place, one step of the model, which WritableCalls gives case by case, and the invariant again; the reply tells a rejected promise from a pending one |
| `WritableStreams.WritableStream.Close` | lib/whatwg/streams/writable.js:574-606 | in place, one step of the model, and the invariant again |
| `WritableStreams.WritableStream.Release` | lib/whatwg/streams/writable.js:660-677 | the writer loses its stream and both its promises end rejected; the stream keeps its invariant |
| `WritableStreams.WritableStream.GetWriter` | lib/whatwg/streams/writable.js:423-461 | a new writer gets the ready and closed promises that the state of the stream calls for; a locked stream refuses |
| `WritableStreams.WritableStream.ControllerError` | lib/whatwg/streams/writable.js:717-731 | in place, one step of the model, and the invariant again |
| `WritableStreams.WritableStream.React` | lib/whatwg/streams/writable.js:776-939 | the continuation of a settled sink call, in place, is one step of the model |
| `WritableStreams.DefaultWriter.ReadyReset` | lib/whatwg/streams/writable.js:1059-1068 | gives a fresh pending promise and says whether the slots were empty, as the source asserts |
| `WritableStreams.DefaultWriter.ClosedReject` | lib/whatwg/streams/writable.js:996-1005 | settles the closed promise only if it can be settled, and says so |
| `WritableStreams.DefaultWriter.Write` | lib/whatwg/streams/writable.js:537-550 | a writer without a stream refuses; otherwise one step of its stream |
| `WritableStreams.DefaultWriter.ReleaseLock` | lib/whatwg/streams/writable.js:521-535 | ends with no stream; the stream it had is one release step on |
| `Align.WholeStep` | lib/whatwg/streams/readable.js:1499-1511 | rounding a larger fill down to whole elements goes beyond the fill itself, so the count left to copy is positive |
| `Align.DownIsWhole` | lib/whatwg/streams/readable.js:1499-1507 | rounding down gives the largest whole number of elements, and is the identity on one |
| `ByteSafety.TakeIsAligned` | lib/whatwg/streams/readable.js:1496-1543 | how much one fill takes: if ready, the most whole elements that are there and fit; if not, all there is, which leaves less than one element |
| `ByteSafety.ProcessKeeps` | lib/whatwg/streams/readable.js:1572-1591 | handing queued bytes to pending reads moves every byte from the queue to a delivered view or to the head descriptor, keeping their order, until the queue or the reads run out |
| `ByteSafety.ReadKeeps` | lib/whatwg/streams/readable.js:1593-1653 | a read conserves bytes and the invariant, also when it drains a closing stream |
| `ByteSafety.EnqueueKeeps` | lib/whatwg/streams/readable.js:1782-1812 | an enqueue adds exactly its bytes at the end of the flow |
| `ByteSafety.RespondKeeps` | lib/whatwg/streams/readable.js:1669-1695 | a response adds exactly the bytes written at the end of the flow, through delivery, a partial fill, or a remainder put back in the queue |
| `ByteSafety.CommitAllKeeps` | lib/whatwg/streams/readable.js:1655-1667 | in the closed state every pending read settles, in order, as done and with its own view and no byte; none is left, and the invariant and the flow of bytes stay |
| `ByteSafety.ReadsEndAsTheStream` | lib/whatwg/streams/readable.js:1461-1489 | in every run, while the stream is readable every settled read has bytes; those that got none come last, all done if it has closed and all failed if it has errored, and an errored stream leaves no read waiting |
| `ByteSafety.ClosedRespondSettlesAll` | lib/whatwg/streams/readable.js:1655-1667 | in every run that has closed, a respond(0) by the source leaves no read: each pending one is done |
| `ByteSafety.NewViewKeeps` | lib/whatwg/streams/readable.js:1852-1867 | respondWithNewView conserves bytes if and only if the new buffer holds, where the head descriptor has bytes, the same bytes |
| `ByteSafety.StepKeeps` | lib/whatwg/streams/readable.js:1461-1825 | every step keeps the invariant; and a step that goes on conserves bytes if and only if it is no overwriting response |
| `ByteSafety.BytesAreConserved` | lib/whatwg/streams/readable.js:1461-1812 | in every run without an overwriting response, until an error or a cancel: the bytes of the fulfilled reads in order, then those of the head descriptor, then those queued, are all the bytes enqueued or responded with, in order |
| `ByteSafety.ConservedExactly` | lib/whatwg/streams/readable.js:1461-1867 | in every run: the bytes are conserved at each moment up to an error or a cancel if and only if no response overwrites bytes |
| `ByteSafety.LossDeliversNothing` | lib/whatwg/streams/readable.js:1814-1825 | an error or a cancel, and every step after it, delivers no byte |
| `ByteSafety.DeliveredIsAPrefix` | lib/whatwg/streams/readable.js:1461-1825 | at every moment, errors and cancels included, the bytes delivered are a prefix of the bytes received |
| `ByteSafety.BytesCanBeLost` | lib/whatwg/streams/readable.js:1852-1867 | a run that loses bytes: the call throws, and the pending read is left with two bytes that were never enqueued |
| `ByteSafety.StreamStaysCoherent` | lib/whatwg/streams/readable.js:1332-1341 | no assert fails; descriptors match requests one to one; a pending read means an empty queue while readable; only the head has bytes, and less than an element; a close waits only for queued bytes; after the close no descriptor has bytes |
| `ByteSafety.ReadsSettleWhole` | lib/whatwg/streams/readable.js:1461-1489 | reads settle in the order made, each once, with whole elements that fit the view, and with none exactly when done |
| `ByteStreams.QueueBytesShorten` | lib/whatwg/streams/readable.js:1516-1530 | taking bytes from the head entry, whole or in part, takes just those bytes from the front of the queue |
| `ByteStreams.ReadableByteStream.CopyFromHead` | lib/whatwg/streams/readable.js:1515-1536 | one round of the copy loop: a prefix of the queued bytes ends up in the descriptor's buffer behind what it had, and leaves the queue; the running total stays the number of bytes queued; an empty entry is dropped |
| `ByteStreams.ReadableByteStream.FillPullIntoDescriptorFromQueue` | lib/whatwg/streams/readable.js:1496-1543 | the copy loop ends even with empty entries, copies exactly the prefix that Take says, keeps the total, and if not ready has emptied the queue and left less than one element |
| `ByteStreams.ReadableByteStream.ProcessPullIntoDescriptorsUsingQueue` | lib/whatwg/streams/readable.js:1572-1591 | the loop over the pending descriptors, in place, ends and does what the model's recursion says |
| `ByteStreams.ReadableByteStream.CommitPullIntoDescriptor` | lib/whatwg/streams/readable.js:1461-1477 | in place, the first pending read settles with the filled view, done exactly in the closed state |
| `ByteStreams.ReadableByteStream.PullInto` | lib/whatwg/streams/readable.js:1593-1653 | in place, the model's PullInto, with a fresh descriptor that shares nothing with the pending ones |
| `ByteStreams.ReadableByteStream.ReturnRemainder` | lib/whatwg/streams/readable.js:1683-1692 | the bytes past the last whole element go back to the end of the queue and leave the descriptor |
| `ByteStreams.ReadableByteStream.RespondInReadableState` | lib/whatwg/streams/readable.js:1669-1695 | throws exactly when more is claimed than the region holds; otherwise counts just the bytes that the region holds |
| `ByteStreams.ReadableByteStream.RespondInClosedState` | lib/whatwg/streams/readable.js:1655-1667 | in place, the loop over the pending reads of a closed stream is the model's, which ByteSafety.CommitAllKeeps says settles each of them as done |
| `ByteStreams.ReadableByteStream.ReplaceBuffer` | lib/whatwg/streams/readable.js:1864-1866 | swapping the head's buffer swaps the bytes it had, and leaves the other descriptors alone |
| `ByteStreams.ReadableByteStream.Read` | lib/whatwg/streams/readable.js:759-781 | read(view) on buffers, offsets and descriptors is one step of the byte model, so every property of its runs holds of the object; the invariant holds again |
| `ByteStreams.ReadableByteStream.Enqueue` | lib/whatwg/streams/readable.js:1299-1322 | enqueue on buffers, offsets and descriptors is one step of the byte model, so every property of its runs holds of the object; the invariant holds again |
| `ByteStreams.ReadableByteStream.Respond` | lib/whatwg/streams/readable.js:1213-1227 | respond, after the source wrote through the view on buffers, offsets and descriptors is one step of the byte model, so every property of its runs holds of the object; the invariant holds again |
| `ByteStreams.ReadableByteStream.RespondWithNewView` | lib/whatwg/streams/readable.js:1229-1247 | respondWithNewView on buffers, offsets and descriptors is one step of the byte model, so every property of its runs holds of the object; the invariant holds again |
| `ByteStreams.ReadableByteStream.Close` | lib/whatwg/streams/readable.js:1282-1297 | close on buffers, offsets and descriptors is one step of the byte model, so every property of its runs holds of the object; the invariant holds again |
| `ByteStreams.ReadableByteStream.Error` | lib/whatwg/streams/readable.js:1324-1330 | error on buffers, offsets and descriptors is one step of the byte model, so every property of its runs holds of the object; the invariant holds again |
| `ByteStreams.ReadableByteStream.Cancel` | lib/whatwg/streams/readable.js:529-543 | cancel on buffers, offsets and descriptors is one step of the byte model, so every property of its runs holds of the object; the invariant holds again |
| `ByteStreams.ReadableByteStream.GetByobRequest` | lib/whatwg/streams/readable.js:1255-1272 | byobRequest on buffers, offsets and descriptors is one step of the byte model, so every property of its runs holds of the object; the invariant holds again |
| `ByteStreams.ReadableByteStream.ReleaseLock` | lib/whatwg/streams/readable.js:783-797 | releaseLock on buffers, offsets and descriptors is one step of the byte model, so every property of its runs holds of the object; the invariant holds again |
| `ReadableSafety.DequeueKeeps` | lib/whatwg/streams/readable.js:959-979 | a read that finds a chunk is given the first one in the queue, which leaves it; the stream closes exactly if a close was waiting and this was the last; invariant and conservation stay |
| `ReadableSafety.EnqueueKeeps` | lib/whatwg/streams/readable.js:1068-1095 | the chunk goes to the first waiting read if there is one; else to the end of the queue; else, if its size throws or is not a finite non-negative number, the call throws and the stream is errored; invariant and conservation stay |
| `ReadableSafety.StepKeeps` | lib/whatwg/streams/readable.js:954-1107 | every call and settlement keeps the invariant and, while it is due, conservation |
| `ReadableSafety.ChunksAreConserved` | lib/whatwg/streams/readable.js:545-617 | until an error or a cancel, the chunks of the fulfilled reads in the order of the reads, then those queued, are all the chunks accepted, in order |
| `ReadableSafety.DeliveredIsAPrefix` | lib/whatwg/streams/readable.js:545-617 | whatever happens, the chunks of the fulfilled reads are the first chunks accepted |
| `ReadableSafety.ReadsSettleOnce` | lib/whatwg/streams/readable.js:545-617 | reads settle in the order made, each once; while readable each with a chunk; none is left when the stream has closed or errored, and those without a chunk come last and all end with the end, or all with a failure |
| `ReadableSafety.StreamStaysCoherent` | lib/whatwg/streams/readable.js:994-1107 | no assert fails; a read waits only for an empty queue, a close only for a full one; the total is the sum of the sizes |
| `ReadableSafety.OnePullAtATime` | lib/whatwg/streams/readable.js:994-1027 | at most one pull is outstanding, pulling says so while readable, and pullAgain implies pulling |
| `ReadableSafety.WaitingReadAsks` | lib/whatwg/streams/readable.js:973-977 | a read that has to wait starts a pull, or has another made after the one under way |
| `ReadableSafety.DemandIsRemembered` | lib/whatwg/streams/readable.js:1000-1022 | a demand seen during a pull survives everything before that pull fulfils |
| `ReadableStreams.ReadableStream.CallPullIfNeeded` | lib/whatwg/streams/readable.js:994-1027 | in place, the model's: starts a pull, remembers one, or neither, which ReadableCalls ties to the demand |
| `ReadableStreams.ReadableStream.SettleRequests` | lib/whatwg/streams/readable.js:556-560 | the loop settles every pending read alike, in order, and leaves none |
| `ReadableStreams.ReadableStream.ControllerEnqueue` | lib/whatwg/streams/readable.js:1068-1095 | in place, the model's EnqueueChunk with its three outcomes |
| `ReadableStreams.ReadableStream.Read` | lib/whatwg/streams/readable.js:691-701 | in place, one step of the model, and the invariant again, so every property of its runs holds of the object |
| `ReadableStreams.ReadableStream.Enqueue` | lib/whatwg/streams/readable.js:934-944 | in place, one step of the model, and the invariant again, so every property of its runs holds of the object |
| `ReadableStreams.ReadableStream.Close` | lib/whatwg/streams/readable.js:922-932 | in place, one step of the model, and the invariant again, so every property of its runs holds of the object |
| `ReadableStreams.ReadableStream.Error` | lib/whatwg/streams/readable.js:946-952 | in place, one step of the model, and the invariant again, so every property of its runs holds of the object |
| `ReadableStreams.ReadableStream.Cancel` | lib/whatwg/streams/readable.js:954-957 | in place, one step of the model, and the invariant again, so every property of its runs holds of the object |
| `ReadableStreams.ReadableStream.ReleaseLock` | lib/whatwg/streams/readable.js:703-717 | in place, one step of the model, and the invariant again, so every property of its runs holds of the object |
| `ReadableStreams.ReadableStream.StartSettled` | lib/whatwg/streams/readable.js:1166-1180 | in place, one step of the model, and the invariant again, so every property of its runs holds of the object |
| `ReadableStreams.ReadableStream.PullSettled` | lib/whatwg/streams/readable.js:1008-1023 | in place, one step of the model, and the invariant again, so every property of its runs holds of the object |
| `IPv6Proofs.FormIsRead` | lib/whatwg/url/parser.js:183-314 | completeness: every text of an address, whole or elided at the start, in the middle or at the end, with or without a dotted tail, is accepted and gives the pieces it stands for |
| `IPv6Proofs.GroupsIsSound` | lib/whatwg/url/parser.js:199-297 | soundness of the main loop: what it accepts is groups, perhaps one elision, and groups or a dotted tail |
| `IPv6Proofs.DottedIsSound` | lib/whatwg/url/parser.js:229-283 | what the inner loop accepts is four decimal octets without leading zeros, none above 255 |
| `IPv6Proofs.ElisionExpands` | lib/whatwg/url/parser.js:299-310 | the one zero read for the two colons grows to as many as are missing from eight |
| `IPv6Proofs.ParsedIffForm` | lib/whatwg/url/parser.js:183-314 | the parser returns pieces if and only if the text is a text of the grammar that stands for those pieces |
| `IPv6.ReadOctet` | lib/whatwg/url/parser.js:248-268 | the inner digit loop stops exactly where the octet ends, and refuses a leading zero or a value above 255 |
| `IPv6.ReadDotted` | lib/whatwg/url/parser.js:229-283 | the four numbers end up in the two pieces, high byte first, and no other piece changes; every index is in bounds |
| `IPv6.Spread` | lib/whatwg/url/parser.js:299-310 | the swaps in place move the pieces after the elision to the end, in order, with zeros between |
| `IPv6.ParseIPv6Host` | lib/whatwg/url/parser.js:183-314 | ends on every text, never indexes outside the eight pieces, and returns what the grammar says, or nothing; what it returns is eight pieces below 2^16 |
| `IPv6Proofs.ParsedIsBounded` | lib/whatwg/url/parser.js:183-314 | every accepted text, with an embedded IPv4 address or without, gives eight pieces below 2^16 |
| `IPv6Print.FindLongestZeroSequence` | lib/whatwg/url.js:369-402 | for arrays of any length: the leftmost of the longest runs of two or more zeros, or none exactly when no two zeros are adjacent (sections 4.2.2 and 4.2.3 of RFC 5952) |
| `IPv6Print.ElidedIsUnique` | lib/whatwg/url.js:369-402 | that run is determined by the array |
| `IPv6Print.PrintedIsUnique` | lib/whatwg/url.js:404-451 | an address has one printed form |
| `IPv6Print.SerializeIPv6` | lib/whatwg/url.js:420-448 | the loop prints shortest groups, which Digits.RenderIsLower says are lower-case, and two colons for that run, wherever it stands |
| `IPv6Print.FormOfMeans` | lib/whatwg/url.js:420-448 | the printed text is a text of the grammar that stands for the address |
| `IPv6Print.PrintedIsParsed` | lib/whatwg/url.js:404-451 | for every eight 16-bit pieces, parsing what was printed gives the same pieces back |
| `IPv6Print.ReprintedIsParsed` | lib/whatwg/url.js:404-451 | for every text the parser accepts, printing what was read and parsing that gives the same address |
| `IPv4.DecimalIsRead` | lib/whatwg/url/parser.js:316-342 | a printed decimal number is read as itself, never as octal |
| `IPv4.AddressFits` | lib/whatwg/url/parser.js:346-389 | for every input, a returned number is below 2^32 |
| `IPv4.ParseIPv4` | lib/whatwg/url/parser.js:346-389 | the loops in place return the address that IPv4.PartsAreRead and IPv4.NoAddressExactly describe, or tell a text that is no address from one that is out of range |
| `IPv4.SerializeIPv4` | lib/whatwg/url.js:404-418 | the loop from the last byte to the first prints the four bytes, the highest first |
| `IPv4.PrintedIsParsed` | lib/whatwg/url.js:404-418 | for every n below 2^32, parsing the dotted form gives n back |
| `Digits.RenderValue` | lib/whatwg/url.js:442-442 | printing a number in base 8 to 16 and reading it gives the number back |
| `Splitting.SplitJoin` | lib/whatwg/url/parser.js:347-347 | splitting undoes joining, for parts without the separator |
| `Unicode.Utf8IsExact` | lib/whatwg/url.js:59-92 | the byte sequences that decode to a code point are exactly its UTF-8 encodings: shortest, in range, no surrogate (section 3 of RFC 3629) |
| `Unicode.Utf16IsWellFormed` | lib/whatwg/url.js:73-87 | writing a code point in UTF-16 before a text keeps the text well formed, and only then |
| `UrlEncoded.EncodeStr` | lib/whatwg/url.js:35-103 | the loop that copies unescaped runs late returns, for every string, lone surrogates included, what encoding each code point on its own gives |
| `UrlEncoded.EncodeAt` | lib/whatwg/url.js:59-92 | the escape of one code point, by length, and where it ends |
| `UrlEncoded.EncodedIsRead` | lib/whatwg/url.js:35-103 | decodeURIComponent of an encoded well-formed string, with plus for space, is the string |
| `UrlEncoded.DecodedIsWellFormed` | lib/whatwg/url.js:129-156 | decodeURIComponent neither makes a lone surrogate nor takes one away: what it returns is well-formed exactly when its argument was |
| `UrlEncoded.EncodedIsSafe` | lib/whatwg/url.js:105-125 | encoded text has no separator in it |
| `UrlEncoded.SerializeSearchParams` | lib/whatwg/url.js:157-172 | the loop joins the encoded pairs with ampersands |
| `UrlEncoded.ParseParams` | lib/whatwg/url.js:129-156 | the loop decodes each part that is not empty, in order, and fails as a whole if one fails |
| `UrlEncoded.SearchParamsRoundTrip` | lib/whatwg/url.js:129-172 | parseParams of what serializeSearchParams prints is the list itself if and only if no string of the list has a lone surrogate |
| `TaskQueues.TaskQueue.Push` | src/zero_platform.cc:285-291 | the task goes to the end of the queue and counts as outstanding |
| `TaskQueues.TaskQueue.Pop` | src/zero_platform.cc:293-302 | takes the front task, also from a stopped queue, or nothing |
| `TaskQueues.TaskQueue.AttemptPop` | src/zero_platform.cc:304-316 | one attempt of BlockingPop: a stopped queue hands out nothing and keeps its tasks; an empty one makes the caller wait; else the front task is taken |
| `TaskQueues.TaskQueue.NotifyOfCompletion` | src/zero_platform.cc:318-324 | one task fewer is outstanding; the drainers are woken exactly when it was the last |
| `TaskQueues.TaskQueue.PopAll` | src/zero_platform.cc:341-347 | hands over all tasks in order and leaves none |
| `PlatformSafety.AttemptKeeps` | src/zero_platform.cc:304-316 | a worker that resumes or arrives takes a task, sleeps or ends without losing a wake-up for another |
| `PlatformSafety.CompletesKeeps` | src/zero_platform.cc:318-324 | a completed task is counted down once, and wakes the drainer at zero |
| `PlatformSafety.MainKeeps` | src/zero_platform.cc:183-225 | the drain loop keeps what its return promises: while it has found no work, nothing is outstanding and the queues it has seen stay empty |
| `PlatformSafety.StepKeeps` | src/zero_platform.cc:183-339 | every step of any thread, spurious wake-ups included, keeps the invariant |
| `PlatformSafety.DrainIsQuiescent` | src/zero_platform.cc:183-225 | for any number of workers and any interleaving: when DrainTasks returns, no worker task is queued or running, both foreground queues are empty, and every task posted has been taken or run |
| `PlatformSafety.NoWakeupIsLost` | src/zero_platform.cc:285-339 | while a worker sleeps, the queued tasks are no more than the workers signalled and yet to resume; a sleeping drainer has outstanding tasks; after Stop no worker sleeps |
| `PlatformSafety.TasksAreTakenInOrder` | src/zero_platform.cc:285-316 | worker tasks are taken, and foreground tasks run, in the order posted, each once, none lost |
| `PlatformSafety.OutstandingTasksCanMove` | src/zero_platform.cc:21-27 | while a task is outstanding and nothing was stopped, some worker can take a step: waiting for tasks is no deadlock |
| `PlatformSafety.WorkerStepsRunOut` | src/zero_platform.cc:21-27 | however the workers are scheduled, with nothing posted and no spurious wake-up, their steps run out within a bound |
| `PlatformSafety.RestedWorkersAreDone` | src/zero_platform.cc:326-332 | when they have run out, no task is outstanding and the drainer is awake |
| `PlatformSafety.StoppedWorkersEnd` | src/zero_platform.cc:334-339 | when they have run out after Stop, every worker has ended and Shutdown can go on |
| `PlatformSafety.JoinedWorkerCanMove` | src/zero_platform.cc:55-60 | Shutdown is never held up by a sleeping worker: one that it joins and that has not ended can take a step |
| `UrlSafety.StepProgresses` | lib/whatwg/url/parser.js:508-1077 | in each of the 21 states an iteration lowers the state in a fixed order or keeps it and raises the index, though the index is reset or taken back; and the index stays between 0 and one past the end |
| `UrlSafety.HostStartsAfterLastAt` | lib/whatwg/url/parser.js:732-769 | the index goes back to just after the last '@' of the authority: what is read again as the host is what was read since, without an '@' |
| `UrlSafety.CredentialsSplit` | lib/whatwg/url/parser.js:733-752 | what stands before the '@' is split at its first colon into user name and password, each escaped |
| `UrlSafety.TakeSegmentKeeps` | lib/whatwg/url/parser.js:983-1009 | a completed segment leaves no dot segment in the path, in any spelling, and the last one leaves a segment |
| `UrlSafety.PortIsSound` | lib/whatwg/url/parser.js:161-167 | a parsed port is in range and not the default of its scheme |
| `UrlSafety.StepKeeps` | lib/whatwg/url/parser.js:508-1077 | in each state the record so far keeps its invariant, against a base that has it |
| `UrlBasicParse.BasicURLParse` | lib/whatwg/url/parser.js:468-1080 | on every input, base and exported state override the loop ends; it fails exactly where the cleaned text means nothing, and else returns the record that UrlTexts or UrlOverrides say it means; without an override that record is good |
| `UrlRuns.ParsedIsGood` | lib/whatwg/url/parser.js:468-1080 | without an override and with a good base, a record that has not failed has no port or one in 0..65535 that is not its scheme's default; is special exactly when its scheme is; has no '.' or '..' segment in any spelling unless it cannot be a base; and has a path if it is a file URL; so it can be a base in turn |
| `UrlRuns.DriveStays` | lib/whatwg/url/parser.js:169-181 | once the path of a file URL starts with a normalized drive letter, no rest of the input takes it away |
| `UrlRuns.RootedPathStaysOnDrive` | lib/whatwg/url/parser.js:908-923 | a path from the root against a file base on a drive stays on that drive |
| `UrlReading.FragmentIsRead` | lib/whatwg/url/parser.js:1060-1070 | the fragment is the rest of the text, escaped |
| `UrlReading.QueryIsRead` | lib/whatwg/url/parser.js:1048-1058 | the query is the text up to the first '#', escaped, and what comes after that is the fragment |
| `UrlReading.PathIsRead` | lib/whatwg/url/parser.js:983-1027 | the loop over the path makes of it one segment after the other, split at slashes, escaped and with dot segments resolved, and then the query or the fragment |
| `UrlReading.ParentUndoesSegment` | lib/whatwg/url/parser.js:989-1000 | a '..' in any spelling takes back the segment before it and leaves an empty last one |
| `UrlReading.HostIsRead` | lib/whatwg/url/parser.js:815-824 | the loop over a host reads it whole and knows at its end whether a '[' is open |
| `PlatformSafety.DrainReturns` | src/zero_platform.cc:183-225 | with at least one worker, a call of DrainTasks returns: however workers and drain are scheduled, with any number of tasks posted by running ones and of spurious wake-ups, its steps are bounded in terms of these, and when no step can be taken it has returned with nothing left |
| `PlatformSafety.DrainCanMove` | src/zero_platform.cc:327-332 | with at least one worker, until it returns it is never stuck: the drain or some worker can take a step |
| `UrlDeviations.EscapingHelpsNothing` | lib/whatwg/url/parser.js:141-148 | an escaped text is free of what has to be escaped if and only if the text was: the escape is U+0000, which has to be escaped itself |
| `UrlDeviations.EscapesCollide` | lib/whatwg/url/parser.js:141-148 | a space and a quotation mark in a path come to the same |
| `UrlDeviations.OpaqueHostIsPrintable` | lib/whatwg/url/parser.js:391-408 | an opaque host ends up printable if and only if each of its characters is, or has a printable upper case |
| `UrlDeviations.ControlIsKept` | lib/whatwg/url/parser.js:391-408 | the host U+0001 becomes a zero and U+0001 |
| `UrlDeviations.SlashDecides` | lib/whatwg/url/parser.js:638-644 | the state after one slash does what the standard says if and only if another slash follows |
| `UrlDeviations.OneSlashDropsNext` | lib/whatwg/url/parser.js:638-644 | for every text of a scheme that is not special, a colon, one slash and a character: the path is read from after that character, which is in no part of the record |
| `UrlDeviations.OneSlashEnds` | lib/whatwg/url/parser.js:638-644 | a text that ends after that slash has no path, where the standard gives one empty segment |
| `UrlDeviations.OneSlashExample` | lib/whatwg/url/parser.js:638-644 | the text a:/bc has the path c |
| `UrlDeviations.BackslashDecides` | lib/whatwg/url/parser.js:646-699 | the relative state does what the standard says if and only if there is no backslash, or the record is known to be special just when its base is |
| `UrlDeviations.BackslashGoesOn` | lib/whatwg/url/parser.js:646-699 | for every text that starts with a backslash, against a base with a special scheme: the path goes on from the base's, where after a slash it starts anew |
| `UrlDeviations.BackslashExample` | lib/whatwg/url/parser.js:646-699 | against http://h/a/b, a backslash and x have the path a, nothing, x |
| `UrlDeviations.DepartsExactly` | lib/whatwg/url/parser.js:468-730 | over whole texts: a parse without an override departs from the standard in those two states if and only if the text is a scheme that is not special with one slash and no other after it, or starts with a backslash where a base with a special scheme other than file can be gone on from |
| `TaskQueues.TaskQueue.AttemptDrain` | src/zero_platform.cc:326-332 | one attempt of the waiting loop: waits exactly when the drain of Platform does |
| `WritableCalls.ErrorTurns` | lib/whatwg/streams/writable.js:717-731 | error() turns a writable stream with that reason: errored at once if nothing is at the sink and start has settled, else erroring; it does nothing to another |
| `WritableCalls.WriteIsAccepted` | lib/whatwg/streams/writable.js:679-710 | a write to a writable stream that is not closing gets the next promise; its chunk goes to the end of the queue with its size, and at once to a sink that has started and has nothing queued |
| `WritableCalls.BadSizeTurns` | lib/whatwg/streams/writable.js:833-852 | a size that is not a finite non-negative number: the write has its promise and the stream turns with a range error |
| `WritableCalls.ThrowingSizeTurns` | lib/whatwg/streams/writable.js:820-827 | a size function that throws turns the stream with its error, and the write is rejected with that error, or as not writable if a close waits |
| `WritableCalls.WriteIsRefused` | lib/whatwg/streams/writable.js:679-702 | any other write leaves the stream alone and is rejected: with the lock error, the stored error, or as not writable, each exactly in its states |
| `WritableCalls.CloseIsAccepted` | lib/whatwg/streams/writable.js:574-606 | the first close of an open stream gets its promise, resolves the ready promise, and goes to the end of the queue or at once to an idle sink |
| `WritableCalls.CloseIsRefused` | lib/whatwg/streams/writable.js:574-590 | any other close leaves the stream alone and is rejected, with the lock error or as not writable |
| `WritableCalls.AbortTurns` | lib/whatwg/streams/writable.js:177-212 | the first abort of a writable stream turns it with its reason; the sink's abort is called at once if the sink is idle and has started, and else the abort waits and the queue stays |
| `WritableCalls.AbortWaits` | lib/whatwg/streams/writable.js:194-211 | an abort while the stream errors waits without a reason of its own, and changes nothing else |
| `WritableCalls.AbortIsIdle` | lib/whatwg/streams/writable.js:177-193 | a further abort gets the promise of the waiting one, one on a closed or errored stream a resolved promise, one on the wrong object a rejected one; none changes anything |
| `WritableCalls.WriterIsGiven` | lib/whatwg/streams/writable.js:423-461 | getWriter throws on a locked stream; else the ready and closed promises are as the state and the backpressure say, and nothing else changes |
| `WritableCalls.WriterIsReleased` | lib/whatwg/streams/writable.js:660-677 | releaseLock takes the writer away and changes nothing else |
| `ReadableCalls.StartAsks` | lib/whatwg/streams/readable.js:1166-1180 | when start fulfils, a pull starts, or is remembered, if and only if the stream is readable, started, has no close requested, and a read waits or the sizes queued are below the high-water mark |
| `ReadableCalls.ReadTakes` | lib/whatwg/streams/readable.js:959-979 | a read that finds a chunk gets the first one, the last chunk of a closing stream closes it, and a pull is asked for under that same condition |
| `ReadableCalls.ReadWaits` | lib/whatwg/streams/readable.js:959-979 | a read that finds none on a readable stream waits at the end of the line, and a pull is asked for if start has settled |
| `ReadableCalls.ReadEnds` | lib/whatwg/streams/readable.js:887-906 | a read on a closed stream is done, on an errored one it fails, without a lock it throws |
| `ReadableCalls.EnqueueAsks` | lib/whatwg/streams/readable.js:1068-1095 | an accepted chunk goes to the first waiting read or to the end of the queue, and a pull is asked for under that same condition |
| `ReadableCalls.BadSizeErrors` | lib/whatwg/streams/readable.js:1076-1089 | a chunk whose size throws or is not a finite non-negative number errors the stream and the call throws |
| `ReadableCalls.EnqueueIsRefused` | lib/whatwg/streams/readable.js:934-944 | an enqueue throws, and changes nothing, if the stream is not readable or a close was requested |
| `ReadableCalls.CloseDoes` | lib/whatwg/streams/readable.js:1056-1066 | close ends every waiting read on an empty stream, lets a full one run out, and throws on any other |
| `ReadableCalls.ErrorDoes` | lib/whatwg/streams/readable.js:1097-1107 | error empties a readable stream and fails every waiting read; cancel ends them and throws the chunks away; neither touches another stream |
| `ReadableCalls.FailedCallErrors` | lib/whatwg/streams/readable.js:1019-1021 | a start or a pull that rejects errors a readable stream |
| `ReadableCalls.PullEndsOrGoesOn` | lib/whatwg/streams/readable.js:1008-1018 | a pull that fulfils ends, and another starts if and only if one was remembered and the stream still wants it |
| `ReadableCalls.DemandIsAnswered` | lib/whatwg/streams/readable.js:994-1053 | a demand seen during a pull is not lost: when that pull fulfils another starts, if and only if the stream is then readable, started, not closing, and a read waits or the sizes queued are below the high-water mark |
| `ReadableCalls.LockDoes` | lib/whatwg/streams/readable.js:703-717 | getReader and releaseLock set and clear the lock, and throw exactly when it is held, or while reads wait |
| `ByteCalls.LockDoes` | lib/whatwg/streams/readable.js:783-797 | getReader and releaseLock set and clear the lock, and throw exactly when it is held, or while reads wait |
| `ByteCalls.ReadIsRefused` | lib/whatwg/streams/readable.js:759-781 | a read without a lock, or into a view without room, does nothing |
| `ByteCalls.ReadWithoutBytes` | lib/whatwg/streams/readable.js:1593-1653 | a read that finds nothing to take waits with its own view, is done on a closed stream, and fails on an errored one |
| `ByteCalls.ReadTakesElements` | lib/whatwg/streams/readable.js:1628-1635 | a read that finds an element gets all the whole elements that are there and fit, from the front of the queue, and closes a stream that waited for these bytes |
| `ByteCalls.ReadTakesPart` | lib/whatwg/streams/readable.js:1637-1650 | a read that finds less than an element takes it and waits; if a close was waiting for these bytes the stream errors and the read fails |
| `ByteCalls.EnqueueAccepts` | lib/whatwg/streams/readable.js:1782-1812 | bytes come at the end of the flow; with no read waiting they are all queued |
| `ByteCalls.EnqueueIsRefused` | lib/whatwg/streams/readable.js:1299-1322 | an enqueue throws, and changes nothing, if the stream is not readable or a close was requested |
| `ByteCalls.ResponseAccepts` | lib/whatwg/streams/readable.js:1697-1715 | a response of no more bytes than the region holds is accepted; its bytes come at the end of the flow and the request is over |
| `ByteCalls.ResponseIsRefused` | lib/whatwg/streams/readable.js:1213-1227 | a response throws, and changes nothing, without a live request, with more bytes than the region holds, or with any byte once closed |
| `ByteCalls.NewViewIsRefused` | lib/whatwg/streams/readable.js:1852-1862 | a new view throws, and changes nothing, without a live request, or unless it starts behind the bytes of the head and is as long as the whole head |
| `ByteCalls.NewViewResponds` | lib/whatwg/streams/readable.js:1852-1867 | a new view that fits a head without bytes is the response with all its bytes |
| `ByteCalls.CloseDoes` | lib/whatwg/streams/readable.js:1757-1780 | close waits for queued bytes, errors the stream if a read has part of an element, closes it otherwise, and throws on any other |
| `ByteCalls.ErrorDoes` | lib/whatwg/streams/readable.js:1814-1825 | error fails every waiting read; cancel closes the stream and throws the bytes away, also those of the head; neither touches another stream |
| `PlatformSteps.PostedTaskQueues` | src/zero_platform.cc:285-291 | a worker task comes to the end of the queue and counts as outstanding; one waiting worker is signalled exactly if there is one |
| `PlatformSteps.ForegroundPostQueues` | src/zero_platform.cc:84-97 | foreground and delayed tasks come to the end of their queues |
| `PlatformSteps.WorkerAttempts` | src/zero_platform.cc:304-316 | a worker that arrives or was woken ends after a stop, whatever is queued; sleeps if nothing is queued; and else runs the task at the front |
| `PlatformSteps.WorkerComes` | src/zero_platform.cc:21-27 | a completed task is counted down once, its worker comes back, and at zero a sleeping drain is woken |
| `PlatformSteps.NothingStartsAfterStop` | src/zero_platform.cc:334-339 | in every run from a stop on no task starts, and the tasks queued then stay queued |
| `PlatformSteps.DrainLooks` | src/zero_platform.cc:326-332 | the drain sleeps exactly while tasks are outstanding |
| `PlatformSteps.FlushGoesOn` | src/zero_platform.cc:195-225 | delayed tasks one by one, then the foreground tasks all at once, in order; any work makes another round, none ends the drain |
| `PlatformSteps.ShutdownJoins` | src/zero_platform.cc:55-60 | shutdown stops the queue, wakes every sleeping worker and joins the workers one by one, each once it has ended |
| `Digits.RenderIsLower` | lib/whatwg/url.js:442-442 | a printed number has only digits of its base, the letters in lower case |
| `Digits.CaseIsIgnored` | lib/whatwg/url/parser.js:316-342 | letters of either case are read as the same number |
| `IPv4.HexIsRead` | lib/whatwg/url/parser.js:316-342 | after 0x or 0X a printed hexadecimal number is read as itself |
| `IPv4.HexInAnyCase` | lib/whatwg/url/parser.js:316-342 | in either case of its letters |
| `IPv4.OctalIsRead` | lib/whatwg/url/parser.js:316-342 | after a zero a printed octal number is read as itself |
| `IPv4.PrefixIsZero` | lib/whatwg/url/parser.js:316-342 | 0, 0x and 0X alone are zero |
| `IPv4.NoNumberExactly` | lib/whatwg/url/parser.js:316-342 | a text is no number if and only if a character of it is no digit of the base that its start calls for |
| `IPv4.NoAddressExactly` | lib/whatwg/url/parser.js:344-372 | dotted parts are no address if and only if there are more than four, or one is empty or no number |
| `IPv4.PartsAreRead` | lib/whatwg/url/parser.js:373-389 | one to four numbers with dots between, and perhaps one after, make the sum by place, or fail, exactly if one but the last is above 255 or the last does not fit in what is left |
| `UrlEncodedForms.UnescapedAre` | lib/whatwg/url.js:110-121 | the encoder leaves exactly the ASCII letters and digits, the asterisk, hyphen, dot and underscore |
| `UrlEncodedForms.EscapesAre` | lib/whatwg/url.js:105-125 | any other byte becomes a percent sign and its two digits in upper case, and a space a plus |
| `UrlEncodedForms.EscapeDigitsAre` | lib/whatwg/url.js:148-149 | escapes are read with digits in either case |
| `UrlEncodedForms.DecodedExactly` | lib/whatwg/url.js:148-149 | decodeURIComponent returns a text if and only if its argument is made of units other than the percent sign and of escapes of whole code points that stand for it; it throws exactly if the argument is not made so |
| `UrlEncodedForms.PartSplits` | lib/whatwg/url.js:136-143 | a part without an equals sign is a name with an empty value; what comes from a second one on is dropped |
| `UrlEncodedForms.QueryPairs` | lib/whatwg/url.js:129-156 | a query gives one pair for each part between ampersands that is not empty, in order, with plus as space; or nothing if one cannot be decoded |
| `UrlSchemes.NoSchemeStage` | lib/whatwg/url/parser.js:514-593 | a text without a scheme is read again from its start |
| `UrlSchemes.SlashesStage` | lib/whatwg/url/parser.js:725-730 | all slashes, of either kind, are skipped before an authority |
| `UrlAuthority.CredentialsStage` | lib/whatwg/url/parser.js:732-752 | over any number of '@': all that stands before the last one goes to user name and password as one text in which each other '@' is escaped, split at its first colon |
| `UrlAuthority.RewindStage` | lib/whatwg/url/parser.js:753-766 | what comes after the last '@' is read again from its start as the host; the parse fails exactly when there was an '@' and nothing comes after it |
| `UrlAuthority.HostStage` | lib/whatwg/url/parser.js:771-826 | the host ends at the first colon outside of brackets or with the authority; the parse fails exactly when host or port are no good |
| `UrlAuthority.PortStage` | lib/whatwg/url/parser.js:828-867 | the port is the rest of the authority: the parse fails exactly when it is not digits, or above 65535 |
| `UrlAuthority.PartsFrom` | lib/whatwg/url/parser.js:727-867 | every text has its parts from each place on: an authority up to a slash, a question mark or a hash, and a backslash after a special scheme; its last '@'; the first colon of the host outside of brackets |
| `UrlAuthority.AuthorityIsRead` | lib/whatwg/url/parser.js:727-867 | an authority, of a special scheme or another: the parse fails if and only if nothing follows the last '@', there is no host where one is called for, or host or port are no good; and else each part comes from its place, and then the path |
| `UrlTexts.RelativeReads` | lib/whatwg/url/parser.js:646-714 | a relative text takes from the base exactly what it does not say itself: user name, password, host and port unless it has an authority, the path or all but its last segment, the query |
| `UrlTexts.SameSchemeReads` | lib/whatwg/url/parser.js:629-637 | after a special scheme that is the base's, a text can be relative too, and a backslash is a slash |
| `UrlTexts.FileHostReads` | lib/whatwg/url/parser.js:925-961 | a file text after two slashes: a host up to the next end, with localhost for none, unless it is a drive letter, which starts the path |
| `UrlTexts.FileSlashReads` | lib/whatwg/url/parser.js:908-923 | a file text after one slash: the base gives its drive, or its host if it has no drive, unless the text has a drive of its own |
| `UrlTexts.FileReads` | lib/whatwg/url/parser.js:869-906 | a file text against any base: host, path and query of a file base as far as the text has none, shortened by one segment, and not at all if the text starts with a drive letter |
| `UrlTexts.OpaqueReads` | lib/whatwg/url/parser.js:1029-1046 | the path of a record that cannot be a base is the text up to a query or a fragment, escaped, as one segment |
| `UrlTexts.ParsedIsMeant` | lib/whatwg/url/parser.js:468-1080 | over all texts and bases, without an override: the parse fails if and only if the text means nothing, and else returns the record that the text means, each part of it from its place in the text or from the base |
| `UrlTexts.SpecialUrlIsRead` | lib/whatwg/url/parser.js:468-1080 | for every text with a special scheme other than "file", and, if the base has the same scheme, two slashes of either kind: the parse fails if and only if there is no host, or the host or the port is no good; and else scheme, user name, password, host, port, path, query and fragment are the parts of the text, each from its place |
| `UrlTexts.NoSchemeTakesBase` | lib/whatwg/url/parser.js:594-714 | field by field, for every text without a scheme against a base that is no file and can be one: user name, password, host and port are the base's unless two slashes come first; path, query and fragment by whether the text is empty or starts with a question mark, a hash, a slash or another character |
| `UrlTexts.PathKeepsFront` | lib/whatwg/url/parser.js:983-1027 | a path, a query and a fragment leave scheme, user name, password, port and flags alone, and the host unless the scheme is file |
| `UrlParts.InputIsCleaned` | lib/whatwg/url/parser.js:490-492 | the parse reads what stands between the spaces and controls around a text, without tabs and line breaks; UrlParts.InputFalls gives these three for every input |
| `UrlParts.TabsAreDropped` | lib/whatwg/url/parser.js:490-492 | tabs and line breaks are dropped one by one, wherever they are, and nothing else is |
| `UrlParts.EscapeSetsNest` | lib/whatwg/url/encode_sets.js:6-341 | the tables of what is escaped, each from a smaller one, as section 1.3 of the URL Standard builds them |
| `UrlParts.DefaultPortIsDropped` | lib/whatwg/url/parser.js:150-167 | a port is left out exactly if it is the one of its scheme |
| `UrlParts.BracketedHost` | lib/whatwg/url/parser.js:433-443 | a host in brackets is an address if and only if the grammar of IPv6 addresses has the text, and the one that it stands for there |
| `UrlParts.PrintedHostIsRead` | lib/whatwg/url/parser.js:433-443 | printing an IPv6 address and reading it as a host gives it back |
| `UrlParts.TextHost` | lib/whatwg/url/parser.js:445-465 | a host without brackets is refused if and only if it has a forbidden character, or its scheme is special and it looks like an IPv4 address out of range; else it is that address or a name |
| `UrlParts.PrintableHostIsKept` | lib/whatwg/url/parser.js:419-431 | a printable opaque host is left as it is |
| `UrlParts.DotSpellings` | lib/whatwg/url/parser.js:65-98 | exactly three spellings of one dot, and nine of two |
| `UrlParts.PathIsResolved` | lib/whatwg/url/parser.js:983-1027 | over all texts: the path is where its segments, split at slashes and escaped, lead from the path before it, dots and drive letters resolved; then come the query or the fragment |
| `UrlParts.PlainSegmentsAreKept` | lib/whatwg/url/parser.js:1000-1015 | segments without dots and drive letters are all kept, in order |
| `UrlOverrides.WholePathIsRead` | lib/whatwg/url/parser.js:963-1027 | under an override a path is the rest of the text, split at slashes: no query or fragment can follow |
| `UrlOverrides.ParsedIsMeant` | lib/whatwg/url/parser.js:468-1082 | over all texts and all exported overrides: the parse fails if and only if the text means nothing, and else returns the record that the text means, or an empty one marked as terminated |
| `UrlOverrides.SchemeIsNeverSpecial` | lib/whatwg/url/parser.js:514-560 | a scheme override never gives a special scheme |
| `UrlOverrides.SpecialSchemeIsEmpty` | lib/whatwg/url.js:623-635 | what the protocol setter gets for a special scheme is the empty scheme |
| `UrlOverrides.NoAtIsNoName` | lib/whatwg/url.js:640-667 | what the setters of user name and password get for a text without an '@' is the empty text |
| `UrlOverrides.HostIsNoNumber` | lib/whatwg/url.js:676-696 | what the setters of host and hostname get is never an IPv4 address, whatever the scheme of the URL |
| `UrlOverrides.PortIsTaken` | lib/whatwg/url.js:702-712 | what the port setter gets for a printed number up to 65535 is that number, also if it is the scheme's own, and a failure above |
| `UrlParts.OpenBracket` | lib/whatwg/url/parser.js:438-441 | a bracket that is not closed is no host |
| `PlatformSteps.PostersAre` | src/zero_platform.cc:227-245 | who may post: a worker that runs a task, and the main thread while it neither drains nor shuts down, or from a foreground task that it runs |
| `ReadableCalls.BeginsEmpty` | lib/whatwg/streams/readable.js:1142-1164 | a new stream is readable, free and empty; it waits for start, asks for nothing before, and can be locked but not read |
| `ByteShares.TakeIsWhole` | lib/whatwg/streams/readable.js:1496-1512 | one fill makes the head ready if and only if it then has an element, and takes all the whole elements that are there and fit, or else all there is |
| `ByteShares.ProcessShares` | lib/whatwg/streams/readable.js:1572-1591 | handing out the queue gives the first read all the whole elements that are there and fit its view, behind the bytes that it has, the next read what comes after them, and so on; a read that cannot be given an element keeps what there is and waits |
| `ByteShares.EnqueueShares` | lib/whatwg/streams/readable.js:1782-1812 | the whole state after an enqueue: bytes are shared out so among the pending reads, behind those queued |
| `ByteShares.ResponseShares` | lib/whatwg/streams/readable.js:1669-1715 | the whole state after a response: its bytes are shared out like those of an enqueue, and the request is over |
| `Unicode.SurrogatesAre` | lib/whatwg/url.js:79-91 | the surrogates are the units of the code points that one unit has no room for |
| `UrlParts.LettersAre` | lib/whatwg/url/parser.js:46-50 | the letters, and the lower case of each |
| `UrlParts.DrivesAre` | lib/whatwg/url/parser.js:52-63 | which texts are a drive letter, and which start with one |
| `UrlParts.EmptyStartIsDropped` | lib/whatwg/url/parser.js:1009-1016 | what is dropped from the start of a file path are its empty segments, all but a last one |
| `UrlParts.MarksAre` | lib/whatwg/url/parser.js:527-529 | what a scheme is made of, what counts as a slash, and where an authority ends, with a special scheme or another |
| `UrlParts.FalseHostsAre` | lib/whatwg/url/parser.js:1001-1003 | the hosts that do not count as true: none, the empty name and the number zero |

## Left out

Streams:

- The request records are built with `_resolve` and read through `[kResolve]` (and likewise for the other slots) in the source; the model has one field, as intended.
- Brand checks, argument coercion, unhandled-rejection marking, iterator-result objects and `desiredSize` getters.
- The code in the sink's, the source's and the strategy's callbacks: a callback of the sink or source is a call recorded in the trace, and what it does in turn are later steps. A `size()` that calls back into its own stream is not modelled.
- Sizes and high-water marks are exact finite numbers; floating-point rounding and an infinite high-water mark are not modelled. A size that is not a finite number is modelled by its refusal.
- After a failed assert the source throws out of the operation; the model sets the flag and goes on.
- `CloseWithErrorPropagation`, `pipeTo`, `pipeThrough`, `tee` and `transform.js`.
- A stream and its controller, which are made together and never re-bound, are one object; so are a readable stream and its reader, whose closed promise is left out.
- A writer remembers the state of the stream in which it was acquired; the source has no such slot, and no operation of the model reads it.
- Byte streams: default readers and `autoAllocateChunkSize`, buffer detachment, `DataView` and the constructor of a view, a `bytesWritten` that is not a whole number, and the pull protocol, which is the one proved for the default controller.
- The bytes that a source writes through the view of a BYOB request are a parameter of the response that follows.
- ByteModel drops empty queue entries, which hold no byte; ByteStreams has them.

URLs:

- Whole-URL printing and its round trip, the setters but for what they get from a parse, `URLSearchParams` methods other than parsing and printing, blob URLs.
- `toUpperCase` is a table given to the parser, since the source applies it to characters of opaque hosts outside ASCII.
- State overrides other than those the module exports, and a base that no parse could have returned.
- The URL record is a value that each step updates; the source updates one object that nothing else sees during a parse.
- Host and path texts are sequences of characters; the code units of a character outside the Basic Multilingual Plane are not told apart there (they are in the query parameters).
- `parseInt` and the sums of IPv4 are exact; a double loses digits only far above the bound it is compared with.

Platform:

- Timers of delayed tasks, isolate registration and reference counts, idle tasks, and posters other than running tasks and the embedder while nothing drains or shuts down.
- TaskQueues.TaskQueue.AttemptPop: one attempt of the waiting loop, and so is AttemptDrain, because waiting releases the lock; Platform has the waiting.
- Fairness: that a worker which can take a step eventually takes it is the scheduler's part; the proofs bound the steps and show that one can be taken.
