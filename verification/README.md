# A model of the cpkt facade's own algorithms

cpkt is mostly a C facade over other libraries, but a few of its files hold algorithms and state machines of their
own. This project models those and proves what they do over every input, every run or every reachable state.

| component | source | files |
|---|---|---|
| VOX and PTT speech segmenters | `src/audio.c` | `Segmentation`, `SegmentationProofs`, `VoxTheorems`, `PttTheorems`, `PttCoverage`, `PttGaps`, `SegmentStore`, `SegmenterObject` |
| Sliding window over a downloaded stream | `src/audio.c` | `UrlWindow` |
| Sample reassembly of a capture process | `src/audio.c` | `Capture` |
| C layouts of runtime types | `src/opcua_dynamic_impl.h` | `TypeLayout`, `TypeLayoutProofs`, `LayoutReference`, `LayoutPlans`, `LayoutOrder`, `LayoutSoundness`, `TypeLayouter` |
| Structural equality of native types | `src/opcua_dynamic_internal.h` | `TypeEquality` |
| Custom type lists of codec calls | `src/opcua_codec_impl.h` | `CustomTypes` |
| Lifetimes of asynchronous server operations | `src/opcua_callbacks_impl.h` | `AsyncOperations`, `AsyncProofs`, `CancellationPass`, `AsyncHistory`, `AsyncRegistry` |
| Lifetimes of connections | `src/opcua_eventloop_impl.h` | `Connections`, `ConnectionProofs`, `ConnectionHistory`, `InheritedTag`, `PrematureFree` |
| Byte-capped Lua allocator and chunk registry | `src/lua_runtime.c` | `LuaAllocator`, `LuaRuntime`, `LuaFacade` |

`dafny verify dfyconfig.toml` checks the whole project.

How the parts fit together:

- **Segmenters.** `Segmentation` is the machine as pure functions from state and input to state and result; the two
  user callbacks are one arbitrary predicate on everything emitted so far. `SegmentationProofs` defines a *sound*
  trace, in which each entry is judged against the whole stream and the entries before it, and shows that one frame
  keeps the invariant. `VoxTheorems`, `PttTheorems` and `PttCoverage` state what follows for every run, read off
  the calls. `SegmentStore` and
  `SegmenterObject` are the code in its own form, the memory array with its spool file, the ring that wraps, the push loop
  that steps back over a frame, and every method is proved to compute the function of the same name.
- **Layout.** `TypeLayout` says what a layout is, with no search: a table is consistent when each entry is computed
  from the entries it depends on, and `LayoutReference` states the rule of C on its own and shows that this is it.
  `TypeLayoutProofs` shows such tables are unique and exclude by-value cycles,
  `LayoutPlans` when one exists and in which orders it is found, `LayoutOrder` that the order can decide, `LayoutSoundness` that they are valid C layouts at every nesting depth, and
  `TypeLayouter` is the coloured depth-first search, proved to produce one.
- **Lifetimes.** Asynchronous operations and connections are step machines with an explicit stack of running frames,
  because a user callback may start any other call. Any action may come next; the contract of the native side is
  stated at the head of each file and is all that is assumed. `AsyncHistory` and `ConnectionHistory` say what the states are in terms of the actions
  alone, `CancellationPass` follows one pass from beginning to end through whatever is nested in it, and `AsyncRegistry` is the linked list behind it, with its loops over slots.
- **Streams.** In `UrlWindow` and `Capture` what arrives is an arbitrary script, of data, delays and failures, and what
  the code holds and returns is tied to the bytes of that script.
- **Lua.** `LuaAllocator` is the accounting over an arbitrary set of user memory functions. `LuaRuntime` is a ledger
  that gives each live block one owner, and `LuaFacade` the operations that move blocks from owner to owner.

Where the code does not have a property one would expect of it, the code is kept, a lemma exhibits the failure and
another gives the condition under which it does hold:

- Opening a VOX handle does not check that the prebuffer fits the spool. A push can end early with AT_END in some run
  if and only if it does not (`PushEndsEarlyIffPrebufferOversized`); the other VOX results assume that it fits.
- Flushing a pressed PTT handle that has stored nothing leaves the segment open, so its reported start goes stale if
  and only if frames are then pushed with the key up (`PttStartGoesStaleIff`, `PttStaleStart`), and it is off by exactly
  those frames (`PttStartIsOffBySkipped`).
- The rounding of a member's offset is not checked for overflow. A member lands at or past the end of its
  predecessor if and only if the rounded offset is representable (`MemberAdvancesIffFits`, `WrappingOverlaps`).
- A connection that is accepted on one without a slot inherits its failure tag, but not the reference that goes with
  it. Counts are exact all along a run if and only if this never happens (`ExactIffNeverInherits`), and an action makes
  it possible to reach a freed registration if and only if it does this (`FreedIsReachableIffInherits`);
  `InheritedTagFreesEarly` is a run of ten actions. The other connection results are about runs where it never happens.
- Type equality rejects separate but identical copies of mutually recursive types (`CopiesDiffer`, `CopiesAlike`).
  Types that no member path tells apart are accepted if and only if the comparison does not get past its depth bound on
  the way to two different pointers (`IndistinctIsEqualIffShallow`).
- The layout search gives up when it is more than 128 by-value steps deep. A group that has a layout is accepted if and only if visiting its
  types in order of declaration stays within that (`LayOutAll`): always when it nests less deep, or when types are
  declared after those they hold (`ShallowIsVisited`, `PartsFirstIsVisited`), never for a longer chain declared from the
  outside in (`InwardIsNotVisited`).

The code and its documentation disagree in two places, and the model follows the code. `include/cpkt/audio.h:299`
calls the threshold an RMS power; the code compares the magnitude of each sample. `include/cpkt/audio.h:102` says a
hard cut does not release TX; the code closes the segment and announces TX_ON again with the next one.

## Model

| member | source | states |
|---|---|---|
| Segmentation.FloorTick | src/audio.c:1011-1019 | the result is the last 10 ms unit at or before the frame, saturating at LONG_MAX |
| Segmentation.CeilTick | src/audio.c:1021-1032 | the result is the first 10 ms unit at or after the frame, saturating at LONG_MAX |
| SegmentationProofs.TrailingQuiet | src/audio.c:1252-1260 | independent reference for the silence counter: the maximal quiet run at the end of a sequence |
| SegmentationProofs.LeadingQuiet | src/audio.c:1211-1250 | independent reference for the prebuffer at the head of a segment: the maximal quiet run at the beginning of a sequence |
| SegmentationProofs.EmitStateKeeps | src/audio.c:1262-1284 | a state event extends a sound trace: numbered by the deliveries before it, alternating, marked failed exactly when the callback refuses |
| SegmentationProofs.EmitKeeps | src/audio.c:1135-1179 | delivering or dropping a segment extends a sound trace: dropped exactly when too short for the way it was closed, ended at the cursor, and closed unless the callback refuses |
| SegmentationProofs.FrameKeeps | src/audio.c:1302-1374 | one VOX frame keeps the run invariant and is consumed exactly once, unless a callback fails; AT_END cannot leave the loop |
| VoxTheorems.PushIsChunkFree | src/audio.c:1286-1377 | pushing xs then ys equals pushing xs + ys: same state, emissions and result, in any state and for any configuration |
| VoxTheorems.RetriedAtMostOnce | src/audio.c:1334-1345 | in every reachable state, after the hard cut that makes room for a frame no further cut is needed for it |
| VoxTheorems.RunKeeps | src/audio.c:1286-1398 | every state reachable by pushes and flushes satisfies the invariant and has consumed exactly what was pushed |
| VoxTheorems.SpansAscend | src/audio.c:1135-1179 | in any sound trace delivered and dropped segments are disjoint and in stream order |
| VoxTheorems.VoxSegmentsAreExact | src/audio.c:1211-1374 | over every run each segment equals the pushed stream from its start to its end, and segments are ordered and disjoint |
| VoxTheorems.VoxStoreIsExact | src/audio.c:1211-1250 | between calls an open store is the stream since its start, which is the start it will report, within the limits, and the ring is empty; a closed ring is the newest quiet frames, as many as fit since the last segment; TX is on exactly while open |
| VoxTheorems.NoSpeechIsLost | src/audio.c:1302-1374 | every loud frame pushed lies in a delivered segment, a dropped one, or the one still open, unless a callback failed |
| VoxTheorems.VoxDropsExactly | src/audio.c:1143-1150 | over every run, a stretch closed inside a push is dropped if and only if it is shorter than the minimum, one closed by a flush if and only if it is that or has fewer loud frames; what was emitted before stays |
| VoxTheorems.VoxSegmentsLead | src/audio.c:1231-1250 | every stretch begins with the prebuffer: before its first loud frame it holds exactly as many of the quiet frames since the previous end as the capacity keeps |
| VoxTheorems.VoxResultIsExact | src/audio.c:1286-1398 | a call reports an error exactly when a callback has failed by its end, and after a flush that succeeds nothing is open |
| VoxTheorems.LoudIsSymmetric | src/audio.c:1307 | a sample is loud exactly when it or its negative reaches the threshold |
| VoxTheorems.VoxEventsAlternate | src/audio.c:1262-1398 | event and segment numbers count deliveries, TX_ON alternates with TX_OFF or HARD_CUT, and a hard cut is followed at once by its segment |
| VoxTheorems.FailureIsFinal | src/audio.c:1297-1299 | after a callback fails nothing is emitted again, and every later call changes nothing and reports the error |
| VoxTheorems.VoxSegmentShape | src/audio.c:1135-1179 | lengths within minimum, spool and segment limit; a released segment ends in exactly the release run behind a loud frame; a hard cut is at a limit and not where a release was due; a final one has the minimum of loud frames and no complete release run |
| VoxTheorems.VoxCountersAreExact | src/audio.c:1252-1260 | between calls the silence counter is the trailing quiet run, below the release value, and the speech counter counts the loud frames |
| VoxTheorems.VoxStampsOverlapByOneTick | src/audio.c:1158-1164 | the 10 ms stamps of two segments of a run overlap by at most one tick |
| VoxTheorems.VoxStampsAreExact | src/audio.c:1158-1164 | the stamps of a segment are the 10 ms units that just contain it |
| VoxTheorems.OpenChecksAllButThePrebuffer | src/audio.c:3656-3688 | an accepted request meets every condition the VOX results need exactly when its prebuffer fits the spool |
| VoxTheorems.VoxOpenAccepts | src/audio.c:3652-3688 | exactly when a request is accepted, and every field of the configuration in terms of the request |
| VoxTheorems.OpenDefaults | src/audio.c:3652-3688 | the all-zero request selects the documented defaults and is ready |
| VoxTheorems.OpenAcceptsAnOversizedPrebuffer | src/audio.c:3681-3688 | a concrete request that is accepted although its prebuffer exceeds the spool |
| VoxTheorems.PushEndsEarlyIffPrebufferOversized | src/audio.c:1231-1250 | some push of some run ends with AT_END if and only if the prebuffer exceeds the spool |
| VoxTheorems.OversizedPrebufferEndsEarly | src/audio.c:1231-1250 | the failing run for every oversized configuration: the loud frame is not consumed and stored frames stay in the ring |
| PttTheorems.PttRunKeeps | src/audio.c:1418-1552 | every state reachable by presses, releases, pushes and flushes satisfies the PTT invariant and has consumed what was pushed |
| PttTheorems.PttPushIsChunkFree | src/audio.c:1470-1530 | chunking does not matter, with the key up or down |
| PttTheorems.PttTraceIsSound | src/audio.c:1418-1552 | over every run: exact, ordered, disjoint segments within the budgets, dropped exactly when shorter than the minimum, alternating events, numbers that count deliveries, hard cuts at a limit that deliver, nothing after a failed callback |
| PttCoverage.PttKeepsExactlyTheSpoken | src/audio.c:1470-1530 | in every run a consumed frame lies in a delivered, dropped or still open stretch if and only if the key was down, by the calls, when it was pushed |
| PttCoverage.PttKeyIsFollowed | src/audio.c:1418-1552 | a press opens, a release closes, a flush leaves nothing stored, TX is on exactly while open, and a call reports an error exactly when a callback has failed by its end |
| PttCoverage.PttStoreIsExact | src/audio.c:1470-1530 | between calls an open store is the newest stretch of the stream within the limits, and a closed one is empty |
| PttCoverage.PttClosesByCall | src/audio.c:1444-1552 | what closes inside a push is cut and delivered, what a release or flush closes is not cut, only a flush is final, and what was emitted before stays |
| PttCoverage.PttFailureIsFinal | src/audio.c:1426-1428 | after a callback fails every later call changes nothing and reports the error |
| PttTheorems.PttStartsAreExact | src/audio.c:1418-1552 | reported starts are exact in every run that never pushes with the key up while a segment is open |
| PttTheorems.PttStartGoesStaleIff | src/audio.c:1483-1486 | from a state with a right start, one call leaves an open segment with a wrong one if and only if it pushes frames with the key up while open |
| PttGaps.PttStartIsOffBySkipped | src/audio.c:1483-1486 | over every run, the frames between the start a segment reports and its first frame are exactly those skipped since it was opened |
| PttTheorems.PttOpenIsChecked | src/audio.c:3732-3811 | an accepted request meets every condition the PTT results need |
| PttTheorems.PttOpenAccepts | src/audio.c:3732-3811 | exactly when a request is accepted, and every field of the configuration in terms of the request |
| PttTheorems.PttStaleStart | src/audio.c:1543-1546 | the failing run: a segment at position 1 that reports 0 |
| SegmentStore.FrameStore.Append | src/audio.c:1181-1209 | memory and spool together hold the old sequence and the new frame; AT_END exactly when the limit is reached |
| SegmentStore.FrameStore.Spill | src/audio.c:1074-1093 | moving to the spool file leaves the sequence as it was |
| SegmentStore.FrameStore.Rewind | src/audio.c:1151-1157 | reading starts over and the contents stay |
| SegmentStore.FrameStore.Read | src/audio.c:1095-1133 | returns the next stretch of the sequence, AT_END exactly when its end is reached |
| SegmentStore.FrameStore.ReadMany | src/audio.c:1095-1133 | reads of any capacities return the sequence once, in order |
| SegmentStore.FrameStore.Reset | src/audio.c:1050-1064 | the store is empty and back in memory |
| SegmentStore.Ring.Add | src/audio.c:1211-1229 | the wrapping array holds the newest frames of old contents plus the new one |
| SegmentStore.Ring.At | src/audio.c:1241-1245 | the wrapped index reads the contents in order |
| SegmentStore.Drain | src/audio.c:1231-1250 | the ring becomes the contents of the store; when it does not fit, the store is filled and the ring kept |
| SegmenterObject.Segmenter.EmitState | src/audio.c:1262-1284 | refines the pure state event |
| SegmenterObject.Segmenter.Emit | src/audio.c:1135-1179 | refines the pure emission, whatever capacities the callback reads with |
| SegmenterObject.Segmenter.Begin | src/audio.c:1313-1331 | refines the pure opening, ring and store included |
| SegmenterObject.Segmenter.VoxPass | src/audio.c:1302-1374 | one pass of the loop refines the fate of one frame, or retries it with a smaller rank |
| SegmenterObject.Segmenter.VoxPush | src/audio.c:1286-1377 | the loop that steps back terminates and refines the pure push |
| SegmenterObject.Segmenter.VoxFlush | src/audio.c:1379-1398 | refines the pure flush |
| SegmenterObject.Segmenter.Press | src/audio.c:1418-1442 | refines the pure press |
| SegmenterObject.Segmenter.Release | src/audio.c:1444-1468 | refines the pure release |
| SegmenterObject.Segmenter.PttPush | src/audio.c:1470-1530 | the PTT loop terminates and refines the pure push |
| SegmenterObject.Segmenter.PttFlush | src/audio.c:1532-1552 | refines the pure flush |
| UrlWindow.UrlSource.Discard | src/audio.c:374-399 | the window still equals the stream; exactly what is more than 1 MiB behind the cursor goes, and the failure branch is unreachable |
| UrlWindow.UrlSource.NextCapacity | src/audio.c:429-441 | doubling ends, fits the need, less than twice too large; it gives up only above half of SIZE_MAX |
| UrlWindow.UrlSource.Write | src/audio.c:401-452 | the stream grows by all of the chunk, or by nothing and has failed, and fails only when twice the rewind distance and what lies ahead of the cursor exceed memory; nothing the reader sees changes |
| UrlWindow.UrlSource.Progress | src/audio.c:523-539 | one tick is taken from the front of the network, all its bytes are received unless it fails, it ends when the tick says so, and it fails when the tick does and otherwise only for want of memory for the bytes of this tick |
| UrlWindow.UrlSource.DownloadUntil | src/audio.c:597-620 | ticks are taken in order and only as long as the target is not reached; success means it is, or the stream ended; the end and every failure are caused by the last tick taken or want of memory |
| UrlWindow.UrlSource.Read | src/audio.c:622-656 | returns the stream at the cursor, short only at the end, nothing on failure; it waits for exactly what it asks for, and a failure has a cause; at most 1 MiB of consumed bytes is kept |
| UrlWindow.UrlSource.ReadAvailable | src/audio.c:658-701 | returns whatever of the stream is there at the cursor, nothing only at the end or on failure; it waits for one byte, and a failure has a cause |
| UrlWindow.UrlSource.Seek | src/audio.c:857-896 | succeeds exactly on targets inside the window, so on every one from 1 MiB behind the furthest cursor to the received end; it waits for the target only, a failure has a cause, and a failed seek does not move |
| UrlWindow.UrlSource.Do | src/audio.c:622-896 | any of the three, with its reply: position, end and failure are reported as they are |
| UrlWindow.UrlSource.Session | src/audio.c:622-896 | over any interleaving of reads and seeks and any network: every reply answers its call from what the network had delivered by then, each call takes no more of it than it needs, every end and failure has its cause; with a smooth network and memory for the rewind distance, what a call asks for and one burst, every reply is that of a file with the whole stream, however long |
| UrlWindow.RunGoesOn | src/audio.c:597-620 | waiting is its turns put together: ticks in order, each only while the target is not reached, one cause for the end or the failure |
| UrlWindow.EasedRuns | src/audio.c:374-452 | waiting on a smooth network never fails with memory for the rewind distance, what is waited for and one burst, independent of the length of the stream |
| UrlWindow.LogIsPlain | src/audio.c:622-896 | the replies of any number of calls are those of the whole stream under that condition |
| UrlWindow.PlainAnswers | src/audio.c:622-896 | an answer from what was received is the answer of the whole stream when nothing failed and the end is the end |
| Capture.Decode | src/audio.c:2268-2276 | the sample is the 16-bit number congruent to the little-endian pair |
| Capture.CodecRoundTrips | src/audio.c:2268-2298 | encoding and decoding are inverse to each other, both ways |
| Capture.SamplesContinue | src/audio.c:2477-2521 | decoding may be cut at any byte: the rest decodes from the odd leftover on |
| Capture.UnpackPairs | src/audio.c:2512-2521 | the pair loop decodes all pairs and stops before at most one byte |
| Capture.Process.ReadSome | src/audio.c:2485-2511 | a read takes the front of the bytes to come and leaves the rest, and is answered without data exactly where the input is |
| Capture.Process.Complete | src/audio.c:2483-2499 | the waiting byte and one more give the next sample of the stream |
| Capture.Process.Read | src/audio.c:2445-2530 | the call reads exactly what it can use of the ready bytes, leaves the rest of the input, returns exactly the samples completed, and fails exactly when it meets an error, or the end with no byte waiting, before it has all it can take; what a failing call decoded and loses is stated as well |
| Capture.Process.Session | src/audio.c:2445-2530 | over any pattern of short reads, delays, errors and ends: which calls succeed, how many samples they return and what they leave is Listen, and the results of successful calls concatenate to the decoding of the bytes that arrived |
| Capture.CalmIsHeard | src/audio.c:2477-2521 | short and delayed reads alone fail nothing and lose nothing: every byte is in a sample returned, waits, or is still to come |
| Capture.SteadyIsHeard | src/audio.c:2477-2521 | when reads are answered with data no sample is held back beyond the capacities asked for |
| Capture.DropTwice | src/audio.c:2477-2521 | reading in two parts leaves what reading at once leaves |
| TypeLayoutProofs.LayoutIsUnique | src/opcua_dynamic_impl.h:78-191 | two consistent tables agree wherever both are defined, so layouts do not depend on the visiting order |
| TypeLayoutProofs.LaidOutIsAcyclic | src/opcua_dynamic_impl.h:87-91 | a group laid out with a rank has no by-value cycle |
| TypeLayoutProofs.PadRoundsUp | src/opcua_dynamic_impl.h:164-165 | padding is below the alignment and reaches a multiple of it |
| LayoutReference.LayoutFollowsTheRule | src/opcua_dynamic_impl.h:107-190 | whenever sizes are representable the layout of a structure or union is the one of the C rule stated on its own, and there is one exactly when every member has a known type of some size and lies inside the native record |
| LayoutReference.SimpleFollowsTheTable | src/opcua_dynamic_impl.h:94-109 | simple types take the row of the built-in table exactly when the native size agrees; unsupported kinds are rejected |
| LayoutReference.RoundUpIsLeast | src/opcua_dynamic_impl.h:164-165 | the rule rounds to the least aligned offset |
| LayoutSoundness.MemberAdvancesIffFits | src/opcua_dynamic_impl.h:155-172 | a placed member lies at or past its base if and only if the rounded offset is representable |
| LayoutSoundness.WrappingOverlaps | src/opcua_dynamic_impl.h:155-172 | a concrete group that is accepted with a layout in which one member overlaps the next and reaches past the type |
| LayoutSoundness.MemberIsSound | src/opcua_dynamic_impl.h:124-180 | every member is aligned, inside the public type, inside memSize natively, past a union's discriminator, and an array's data pointer lies exactly behind its length in both records |
| LayoutSoundness.MemberIsPlacedRight | src/opcua_dynamic_impl.h:131-172 | the same written out for arrays, optional members, types of the group and other types: which bytes, in both records, at which alignment |
| LayoutSoundness.DiscriminatorIsSound | src/opcua_dynamic_impl.h:117-122 | a union holds its discriminator and is aligned for it |
| LayoutSoundness.NestedPointerIsAlignedIff | src/opcua_dynamic_impl.h:164-168 | the data pointer of every nested array is inside the outer object and aligned with it if and only if a length fills whole alignments of a pointer |
| LayoutSoundness.MembersAscend | src/opcua_dynamic_impl.h:151-180 | structure members are ascending and disjoint, in the public and in the native record |
| LayoutSoundness.SizeIsMultiple | src/opcua_dynamic_impl.h:181-189 | the size of an aggregate is a positive multiple of its alignment |
| LayoutSoundness.AlignmentIsPow2 | src/opcua_dynamic_impl.h:153-154 | with power-of-two leaves every computed alignment is a power of two |
| LayoutSoundness.NestedIsInside | src/opcua_dynamic_impl.h:117-190 | whatever is nested by value, however deep, lies inside the outer object and inside the member it is reached through |
| LayoutSoundness.NestedIsAligned | src/opcua_dynamic_impl.h:117-190 | whatever is nested by value is aligned whenever the outer object is |
| LayoutSoundness.NestedIsDisjoint | src/opcua_dynamic_impl.h:117-190 | members reached by paths that part in a structure share no byte, at any depth |
| LayoutSoundness.ElementsAreAligned | src/opcua_dynamic_impl.h:181-189 | every element of an array of a laid out aggregate is aligned when the array is |
| LayoutPlans.PlanExistsIff | src/opcua_dynamic_impl.h:78-191 | a plan with given heights exists if and only if they descend along by-value containment and each type gets a layout from those it holds |
| LayoutPlans.OnlyPlan | src/opcua_dynamic_impl.h:78-191 | all plans of a group have the same layouts |
| LayoutPlans.ShallowIsVisited | src/opcua_dynamic_impl.h:87-91 | nesting of at most 128 by-value steps is visited in any order |
| LayoutPlans.PartsFirstIsVisited | src/opcua_dynamic_impl.h:278-283 | when types are declared after those they hold, nesting of any depth is visited |
| LayoutPlans.ChainIsNotVisited | src/opcua_dynamic_impl.h:87-91 | a chain of more than 129 types declared from the outside in is not |
| LayoutPlans.OrderIgnoresHeights | src/opcua_dynamic_impl.h:78-91 | which types are visited depends on the group alone, not on the plan |
| LayoutOrder.InwardIsNotVisited | src/opcua_dynamic_impl.h:87-91 | a concrete chain of any length above 129 that has a plan and is rejected |
| LayoutOrder.OutwardIsVisited | src/opcua_dynamic_impl.h:278-283 | the same chain in the other order has a plan and is accepted |
| LayoutPlans.PointersDoNotMatter | src/opcua_dynamic_impl.h:131-139 | a plan still works when arrays and optional members point elsewhere, whatever is held by value |
| LayoutPlans.RecursionThroughPointersIsLaidOut | src/opcua_dynamic_impl.h:131-139 | a group can be laid out if and only if the same group can with its pointers leading elsewhere, so recursion through arrays and optional members is never what rejects it |
| TypeLayouter.Group.LayOut | src/opcua_dynamic_impl.h:78-106 | the search terminates, keeps finished layouts, and blackens its type on success; for a group that has a plan it succeeds exactly when the visit stays within the depth, and finishes exactly the types visited |
| TypeLayouter.Group.LayOutMembers | src/opcua_dynamic_impl.h:124-180 | the member loop computes the specified walk although it lays out other types in between |
| TypeLayouter.Group.LayOutMember | src/opcua_dynamic_impl.h:125-179 | one turn extends the specified walk, which is that of the C rule, by its member, laying out a by-value type first, and rejects only what the specification rejects |
| TypeLayouter.Group.LayOutAll | src/opcua_dynamic_impl.h:278-283 | success gives every type its specified layout, the only one, and means no by-value cycle; a group that has a plan succeeds if and only if visiting its types in order stays within the depth, in particular when it nests at most 128 deep |
| TypeEquality.Compare | src/opcua_dynamic_internal.h:23-56 | the recursive loop terminates on cyclic graphs and decides the equality that EqualIffAllPass characterises field by field |
| TypeEquality.EqualIsSymmetric | src/opcua_dynamic_internal.h:23-56 | equality is symmetric |
| TypeEquality.EqualIsSound | src/opcua_dynamic_internal.h:23-56 | when it accepts, every member path of any length leads from both types to types that agree, field by field, in size, kind, flags, identifiers, the padding and flags of every member and the values of an enumeration |
| TypeEquality.EqualIffAllPass | src/opcua_dynamic_internal.h:23-56 | it accepts if and only if every pair of types on an explored path agrees in those fields, with members present, within the depth bound |
| TypeEquality.IndistinctIsEqualIffShallow | src/opcua_dynamic_internal.h:28-52 | types that no member path tells apart are accepted if and only if no explored path longer than the depth left ends in different pointers |
| TypeEquality.CopiesDiffer | src/opcua_dynamic_internal.h:28-52 | two copies of a pair of mutually recursive types are rejected |
| TypeEquality.CopiesAlike | src/opcua_dynamic_internal.h:28-52 | although no member path tells those copies apart |
| CustomTypes.MeetingIsEndless | src/opcua_codec_impl.h:45-50 | a pointer met again means the list never ends |
| CustomTypes.MustMeet | src/opcua_codec_impl.h:45-50 | on a list that outlasts its nodes the slow and the fast pointer meet within as many steps as there are nodes |
| CustomTypes.FindCycle | src/opcua_codec_impl.h:45-50 | terminates on every linked list and reports exactly the endless ones |
| CustomTypes.CopyTypes | src/opcua_codec_impl.h:60-71 | copies the natives of one array, or finds the invalid one |
| CustomTypes.Convert | src/opcua_codec_impl.h:38-74 | succeeds exactly on ending lists of good nodes, and then mirrors the list in length and node by node |
| AsyncProofs.StepKeeps | src/opcua_callbacks_impl.h:906-985 | every enabled step is safe and keeps the invariant, whatever is on the stack |
| AsyncProofs.RunKeeps | src/opcua_callbacks_impl.h:906-1113 | every reachable state satisfies the invariant |
| AsyncProofs.ReferencesAreExact | src/opcua_callbacks_impl.h:906-985 | in every reachable state references equal pending native plus submission and completion frames plus pins, and are not zero |
| AsyncProofs.NothingFreedIsUsed | src/opcua_callbacks_impl.h:906-1113 | no step touches a freed operation or drops a zero count, under any nesting |
| AsyncProofs.FreedExactlyOnce | src/opcua_callbacks_impl.h:906-917 | every operation is live or freed, never both, never twice; at rest all are freed and the registry is empty |
| AsyncProofs.PassVisitsInOrder | src/opcua_callbacks_impl.h:1082-1113 | a running pass has dealt with a prefix of the registry it began with and pins exactly the rest, all still live and registered |
| AsyncProofs.PassCancelsMatching | src/opcua_callbacks_impl.h:1101-1105 | a turn cancels natively exactly the operation that is not completed and has the context |
| CancellationPass.LowerFramesStay | src/opcua_callbacks_impl.h:1099-1112 | no action touches a pass that is not on top, and on top only its own loop does |
| CancellationPass.AdvanceUnpins | src/opcua_callbacks_impl.h:1101-1112 | a turn drops no count and stays, or drops exactly the one of the current operation and moves on, or ends |
| CancellationPass.CancelUnpinsItsRegistry | src/opcua_callbacks_impl.h:1082-1113 | from a cancellation to the end of its pass the operations whose counts it drops are exactly the registry at its beginning, in order, and at any moment before a prefix of it, under any nesting |
| AsyncHistory.RegistryIsAccepted | src/opcua_callbacks_impl.h:929-946 | in every reachable state the registry is exactly the operations accepted before they completed and not yet freed, in the order in which their submissions returned |
| AsyncHistory.OperationsAreKnown | src/opcua_callbacks_impl.h:918-928 | every live operation carries the context of its submission and is completed exactly when the native side has completed it |
| AsyncHistory.CancelVisitsTheAccepted | src/opcua_callbacks_impl.h:1082-1113 | a cancellation deals, in order, with exactly the accepted operations that were registered when it began, for its own context, under any nesting |
| AsyncHistory.TurnCancelsByContext | src/opcua_callbacks_impl.h:1101-1105 | at its turn an operation is cancelled natively if and only if it has not completed and its submission gave the context |
| AsyncRegistry.Registry.Append | src/opcua_callbacks_impl.h:938-942 | walking to the last slot appends |
| AsyncRegistry.Registry.Unlink | src/opcua_callbacks_impl.h:910-915 | the slot walk removes exactly the operation, and leaves an unlisted one alone |
| AsyncRegistry.Registry.PinAll | src/opcua_callbacks_impl.h:1092-1097 | every listed operation gains one reference and the last one is returned |
| AsyncRegistry.Registry.Unref | src/opcua_callbacks_impl.h:906-917 | the last reference unlinks and frees, any other only counts down |
| ConnectionProofs.StepKeeps | src/opcua_eventloop_impl.h:689-763 | from the invariant every enabled step is safe, whatever is on the stack, and keeps it unless it lets a tag be inherited |
| ConnectionProofs.InheritingBreaks | src/opcua_eventloop_impl.h:701-747 | a step that lets a tag be inherited leaves the registration's count one short of what will be released |
| ConnectionProofs.ExactIffNeverInherits | src/opcua_eventloop_impl.h:689-763 | counts are exact after every action of a run if and only if no connection of it is announced on one that carries the failure tag |
| ConnectionProofs.RunKeeps | src/opcua_eventloop_impl.h:689-831 | every state reached without an inherited tag satisfies the invariant |
| ConnectionProofs.CountsAreExact | src/opcua_eventloop_impl.h:184-209 | a registration's count is open frame, running dispatches, slots and rejected connections not yet closed; a slot's is its place in the list and running dispatches |
| ConnectionProofs.NothingFreedIsUsed | src/opcua_eventloop_impl.h:689-763 | no step touches a freed slot or registration, even when a close arrives inside another callback |
| ConnectionProofs.FreedExactlyOnce | src/opcua_eventloop_impl.h:184-196 | registrations and slots are live or freed exactly once; with nothing running and nothing open all are freed |
| ConnectionHistory.NewConnectionGetsSlot | src/opcua_eventloop_impl.h:716-741 | an announced connection gets a slot if and only if it is the first of its registration or one can be allocated, and is otherwise rejected with the failure tag |
| InheritedTag.InheritedTagFreesEarly | src/opcua_eventloop_impl.h:701-747 | a concrete run in which a registration is freed under the slot of another connection, whose next event reaches it |
| PrematureFree.MissingReferenceIsReached | src/opcua_eventloop_impl.h:184-196 | from any state with one reference missing, letting calls return and closing connections reaches the freed registration |
| PrematureFree.FreedIsReachableIffInherits | src/opcua_eventloop_impl.h:689-763 | after any run without inherited tags, an action makes it possible to reach freed memory if and only if it announces a connection on one that carries the failure tag |
| LuaAllocator.TotalUpdate | src/lua_runtime.c:196-208 | changing one block changes the live bytes by the difference of its sizes |
| LuaAllocator.Allocator.CanGrow | src/lua_runtime.c:170-194 | refuses exactly a growth that would pass a non-zero cap; the old size counts as nothing when the count is below it |
| LuaAllocator.NeverSaturates | src/lua_runtime.c:179-206 | in every valid state the count covers each live block, so with true old sizes neither saturating branch is taken |
| LuaAllocator.Allocator.Alloc | src/lua_runtime.c:210-228 | used stays the sum of live sizes and within the cap; fails exactly on refusal or at the cap, changing no block |
| LuaAllocator.Allocator.Release | src/lua_runtime.c:276-284 | exactly that block goes and the count follows |
| LuaAllocator.Allocator.CopyOver | src/lua_runtime.c:262-273 | allocate, copy, free keeps the same promise as the user's reallocation |
| LuaAllocator.Allocator.Realloc | src/lua_runtime.c:230-292 | the common prefix survives in both forms, other blocks are untouched, a failed growth changes no block, accounting stays exact |
| LuaFacade.Runtime.Duplicate | src/lua_runtime.c:294-313 | a fresh block with the text and its terminator, or nothing |
| LuaFacade.Runtime.FreeBlocks | src/lua_runtime.c:315-328 | the four blocks of a chunk are freed, each with its allocated size |
| LuaFacade.Runtime.ClearChunks | src/lua_runtime.c:330-343 | every chunk is freed once |
| LuaFacade.Runtime.SetError | src/lua_runtime.c:345-370 | the old text is freed with its true size and the message is held exactly when the memory function and the cap allow; otherwise the result is an allocation error and the short text is held exactly when that can be had, else none; nothing leaks |
| LuaFacade.Runtime.LuaRuns | src/lua_runtime.c:286-292 | any use Lua makes of its allocation function keeps accounts and ownership |
| LuaFacade.Runtime.Register | src/lua_runtime.c:1462-1521 | all or nothing: it succeeds exactly when its four blocks can be had and the protected call accepts, and then adds one chunk with the given names and source; failure leaves the chunks and leaks no block |
| LuaFacade.Runtime.Destroy | src/lua_runtime.c:1147-1163 | no block is left live, each freed with its allocated size, the record last through a copy of the allocator |

## Left out

- Samples are real numbers, so NaN and infinite samples are not modelled; the source only compares magnitudes with a threshold.
- Callbacks that call back into the segmenter they were called from; a callback here may only answer and read the segment.
- Failures of the spool file and of memory allocation in the audio code end a run and are not modelled; null arguments neither.
- Wrap-around of the segment number after 2^64 segments.
- UrlWindow.UrlSource.Progress: the network is a finite script of arriving chunks and verdicts, and its end is the end of the stream; curl, headers and format detection are not modelled.
- Capture.Process.Read: processes, devices and clocks are not modelled, and capacities are small enough that twice their value does not overflow. A call that ends in a read error loses the samples it had decoded, as in the source.
- TypeLayouter.Group.LayOutAll: which error code is reported for a rejected group is not specified, and allocation failure is not modelled.
- Resolution of member type pointers to types of the group or to known types (`cpkt_dynamic_member`, `cpkt_from_native`, the normalisation pass of the import, the type scope stack): members are given resolved.
- LayoutSoundness.MemberIsSound: assumes that no rounded member offset overflows, the condition that MemberAdvancesIffFits shows to be exact member by member.
- CustomTypes.Convert: allocation failure; a valid type is represented by the native descriptor it validates to.
- The async and connection machines are models on values: pointers are names that are never reused. Server destruction, loop and manager depth counters, user contexts and results, and the refresh hook of the submission are not modelled.
- LuaFacade.Runtime.Register: argument checks are left out and the protected Lua call is any sequence of allocations followed by a verdict; the failure path of creating a runtime is not modelled, and the sizes of the two C records are parameters.
- Lua stack handling, coroutine hooks and instruction limits rest on Lua internals.
- Timers, subscriptions and monitored items follow the same counting pattern and would repeat the two lifetime machines.
- GSSAPI, OPC UA client, attribute, value, node, browse, event, configuration and discovery code: argument checks and copies around other libraries.
- MP3 decoding is another library's; the tag skip in front of it would only add an easy member.
