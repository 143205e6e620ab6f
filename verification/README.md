# Verified models of the state machines and codecs in Chromium's base/

This project models the parts of `base/` that keep delicate state, and proves what they are for: the
streaming hashes, the reentrant and threaded containers, the pickle format, command lines and their
quoting, lazy construction, the path cache, environment blocks, the id map and the uniform generator.
A class of the source that updates its fields is a class here, its loops are loops, and every such
method is proved against a specification; the theorems are about those specifications, for every input
and for every run. Protocols that interleave threads are state machines over their atomic steps. What a
specification says is in turn stated without it: as the digits of a number, as the characters of a name, as
what one call leaves behind, and as the answers that the unit tests of `base/` ask for.

The machine is little-endian with a 64-bit `size_t`; atomics and locked sections are single steps in one
global order. Fixed-width wrap-around is written out wherever the source depends on it.

| file | models |
|---|---|
| `ObserverList.dfy` | the list of observers: nulled slots, nested iterators, compaction, destruction during iteration |
| `ObserverListThreadSafe.dfy`, `ObserverListThreadSafeRuns.dfy`, `ObserverListThreadSafePasses.dfy`, `ObserverListThreadSafeCalls.dfy` | one context per thread, posted notifications, the manual deletion of contexts, whom a notification calls, and what each call comes to |
| `CallbackList.dfy` | subscriptions on a linked list, and passes that outlive their nodes |
| `IdMap.dfy` | deferred removal and owned pointers |
| `Md5.dfy`, `Sha1.dfy`, `Blocks.dfy`, `BitIdentities.dfy` | the hashes, with RFC 1321 and FIPS 180-3 written out as functions |
| `Md5KnownAnswers.dfy`, `Sha1KnownAnswers.dfy` | the digests that the unit tests and the standards give, worked out from those functions |
| `Pickle.dfy`, `PickleImages.dfy` | the growing buffer, the bounded iterator, framing; and what the bytes of each field are |
| `ArgvQuoting.dfy`, `RawNames.dfy`, `ReadSizes.dfy`, `QuotingAnswers.dfy` | the quoter, the rules that read it back, how much they can get out of a line, and both in characters |
| `CommandLine.dfy`, `CommandLineForms.dfy`, `AppendedSwitches.dfy`, `CommandLineRoundTrips.dfy` | the partitioned argument vector, its switches in characters, what an appended switch is read as, and the arguments string read back |
| `LazyInstance.dfy` | construction by one of many threads |
| `PathService.dfy` | overrides, providers that call back, the cache |
| `Environment.dfy` | both versions of `AlterEnvironment` |
| `RandUtil.dfy` | rejection sampling |
| `Arithmetic.dfy`, `Sequences.dfy`, `Strings.dfy`, `Optional.dfy` | what several modules share |

## Where the code and what is said about it differ

The model follows the code. Each difference is a lemma.

- `callback_list.h`: a callback added during a pass is delivered by that pass exactly when it was added while
  the callback of a node other than the last was running; with the last node's callback the iterator is at the
  end already (`AddedIsDelivered`, `AddedWhileRunning`, `AtEndExactly`; `AddedByLastIsMissed` is a run).
- `callback_list.h:189`: when the list is compacted the removal callback runs once for every node from the
  first reset one on. That is once exactly when the last node is the only reset one (`RemovalRunsOnce`;
  `RemovalRunsTwice` is a list for which it is not).
- `observer_list_threadsafe.h:222-227`: the comment says that a list removed and added again is not
  notified by an old task. The check compares addresses. That is safe even when the allocator hands an
  address out again, but then the old task does notify the new list: a task that passes the check finds the
  context it was posted for exactly when none was allocated at its address in between
  (`PassedTaskIsCurrent`; `OldTaskReachesNewContext` is a run).
- `pickle.h:30-31` says nothing can be read after a failed read. That is so exactly unless `ReadString16`
  finds a length that overflows, or `ReadLength` a negative one, with more bytes behind it
  (`FailureEndsReading`; `OverflowingLengthReadsOn` and `NegativeLengthReadsOn` read on).
- `pickle.h:68-69`: `SkipBytes`, documented to do nothing when it fails, moves to the end unless it is there
  already (`FailedSkipMoves`; `SkipOfTwoTakesOne`).
- `command_line.cc`: an argument that is empty, or that has tabs and nothing else that needs quotes, is
  written without quotes and does not read back (`QuotedLineRoundTrips`, `EmptyArgumentIsLost`). The name of a
  switch is written without quotes as well, and does not read back if it has a blank or a quote
  (`ArgumentsStringRoundTrips`, `LineRoundTrips`, `RawIsLost`). A switch `name=` whose name is only a prefix or
  ends in whitespace is stored as something that reads differently; `--=` becomes the terminator (`ReadingAgain`,
  `EmptyNameBecomesTerminator`). A switch that was appended is read with another key or value exactly when its
  name has a `=`, or its value, or the key if there is no value, is empty or ends in whitespace; one whose key is
  only whitespace and has no value is not read as a switch (`AppendedReadsAsSwitch`, `BlankIsLost`,
  `BlankIsTerminator`).
- `id_map.h:119-120`: `Clear` on a map of external pointers does nothing when no iterator is alive
  (`ClearsExactly`, `ExternalPointerStays`).
- `path_service.cc:203-227`: a `Get` that is between its two locked sections while an override is set
  caches the old path (`OverlapGoesStale`). An override that is set there and dropped again can be seen by the
  `Get` of a provider, so that a wrong path is cached as well (`SetAndDropGoesStale`). Each `Get` of a provider
  reads the cache and the overrides of its own moment. On any number of threads a rule about which calls may
  return to an enabled cache keeps every cached path right, whatever the providers are, if and only if it admits
  only calls for which the overrides were those that they left in every state between their two sections
  (`RightExactly`, `SteadyIsRight`).
- `environment.cc`: applying a change whose key has a `=` a second time adds its line again, unless the
  part before the `=` is a changed key as well (`AlterIsIdempotent`, `EqualsInKeyIsAddedAgain`).
- `rand_util.cc:22`: for ranges above 2^31 the addition leaves the range of `int`; the result is right only
  because it wraps (`AdditionWrapsExactly`).

## Model

| member | source | states |
|---|---|---|
| ObserverLists.ObserverList.AddObserver | src/base/observer_list.h:155-163 | the vector becomes the specified one; `AddedPresent` says what that is |
| ObserverLists.AddedPresent | src/base/observer_list.h:155-163 | a new observer comes last, one that is there already changes nothing, and no observer is there twice |
| ObserverLists.ObserverList.RemoveObserver | src/base/observer_list.h:165-176 | nulls or erases the slot; `RemovedPresent` says what is left |
| ObserverLists.RemovedPresent | src/base/observer_list.h:165-176 | the observers left are those before without the removed one, in order, whether its slot was nulled or erased |
| ObserverLists.ClearedPresent | src/base/observer_list.h:188-198 | nothing is present after Clear, and with iterators no slot has moved |
| ObserverLists.ObserverList.HasObserver | src/base/observer_list.h:178-186 | true exactly for the observers present |
| ObserverLists.ObserverList.Clear | src/base/observer_list.h:188-198 | every slot is nulled while there are iterators, else the vector is empty |
| ObserverLists.ObserverList.Destroy | src/base/observer_list.h:65 | the iterators' weak pointers find the list gone, and nothing else changes |
| ObserverLists.ObserverList.Compact | src/base/observer_list.h:200-205 | the vector holds exactly the observers that were present, in order, and no null |
| ObserverLists.Iterator.constructor | src/base/observer_list.h:127-135 | the depth grows by one; the pass is bounded by the size only under NOTIFY_EXISTING_ONLY |
| ObserverLists.Iterator.End | src/base/observer_list.h:137-141 | the last iterator compacts a list that is still alive; a destroyed list is not touched |
| ObserverLists.Iterator.GetNext | src/base/observer_list.h:143-153 | the first observer from the index on within the bound, or null, and null once the list is destroyed |
| ObserverLists.AdvancedAhead | src/base/observer_list.h:143-153 | GetNext takes the head of the observers still ahead, and nothing is ahead when it returns null |
| ObserverLists.StepRefines | src/base/observer_list.h:127-205 | each operation, with any iterators alive, does to every iterator what it does to a queue, and GetNext gives the queue's answer |
| ObserverLists.EveryRunRefines | src/base/observer_list.h:127-239 | over every run of add, remove, clear, nested iteration and destruction the list is the registered observers in order, each once, without nulls at depth 0, the depth counts the iterators, and all answers are those of the queues |
| ObserverLists.OpsEnabled | src/base/observer_list.h:127-198 | in every run every operation is possible at any time, and of a destroyed list those of its iterators |
| ObserverLists.SlotsPinned | src/base/observer_list.h:155-198 | while an iterator is alive a slot is only nulled, never moved, and new ones come last |
| ObserverLists.AheadChanges | src/base/observer_list.h:127-198 | after any run, an operation changes what is ahead of an iterator just so: everything present when it is made, a new observer at the end under NOTIFY_ALL, less what is removed or cleared, and its tail at GetNext |
| ObserverLists.AnswersAreRegistered | src/base/observer_list.h:143-153 | GetNext returns only an observer registered at that moment |
| ObserverLists.DroppedWasWithdrawn | src/base/observer_list.h:165-198 | a pass loses an observer only by an operation that took it off the list before it was reached |
| ObserverLists.ExistingOnlyPass | src/base/observer_list.h:73-75 | in every run a NOTIFY_EXISTING_ONLY pass that is over has delivered, in order, exactly the observers at its start that were not removed before, in at most as many calls |
| ObserverListsThreadSafe.StepKeeps | src/base/observer_list_threadsafe.h:108-251 | every locked section and every step between them, on any thread and inside callbacks, keeps the invariant of contexts, frames, map and tasks |
| ObserverListsThreadSafeRuns.EveryRunIsSafe | src/base/observer_list_threadsafe.h:108-251 | in every interleaving no context is used after it was deleted and none is deleted twice; a context that is deleted leaves no pointer to it in any frame of any thread, so also not to what is put at its address later; after destruction none is left |
| ObserverListsThreadSafeRuns.UnmappedIsOwned | src/base/observer_list_threadsafe.h:145-157 | a context that is out of the map but not deleted belongs to a function running on its own thread |
| ObserverListsThreadSafeRuns.DeletedWhenUnused | src/base/observer_list_threadsafe.h:152-157 | a context is deleted only by its thread, out of the map, empty, with no iterator of any thread on it |
| ObserverListsThreadSafeRuns.CallsRegistered | src/base/observer_list_threadsafe.h:230-235 | a callback reaches an observer only on the thread that added it and only while it is registered |
| ObserverListsThreadSafeRuns.NotifyReachesRegistered | src/base/observer_list_threadsafe.h:177-187 | Notify posts a task for the current context of a registered observer's thread exactly unless that thread has just taken the context out of the map to remove the last observer from it |
| ObserverListsThreadSafeRuns.PassedTaskIsCurrent | src/base/observer_list_threadsafe.h:216-228 | over a run from the Notify that posts a task to a delivery that passes the check, it finds the context it was posted for exactly if no context was made at that address in between |
| ObserverListsThreadSafeRuns.OldTaskReachesNewContext | src/base/observer_list_threadsafe.h:222-227 | a run in which a task posted for one context calls the observer of another one, made later at its address |
| ObserverListsThreadSafePasses.NotifyWrapperCalls | src/base/observer_list_threadsafe.h:216-251 | a NotifyWrapper that has left its loop has called, first and in order, every observer in its context when it began that was not taken out before it was reached, whatever the callbacks and the other threads did; and under NOTIFY_EXISTING_ONLY nothing else |
| ObserverListsThreadSafePasses.StayingIsCalled | src/base/observer_list_threadsafe.h:216-251 | so every observer that was in the context when it began and is not removed until it leaves the loop has been called |
| ObserverListsThreadSafePasses.StepWatch | src/base/observer_list_threadsafe.h:108-251 | every step of every thread leaves a running NotifyWrapper with exactly the observers ahead that are left from its start and were added since, and it leaves the loop only when none is |
| ObserverListsThreadSafePasses.LostWasRemoved | src/base/observer_list_threadsafe.h:130-157 | an observer is lost to it only by a RemoveObserver of its own thread from that context |
| ObserverListsThreadSafe.DestructFreesAll | src/base/observer_list_threadsafe.h:206-208 | with nothing running, every context is in the map and the destructor frees all |
| ObserverListsThreadSafeCalls.AddRegisters | src/base/observer_list_threadsafe.h:114-122 | AddObserver on a thread with a message loop, whether it has a context or gets one, leaves the observer last among those of the thread's context in the map, registered there, and nothing else changed for the thread |
| ObserverListsThreadSafeCalls.AddNeedsLoop | src/base/observer_list_threadsafe.h:111-112 | without a message loop it does nothing |
| ObserverListsThreadSafeCalls.RemoveUnregisters | src/base/observer_list_threadsafe.h:130-157 | RemoveObserver leaves the observer on no list of its thread and unregistered, the others of the context in order; the context is out of the map if that was its only slot, and deleted if there is no iterator either |
| ObserverListsThreadSafeCalls.RemoveNeedsContext | src/base/observer_list_threadsafe.h:136-141 | on a thread without a context it does nothing |
| ObserverListsThreadSafeCalls.CallsAllowed | src/base/observer_list_threadsafe.h:108-187 | a thread may call in at any time when it runs nothing of the list, or a callback, and what it runs goes on at any time |
| ObserverListsThreadSafeCalls.NotifyPostsOnce | src/base/observer_list_threadsafe.h:177-186 | Notify posts exactly one task more for each context in the map, none for others, and does nothing else |
| ObserverListsThreadSafeCalls.TaskIsTaken | src/base/observer_list_threadsafe.h:214-215 | a posted task can be taken exactly when its thread runs nothing of the list, or a callback |
| ObserverListsThreadSafeCalls.TaskIsDropped | src/base/observer_list_threadsafe.h:180-185 | a task that its message loop drops is gone, and nothing else happens |
| ObserverListsThreadSafeCalls.DeliverStarts | src/base/observer_list_threadsafe.h:216-228 | it is taken once, and NotifyWrapper goes on, on top of what the thread is in, exactly if its context is the one in the map for the thread |
| ObserverListsThreadSafeCalls.LoopStarts | src/base/observer_list_threadsafe.h:231 | with the observers of the context ahead |
| ObserverListsThreadSafeCalls.LoopCalls | src/base/observer_list_threadsafe.h:231-234 | a step of the loop calls the next of those ahead, or ends the loop exactly if there is none |
| ObserverListsThreadSafeCalls.CallReturns | src/base/observer_list_threadsafe.h:233-234 | after a callback it goes on where it was |
| ObserverListsThreadSafeCalls.WrapperEnds | src/base/observer_list_threadsafe.h:238-250 | behind the loop a context without slots leaves the map, if it is still in it, and is deleted; else nothing happens |
| ObserverListsThreadSafeCalls.IdleThread | src/base/observer_list_threadsafe.h:98-264 | a thread that runs nothing of the list has a context exactly if it has observers, only the one in the map, with just them |
| ObserverListsThreadSafeCalls.EveryKindAgrees | src/base/observer_list_threadsafe.h:194-197 | in every run each context has a list of the kind that the whole list was made with |
| Md5.FastStepIsStep | src/base/md5.cc:53-60 | a step with the optimised functions and the reordered sum is the step of section 3.4 of RFC 1321 |
| Md5.FastStepsAreSteps | src/base/md5.cc:53-147 | any number of them is that many steps of the table-driven definition |
| Md5.Round1 | src/base/md5.cc:75-90 | the unrolled steps with rotating register arguments are steps 1 to 16 |
| Md5.Round2 | src/base/md5.cc:92-107 | steps 17 to 32 |
| Md5.Round3 | src/base/md5.cc:109-124 | steps 33 to 48 |
| Md5.Round4 | src/base/md5.cc:126-141 | steps 49 to 64 |
| Md5.MD5Transform | src/base/md5.cc:67-147 | the chaining value becomes that of section 3.4 for every state and block |
| Md5.ByteReverse | src/base/md5.cc:40-48 | on a little-endian machine the buffer is unchanged |
| Md5.CountersAdd | src/base/md5.cc:178-183 | the two 32-bit counters with their carry stay 8 times the total length modulo 2^64 |
| Md5.OffsetFromCounter | src/base/md5.cc:185 | the low counter gives the total length modulo 64 |
| Md5.LengthBytes | src/base/md5.cc:254-258 | the bytes of the two counters are the 64-bit length of section 3.2 |
| Md5.LowBytesAt | src/base/md5.cc:254-258 | byte i of the length is its digit i to the base 256 |
| Md5.Context.Init | src/base/md5.cc:157-165 | the context of the empty message |
| Md5.Context.Update | src/base/md5.cc:171-217 | the context stays that of the bytes consumed: chaining value over the full blocks, counters, and just the tail in the buffer |
| Md5.Context.Pad | src/base/md5.cc:228-260 | padding in one block or two, with the length, gives the chaining value over the padded message |
| Md5.PaddedInOne | src/base/md5.cc:248-251 | when the padding fits one block, what is hashed is the padded message of sections 3.1 and 3.2 |
| Md5.PaddedInTwo | src/base/md5.cc:240-247 | likewise when it spills into a second block |
| Md5.Context.Final | src/base/md5.cc:223-264 | the digest of everything consumed; all fields are zero afterwards |
| Md5.Context.IntermediateFinal | src/base/md5.cc:266-272 | the digest so far, with the context unmodified |
| Md5.HashChunks | src/base/md5.cc:157-264 | for every message and every way of cutting it into chunks, the digest that RFC 1321 defines for the whole |
| Md5.MD5Sum | src/base/md5.cc:289-294 | the digest of the data |
| Md5KnownAnswers.InitialBytes | src/base/md5.cc:157-165 | the registers of the empty message lie in memory as section 3.3 of RFC 1321 lists them |
| Md5KnownAnswers.DigestOfAbc | src/base/md5_unittest.cc:157-161 | the digest of "abc", which HashChunks computes however it is cut |
| Md5KnownAnswers.DigestOfTwoBlocks | src/base/md5_unittest.cc:183-190 | the digest of the 80 digits of appendix A.5 |
| Sha1.FIsFt | src/base/sha1_portable.cc:66-76 | the OR forms of Ch and Maj are the XOR forms of section 4.1.1 of FIPS 180-3 |
| Sha1.SwapReverses | src/base/sha1_portable.cc:94-96 | a swapped word lies in memory as its big-endian bytes |
| Sha1.BytesOfUpdated | src/base/sha1_portable.cc:57-60 | storing a byte of M in the aliased words appends it to the bytes before it |
| Sha1.SwappedIsScheduled | src/base/sha1_portable.cc:166-167 | a swapped word of the aliased block is the word of the schedule |
| Sha1.SecureHashAlgorithm.Expand | src/base/sha1_portable.cc:160-171 | W becomes the message schedule of the block that M held, overwriting it |
| Sha1.SecureHashAlgorithm.Process | src/base/sha1_portable.cc:157-198 | H becomes the hash value of section 6.1.2 for that block |
| Sha1.SecureHashAlgorithm.Init | src/base/sha1_portable.cc:100-113 | the state of the empty message |
| Sha1.SecureHashAlgorithm.Update | src/base/sha1_portable.cc:123-131 | the state stays that of the bytes consumed; only bytes written since the last Process are used |
| Sha1.SecureHashAlgorithm.PutLength | src/base/sha1_portable.cc:147-154 | the eight shifted bytes are the big-endian length |
| Sha1.BigEndianAt | src/base/sha1_portable.cc:147-154 | byte k of the length, from its end, is its digit k to the base 256 |
| Sha1.SecureHashAlgorithm.Pad | src/base/sha1_portable.cc:133-155 | the last block, after one for the spill if need be, completes the padded message of section 5.1.1 |
| Sha1.SecureHashAlgorithm.Final | src/base/sha1_portable.cc:115-121 | H lies in memory as the digest of everything consumed |
| Sha1.HashChunks | src/base/sha1_portable.cc:100-131 | for every message and every way of cutting it into chunks, the digest that FIPS 180-3 defines for the whole |
| Sha1.SHA1HashBytes | src/base/sha1_portable.cc:207-214 | the digest of the data |
| Sha1KnownAnswers.DigestOfAbc | src/base/sha1_unittest.cc:12-25 | the digest of "abc", which HashChunks computes however it is cut |
| Sha1KnownAnswers.DigestOfTwoBlocks | src/base/sha1_unittest.cc:27-41 | the digest of the 56 letters whose padding takes a second block |
| Pickles.Align | src/base/pickle.h:265-268 | the least multiple of 4 or 64 that is not less |
| Pickles.Pickle.constructor | src/base/pickle.cc:212-230 | an empty payload of capacity 64 behind an aligned header |
| Pickles.Pickle.Around | src/base/pickle.cc:232-249 | refers to the data with the deduced header size, or to nothing |
| Pickles.DeduceHeader | src/base/pickle.cc:237-244 | the header size, in unsigned arithmetic that wraps |
| Pickles.AcceptedExactly | src/base/pickle.cc:237-248 | data of at least 4 bytes is accepted exactly when its payload size is less than its length by a multiple of 4, and is then one frame |
| Pickles.Pickle.CopyOf | src/base/pickle.cc:251-259 | a deep copy with the same data and just the capacity for it, of any pickle that has a header, also one around foreign data |
| Pickles.Pickle.Resize | src/base/pickle.cc:323-331 | a multiple of 64 that is large enough, with what was there |
| Pickles.Pickle.Reserve | src/base/pickle.cc:311-321 | room for the length, with the capacity that the source asks for, the payload unchanged |
| Pickles.Pickle.WriteBytesCommon | src/base/pickle.cc:358-378 | appends the bytes and zeros up to a multiple of 4; offset, stored size, capacity and growth are as specified |
| Pickles.Pickle.WriteNumber | src/base/pickle.h:294-298 | appends the field of a number of any width, whose bytes `PickleImages.FieldImage` states |
| Pickles.Pickle.WriteInt | src/base/pickle.h:168-170 | appends the field of an int |
| Pickles.Pickle.WriteBool | src/base/pickle.h:165-167 | appends a bool as an int |
| Pickles.Pickle.WriteBytes | src/base/pickle.cc:306-309 | appends bytes without their length |
| Pickles.Pickle.WriteSized | src/base/pickle.cc:287-292 | appends the length and the bytes of a string |
| Pickles.Pickle.WriteData | src/base/pickle.cc:302-304 | the same for data, and for a negative length false with the pickle unchanged |
| Pickles.Pickle.WriteString16 | src/base/pickle.cc:294-300 | appends the number of units and their bytes |
| Pickles.PickleIterator.constructor | src/base/pickle.cc:21-25 | the whole payload is unread, of any pickle however it was made |
| Pickles.PickleIterator.Advance | src/base/pickle.cc:39-46 | moves by the aligned size, not beyond the end |
| Pickles.PickleIterator.GetReadPointerAndAdvance | src/base/pickle.cc:48-68 | a pointer to exactly the requested unread bytes, inside the payload, or null at the end |
| Pickles.PickleIterator.ReadNumber | src/base/pickle.cc:27-37 | the number that the next bytes stand for, as `PickleImages.ReadImage` states, or failure at the end |
| Pickles.PickleIterator.ReadBool | src/base/pickle.cc:81-83 | whether the next byte is not zero |
| Pickles.PickleIterator.ReadLength | src/base/pickle.h:64-66 | as an int, failing on a negative one |
| Pickles.PickleIterator.ReadBytes | src/base/pickle.cc:202-208 | the next bytes, or failure at the end |
| Pickles.PickleIterator.SkipBytes | src/base/pickle.h:68-72 | behind the next bytes, or at the end |
| Pickles.PickleIterator.ReadSized | src/base/pickle.cc:143-153 | a length and that many bytes |
| Pickles.PickleIterator.ReadString16 | src/base/pickle.cc:167-177 | a length and that many units, with the check for overflow |
| PickleImages.ToBytesAt | src/base/pickle.h:294-298 | byte i of a number is its digit i to the base 256 |
| PickleImages.FromBytesAt | src/base/pickle.cc:27-37 | the number that bytes stand for has just them as digits |
| PickleImages.WrappedIsCongruent | src/base/pickle.h:168-186 | a negative number is stored as its two's complement: congruent modulo the width, and not negative |
| PickleImages.UnwrappedIsCongruent | src/base/pickle.cc:85-117 | what is read is in the range of its type and congruent to the bytes |
| PickleImages.Limits | src/base/pickle.h:165-200 | the ranges of the 16-, 32- and 64-bit types |
| PickleImages.WritableIs | src/base/pickle.h:165-225 | the fields that the theorems are about are all numbers of the type and all lengths that an int can hold |
| PickleImages.SizeFieldIs | src/base/pickle.cc:376 | the size in a header is the number of its first four bytes, lowest first |
| PickleImages.UnitBytesAt | src/base/pickle.cc:294-300 | unit i of a String16 lies at byte 2 * i, low byte first |
| PickleImages.BytesUnitsAt | src/base/pickle.cc:167-177 | and is read from there |
| PickleImages.FieldImage | src/base/pickle.cc:287-309 | every byte of every field: digits, lengths before contents, zeros up to a multiple of 4 |
| PickleImages.ReadImage | src/base/pickle.cc:27-208 | what each read makes of any bytes, written by a pickle or not, and what it leaves unread |
| Pickles.FieldRoundTrips | src/base/pickle.cc:27-208 | whatever follows, each type reads back as the value written and the reader stands behind it |
| Pickles.StreamRoundTrips | src/base/pickle.h:160-163 | any sequence of typed writes, read in order, gives the same values and ends where it ends |
| Pickles.NothingAfterTheEnd | src/base/pickle.cc:48-68 | at the end no read of a positive number of bytes succeeds |
| Pickles.FailureEndsReading | src/base/pickle.h:29-31 | a failed read leaves nothing to read exactly unless it is a String16 whose length overflows or a negative length, with bytes behind it |
| Pickles.NegativeLengthReadsOn | src/base/pickle.h:64-66 | behind a negative length every field still reads as written |
| Pickles.FailedSkipMoves | src/base/pickle.h:68-72 | a failed SkipBytes moves the iterator exactly unless it is at the end |
| Pickles.OverflowingLengthReadsOn | src/base/pickle.cc:70-79 | behind such a length every field still reads as written |
| Pickles.FramesComeApart | src/base/pickle.cc:334-348 | FindNext over any concatenation of pickles of one header size stops at the end of each, and finds none in a cut-off last one |
| Pickles.FrameFound | src/base/pickle.cc:334-348 | FindNext finds the end of a pickle whatever follows |
| Pickles.PrefixNotFound | src/base/pickle.cc:341-346 | it returns null on every proper prefix of a pickle |
| Pickles.FindNext | src/base/pickle.cc:334-348 | the specified position between two positions of a buffer |
| Pickles.DataIsFrame | src/base/pickle.h:154-158 | the data of a pickle is one frame, and wraps with the header size that it has |
| Pickles.WrappedDataRoundTrips | src/base/pickle.cc:232-249 | fields written behind any header, wrapped as data, read back |
| Pickles.WriteAndRead | src/base/pickle.h:160-163 | any fields written one by one to a Pickle, read in order through a PickleIterator on it: their values, and the iterator at the end |
| Pickles.WriteAmortizes | src/base/pickle.cc:366-371 | a write keeps offset and capacity aligned, and the capacity the unit or below twice the payload |
| Pickles.WritesAmortize | src/base/pickle.cc:358-378 | over every run of writes k growths make the capacity at least 64*2^k, and all of them copied less than the capacity |
| ArgvQuoting.QuoteForCommandLineToArgvW | src/base/command_line.cc:110-155 | the quoted form that the theorems are about |
| ArgvQuoting.BodyForm | src/base/command_line.cc:124-151 | a run of backslashes is doubled before a quote or the end, and kept elsewhere |
| ArgvQuoting.BodyParses | src/base/command_line.cc:124-152 | inside the quotes every text reads back as it was, up to the closing quote |
| ArgvQuoting.QuotedDelivers | src/base/command_line.cc:124-154 | quoted, an argument is read as itself wherever it stands, also behind an unquoted `name=` |
| ArgvQuoting.QuoteDelivers | src/base/command_line.cc:119-154 | what a reader finds where an argument was written: itself, or its tab-separated pieces if it was left unquoted |
| ArgvQuoting.DeliveredFits | src/base/command_line.cc:119-122 | it finds exactly the argument if and only if that was quoted or is nonempty and free of tabs |
| ArgvQuoting.QuotedLineRoundTrips | src/base/command_line.cc:110-155 | space-joined quoted arguments read by the rules of CommandLineToArgvW give back the list if and only if each of them is of that kind |
| QuotingAnswers.StaysExactly | src/base/command_line.cc:114-122 | an argument stays as it is exactly if it has no space, backslash or double quote, and no percent sign where placeholders are quoted |
| QuotingAnswers.QuotesAround | src/base/command_line.cc:124-154 | any other is put between double quotes |
| QuotingAnswers.BodyOrdinary | src/base/command_line.cc:148-150 | text without backslashes and double quotes is kept |
| QuotingAnswers.BodyQuote | src/base/command_line.cc:145-147 | a double quote gets a backslash |
| QuotingAnswers.BodyBackslashes | src/base/command_line.cc:127-144 | backslashes are doubled in front of a double quote and at the end, and kept elsewhere |
| QuotingAnswers.TrickyIsQuoted | src/base/command_line_unittest.cc:288-296 | the tricky argument of the tests is written as they expect |
| QuotingAnswers.TrickyIsRead | src/base/command_line_unittest.cc:16-25 | and what they write in a command line is read as it |
| CommandLines.TrimExactly | src/base/command_line.cc:78 | trimming takes away all whitespace at the ends and nothing else |
| CommandLineForms.SpacesAre | src/base/strings/string_util_constants.cc:9-53 | whitespace is what the tables list, the Unicode one on Windows |
| CommandLineForms.LowerIs | src/base/command_line.cc:96-105 | on Windows the capital ASCII letters of a name become small ones, and nothing else changes |
| CommandLineForms.CaseIsOneKey | src/base/command_line.cc:308-325 | on Windows names that differ only in case are stored alike, and the later value is the one in the map |
| CommandLineForms.OtherNameIsOtherKey | src/base/command_line.cc:308-325 | elsewhere two different names without prefixes have different keys |
| CommandLineForms.SwitchIs | src/base/command_line.cc:45-70 | an element is a switch exactly if it starts with `-`, or with `/` where that is a prefix, and is more than a prefix |
| CommandLineForms.KeyIs | src/base/command_line.cc:308-325 | the key is the name in lower case behind its prefix; a name without one is stored with `--` |
| CommandLineForms.ValueIsAppended | src/base/command_line.cc:321-322 | a value is appended behind a `=`, and nothing if it is empty |
| CommandLineForms.SwitchSplit | src/base/command_line.cc:65-69 | an element is split at its first `=` |
| CommandLineForms.ProgramIsTrimmed | src/base/command_line.cc:249-263 | the program is trimmed, and empty if there is no argument vector |
| CommandLines.GetSwitchPrefixLength | src/base/command_line.cc:45-52 | the length of the first prefix that matches |
| CommandLines.CommandLine.AppendSwitchNative | src/base/command_line.cc:308-325 | the switch comes last among the switches, before every argument, and its key has its value |
| CommandLines.CommandLine.AppendArgNative | src/base/command_line.cc:369-371 | the argument comes last |
| CommandLines.CommandLine.AppendSwitchesAndArguments | src/base/command_line.cc:73-94 | all switches in order go to the boundary, all arguments in order to the end |
| CommandLines.CommandLine.InitFromArgv | src/base/command_line.cc:249-255 | a stable partition: program, switches in order, arguments in order, with the boundary index and the map of the switches |
| CommandLines.FiledLastWins | src/base/command_line.cc:316-317 | the map has the value of the last switch with a key |
| CommandLines.FiledKeeps | src/base/command_line.cc:316-317 | switches with other keys leave a key alone |
| AppendedSwitches.AppendedReadsAsSwitch | src/base/command_line.cc:73-94 | trimmed and read by InitFromArgv, what AppendSwitchNative stored is a switch if and only if it has a value or its key is not only whitespace, and has that key and value if and only if its name has no `=` and the value, or the key if there is no value, is not empty and does not end in whitespace |
| AppendedSwitches.BlankIsLost | src/base/command_line.cc:78 | a value that is read without the blank at its end |
| AppendedSwitches.BlankIsTerminator | src/base/command_line.cc:78-82 | a switch named by a blank, which is read as the terminator |
| CommandLines.StableExactly | src/base/command_line.cc:308-325 | a stored switch reads as itself exactly unless it came from `name=` with a name that is only a prefix or ends in whitespace |
| CommandLines.ReadingAgain | src/base/command_line.cc:249-255 | InitFromArgv on its own argv() changes nothing if and only if no element taken as a switch is of that kind |
| CommandLines.EmptyNameBecomesTerminator | src/base/command_line.cc:61-69 | `--=` shows that it can fail |
| CommandLines.CommandLine.GetArgs | src/base/command_line.cc:345-354 | the elements after the boundary without the first terminator |
| CommandLines.ArgsAroundTerminator | src/base/command_line.cc:345-354 | after reading, GetArgs is the arguments in front of the terminator and everything behind it, whatever it looks like; switches come only from in front |
| CommandLineForms.DashDashIsRead | src/base/command_line_unittest.cc:299-303 | the argument vector of AppendSwitchesDashDash, read |
| CommandLineForms.DashDashIsAppended | src/base/command_line_unittest.cc:305-318 | with two switches and an argument appended to it, the vector that the test expects |
| CommandLineForms.SlashSwitchIsRead | src/base/command_line_unittest.cc:103-131 | a switch with a slash and capitals, on Windows and elsewhere |
| CommandLineForms.PosixText | src/base/command_line.cc:424-453 | elsewhere than on Windows every element is written as it is, but a switch without the `=` that ends it |
| CommandLineForms.SwitchText | src/base/command_line.cc:434-443 | on Windows the value of a switch is quoted behind its name |
| CommandLineForms.ArgumentsAreQuoted | src/base/command_line_unittest.cc:189-254 | the arguments of the test as it expects them, the percent sign only with placeholders |
| CommandLineForms.PathSwitchIsWritten | src/base/command_line_unittest.cc:183-231 | and a switch with a path |
| CommandLines.CommandLine.GetArgumentsString | src/base/command_line.cc:424-453 | the elements joined by spaces, values and arguments quoted on Windows |
| ReadSizes.ParseYields | src/base/command_line.cc:424-453 | whatever a line holds, what is read from it, with one for every separator, is no larger than what its characters can give |
| ReadSizes.YieldBody | src/base/command_line.cc:124-152 | what the quoter writes for an argument can give just its characters |
| CommandLineRoundTrips.ArgumentsStringRoundTrips | src/base/command_line.cc:424-453 | for all elements it reads back as the elements if and only if each of them survives: a switch with a name without blanks and quotes, and a value or an argument that is quoted or has nothing to be lost |
| RawNames.RawIsLost | src/base/command_line.cc:434-443 | a switch name with a blank or a quote, written as it is, is never read back, whatever follows it on the line |
| CommandLineRoundTrips.LostIsLess | src/base/command_line.cc:424-453 | if an element does not survive, what is read has fewer characters or is in more parts |
| CommandLineRoundTrips.LostIsMissed | src/base/command_line.cc:424-453 | so the command line that is read is another one |
| CommandLineRoundTrips.LineRoundTrips | src/base/command_line.cc:393-407 | for every argument vector, reading what the arguments string of its command line is read as gives the same command line if and only if every element survives and no element taken as a switch is a dangling `name=` |
| LazyInstances.MaskSound | src/base/lazy_instance.h:105-160 | the created mask tells an address from the two states exactly for words other than 0 and 1 |
| LazyInstances.StepConsistent | src/base/lazy_instance.cc:17-52 | every atomic step of every thread keeps word, places and life of the instance consistent |
| LazyInstances.WordMoves | src/base/lazy_instance.cc:23-47 | the word only goes from 0 to creating, from creating to an address, and back to 0 at exit |
| LazyInstances.EveryRunIsProper | src/base/lazy_instance.h:141-169 | in every interleaving, leaky or not, at most one instance exists at a time, is registered at most once, only its address is returned, and it is destroyed at most once, if it was registered |
| LazyInstances.ReturnedIsConstructed | src/base/lazy_instance.h:141-169 | a returned pointer is that of the only construction since the last destruction, which came before |
| LazyInstances.CallsAgree | src/base/lazy_instance.h:141-169 | two calls with no exit in between return the same pointer |
| LazyInstances.LeakyStays | src/base/lazy_instance.h:90-103 | a leaky instance is constructed at most once, before anything is returned, and never registered or destroyed |
| LazyInstances.FirstCall | src/base/lazy_instance.h:141-169 | a call from its start to its end while nothing exists constructs, registers unless leaky, and returns what it constructed |
| LazyInstances.LaterCall | src/base/lazy_instance.h:152-168 | once it exists, a call returns it at once |
| LazyInstances.WaitingCall | src/base/lazy_instance.cc:17-38 | while another thread constructs it, a call only waits, and then returns it |
| LazyInstances.ExitDestroys | src/base/lazy_instance.h:198-203 | OnExit destroys the instance and leaves the word as at first |
| LazyInstances.NullConstructsTwice | src/base/lazy_instance.h:149-160 | if New could give 0, a second thread would construct again |
| CallbackLists.CallbackList.Add | src/base/callback_list.h:106-110 | the callback comes last |
| CallbackLists.CallbackList.SetRemovalCallback | src/base/callback_list.h:113-115 | whether there is a removal callback from now on |
| CallbackLists.CallbackList.EndSubscription | src/base/callback_list.h:86-94 | resets the node while there are iterators, else erases it and runs the removal callback |
| CallbackLists.CallbackList.Compact | src/base/callback_list.h:178-192 | the callbacks left in order; how often the removal callback runs |
| CallbackLists.RemovalRunsOnce | src/base/callback_list.h:178-192 | it runs exactly once if and only if the last node is the only reset one |
| CallbackLists.RemovalRunsTwice | src/base/callback_list.h:178-192 | a list with one reset node for which it runs twice |
| CallbackLists.Iterator.constructor | src/base/callback_list.h:128-132 | at the first node, or at the end |
| CallbackLists.Iterator.CopyOf | src/base/callback_list.h:134-138 | at the same node, counted as well |
| CallbackLists.Iterator.Finish | src/base/callback_list.h:140-144 | the last one compacts |
| CallbackLists.Iterator.GetNext | src/base/callback_list.h:146-156 | the next callback that was not reset, and the position behind it |
| CallbackLists.AdvancedAhead | src/base/callback_list.h:146-156 | GetNext takes the head of the callbacks ahead |
| CallbackLists.StepSound | src/base/callback_list.h:78-192 | every operation with any passes under way keeps list, subscriptions and passes in step |
| CallbackLists.OpsEnabled | src/base/callback_list.h:78-156 | every operation is possible at any time, and a subscription's end exactly while its callback is on the list |
| CallbackLists.BeginStarts | src/base/callback_list.h:128-132 | a new pass has the callbacks of all living subscriptions ahead, in the order of Add |
| CallbackLists.EveryRun | src/base/callback_list.h:78-222 | in every run the callbacks are, in the order of Add, those of the living subscriptions and nothing else without iterators; GetNext returns only theirs; a pass that is over has delivered, in order, what it started with and was offered, less what was destroyed before |
| CallbackLists.AddedIsDelivered | src/base/callback_list.h:106-110 | over any run to the end of a pass, a callback added during it is delivered exactly if the iterator was not at the end then and its subscription was not destroyed before it was reached |
| CallbackLists.AddedWhileRunning | src/base/callback_list.h:146-156 | so a callback added by a running callback, and kept, is delivered by the pass exactly if the running one was not the last on the list |
| CallbackLists.AtEndExactly | src/base/callback_list.h:151-154 | GetNext leaves the iterator at the end exactly when it returns the last node's callback |
| CallbackLists.EndIsFinal | src/base/callback_list.h:146-156 | at the end a pass is offered and delivers nothing more |
| CallbackLists.AddedByLastIsMissed | src/base/callback_list.h:214-222 | a run in which the callback added by the only callback is not reached |
| IdMaps.IDMap.AddWithID | src/base/id_map.h:75-80 | the entry is put where the table puts it, the others keep their order |
| IdMaps.IDMap.Add | src/base/id_map.h:61-69 | the same under the next id |
| IdMaps.AddTakesNextId | src/base/id_map.h:61-80 | in a run the ids that Add gives count up by one, and ids given by the caller do not change that |
| IdMaps.InsertedExactly | src/base/id_map.h:61-80 | the new entry is there, and without it the entries are the old ones in their order |
| IdMaps.IDMap.Remove | src/base/id_map.h:82-96 | erases and deletes at depth 0, else marks; an unknown id changes nothing |
| IdMaps.RemovedExactly | src/base/id_map.h:82-96 | the id is not live any more and the other live ids are, in order; at depth 0 its entry is gone and an owned pointer deleted, else the entries are as before |
| IdMaps.IDMap.Replace | src/base/id_map.h:103-115 | the new pointer in the place of the old one, which is returned and not deleted |
| IdMaps.ReplacedExactly | src/base/id_map.h:103-115 | the pointer returned is the one the id had, it now has the new one, and other entries and deletions are as before |
| IdMaps.IDMap.Clear | src/base/id_map.h:117-126 | as `ClearsExactly` says |
| IdMaps.ClearsExactly | src/base/id_map.h:117-126 | no live id is left, except in a map of external pointers at depth 0, which is unchanged |
| IdMaps.ExternalPointerStays | src/base/id_map.h:117-126 | a map of external pointers that Clear leaves as it is |
| IdMaps.IDMap.ReleaseAll | src/base/id_map.h:239-248 | deletes every pointer of an owning map once |
| IdMaps.IDMap.Lookup | src/base/id_map.h:133-139 | finds an entry exactly if the id is in the table |
| IdMaps.IDMap.Size | src/base/id_map.h:141-144 | the number of ids that do not wait to be removed |
| IdMaps.IDMap.Compact | src/base/id_map.h:250-257 | in any order, removes just the ids that wait |
| IdMaps.Iterator.constructor | src/base/id_map.h:157-161 | at the first entry that does not wait to be removed |
| IdMaps.Iterator.CopyOf | src/base/id_map.h:163-167 | at the same entry, or the next that does not wait |
| IdMaps.Iterator.Advance | src/base/id_map.h:202-206 | at the next entry that does not wait |
| IdMaps.Iterator.Close | src/base/id_map.h:176-185 | the last one compacts |
| IdMaps.StepSound | src/base/id_map.h:61-257 | every operation with any iterators alive keeps ids, marks, iterators and pointers in step |
| IdMaps.EntriesCanBeAdded | src/base/id_map.h:61-80 | without iterators an entry can be put anywhere in the table while there are ids |
| IdMaps.IteratorsGoOn | src/base/id_map.h:176-206 | an iterator can be closed at any time, and advanced exactly if it is not at the end |
| IdMaps.IteratorsCanBeMade | src/base/id_map.h:157-167 | one can be made or copied at any time |
| IdMaps.OpenStarts | src/base/id_map.h:157-161 | a new iterator is at the first live id, or the end if there is none, and has all live ids to visit |
| IdMaps.EveryRun | src/base/id_map.h:61-257 | in every run the depth counts the iterators, no marks are left at depth 0, size() does not underflow and counts the live ids, an iteration at the end has visited the ids live at its start and not removed before, and every pointer that came in is in the map, deleted or handed back |
| IdMaps.LastCloseCompacts | src/base/id_map.h:183-184 | when the last iterator dies the map has exactly the entries that were not removed, in order |
| IdMaps.DeletedOnce | src/base/id_map.h:48-54 | over a run and destruction an owned pointer is deleted as often as it came in less as often as it was handed back |
| PathServices.PathData.Get | src/base/path_service.cc:182-232 | the answer of the lookup without a cache, with providers that call Get themselves; what is cached is answered from the cache, what is found is cached unless that is disabled, the current directory never; nothing cached is lost or changed; a failed Get leaves its result alone |
| PathServices.PathData.AskProviders | src/base/path_service.cc:205-214 | the path of the first provider that returns true |
| PathServices.PathData.Remember | src/base/path_service.cc:227-229 | stores the path unless the cache is disabled |
| PathServices.PathData.Override | src/base/path_service.cc:242-280 | sets the absolute path and clears the cache, or changes nothing |
| PathServices.PathData.RemoveOverride | src/base/path_service.cc:283-299 | removes it and clears the cache, if there is one |
| PathServices.PathData.DisableCache | src/base/path_service.cc:334-341 | the cache is empty and disabled |
| PathServices.OneAnswer | src/base/path_service.cc:182-232 | the lookup that the cache is judged by has one answer for each key |
| PathServices.DecidedAtOnce | src/base/path_service.cc:188-199 | the current directory and overrides are answered without asking a provider |
| PathServices.FirstFoundDecides | src/base/path_service.cc:205-225 | the path of the first provider that finds one is the answer, made absolute if it has a `..`, and a failure if it is empty |
| PathServices.NoneFoundFails | src/base/path_service.cc:216-217 | if none finds one, Get fails |
| PathServices.AskedIsAnswered | src/base/path_service.cc:209-214 | a provider that calls Get goes on with the answer to that |
| PathServices.NoParentIsLeft | src/base/path_service.cc:219-224 | no path from the providers is returned empty or with a `..`, if absolute paths have none |
| PathServices.StepKeeps | src/base/path_service.cc:193-231 | a locked section of any call, of a thread or of a provider, and any change of the overrides keep every cached path right and every call on the way to the right answer for the overrides it left, if a call that stores is steady: the overrides were those that it left in every state since |
| PathServices.SteadyIsRight | src/base/path_service.cc:193-231 | for all providers, whatever they ask for themselves, and all calls that overlap in any way on any number of threads, every cached path is right in every state if every call that stores is steady |
| PathServices.RightExactly | src/base/path_service.cc:193-231 | a rule on calls that store keeps every cached path right, for all providers and all runs, if and only if it admits only steady calls |
| PathServices.OverridesDecide | src/base/path_service.cc:203-216 | what is found with some overrides is found with others by all providers only if they are the same |
| PathServices.DisabledStaysEmpty | src/base/path_service.cc:227-229 | whatever overlaps, a disabled cache stays empty |
| PathServices.OverlapGoesStale | src/base/path_service.cc:203-229 | a run in which an override set in that gap is hidden by what the Get stores |
| PathServices.SetAndDropGoesStale | src/base/path_service.cc:203-229 | a run in which an override set and dropped in the gap is seen by a provider, and the Get stores a path that is wrong with the overrides before and after |
| Environments.LessAt | src/base/environment.h:53-54 | the changes come in the order of the keys' first different characters, a prefix first |
| Environments.ParseEnvLine | src/base/environment.cc:102-117 | the key of the line in memory, and its length with the terminator |
| Environments.AlterBlock | src/base/environment.cc:144-180 | from any block in memory, the block of the unmentioned lines in order and the nonempty changes in key order |
| Environments.BlockReadsBack | src/base/environment.cc:174-179 | a block reads back as its lines whatever follows it in memory |
| Environments.AlteredReadsBack | src/base/environment.cc:144-180 | the result reads back as the lines it should have, also when there are none |
| Environments.KeptOne | src/base/environment.cc:153-160 | a line is kept exactly if no change has its key |
| Environments.KeptConcat | src/base/environment.cc:151-161 | and so for all lines, one by one, in their order |
| Environments.AddedOne | src/base/environment.cc:164-171 | a change adds its line exactly if its value is not empty |
| Environments.AddedConcat | src/base/environment.cc:163-172 | and so for all changes, in their order |
| Environments.AlterAnswers | src/base/environment_unittest.cc:91-160 | the lines that the tests expect for no change, a change and an empty value |
| Environments.BlockAnswers | src/base/environment_unittest.cc:100-121 | and the blocks |
| Environments.AlterArray | src/base/environment.cc:184-232 | just as many words as the pointers and the lines need; every pointer is in bounds, to its own terminated line, and a null ends them |
| Environments.KeepLines | src/base/environment.cc:191-201 | the kept lines stored one after the other, and where each starts |
| Environments.LayoutFits | src/base/environment.cc:215-229 | pointers at those offsets behind the pointer array make the specified layout |
| Environments.AlterIsIdempotent | src/base/environment.cc:151-172 | a second application changes nothing if and only if the key that each written line reads as is a changed key, so for all keys without `=` |
| Environments.EqualsInKeyIsAddedAgain | src/base/environment.cc:151-172 | a change with `=` in its key, whose line a second application adds again |
| Environments.GetAltered | src/base/environment.h:56-60 | for every key the result has the change, nothing if its value is empty, and else what was there |
| Environments.AlterComposes | src/base/environment.h:56-60 | two applications do for every key what one with the overriding changes does |
| RandUtil.RandGenerator | src/base/rand_util.cc:47-62 | the first acceptable draw modulo the range |
| RandUtil.MaxAcceptable | src/base/rand_util.cc:53-54 | the bound does not underflow, and one more than it is the largest multiple of the range that is used |
| RandUtil.Uniform | src/base/rand_util.cc:47-62 | every result has exactly (2^64-1)/range accepted draws, and these are all accepted draws |
| RandUtil.MostAreAccepted | src/base/rand_util.cc:53-59 | more than half of the draws other than the maximum are accepted, and the maximum never is |
| RandUtil.RandInt | src/base/rand_util.cc:18-26 | min plus the draw modulo the range, between min and max |
| RandUtil.RangeExact | src/base/rand_util.cc:21 | the unsigned 64-bit arithmetic gives max - min + 1 for all pairs |
| RandUtil.ConversionsAreCongruent | src/base/rand_util.cc:21-22 | both conversions keep the number modulo the width and are in the range of their type |
| RandUtil.RandIntIsBijective | src/base/rand_util.cc:18-26 | each number from min to max is the result for exactly one number of the range |
| RandUtil.AdditionWrapsExactly | src/base/rand_util.cc:22 | the signed addition leaves the range of int exactly for draws above INT_MAX |

## Left out

- The threaded list, `LazyInstance` and the overlapping calls of `PathService` are state machines on values:
  allocation is an address that may come back, and nothing is updated in place.
- Memory ordering: every atomic access and every locked section is one step in a single order.
- Liveness: that a spinning thread, a nested message loop or the rejection loop comes to an end. `RandGenerator`
  is given draws of which one is acceptable.
- `MessageLoop`, `PostTask`, `AtExitManager`, `WeakPtr`, the lock and the allocator appear only through what the
  modelled code sees of them. Observers and callbacks are opaque names that may call the container.
- A callback that destroys the callback list, or a removal callback that changes it.
- PathData.Get: takes a bound on the calls that providers make, and reports when they make more; the source has
  none. Providers and the file system are functions of what they are asked, so registering providers later, and a
  directory that changes, are not covered.
- IDMap.Add: ids above the largest int, and adding while an iterator is alive, which may invalidate a hash
  iterator. The assignment operator of its iterator names members that do not exist and is not part of this model.
- `Pickle::operator=`, and writing to a copy of a pickle around foreign data, whose write offset is 0 with a payload.
- Pickle.WriteNumber: floats and doubles are written and read as their 4 or 8 bytes; what the bytes mean is not
  modelled.
- PickleIterator.ReadBool: any byte but 0 counts as true; the source reads a C++ bool, for which only 0 and 1 mean
  something.
- `PrependWrapper`, the rule of CommandLineToArgvW for the program name, and conversions between UTF-16 and ASCII:
  switch names are the same characters in both.
- AlterComposes: the two results agree for every key; the order of their lines can differ.
- AlteredReadsBack: for keys without `=` and NUL and values without NUL, as a block cannot hold others.
- `BitsToOpenEndedUnitInterval` and the other floating-point helpers.
- `MD5DigestToBase16`, `SHA1HashString`, `HasSwitch`, `GetSwitchValueNative` and other one-line lookups and wrappers:
  each is settled by reading it.
- The rest of `base/`: paths, logging, native libraries, processes and threads, which is calls into the operating
  system.
