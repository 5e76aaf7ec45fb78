# predis: verified models of its concurrent core

predis is a multi-threaded Redis-like server. This project models the parts whose correctness is not
visible in any one function body, and proves what they promise:

* **Reply queue** (`SendQueueProtocol`, `SendQueueProof`, `SendQueueProgress`, `SendQueue`). Threads commit replies out of
  order into a ring; whichever thread wins a compare-and-swap on `head_lock` drains for the others. The
  protocol is a step machine for any number of owner threads and one registrar; the class over the ring
  arrays is the code of `lib/send_queue.c`, and the `Alone` lemmas show that the step machine, run by one
  thread, computes what the class does.
* **Memory reclamation** (`Gc`, `GcFrame`, `GcInvariant`, `GcProof`, `GcTheorems`, `GcProgress`, `GcScripts`,
  `GcHazards`, `GcWindow`, `GcRun`, `GcAlone`). The epoch and working-set protocol of `lib/gc.c` as a step machine
  of any number of users, registering at any time, and a collector; two steps of the collector after which an
  object in use may be freed, each with its exact condition; and `gc_run` as a class over its fields, which the
  machine's collector, run alone, computes.
* **Hash table** (`SplitOrder`, `HashTable`, `HashTableRuns`, `ConcurrentInsert*`, `SpliceWindow`,
  `ConcurrentResize`). The split-ordered table as a class with nodes, a bucket directory and the original loops,
  against a plain map; then step machines of lock-free insertion with the splicing of new sentinels, and of
  concurrent growth with lookups beside it.
* **Command parser** (`RespFormat`, `RespParser`, `RespBigBody`). The resumable state machine of `lib/resp_parser.c` as a
  class over its buffer, on a socket that hands out the stream in arbitrary pieces. The format is that of
  the section "Sending commands to a Redis server" of the Redis serialization protocol specification.
* **Bit algorithms** (`Bits`, `Popcount`, `Bitpos`). The word-parallel popcount and the word-skipping bit
  search of `commands/redis/string.c`, against a definition that looks at one bit at a time.
* **Replies** (`Replies`, `EndToEnd`, `EndToEndProgress`). The guarded `reply*` functions, `runner`'s reply discipline, and the
  path from the k-th command read to the k-th reply sent, with the calls of each command interleaved with all
  other threads' steps.

`Arithmetic` and `Bytes` hold what several modules share. A step machine is a total function `Apply` on
states: a step that is not enabled changes nothing, so a lemma about `Run(…, steps)` speaks about every
schedule. Shared accesses are sequentially consistent, one load, store or compare-and-swap per step.
Variables called history variables are never read by a step.

Where the code and its comments or intent differ, the model follows the code, or has a parameter that chooses:

* A new sentinel is put into its bucket slot (lib/hashtable.c:279) before it is linked into the list
  (lib/hashtable.c:289), and a failed compare-and-swap at line 289 makes line 287 overwrite its `next`. A store that
  begins at the sentinel in between may link its node there. `SpliceWindow` reaches a state in which a store has
  answered HT_GOOD, its node is behind no other, a find of its key answers HT_NOT_FOUND and a second store HT_GOOD.
  Every answered node is on the list at every moment exactly in the schedules that make no link behind a sentinel
  that is not yet in the list (`NothingLostExactly`, `OneWinnerExactly`); such a schedule is said to link on the list.
  A link made elsewhere is taken along when line 289 succeeds: over all schedules a node is cut off, and then for
  good, exactly when line 287 overwrites a `next` that another thread has changed (`NothingCutOffExactly`,
  `CutOffStays`).
* Even a schedule that links on the list can let a find miss a stored key: a find that begins at such a sentinel
  between lines 287 and 289 steps over a key stored meanwhile in front of what the sentinel points at, and answers
  HT_NOT_FOUND (`FindMissesOnList`). That, stepping over a node of its key at such a sentinel, is the only way
  (`FindIsRight`, `MissesAtAstraySentinel`).
* `gc_clear` frees `usr->working_set` after the compare-and-swap has set it to NULL (lib/gc.c:86-88), so that
  free does nothing and the working set leaks. `Gc.State.ownerFrees` chooses between the code as it is and the
  free it was meant to make; the theorems hold for both.
* The mark at lib/gc.c:132-133 is meant for the free-list element, but `ht_find` returns the address of the value
  slot (lib/hashtable.h:19-26), so the store misses it and no stamp changes. `Gc.State.marks` chooses between the
  code as it is (false) and the mark it was meant to make (true). As written, a published working set protects
  nothing: `MarkAsWrittenIsUnsafe` reaches a state in which an object in use has been freed. Short of the
  hazard of the next point, it is safe exactly as long as no user, at the end of the scan of its set, still holds
  an object that was retired before the run (`UntagExactly`).
* A user that registers between the collector's load of the user list (lib/gc.c:109) and its bump of the
  counter (lib/gc.c:112) is not waited for in that run but may have read the old counter. With the mark as it is
  meant, this can go wrong exactly if, at the bump, such a user is about to retire an object that a user registered
  after it holds (`BumpExactly`); any other registration there is harmless. With the mark as written nothing else
  makes the bump unsafe either, and this does if the holder is still fetching or holds nothing else.
  `RegistrationInTheWindowIsUnsafe` reaches, for both readings of the mark, a state in which an object in use has been
  freed. A schedule is called hazard-free if it takes neither such a bump nor, with the mark as written, such an end
  of a scan.
* A length split over two buffers is joined with a factor of ten times the digits that follow
  (lib/resp_parser.c:374), which is right only for one following digit, and a body that does not fit gets a
  buffer without the body bytes already received (lib/resp_parser.c:422-437), which is right only if there are
  none. On commands of at most 256 encoded bytes neither branch is reached, and these are exactly the commands
  whose bodies all fit.
* `redisBitpos` reaches its "bug" exit (commands/redis/string.c:155-158) for a `bit` that is neither 0 nor 1, and
  for no other.
* `ht_store` and the walks need hashes other than 0 and 0xFFFFFFFF (lib/hashtable.c:371, lib/hashtable.c:133); keys
  with these hashes exist.

## Model

| member | source | states |
|---|---|---|
| SendQueueProof.Invariant | lib/send_queue.c:38-112 | every interleaving of any number of owners and the registrar keeps the ring, slot, lock, drainer and no-strand invariants |
| SendQueueProof.OrderedDelivery | lib/send_queue.c:78-112 | what is sent is the committed values of indices 0, 1, 2, … in order, each once; at most one drainer; head <= head_lock <= head + 2 |
| SendQueueProof.SlotReusedAfterSend | lib/send_queue.c:36-50 | a slot is registered again only after the value of its previous index has been sent |
| SendQueueProof.ReadyHeadIsNotStranded | lib/send_queue.c:78-112 | whenever the queue is unlocked and its head is ready, some thread has yet to look at that head, stale reads and reused slots notwithstanding |
| SendQueueProof.QuiescentMeansDelivered | network_parser.c:577-585 | once all owners have left and none is being registered, head == tail and every committed reply has been sent |
| SendQueueProof.LocalStepKeepsCore | lib/send_queue.c:78-112 | a step on local variables keeps the invariant if the thread's own claims about the head hold |
| SendQueueProgress.NobodyIsStuck | network_parser.c:577-585 | from every reachable state the thread that drains comes to its end in finitely many of its own steps, and every owner that has committed then leaves in finitely many of its own, however often pop_start has returned -3 |
| SendQueueProgress.StepGetsNearer | lib/send_queue.c:78-112 | each of those steps ends the thread or lowers a measure: a stale head is given up, the head moves on, or the phase does |
| SendQueues.SendQueue.constructor | lib/send_queue.c:22-34 | an empty, unlocked ring of the given length |
| SendQueues.SendQueue.Register | lib/send_queue.c:38-50 | the next index with a wiped, unready slot, or -1 on a full ring; nothing else changes |
| SendQueues.SendQueue.Commit | lib/send_queue.c:52-57 | the slot of the index holds the reply and is ready; nothing else changes |
| SendQueues.SendQueue.PopStart | lib/send_queue.c:78-96 | -1 exactly if the queue is empty, -2 exactly if its head is not ready, -3 exactly if another thread has locked it, 0 exactly otherwise, which locks the head and hands out its value |
| SendQueues.SendQueue.PopContinue | lib/send_queue.c:98-112 | moves on to the next index exactly if it is ready, else unlocks behind the current one |
| SendQueues.SendRest | network_parser.c:582-584 | the drainer's loop sends the rest of the maximal run of ready replies |
| SendQueues.DrainReplies | network_parser.c:577-585 | a thread that drains alone sends exactly the maximal run of ready replies at the head, in order, and leaves the queue unlocked at the first that is not ready |
| SendQueues.RegisterAloneIsRegistered | lib/send_queue.c:38-50 | the registrar's four steps in a row are one call of the class's method |
| SendQueues.PopStartAlone | lib/send_queue.c:78-96 | the steps of one thread without interference compute the class's method |
| SendQueues.PopContinueAlone | lib/send_queue.c:98-112 | likewise, for both outcomes |
| GcTheorems.SafeReclamation | lib/gc.c:67-157 | for the mark as written and as meant: in every hazard-free schedule an object that a user fetched while it was linked, or linked itself and published, stays allocated until the user has cleared its working set; nothing unallocated is touched or freed |
| GcTheorems.FetchedStaysAllocated | lib/gc.c:67-157 | the same in terms of steps, without history: in every hazard-free schedule, an object that a user fetches from the table, or links while it may still publish it or has published it, is allocated at every later moment up to which the user has neither given the reference up nor emptied its field in gc_clear |
| GcTheorems.QuietListIsHazardFree | lib/gc.c:106-112 | with the mark as meant, no schedule is hazardous in which nobody registers between the load and the bump |
| GcHazards.BumpExactly | lib/gc.c:109-112 | for every state a hazard-free schedule reaches and with the mark as meant: after the bump an object in use can be freed, without a further hazard, if and only if a user registered in the window is about to retire an object that a user registered after it holds; with the mark as written: only if that is so, and if moreover that holder is still fetching or holds nothing else |
| GcHazards.UntagExactly | lib/gc.c:128-139 | with the mark as written: after the end of a scan an object in use can be freed, without a further hazard, if and only if its user still holds an object retired before the run |
| GcTheorems.DoomedIsUnheld | lib/gc.c:112-155 | an element stamped below the epoch is held by no user already scanned; pending retirements carry at least the epoch, or one less for an object that no later user holds |
| GcTheorems.DoomedWasRetiredBefore | lib/gc.c:112-155 | the two-epoch argument over two moments of a run: what is below the epoch now had been retired with the same stamp when the run took its number |
| GcTheorems.Invariant | lib/gc.c:67-157 | every hazard-free schedule keeps the inductive invariant |
| GcWindow.RegistrationInTheWindowIsUnsafe | lib/gc.c:109-112 | the first hazard occurs: a schedule, for each reading of the mark, ends with a user holding a freed object |
| GcWindow.MarkAsWrittenIsUnsafe | lib/gc.c:132-133 | the second hazard occurs: with the mark as written, an object that a user has published and still uses is freed by the second run after its retirement |
| GcTheorems.WorkingSetHandOff | lib/gc.c:77-140 | a set the collector reads is allocated, no two users share one, and the collector frees a set exactly if its owner cleared it during the scan |
| GcTheorems.UntagFreesCleared | lib/gc.c:136-139 | the untag step frees the set if and only if no field refers to it any more |
| GcTheorems.WorkingSetsAccounted | lib/gc.c:72-90 | every allocated working set is in one field, with the collector or with a freeing owner; only line 88 leaks |
| GcTheorems.FreedWithinTwoRuns | lib/gc.c:92-155 | an object on the free list that is in no working set is freed by the end of the second run from then on |
| GcTheorems.FreedOnce | lib/gc.c:144-155 | an object is freed at most once: before a second free its address must have been given to a new object |
| GcProgress.UndisturbedRunEnds | lib/gc.c:106-157 | wherever a hazard-free schedule has brought it, once no user it has yet to scan is pending the collector's own steps finish the run |
| GcProgress.GetsNearer | lib/gc.c:116-155 | each of them lowers a measure: user by user, compare-and-swap by compare-and-swap, member by member, element by element |
| GcTheorems.OverdueOrReleased | lib/gc.c:116-155 | each step keeps such an object overdue or releases it |
| GcProof.StepKeepsInv | lib/gc.c:55-157 | each step of any user and of the collector, but for the two hazards, keeps the invariant |
| GcRun.GcState.Register | lib/gc.c:55-65 | a new user, idle, at the front of the list |
| GcRun.GcState.Retire | lib/gc.c:92-104 | stamps with the current counter; an entry already there keeps its stamp |
| GcRun.GcState.MarkSet | lib/gc.c:128-135 | with the mark as meant: the entries a working set names get the stamp of this run, all others keep theirs |
| GcRun.GcState.Sweep | lib/gc.c:144-155 | exactly the entries older than the run leave the list and are freed, each once |
| GcRun.GcState.Run | lib/gc.c:106-157 | a run alone: the free list becomes what marking and sweeping define, the freed objects are those that left it, each once, and every working set is handed back |
| GcAlone.RunAloneIsRun | lib/gc.c:106-157 | the collector's steps of one whole run of module Gc, with no user step in between and in whatever order the sweep visits, compute what GcRun.GcState.Run does, free exactly what leaves the list and hand every set back |
| SplitOrder.ReverseInvolutive | lib/hashtable.c:196-205 | reversing 32 bits twice is the identity |
| SplitOrder.RevOfLowBits | lib/hashtable.c:235 | masking an index to its low bits never raises its reversed value |
| SplitOrder.SentinelBeforeKey | lib/hashtable.c:235 | for every hash and bitlen, the bucket's sentinel hash is at most the key's hash |
| SplitOrder.ParentBeforeChild | lib/hashtable.c:250-258 | clearing the top index bit strictly lowers the reversed value, which is why both parent searches end |
| SplitOrder.ReverseBits | lib/hashtable.c:196-205 | the shift loop computes the reversal |
| SplitOrder.FindMsb | lib/hashtable.c:215-227 | the mask loop finds the top set bit and its position |
| HashTables.Hash | lib/hashtable.c:183-190 | shift and add in 32 bits compute hash * 33 + c over the key |
| HashTables.InsertKeepsOrder | lib/hashtable.c:279-289 | a node that fits between its neighbours keeps the split order |
| HashTables.KeyFits | lib/hashtable.c:377-402 | a new key between a smaller-or-equal and a larger hash stands in its place among all nodes |
| HashTables.SentinelFits | lib/hashtable.c:276-289 | a new sentinel stands before all keys of its hash and after its parent |
| HashTables.RemoveKeepsOrder | lib/hashtable.c:456 | taking a node out keeps the order of the rest |
| HashTables.ParentSegment | lib/hashtable.c:297-300 | the parent of an index lies in an existing segment, at an offset inside it, and its sentinel's hash is no larger |
| HashTables.NewList | lib/hashtable.c:127-152 | the initial list: the sentinels of indices 0 and 1 and the end node |
| HashTables.NewDirectory | lib/hashtable.c:106-118 | the initial directory: segment 0 filled, all others missing |
| HashTables.Table.constructor | lib/hashtable.c:96-155 | a valid table that stands for the empty map |
| HashTables.Table.Locate | lib/hashtable.c:413-427 | the two walks find the node of the key if the map has it, else the place where it belongs |
| HashTables.Table.Bucket | lib/hashtable.c:235-238 | the bucket of a hash is a slot that exists and whose sentinel precedes the hash |
| HashTables.Table.FindSentinel | lib/hashtable.c:246-302 | for every hash, bitlen and set of installed sentinels: a linked sentinel with hash at most the key's, namely the bucket's own or that of the nearest index, on the way of clearing top bits, whose slot is filled |
| HashTables.Table.NearestAncestor | lib/hashtable.c:250-258 | the parent search ends at a linked sentinel strictly before the new one, that of the nearest ancestor index with a filled slot |
| HashTables.Table.SplicePoint | lib/hashtable.c:282-286 | the place between the smaller hashes and the rest |
| HashTables.Table.EnsureSentinel | lib/hashtable.c:246-293 | afterwards the bucket's own slot is filled and its sentinel is the answer, with hash reverse(index): the one that was there, or a new one in its place in the list; all other slots and the map are unchanged |
| HashTables.Table.Splice | lib/hashtable.c:276-289 | one sentinel more, in its slot, with hash reverse(i), strictly after its parent, before its keys; no other slot changes |
| HashTables.Table.Resize | lib/hashtable.c:305-338 | doubling moves no node and changes no lookup; every slot keeps what it held, and the new segment has its size and is empty |
| HashTables.Table.Reserve | lib/hashtable.c:365-375 | the head of ht_store: grow exactly if the load bound is exceeded, then fill the bucket's own slot |
| HashTables.Table.Store | lib/hashtable.c:362-408 | the map gains the key or, on a duplicate, stays as it was, with the slot of the old value; bad arguments change nothing; element_count <= 2^bitlen + 1 afterwards; the key's bucket has its own sentinel, all other slots keep theirs |
| HashTables.Table.Add | lib/hashtable.c:394-407 | the new node is linked in its place and counted |
| HashTables.Table.Find | lib/hashtable.c:410-431 | HT_GOOD with the key's slot exactly if the map has the key |
| HashTables.Table.Delete | lib/hashtable.c:443-475 | the map loses the key and no other, the old value is handed out; element_count stays |
| HashTableRuns.Perform | lib/hashtable.c:362-475 | each operation refines the plain map's, answer and new state |
| HashTableRuns.Replay | lib/hashtable.c:96-475 | over every run of stores, finds and deletes from ht_init, with the resizes in between, all answers are the plain map's |
| HashTableRuns.ExcludedKeysExist | lib/hashtable.c:371 | there are keys with hash 0 and with the hash of the end node, so both exclusions matter |
| HashTableRuns.FewKeysFewLevels | lib/hashtable.c:365 | the load bound keeps bitlen below 30 for 2^29 stores |
| ConcurrentInsertTheorems.NothingLostExactly | lib/hashtable.c:279-289 | for every schedule of stores, finds and sentinel splices: at every moment each node whose store answered HT_GOOD and each sentinel whose splice is done is on the list, if and only if no link is made behind a sentinel that is in its slot and not yet in the list |
| ConcurrentInsertLossTheorems.NothingCutOffExactly | lib/hashtable.c:281-289 | for every schedule: at its end each node whose store answered HT_GOOD and each sentinel whose splice is done is on the list, or hangs behind a sentinel that will take it there, if and only if no execution of line 287 has overwritten what another thread had put there |
| ConcurrentInsertLossTheorems.CutOffStays | lib/hashtable.c:281-289 | what has been cut off is on no way to the list in any continuation |
| ConcurrentInsertLossTheorems.WholeInTheEndExactly | lib/hashtable.c:281-289 | when every sentinel made has been linked, all answered nodes are on the list if and only if nothing was overwritten |
| ConcurrentInsertLossTheorems.OnListOverwritesNothing | lib/hashtable.c:281-289 | a schedule that links on the list overwrites nothing |
| ConcurrentInsertLossTheorems.LossInvariant | lib/hashtable.c:279-402 | every schedule, wherever it links and whatever it overwrites, keeps the homes, segments and claims that decide which nodes are cut off |
| ConcurrentInsertLossTheorems.OnItsWayExactly | lib/hashtable.c:281-289 | a linked node is on its way to the list if and only if no overwriting has hit the segment it was linked into |
| ConcurrentInsertExact.OneWinnerExactly | lib/hashtable.c:396-402 | when a store is about to link its node, its HT_GOOD can be followed by a second one for the key, in a continuation that links on the list, if and only if the node it links behind is not in the list |
| SpliceWindow.SpliceLosesAKey | lib/hashtable.c:279-289 | for all keys and sentinels in the given order: a schedule in which a stored node is behind no other, a later find of its key says HT_NOT_FOUND and a later store HT_GOOD |
| SpliceWindow.ApartExists | lib/hashtable.c:183-190 | such keys exist, with the sentinel of index 2 |
| SpliceWindow.LinkIsTakenAlong | lib/hashtable.c:279-289 | for all keys and sentinels in the given order: a schedule with a link behind a sentinel not in the list that overwrites nothing |
| ConcurrentInsertTheorems.Invariant | lib/hashtable.c:377-407 | every schedule that links on the list keeps the list invariant, what a sentinel in its slot points at, and what each thread may assume |
| ConcurrentInsertProof.StepKeepsInv | lib/hashtable.c:279-289 | each step of a store, find or splice but a link behind a sentinel not yet in the list keeps the invariant |
| ConcurrentInsertProof.SwapFindsNoKey | lib/hashtable.c:396-402 | when the swap succeeds behind a node of the list, no node has the key: there is no room for one between p and its successor |
| ConcurrentInsertProof.JoinKeepsList | lib/hashtable.c:396-402 | linking a node, of a key or a spliced sentinel, between p and its successor keeps the list sorted and complete |
| ConcurrentInsertTheorems.SortedAndComplete | lib/hashtable.c:377-407 | in every schedule that links on the list: following next from the head meets every key node ever made and every sentinel whose splice is done once, and nothing else, sorted by hash, with no key twice |
| ConcurrentInsertTheorems.RunKeeps | lib/hashtable.c:377-407 | in every schedule: nodes never change their key and hash, answers are final, and a link once made is not taken back by its thread |
| ConcurrentInsertTheorems.OneWinnerPerKey | lib/hashtable.c:377-407 | in every schedule that links on the list: exactly one store per key gets HT_GOOD, all others HT_DUPLICATE_KEY and its node |
| ConcurrentInsertTheorems.StoredIsFound | lib/hashtable.c:410-431 | in every schedule that links on the list: a store that begins when its key is present hands out the key's node, whatever others link meanwhile; a find does so if it has not stepped over the node, and says HT_NOT_FOUND if it has |
| ConcurrentInsertTheorems.FindIsRight | lib/hashtable.c:410-431 | likewise: a find says HT_NOT_FOUND with a node of its key present since it began if and only if it has stepped over one; HT_GOOD comes with a node of the key |
| ConcurrentInsertTheorems.MissesAtAstraySentinel | lib/hashtable.c:410-431 | the one step that makes a find miss: it loads the next of a sentinel that line 287 has set and line 289 not linked, and a node of the key, there since it began, stands between the sentinel and what it points at |
| ConcurrentInsertTheorems.StrayFindMisses | lib/hashtable.c:410-431 | a find that begins at such a sentinel says HT_NOT_FOUND three steps later |
| SpliceWindow.FindMissesOnList | lib/hashtable.c:279-289 | for every key and every sentinel at or before it: a schedule that links on the list in which a store of the key has answered HT_GOOD and a find that began afterwards HT_NOT_FOUND |
| ConcurrentInsertProgress.UndisturbedThreadAnswers | lib/hashtable.c:377-407 | the retry loops end: from every state that links on the list lead to, a store, find or splice that is no longer disturbed answers after finitely many of its own steps |
| ConcurrentInsertProgress.StepGetsNearer | lib/hashtable.c:281-289 | each of them answers, gives up a stale view for a current one, climbs to a parent, or shortens the way |
| ConcurrentResize.Invariant | lib/hashtable.c:305-338 | every interleaving of growing threads and lookups keeps claims, directory and readers consistent |
| ConcurrentResize.OneClaimPerLevel | lib/hashtable.c:310-330 | each level from 2 to bitlen_internal is claimed by exactly one thread |
| ConcurrentResize.NoReaderMissesASegment | lib/hashtable.c:331-337 | bitlen <= bitlen_internal, every level up to bitlen has a published, cleared segment of its size, and no reader meets a missing one |
| ConcurrentResize.LookupsEndAtSentinels | lib/hashtable.c:234-303 | a lookup that overlaps with growth ends at a sentinel with hash at most the key's; if it creates, that sentinel is in the bucket's own slot |
| ConcurrentResize.LookupsEnd | lib/hashtable.c:234-303 | lookups are wait-free: whatever others do, one has answered after MAX_BITLEN + 4 steps of its own |
| ConcurrentResize.LookupAnswers | lib/hashtable.c:234-303 | and its answer is that of its bucket for the bitlen at its beginning or a later one, or without create of an ancestor index no further up than the nearest that had its slot filled when it began |
| ConcurrentResize.NearestIsFound | lib/hashtable.c:294-302 | the invariant behind this, at every step of the lookup |
| ConcurrentResize.NextLevelArrives | lib/hashtable.c:333-337 | the spinning compare-and-swap on bitlen is not for ever: the owner of the next level raises it in three of its own steps |
| ConcurrentResize.ResizeClaims | lib/hashtable.c:310-329 | growth happens: a resize without a level, even one that has lost its compare-and-swap, claims the next level in three undisturbed steps at most |
| ConcurrentResize.ClaimedLevelArrives | lib/hashtable.c:330-337 | from every reachable state a thread that has claimed a level can be brought to its end with bitlen there, by three steps per level of the owners of this level and those below |
| ConcurrentResize.LoneResizeGrows | lib/hashtable.c:305-338 | a resize that runs alone raises bitlen by one, publishes an empty segment of the right size, and changes no other |
| ConcurrentResize.FinishedIsBitlen | lib/hashtable.c:333-337 | at every moment as many resizes have ended as bitlen has grown |
| ConcurrentResize.SentinelsStay | lib/hashtable.c:305-338 | a sentinel once installed is found in its slot ever after |
| RespFormat.StrtolReadsDecimal | lib/resp_parser.c:291 | strtol undoes the decimal encoding and stops right behind it |
| RespFormat.StrtolSkipsSpaceAndSign | lib/resp_parser.c:291 | behind white space and a minus sign it reads the negative number |
| RespFormat.DecodeUndoesEncode | lib/resp_parser.c:279-464 | round trip of the wire format, whatever follows the command |
| RespFormat.EncodeAllIsInjective | lib/resp_parser.c:279-464 | a byte stream encodes one list of commands only |
| RespFormat.CommandFrame | lib/resp_parser.c:279-327 | the literal bytes that frame every command: 42, its argument count in decimal, 13, 10, its arguments and nothing else |
| RespFormat.ArgFrame | lib/resp_parser.c:334-464 | the literal bytes that frame every argument: 36, its length in decimal, 13, 10, its bytes, 13, 10 |
| RespFormat.DigitsAreAscii | lib/resp_parser.c:291 | the numbers in these frames are written in the bytes 48 to 57, the most significant digit first |
| RespFormat.PingInBytes | lib/resp_parser.c:279-464 | one command byte by byte |
| RespFormat.SplitLengthIsRightOnlyForOneDigit | lib/resp_parser.c:374 | joining a split length is right if and only if the first part is zero or one digit follows |
| RespParser.BodiesFitIffSmall | lib/resp_parser.c:417-437 | all bodies of a command fit its first buffer if and only if the command has at most 256 bytes |
| RespBigBody.BigBodyIsRightIffNothingReceived | lib/resp_parser.c:422-437 | the two parts that BodyBigbuf produces are the body and what follows it if and only if none of the body's bytes had been received when its own buffer was made |
| RespBigBody.FullBufferPutsOutOfStep | lib/resp_parser.c:422-437 | so every command whose body begins in the buffer and does not fit is misread when the first receive fills the buffer |
| RespBigBody.LongCommandExists | lib/resp_parser.c:417-437 | such a command: one argument of 300 bytes |
| RespBigBody.FillBigBody | lib/resp_parser.c:465-474 | the loop fills the body's buffer from the socket alone, none of its bytes lost, takes what there is, and is resumed after EMPTY |
| RespBigBody.BodyBigbuf | lib/resp_parser.c:422-474 | the separate buffer is filled from the socket only: when full, its contents and the stream position are those of BigBodyRead; until then no byte is lost |
| RespBigBody.ReadLongArgument | lib/resp_parser.c:422-474 | what the code hands out for such an argument is the argument, and what follows it comes next, if and only if none of its bytes had been received |
| RespParser.NumberInMemory | lib/resp_parser.c:289-291 | a number's line end is found exactly when it has arrived, and strtol then reads the number |
| RespParser.HeaderStep | lib/resp_parser.c:279-327 | the argument count is read as soon as it and the next byte are there; otherwise there is room and more to come |
| RespParser.LengthStep | lib/resp_parser.c:364-438 | likewise for a length; the body that follows always fits, and no length is split |
| RespParser.BodyStep | lib/resp_parser.c:439-464 | the body is complete exactly when its bytes and line end are there |
| RespParser.CommandStep | lib/resp_parser.c:493-525 | at the end of a command its arguments stand in the buffer, and the rest of the buffer begins the next command |
| RespParser.Socket.Recv | lib/resp_parser.c:63-66 | as many bytes as have arrived and fit, taken whenever there are any; nothing yet, or the end, exactly when there are none |
| RespParser.Parser.constructor | lib/resp_parser.c:204-215 | a clean parser in step with the stream |
| RespParser.Parser.Fill | lib/resp_parser.c:219-224 | what may be received is received: as many bytes as have arrived and fit move from the stream to the buffer, none lost; EMPTY and CLOSED exactly when there are none; never called on a full buffer |
| RespParser.Parser.FromClean | lib/resp_parser.c:240-278 | one buffer per command, reused when it holds leftovers; ends only between commands |
| RespParser.Parser.FromArrayStart | lib/resp_parser.c:279-333 | progress or EMPTY, never ERROR, in step with the stream |
| RespParser.Parser.FromStringPre | lib/resp_parser.c:334-363 | likewise; a fresh buffer inside a command is never needed |
| RespParser.Parser.FromStringStart | lib/resp_parser.c:364-438 | likewise; neither the split length nor the separate body buffer is reached |
| RespParser.Parser.FromBodyFit | lib/resp_parser.c:439-464 | likewise, and on the last argument the finished request |
| RespParser.Parser.Finish | lib/resp_parser.c:493-526 | the next argument, DONE with no buffer when nothing is left over, or MORE with the leftovers in a fresh one |
| RespParser.Parser.Process | lib/resp_parser.c:234-527 | from any stop on: exactly the next command, spelled by argv in its one allocation, MORE exactly when unread bytes remain, EMPTY only when the next command is not all there, CLOSED only between commands, never ERROR; received bytes are conserved, and no chance to receive is wasted |
| RespParser.ReceiveOne | network_parser.c:92-120 | a new request leaves all earlier ones intact and shares no buffer with them |
| RespParser.ReceiveAll | network_parser.c:86-147 | for every list of commands and every way to cut the stream, with waits anywhere: the requests are those commands in order, none missing that has arrived; and if the socket lets the stream be received at all, at least a byte a turn, they are all the commands |
| Bits.LookupCounts | commands/redis/string.c:12 | the table is the number of set bits for all 256 bytes |
| Bits.OneMoreByte | commands/redis/string.c:16 | bits may be counted byte by byte |
| Popcount.SwarInLanes | commands/redis/string.c:34-47 | in the parallel count of a word no byte lane disturbs its neighbour |
| Popcount.LaneCounts | commands/redis/string.c:34-47 | a lane holds the number of set bits of its byte |
| Popcount.Gather | commands/redis/string.c:48-54 | seven words sum to at most 56 per lane without a carry, and the multiplication gathers at most 224 in the top byte |
| Popcount.SumOfSeven | commands/redis/string.c:48-54 | the expression adds exactly the set bits of the 28 bytes |
| Popcount.CountBlock | commands/redis/string.c:22-55 | one round counts the set bits of its 28 bytes |
| Popcount.RedisPopcount | commands/redis/string.c:8-60 | for every string and every start address, the number of set bits |
| Bitpos.ProbeTestsBit | commands/redis/string.c:145-150 | the shifted single bit meets bit k of the big-endian word |
| Bitpos.SkipBytes | commands/redis/string.c:91-103 | nothing skipped up to the word boundary has the bit |
| Bitpos.SkipWords | commands/redis/string.c:105-115 | nothing skipped word by word has the bit, and the stop is at one that may |
| Bitpos.LoadBigEndian | commands/redis/string.c:124-132 | the next eight bytes, zero-padded, the first most significant |
| Bitpos.Scan | commands/redis/string.c:149-153 | the first bit of the word equal to `bit`, if any, for every value of `bit` |
| Bitpos.StopHasBit | commands/redis/string.c:155-158 | the scan cannot miss for bit 0 or 1 |
| Bitpos.FirstOfPadded | commands/redis/string.c:67-73 | the least position in the zero-padded string is the promised answer |
| Bitpos.RedisBitpos | commands/redis/string.c:74-159 | for every string and start address: the least position of the bit; without one, -1 for 1 and the length in bits for 0; the exit at the end only for other values |
| Replies.Context.ReplySimpleString | lib/commands.c:91-102 | commits to its index and clears needs_reply, or does nothing and says so |
| Replies.Context.ReplyError | lib/commands.c:104-115 | the same for errors |
| Replies.Context.ReplyInt | lib/commands.c:117-128 | the same for numbers |
| Replies.Context.ReplyBulkString | lib/commands.c:130-144 | the same for bulk strings and the nil reply |
| Replies.Context.Body | lib/commands.c:91-144 | of any number of reply* calls the first alone is committed |
| Replies.Runner | network_parser.c:148-370 | whatever dispatch and the command body do, exactly one commit to the registered index: the nil reply when there is nothing to read, a text that begins with ERR when the command is unknown or its arguments cannot be had, the body's first reply, spelled out per kind, when it makes one, and OK only otherwise |
| EndToEnd.EachCommitsOnce | network_parser.c:571-575 | in every interleaving, for any outcome per position and any number of guarded reply* calls: each thread commits at most once, exactly once by the end of its calls, and what it commits to its index is the answer to its command, as promised |
| EndToEnd.QueueIsReached | network_parser.c:562-585 | what these threads do to the queue is a schedule of the queue's own machine |
| EndToEnd.KthReplyAnswersKthCommand | network_parser.c:562-585 | in every interleaving of threads that run the commands' programs of reply* calls and drain, for any outcome per position: the k-th reply sent is the answer to the k-th command read, as promised for its outcome, nil when there is nothing to read; at rest all are answered |
| EndToEndProgress.CanAnswerAll | network_parser.c:562-585 | no reachable state is stuck: whatever the threads have done, some continuation brings every thread to its end and sends the answer to every command read, in order |
| EndToEndProgress.AlwaysOneMore | network_parser.c:562-585 | and one that then reads and answers a further command, for a ring of any positive length |
| EndToEnd.Answer | network_parser.c:562-585 | register, run and drain by one thread send the one expected reply and leave the queue empty |
| EndToEnd.Serve | network_parser.c:531-590 | from bytes to replies by one thread: however the commands arrive, and whatever each one's outcome is, the promised answers to those that have arrived, in order, and to all of them if the stream can be received at all |

## Left out

- Sockets, epoll, pipes, threads, signals, option parsing and dlopen loading: I/O and foreign calls; only the register, run, drain and retire call order is kept.
- malloc failure, HT_OOM and the sizes of the C allocation arrays: allocation succeeds and argument arrays are sequences.
- Weak-memory effects and 32-bit counter wrap-around: accesses are sequentially consistent and queue indices and epochs are unbounded (the code needs indices below 2^31).
- Several registrars at once in the reply queue: lib/send_queue.c:36 asks for one, and the model has one.
- Concurrent deletion in the hash table (lib/hashtable.c:443-475): the unlink does not mark the removed node, so only the sequential delete is claimed.
- HashTables.Table.Locate: the walk that ht_store, ht_find and ht_del each write out is one method.
- HashTables.Table.Store: needs a hash other than 0 and 0xFFFFFFFF, and no growth beyond bitlen 30, as the code's assert, its end node and its 32-bit index do; a run of 2^29 operations stays within that.
- ConcurrentInsertTheorems.Invariant: deletions are not part of the insertion machine; the making of a sentinel is a thread of its own that ends where its store would go on; any sentinel in its slot, at or before the hash, may be a walk's start or a splice's parent, which covers what `LookupsEndAtSentinels` provides.
- ConcurrentInsertTheorems.OneWinnerPerKey: for schedules that link on the list; without that it is false, see `OneWinnerExactly`.
- ConcurrentResize.Invariant: a lookup's installation of a sentinel fills the slot in one step; its place in the list is the subject of ConcurrentInsert. Growth stops at level 30.
- GcTheorems.SafeReclamation: a fetch yields an object linked at that moment; unlinking and reading the stamp happen between gc_lock and gc_commit, as in network_parser.c:659-667; a user publishes every reference it keeps and retires everything it unlinked before it commits. What the mark as written stores into behind the list node is not modelled.
- GcHazards.BumpExactly: with the mark as written the two directions meet only if the holder is still fetching or holds nothing else; a holder of more may run into the other hazard before the freeing shows.
- GcTheorems.FreedWithinTwoRuns: the free list is a map from object to stamp; the list nodes of the free-list table that `ht_del` retires in turn (lib/hashtable.c:459-463) and the raw iteration of the sweep are not part of it, and the sweep visits the entries in any order.
- `command_del` ignores the result of `ht_del` and would retire an unset pointer for a missing key (network_parser.c:662-664): only the retirement of objects that were unlinked is modelled.
- GcRun.GcState.Run: runs with no pending user, since alone it would wait for ever, and with the mark as meant. gc_lock, gc_commit and gc_clear are steps of module Gc only.
- RespParser.Parser.Process: for commands of at least one argument in canonical encoding of at most 256 bytes; of longer ones only what RespBigBody and SplitLengthIsRightOnlyForOneDigit say (the code also parses right those whose buffer boundaries all fall between two arguments; the model leaves them out), malformed ones are outside, and strtol's saturation is not modelled.
- `resp_cmd_process`, lib/resp_parser_dw.c and lib/netwrap.c: older parsers that the server no longer calls.
- Bits.LookupCounts: the table is written in sixteen rows of sixteen instead of one row of 256.
- Popcount.CountBlock: the sum of the seven summands, the multiplication and the last shift are natural-number arithmetic modulo 2^32; the masks and shifts within each word are on 32-bit vectors.
- Replies.Runner: the argument fetch and the format-string interpreter are reduced to the outcome that decides which reply* calls happen.
- EndToEnd.Serve: one thread does what the pipe may hand to others; the interleavings are those of `KthReplyAnswersKthCommand`.
- Reply formatting in `send_pre_data`, lib/command_ht.c, lib/type_ht.c, lib/1r1w_queue.c, lib/timer.c, types/ and the other commands/ code: they would add only easy members.
