# CPHash in Dafny

CPHash is a hash table cut into partitions. In the message-passing design each
partition belongs to one server thread, and clients reach it through two
single-producer, single-consumer rings; in the locking design threads use the
partitions directly under an array lock. This project models both designs and
proves what they rely on. `dafny verify dfyconfig.toml` checks everything.

## How the parts fit together

| part | modules |
|---|---|
| What several parts share: sizes, options, 64-bit wrap-around | `Basics` |
| Partition: recency list as a value, its order and inclusion property, and `partition.c` on its own heap (intrusive lists in classes) refining it | `Lru`, `Recency`, `Inclusion`, `Tailq`, `Partition`, `Placement` |
| Element lifetime: both reference-count schemes, one request at a time | `Elements`, `Lifetime` |
| The rings, one step per access to a shared word | `InputRing`, `OutputRing`, `OneWayRing` |
| The words of a batch and the in-place server loop | `Words` |
| One box, both rings and the server's buffer together, word by word | `BoxRefinement` |
| The whole message-passing table word by word, refining `System` | `WordSystem`, `WordRefinement`, `WordTheorems`, `WordProgress` |
| The client's window: fixed buffers, wrapping indices | `PendingWindow` |
| The whole message-passing table, any number of clients and servers, every interleaving | `Routes`, `System`, `Flow`, `Control`, `Window`, `References`, `Safety`, `Serial`, `Progress`, `Calls`, `Callers` |
| The locking design, one step per atomic operation: lock, table, and both together | `AndersonLock`, `LockedTable`, `LockedSerial`, `LockedDesign`, `LockedCalls` |
| The socket server's release of values under partial writes | `WriteIovs` |

`System` is the centre. Its steps are flushing a batch, taking a batch, serving one
request, pushing the answers of a batch, reading one answer, and the control flow of
every client operation in between (`smp_hash_lookup`, `smp_hash_insert`,
`smp_get_next`, `smp_try_get_next`, `smp_hash_doall`, `mp_release_value`,
`mp_mark_ready`). That each of these is a single step although the code does them word
by word is a simulation: `BoxRefinement.StepSimulates` takes one box with both rings at
the granularity of single words, the server's loop over its buffer and the client's
credit, and maps every step of it to steps of `System`'s box; `NeverOverwrites` there
says that the pushes nothing checks always fit. `WordRefinement.WordsRefineSystem` does
the same for the whole table: in `WordSystem` every box is such a wire, any number of
clients and servers take steps of one access each and go on by what they read there, and
every run of it is a run of `System`; `WordTheorems` carries the lifetime of elements and
the sequential meaning of the table over to it, and `WordProgress` shows that no access is
idle, so `WordSystem` cannot stand still where `System` can go on. `Words.ServeBatch` is the server's loop
on the buffer itself, in place. `PendingWindow` is the client's side with its two arrays
and wrapping counters; it takes answers from an oracle, and `Window.ClientsHaveWindows`
says that in every run of `System` the oracle is what the servers have computed. Inside
a server, `Lifetime.InsertOk` and `Lifetime.LookupAnswer` say that a request changes the
recency list by `Lru.Insert` and `Lru.Touch`, and the methods of the class `Partition` do
exactly that on the heap.

`Callers` looks at `System` from outside, at the calls a client makes and the values they
return: every call is written as it was made for the server of its key, `smp_get_next`
returns the answers in the order of the calls and `smp_hash_doall` those to its own queries,
and `mp_mark_ready` takes effect without any further call. `LockedCalls` does the same for
the locking design.

`LockedTable` uses an abstract lock. `LockedDesign` puts the threads of `AndersonLock`
and those of `LockedTable` together, one atomic operation of either at a time, and
`LockedDesign.Refines` maps its runs to runs of both: the lock is the holder assumed in
`LockedTable`. `LockedSerial` adds the recency list to `LockedTable` and shows that a
locked partition is linearizable.

Names that are easily mistaken: `DATA_READY_MASK` set means NOT ready, so the model
calls the flag `notReady`. A reference is a reply word `Ref(id, hold)`; whether its
holder inserts or reads is history the code does not store, and
`Words.Erase`/`Words.Branch` show that the server never needs it.

## Hypotheses

The code relies on these; the theorems name them where they are used.

- Keys and the addresses of elements are below 2^60, and sizes are below 2^31
  (`Words.Encodable`, `System.Enabled`); exact for keys and sizes, see
  `Words.KeySurvivesIff`.
- No inserted size is zero, because a zero word ends a batch (`InputRing.Legal`,
  `Words.Encodable`); `hashserver2.c:442` adds four to every size.
- The rounded size of an insert is at most the partition's budget (`System.Enabled`,
  `Lifetime.Permitted`); exact, see `Partition.Partition.Insert`.
- A client id is used by one thread, and each returned pointer is given back once
  (`System.Enabled` for `GiveBack`).
- `smp_hash_doall` starts with no request whose answer has not been read; values already
  read and not delivered are allowed (`BeginBatch`).
- The number of buckets fits an `int`; exact condition in `Placement.NHashFitsIff`.
- Lock slots other than slot 0 start at zero, although `anderson_init` does not clear
  them, and at most `nthread` threads contend; both exact, see `AndersonLock.ExclusionIff`.
- `write_iovs` gets at least one buffer; empty ones are allowed, see
  `WriteIovs.WriteAll`.
- Allocation succeeds and returns memory nobody refers to.
- Memory is sequentially consistent.

## What the proofs show about the code's limits

- A partition's lock is created with `nservers` slots (`partition.c:44`), so in the
  locking design the table is safe only with at most `nservers` client threads. With
  one more there is a schedule in which two threads hold the lock.
- The lock also needs its slots clear at the start: with two or more contenders any other
  slot left set lets a second thread in.
- `write_iovs` does not succeed when its last buffer is empty: with everything sent it
  keeps calling `writev`, and only an error ends it.
- A larger partition need not include a smaller one as soon as elements have two different
  sizes, whichever they are.
- `hash_insert` aborts exactly when the rounded size alone exceeds the budget.
- `buffer_write_all` of 10 to 16 words can wait for words that only it could publish.
- The one-way ring compares wrapped 64-bit counters. Both its tests are exact if and only
  if the two sides have wrapped equally often. When only the writer's side has, the writer
  overwrites an unread word; when only the reader's side has, it waits although there is
  room. So the ring is a FIFO for every schedule of at most 2^64 words and not for
  2^64 + 1, and a writer that finds exactly 2^64 - 16 words written and all of them read
  waits for good.
- The ticket counter of the lock is never reset, yet stays between 0 and 2 * nthread.

## Model

| member | source | states |
|---|---|---|
| Lru.EvictIsLongestFittingPrefix | partition.c:125-150 | the eviction loop removes exactly the shortest suffix of the recency order that makes room, and releases it least recent first |
| Lru.InsertKeepsBudget | partition.c:113-159 | an insert keeps keys distinct and the total within the budget, puts the new element first, and keeps only entries for other keys |
| Lru.TotalWithout | partition.c:78-87 | removing an entry takes exactly its size off the total; moving it to the front takes nothing off |
| Recency.ListIsInOrderOfLastTouch | partition.c:89-111 | after any trace with any sizes, the LRU list is ordered by last touch (every lookup counts), each entry with the size of its last insert |
| Inclusion.LargerPartitionIncludesSmaller | partition.c:89-159 | for one element size, any trace leaves the smaller partition's LRU list a subsequence of the larger one's, so the larger hits whenever the smaller does |
| Inclusion.TwoSizesBreakInclusion | partition.c:89-159 | for any two element sizes there are two budgets and a trace of elements of those sizes after which the smaller partition holds a key that the larger one has lost |
| Inclusion.InclusionIffOneSize | partition.c:89-159 | for any set of element sizes, larger partitions include smaller ones after every trace of such elements if and only if there is at most one size |
| Inclusion.EvictUniform | partition.c:125-150 | for one element size, making room in bytes is keeping the most recent capacity - 1 entries |
| Placement.NHashCoprime | partition.c:24-27 | the number computed for nhash, before its conversion to int, is at least 9 and coprime to nservers |
| Placement.NHashIs | partition.c:24-27 | that number plus one is the least multiple of nservers that is at least ten and at least max_size over 256, the quotient taken as an int |
| Placement.RemainderIff | smphashtable.c:92-95 | a key belongs to server r if and only if it is q * nservers + r for some q and r < nservers; likewise for hash_get_bucket |
| Placement.NHashFitsIff | partition.c:24-27 | the conversion to int keeps that number if and only if the wanted number of buckets is at most the largest multiple of nservers that is at most 2^31 |
| Placement.UnbiasedPlacement | partition.c:73-76 | every block of nservers * nhash consecutive keys gives each pair of a server by hash_get_server and a bucket by hash_get_bucket exactly one key, with nhash before its conversion to int |
| Tailq.Queue.Remove | partition.c:83-86 | unlinking a node leaves a well-formed list without that node and otherwise unchanged |
| Tailq.Queue.InsertHead | partition.c:93 | linking at the head leaves a well-formed list with the node first |
| Tailq.Queue.InsertTail | partition.c:154 | linking at the tail leaves a well-formed list with the node last |
| Tailq.Queue.MoveToHead | partition.c:92-93 | remove then insert at the head moves exactly that node to the front |
| Partition.Partition.constructor | partition.c:16-49 | the new partition is well formed and empty, and nhash + 1 is the least multiple of nservers that is at least ten and at least max_size over 256 |
| Partition.Partition.MakeRecent | partition.c:89-94 | both lists stay well formed and consistent, and the element moves to the front of the recency order |
| Partition.Partition.Unlink | partition.c:78-87 | the element leaves its chain and the LRU list together, everything else keeps its place, and p->size drops by its size |
| Partition.Partition.InItsChain | partition.c:98-109 | walking the chain of key % nhash finds the entry for the key if the LRU list has one, and nothing else |
| Partition.Partition.Lookup | partition.c:96-111 | returns the element with the key or NULL, and refines Lru.Touch |
| Partition.Partition.MakeRoom | partition.c:125-150 | the eviction loop ends, never meets an empty list, refines Lru.Evict, releases the victims in order, and fails its assertion exactly when the new size alone exceeds the budget |
| Partition.Partition.Add | partition.c:152-157 | the new element is in the chain of its key and first in the LRU list |
| Partition.Partition.Insert | partition.c:113-159 | refines Lru.Insert with the size rounded up to the fewest 64-byte lines that hold header and value: drops the old element, evicts the shortest suffix, releases each of those once in order, keeps size == sum of sizes <= max_size; null exactly when that many bytes are over the budget |
| Elements.RoundedIff | partition.c:123 | the rounded size is the one multiple of 64 from 64 + size up to less than 64 more |
| Partition.Partition.WalkedAll | partition.c:54-65 | the bucket chains together hold exactly the elements of the LRU list, each once, and the sizes add up to the same total |
| Partition.SameMembers | partition.c:54-65 | two repetition-free lists with the same members are permutations of each other with the same total size |
| Partition.Partition.Destroy | partition.c:51-68 | every element is released exactly once and the counted bytes equal p->size |
| Lifetime.LookupAnswer | smphashtable.c:242-257 | a lookup hits exactly when the table has the key and its inserter holds no reference, names an element of that key, and touches the recency list either way |
| Lifetime.InsertOk | smphashtable.c:258-271 | an insert answers with a fresh element held by its inserter, keeps the lifetime invariant and changes the recency list by Lru.Insert |
| Lifetime.ReleaseOk | smphashtable.c:512-518 | giving back a reference keeps the lifetime invariant for the references that remain, also when it clears the flag early or for an evicted element |
| Lifetime.ExecOk | smphashtable.c:242-282 | every permitted request, in both schemes, keeps: count == table + references, flag, freed exactly when the last goes, no fault, total within budget |
| Lifetime.RunOk | smphashtable.c:242-282 | the lifetime invariant holds after every disciplined run of requests on a partition |
| Lifetime.MarkedForGood | smphashtable.c:512-564 | after an inserter has given its reference back nobody is the inserter of that element again, in both schemes |
| Lifetime.SchemesAgree | smphashtable.c:507-564 | release messages and atomic operations give the same answers, recency lists and live elements on every run |
| InputRing.RingIsFifo | mpbuffers.c:7-59 | in every word-level interleaving the batches read are a prefix of those flushed, whole, no word is lost, full slots are those from data_rd to data_wr, and a spinning writer faces four |
| InputRing.StepsOfAQueue | mpbuffers.c:20-59 | each step of the ring appends the local batch to a queue with room, takes its first batch, or leaves it alone |
| OutputRing.AnswersInOrder | mpbuffers.c:61-99 | as long as pushes fit, the words read are the words pushed in order, wherever the 64-bit counters start and wrap; an empty read means nothing was unread |
| OutputRing.PushWithoutCreditOverwrites | mpbuffers.c:61-69 | pushing beyond 64 unread words overwrites the oldest unread answer |
| Words.TaggedParts | smphashtable.c:18-21 | masking gives back the operation and the payload that were or-ed together, for payloads below 2^60 |
| Words.QueryLayout | smphashtable.c:332-352 | the words of a lookup and an insert, number by number |
| Words.AddressLayout | smphashtable.c:520-526 | the word of a release and the reply word, from the address of the element |
| Words.KeySurvivesIff | smphashtable.c:332 | the server sees a 64-bit key unchanged if and only if it is below 2^60, and the size word, which hash_insert takes as an int, if and only if it is also below 2^31 |
| Words.DecodeEncode | smphashtable.c:242-282 | the server decodes the first request of a batch as the client encoded it, whatever follows, for keys and addresses below 2^60 and sizes from 1 to 2^31 - 1 |
| Words.BatchFitsSlot | mpbuffers.c:7-18 | requests sharing a slot are whole, fit eight words and contain no zero word |
| Words.Branch | smphashtable.c:242-282 | the case the switch selects executes exactly the request at that position and advances past its words |
| Words.ServeBatch | smphashtable.c:235-285 | the in-place loop parses the whole requests, leaves one answer word per lookup or insert and none per release, in order, with j <= k, and runs the requests on the partition |
| BoxRefinement.StepSimulates | mpbuffers.c:7-99 | each access to a shared word of a box, and each request served, is none, one or two steps of System's box |
| BoxRefinement.NeverOverwrites | mpbuffers.c:61-69 | in every word-level interleaving of client and server, for any starting counters, unread words and words being pushed are at most 56, answers arrive in order and batches are read in order |
| BoxRefinement.PushFits | mpbuffers.c:61-69 | a push by the server always finds room, though it does not look |
| WordRefinement.StepRefines | smphashtable.c:198-451 | forward simulation: one access to shared memory of any client or server, in the middle of whatever the others do, continues the run of System by at most two steps |
| WordRefinement.ThreadGoOk | smphashtable.c:312-451 | an access of a client, which goes on by what it reads from the rings, is none, one or two steps of the client of System, and leaves its private state equal |
| WordRefinement.WorkerGoOk | smphashtable.c:198-291 | an access of a server is no step of the server of System or one: it passes on exactly when no batch is published, and executes the request the words spell |
| WordRefinement.HeardRight | smphashtable.c:312-325 | the word a client reads next, taken as the answer to its oldest unanswered request, is the answer that request got |
| WordRefinement.WordsRefineSystem | smphashtable.c:198-451 | refinement: every run of the table word by word, with any number of clients and servers, is a run of System |
| WordTheorems.HeldAreLive | smphashtable.c:242-282 | in every interleaving of word accesses what a caller holds from a server is a live element of that server's partition, and nothing faults |
| WordTheorems.HeldExclude | smphashtable.c:247-251 | and while a caller holds a reader's reference no caller holds the inserter's |
| WordTheorems.WordsAreSequential | hashserver2.c:563-582 | with one client, in every interleaving of word accesses, the values read are the first answers of the sequential table, and when the wires are quiet the partitions are its partitions |
| WordTheorems.CallsAreWritten | smphashtable.c:327-361 | in every interleaving of word accesses a client's calls are written in order for the servers of their keys, but for the call in progress |
| WordTheorems.MarkedReady | smphashtable.c:520-541 | when mp_mark_ready has returned and the server has served what is in the input ring, the element is ready or gone, whatever the local buffer still holds |
| WordProgress.AccessesCount | mpbuffers.c:7-99 | an access inside an operation changes what the client keeps to itself, or brings the next that does nearer, at most 13 away, or finds a slot taken or an output ring empty, and then the client of System waits too |
| WordProgress.ServersCount | smphashtable.c:227-291 | an access of a server takes effect in System or brings the next that does nearer, at most 67 away |
| Flow.OpsFit | mpbuffers.c:9-12 | a batch has at most as many requests as words |
| Flow.TakeOk | smphashtable.c:312-325 | reading an answer keeps FIFO order through the rings, credits equal to window entries, and the order of servers |
| Flow.AppendOk | smphashtable.c:337-340 | writing a request with a credit left keeps the same |
| Control.StepOk | smphashtable.c:198-451 | every step of every client and server keeps the whole-system invariant |
| Control.Conservation | smphashtable.c:312-361 | a client's credit for a server equals its window entries and equals requests local, published and in hand plus unread answers, at most 56 |
| Control.CreditConservation | smphashtable.c:29 | the same in every state of every run, with at most 64 answers unread or unpushed, so the unchecked output ring never overwrites |
| Control.OneAnswerPerQuery | smphashtable.c:235-285 | the answers of what was served are, in order, one per lookup or insert |
| Control.AnswerMatching | smphashtable.c:363-382 | in every run the k-th value read is the owning server's answer to the k-th accepted request, across all servers, in asynchronous use and in smp_hash_doall |
| Callers.CallsAreWritten | smphashtable.c:327-361 | in every run what a client has called for is what it has written, in the order of the calls, each query at server key % nservers, but for the call in progress |
| Callers.CreditLoopIff | smphashtable.c:334-336 | a request is written at once unless 56 answers of its server are outstanding |
| Callers.StepHeld | smphashtable.c:363-382 | what a call returns is what the caller then holds, and what it gives back it holds no more |
| Callers.ReturnsInOrder | smphashtable.c:363-451 | the k-th value smp_get_next has returned is the answer of server key % nservers to the k-th request called for outside smp_hash_doall, and those smp_hash_doall has returned answer the queries inside it in order |
| Callers.NothingMissing | smphashtable.c:388-451 | smp_hash_doall returns a value for each of its queries; all other values read and not returned are in the window |
| Callers.RefusedIff | smphashtable.c:327-382 | a lookup is refused if and only if 65536 requests have been called for and not returned, smp_get_next if and only if none |
| Callers.MarksArePublished | smphashtable.c:520-541 | whenever a client is between calls, no mark-ready message is in a local buffer |
| Callers.MarkedReady | smphashtable.c:520-541 | once the server has served as many requests of the client as were published when mp_mark_ready had returned, and ever after, the element is ready or gone and a lookup that finds it hits, with no further call by the client |
| Callers.CallsAreSequential | hashserver2.c:563-582 | with one client every interleaving gives the calls, each routed to server key % nservers, the answers of the sequential table |
| Window.WindowBound | smphashtable.c:330 | rd <= wr <= pending <= rd + MAX_PENDING_SIZE in every run, outside smp_hash_doall, counting values read before one |
| Window.ClientsHaveWindows | smphashtable.c:312-382 | in every run a client's requests, values and credits form a window as PendingWindow has it, with the answers the servers have computed |
| PendingWindow.WrapFacts | smphashtable.c:365-376 | comparing and subtracting wrapped 64-bit indices gives what the unbounded ones would, inside the window |
| PendingWindow.MaskFacts | smphashtable.c:315 | masking a wrapped index selects the slot of the unbounded one |
| PendingWindow.CreditsAreWindow | smphashtable.c:334-336 | the credits of a server count its unread window entries, so a client without credit always has an answer to read |
| PendingWindow.Matched | smphashtable.c:312-325 | the i-th value read is the reply of the server of the i-th request to that very request |
| PendingWindow.Pending.constructor | smphashtable.c:186-191 | a new window is empty |
| PendingWindow.Pending.Await | smphashtable.c:317-321 | outb_read, or the flush and the blocking read: afterwards the request waited for is published, and other servers' buffers are untouched |
| PendingWindow.Pending.ReadNext | smphashtable.c:312-325 | reads exactly the oldest unread answer from the server that owes it, gives its credit back, and has published its request by then; the answer itself is an oracle's |
| PendingWindow.Pending.Submit | smphashtable.c:327-361 | refuses exactly when the window is full; otherwise appends the request to the window and to its server's requests; the credit loop ends |
| PendingWindow.Pending.TryGetNext | smphashtable.c:363-370 | delivers the next value if and only if it has been read |
| PendingWindow.Pending.GetNext | smphashtable.c:372-382 | delivers, in request order, the owning server's answer to the oldest undelivered request; refuses exactly when there is none |
| References.GoTokens | smphashtable.c:312-451 | no step inside a client operation makes or loses a reference |
| References.SumRefs | smphashtable.c:242-282 | one served request changes the references of the whole system exactly as that request alone |
| Safety.ElementLifetime | smphashtable.c:242-282 | in every run an element's count is table + answers in rings or hands + unprocessed release words, it is live exactly while that is positive, and nothing faults |
| Safety.ReferencesAreLive | smphashtable.c:520-541 | no message or held pointer ever names a freed element, and its key still leads to the owning server |
| Safety.PayloadExclusion | smphashtable.c:247-251 | while any reader's reference exists anywhere, the inserter has marked the element ready |
| Safety.FreedForGood | smphashtable.c:514-517 | an element freed at one state of a run stays freed, so it is freed once |
| Serial.TableProject | smphashtable.c:92-95 | the sequential table is, partition by partition, the run of the requests for it |
| Serial.ScheduleIndependence | hashserver2.c:563-582 | with one client every interleaving of designs 1 and 2 gives the answers and partitions of the sequential table |
| Serial.DesignsAgree | hashserver2.c:563-596 | designs 1 and 2 run by one client, in any interleaving, give the answers, recency lists and live elements of the sequential table with atomic counts, which is what design 3 computes for one client |
| Serial.EachPartitionIsSequential | smphashtable.c:198-310 | with many clients each partition runs a merge of the clients' requests that keeps each client's order |
| Progress.StuckMeansWaiting | mpbuffers.c:20-27 | a client that cannot move faces a full ring, or has an answer or a published request ahead of it and nothing of its own unflushed |
| Progress.WaitStep | smphashtable.c:227-291 | each step of the server waited for brings the release nearer, and no other step sets it back |
| Progress.ReadFreesSlot | mpbuffers.c:24-27 | a client in inpb_flush can move as soon as its box is read |
| Progress.FlushWithinOneRead | mpbuffers.c:20-58 | as long as a client waits in inpb_flush its box has not been read, so the next read releases it |
| Progress.AnswerWithinReads | mpbuffers.c:91-99 | while a client waits in outb_blocking_read its box is read at most INPB_COUNT times |
| Progress.BoundedWaiting | mpbuffers.c:47-99 | a client waits for fewer than (INPB_COUNT + 2) * (INPB_SIZE + 2) * nclients steps of the server it waits for |
| Progress.MovesCount | smphashtable.c:227-291 | the steps of a server that these bounds count are exactly its steps |
| Progress.ReadsCount | mpbuffers.c:47-59 | and the reads are exactly its reads of the client's box |
| Calls.GoLowers | smphashtable.c:312-451 | every step inside a client operation lowers its measure, so the credit loops and both drain loops end |
| Calls.PotentialStep | smphashtable.c:312-451 | every step of the client in an operation or of the server it waits for lowers one number, and no other step raises it |
| Calls.CallEnds | smphashtable.c:312-451 | an operation is over before its client and the servers it waits for have made a number of steps fixed when it starts |
| Calls.UsefulCount | smphashtable.c:312-451 | the useful steps counted are exactly the steps of the client and of the servers it waits for |
| Calls.UsefulStepExists | smphashtable.c:312-451 | and at every moment of it one of those steps can be made |
| AndersonLock.FairMutualExclusion | alock.c:7-33 | with at most nthread contenders every schedule has one holder at most, grants in ticket order, one token, and the counter within 0 and 2 * nthread congruent to the tickets drawn |
| AndersonLock.OldestTicketMoves | alock.c:16-33 | the thread with the oldest ticket always moves when scheduled |
| AndersonLock.ExclusionIffEnoughSlots | partition.c:44 | every schedule excludes if and only if the contenders are at most nthread |
| AndersonLock.CrowdBreaksExclusion | alock.c:18-25 | with more contenders there is a schedule with two holders |
| AndersonLock.ExclusionIff | alock.c:7-33 | whatever the slots hold at the start, slot 0 being set, every schedule excludes if and only if there is at most one contender, or there are at most nthread and no other slot is set |
| AndersonLock.DirtySlotBreaksExclusion | alock.c:7-25 | with two contenders and any other slot set at the start there is a schedule with two holders |
| LockedTable.StepOk | smphashtable.c:453-502 | every atomic step of every thread keeps the lifetime invariant |
| LockedTable.LockingLifetime | smphashtable.c:453-502 | in every run the low bits equal table + readers + unlinked, the flag is set exactly while the inserter holds the element, and no freed memory is touched |
| LockedTable.PayloadExclusion | smphashtable.c:470-474 | no element has a reader and an unfinished inserter at once, and everything callers hold is allocated |
| LockedTable.SeesZeroIff | smphashtable.c:543-564 | a step sees an element's count at zero exactly if it is an atomic release or mark of it that leaves nothing of its count and flag |
| LockedTable.OneStepSeesZero | smphashtable.c:543-564 | of all atomic steps of a run, at most one sees an element's count at zero |
| LockedTable.FreedAfterOneZero | smphashtable.c:543-564 | for every element freed exactly one atomic step of the run saw its count at zero, and it came before |
| LockedTable.FreedOnce | smphashtable.c:543-564 | the frees of a run are of different elements, exactly those allocated so far and not live |
| LockedTable.NothingLeaks | smphashtable.c:543-564 | once everything is given back, what is allocated is exactly what is in the table |
| LockedSerial.LockedIsSequential | smphashtable.c:453-564 | linearizability: in every run of a locked partition the requests, in the order in which they take effect, give the answers of a sequential run with atomic counts; between calls that run has the same LRU list and live elements, and the calls take effect in the order in which they got the lock |
| LockedSerial.DesignsAgreeInterleaved | smphashtable.c:235-564 | a locked partition and a partition behind a server that have served the same requests in the same order, both in any interleaving, have given the same answers and have the same LRU list and live elements |
| LockedDesign.Refines | alock.c:16-33 | with at most nthread threads, the table used under Anderson's lock, one atomic operation of either at a time, runs as LockedTable and LockedSerial do with their abstract lock |
| LockedDesign.LockingDesignIsSafe | smphashtable.c:453-502 | with Anderson's lock one thread at most is inside, no freed memory is touched, and no element has a reader beside an unfinished inserter |
| LockedDesign.LockingDesignIsSequential | smphashtable.c:453-502 | with Anderson's lock the partition is linearizable, and the calls take effect in ticket order |
| LockedCalls.CallsTakeEffect | smphashtable.c:453-564 | in every run of a locked partition each thread's calls take effect in its own order as they were made, but for the call in progress, and each returns the answer logged for it |
| LockedCalls.LockedCallsTakeEffect | smphashtable.c:453-564 | the same with Anderson's lock itself |
| LockedCalls.HolderLowers | smphashtable.c:453-502 | every step of a call under the lock brings its end nearer |
| LockedCalls.SomeoneMoves | alock.c:16-33 | a move that changes nothing is a thread spinning on its slot while another has the oldest ticket and can move |
| WriteIovs.Advance | hashserver2.c:330-344 | skipping r written bytes in place keeps track of the unsent bytes, the original base, and the values already given back |
| WriteIovs.GiveBackRest | hashserver2.c:347-350 | gives back the current value and all later ones |
| WriteIovs.Send | hashserver2.c:315-345 | one writev of n bytes and the skipping after it keep the same and send n bytes more |
| WriteIovs.WriteAll | hashserver2.c:315-353 | for every sequence of writev results and any buffers, empty ones included: NULL_VALUE is never released, every other base is released as often as the vector has it and in the order of the vector; the bytes sent are a prefix of the buffers; it succeeds if and only if all are sent and the last buffer is not empty |
| WriteIovs.BufferAt | hashserver2.c:315-353 | the bytes of the vector are its buffers, whole and one behind the other |
| OneWayRing.AtLeastIff | onewaybuffer.c:25 | an unsigned comparison of counters less than 2^64 apart is exact if and only if both have wrapped equally often |
| OneWayRing.RoomTestIff | onewaybuffer.c:25 | the writer's room test is exact if and only if its two sides have wrapped equally often |
| OneWayRing.FlushTestIff | onewaybuffer.c:33 | so is the flush test |
| OneWayRing.PassIsSafeIff | onewaybuffer.c:25-32 | a writer let through by the test has room if and only if its side has not wrapped alone |
| OneWayRing.RingIsFifo | onewaybuffer.c:7-56 | in every interleaving in which no writer passes early, rd <= wr <= tmp_wr <= rd + 16 and the reads are a prefix of the writes |
| OneWayRing.ReadDelivers | onewaybuffer.c:45-57 | a buffer_read_all that finds words delivers the next min(max, published) in order, whatever the writer does meanwhile |
| OneWayRing.WriteDelivers | onewaybuffer.c:21-36 | a completed buffer_write_all has written its words, and published them if forced or if eight had gathered |
| OneWayRing.FlushDelivers | onewaybuffer.c:38-43 | a completed buffer_flush has published all that was written |
| OneWayRing.EarlyPassOverwrites | onewaybuffer.c:25-31 | a writer that passes early stores a word of its batch over the oldest unread word |
| OneWayRing.OverwrittenAtTheWrap | onewaybuffer.c:21-56 | a schedule of 2^64 + 1 words after which the reads are not a prefix of the writes |
| OneWayRing.FifoIffFewWords | onewaybuffer.c:7-56 | the ring is a FIFO for every schedule of at most N words if and only if N is at most 2^64 |
| OneWayRing.BlockedIsLarge | onewaybuffer.c:21-36 | a writer blocked with nothing published unread wants more words than the unpublished ones leave room for |
| OneWayRing.StuckWriter | onewaybuffer.c:21-36 | for 10 to 16 words there is a reachable state that no step changes |
| OneWayRing.StuckAtTheWrap | onewaybuffer.c:25-27 | once 2^64 - 16 words have been written and read, a writer of any size waits for ever on the empty ring |
| OneWayRing.WaitsForReaderIff | onewaybuffer.c:21-36 | for calls of n words and N words carried: every blocked writer waits for the reader if and only if n + min(7, N) <= 16 and N < 2^64 - 16 |

## Left out

- Sockets, `tcpserver`, `clientgo`, `hashclient.c`, `fread` and what `writev` does: network I/O; `writev` is a list of outcomes, and nothing is claimed about values that `clientgo` skips because a socket closed.
- Addresses, alignment and byte extents: an allocation is a fresh element; `partition.c:128` passes its two arguments in the opposite order to what its name suggests, which the model does not see.
- The bytes of values: payload exclusion is stated about who holds a reference.
- `EVICT_RANDOM`: not in `Partition` and `LockedSerial`, which follow LRU; `LockedTable` allows any victim, so its lifetime results and the safety results of `LockedDesign` cover it.
- The locking design's choice of partition: `LockedTable` and what builds on it are one partition; `hash_get_server` is `System.ServerOf`, see `Placement.RemainderIff`.
- In `LockedTable` linking the new element and setting its first count are one step: nobody else can reach the element while the lock is held.
- Starting, stopping and adding threads: the number of clients is fixed in a run, and the last pass of a stopping server, which takes one slot per client, is not modelled.
- Weak memory: steps are sequentially consistent; the fences of the code are where the order of steps needs them.
- Inclusion.LargerPartitionIncludesSmaller: for one element size only; that is exact by `Inclusion.InclusionIffOneSize`.
- Placement.NHashCoprime: about the number before its conversion to int, which loses it outside the condition of `Placement.NHashFitsIff`.
- Partition.Partition.Insert: the state after a failed assertion is not described, since the process is gone.
- PendingWindow.Pending.ReadNext: the answer is a fixed word for each server and position, and whether outb_read finds it at once is a parameter; `System` has the rings, and `Window.ClientsHaveWindows` ties the two together.
- Serial.DesignsAgree: for one client; with many threads `LockedSerial.DesignsAgreeInterleaved` compares the designs partition by partition.
- WordSystem: the words of the batch a server has copied to its own buffer are served one request at a time; that the answers overwrite the same buffer is `Words.ServeBatch`.
- OneWayRing: the conversion of the reader's count to `int`, which matters only after an unread word has been overwritten.
- Tailq: the back pointers of the lists are to nodes, not to the fields of nodes, and the list head holds its last node.
- The width of `ref_count`, of `p->size` and of the ticket counter: unbounded numbers; the first is bounded by the number of references, the last by 2 * nthread.
- Keys of release messages: the client reads the key from the element; that the element is still there is `Safety.ReferencesAreLive`.
- `create_hash_table`, statistics, CPU usage tracking, performance counters, the benchmarks, the per-bucket locks (created and never taken), prefetching (empty functions): none of them changes what a request does or when. The text under `doc/` partly describes an older design.
