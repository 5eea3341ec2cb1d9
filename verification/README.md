# Verified models of the libcfs and LNet cores

This project models the stateful cores of Lustre's libcfs and LNet kernel code
in Dafny and proves what they promise. `dafny verify dfyconfig.toml` checks it.

A section of code under a lock is one step. Where threads interleave, a state
and its steps are a value and functions on it, an invariant is shown to survive
every step, and the results are about every state of every run. Where the code
works step by step on its own data, it is a method with the same loops, or a
class with the same fields, proved against those functions or outright.
Memory, clocks, random numbers, aliveness of peers and what callbacks return
come in as parameters.

| files | subject |
|---|---|
| `MatchEntry`, `MatchTable`, `PortalProtocol`, `PortalSafety`, `PortalRuns`, `PortalWindow`, `PortalRace`, `Portal` | matching incoming requests with posted buffers, lazy portals, buffer stealing |
| `HashTable`, `HashOps`, `HashRehash`, `HashDestroy`, `HashRuns` | the hash table that rehashes bucket by bucket while in use |
| `TxCredits`, `TxPath` | transmit credits of peers and queues |
| `RouterPool` | router buffer pools |
| `MdLifecycle`, `MdResources` | memory descriptors, match entries and event queues: who keeps whom alive |
| `EventQueue` | the event ring and its wrapping counters |
| `ScatterGather` | copying between, and slicing of, fragment lists |
| `Route` | gateway choice and round robin |
| `HeapStorage`, `HeapSlots`, `Heap` | the three-level memory of the binary heap, its slots, and the heap in them |
| `WorkItem` | the work-item scheduler |
| `CpuTable` | CPU partitions, nodes and cached distances |
| `DropRule` | rules that drop one message in so many, or one every so often |
| `Queues`, `Arithmetic`, `Options` | queues without repetition; quotients and powers of two; optional values |

Five promises turn out to hold only within limits. Each has a lemma with a run
or input that breaks it and one that says when it holds.

* No wake-up is lost on a lazy portal in any interleaving of its locked sections
  (`PortalRuns.NoLostWakeup`). But a poster first looks at the portal's lists
  without the portal lock, and a message that has found no buffer is for a moment
  on neither list. A run of the code with that moment is a run of the locked
  sections (`PortalWindow.Refines`), and so loses nothing
  (`PortalWindow.NoLostWakeupUnlocked`), unless a poster looks just then with a
  buffer that the message would take; exactly then the message is left delayed
  beside a usable buffer (`PortalWindow.LostExactly`). `PortalRace.Race` is a run
  to such a look.
* The sign of a router pool's credits, which the code asserts to tell whether a
  buffer is free, does not tell while a thread that has added buffers is handing
  them out, because it lets go of the lock after each one:
  `RouterPool.SignMisleads` is a run to such a moment. Over all runs the
  assertion fails exactly while buffers are free but no more of them than
  messages wait, and so only then (`RouterPool.SignTellsExact`); adding n buffers
  while w messages wait passes through such a moment exactly when 2 <= n <= w
  (`RouterPool.WhileAdding`). All the same no buffer is ever thrown away while a
  message waits (`RouterPool.ReturnedWell`).
* Round robin among tied routes goes on for ever when all live candidates are
  tied (`Route.AllTiedForever`), and otherwise while the sequence numbers of all
  candidates are within 2^31 of each other (`Route.RoundRobin`,
  `Route.Beforehand`). From routes just added it lasts for fewer than 2^31
  selections at least, whatever worse live routes there are
  (`Route.FreshRounds`). What comes then depends on their order. With a worse
  route after two tied ones the first 2^31 + 1 selections alternate and all later
  ones pick the same route (`Route.StopsForGood`), and `Route.TwoTurns` says
  exactly for which numbers two selections pick each of the two once. With the
  worse route before them they alternate for ever (`Route.WorseFirstForever`).
  Where one route is best there is nothing to take turns in (`Route.OnlyBest`).
* The event ring's verdict can be wrong for a reader half the range of its
  counter or more behind, in queues of every size: `EventQueue.DecideFar`;
  `EventQueue.VerdictExact` says exactly for which size and backlog it is right.
* An interval drop rule added or reset in the first second of the clock can be
  taken for a rate rule and divide by zero: `DropRule.TimeZero` says exactly
  when, and `DropRule.IntervalRule` that it gets through any messages otherwise.

## Model

| member | source | states |
|---|---|---|
| `MatchEntry.ExactBits` | lnet/lnet/lib-ptl.c:165-167 | without ignore bits a request satisfies an entry only with the very same match bits |
| `MatchEntry.TryMatchKeeps` | lnet/lnet/lib-ptl.c:138-215 | a match changes nothing of a well-formed descriptor but offset and threshold and leaves it well-formed, 32-bit arithmetic included |
| `MatchEntry.AcceptedOne` | lnet/lnet/lib-ptl.c:171-203 | with a locally managed offset a request gets the bytes from the offset on, inside the descriptor, no more than asked for or than the maximum size, fewer only if it truncates, and costs one of the threshold |
| `MatchEntry.AcceptedTile` | lnet/lnet/lib-ptl.c:138-215 | the ranges accepted one after another are consecutive from the first offset on and stay within the descriptor, for any sequence of requests |
| `MatchEntry.AcceptedWithinLimits` | lnet/lnet/lib-msg.c:354-358 | no more requests are accepted than the threshold allows, each no longer than asked for and than the maximum size |
| `MatchEntry.TilesDisjoint` | lnet/lnet/lib-ptl.c:171-203 | no two accepted ranges overlap |
| `MatchEntry.ExhaustedAcceptsNothing` | lnet/lnet/lib-ptl.c:148-150 | an exhausted descriptor accepts nothing more, whatever comes |
| `MatchTable.Pass` | lnet/lnet/lib-ptl.c:383-424 | what a pass over a list reports is a usable match on it |
| `MatchTable.PassSound` | lnet/lnet/lib-ptl.c:374-428 | a pass over a list, skipped by its bit or not, leaves the bits truthful and a miss means no usable match on it |
| `MatchTable.OnlyOwnList` | lnet/lnet/lib-me.c:105-116 | an entry that a request satisfies can only be on the list the request hashes to or on the list for entries with ignore bits |
| `MatchTable.OnlyOwnTable` | lnet/lnet/lib-ptl.c:217-312 | on a unique portal only the table the request maps to can hold a match for it |
| `MatchTable.SearchSound` | lnet/lnet/lib-ptl.c:374-428 | what the search returns is a usable match, and bits set before or after mean spent lists |
| `MatchTable.SearchComplete` | lnet/lnet/lib-ptl.c:314-428 | the search reports nothing only if no list of the table holds a usable match, keeps the table valid, and reports it exhausted only if every descriptor in it is |
| `MatchTable.SearchIsPlain` | lnet/lnet/lib-ptl.c:374-428 | the indexed search finds the same entry as a plain scan of all lists, or nothing exactly when the scan finds nothing |
| `PortalProtocol.InsertSortedCorrect` | lnet/lnet/lib-ptl.c:88-111 | enabling a table keeps the list of enabled tables strictly sorted and adds just that table |
| `PortalProtocol.RemoveSortedCorrect` | lnet/lnet/lib-ptl.c:113-136 | disabling keeps it strictly sorted and removes just that table |
| `PortalSafety.CommitKeeps` | lnet/lnet/lib-ptl.c:201-214 | using, and unlinking, a descriptor creates no match where there was none |
| `PortalSafety.MatchInOk` | lnet/lnet/lib-ptl.c:374-428 | a search that misses leaves a table without a match, one that hits only takes matches away, and the tables stay valid either way |
| `PortalSafety.TurnIs` | lnet/lnet/lib-ptl.c:479-486 | round i of the stealing loop looks at the i-th table after the first, wrapping round |
| `PortalSafety.AllTurns` | lnet/lnet/lib-ptl.c:479-511 | in as many rounds as there are tables the loop has looked at all of them |
| `PortalSafety.OnlyEnabled` | lnet/lnet/lib-ptl.c:485-486 | when no other table is enabled, no match in this one means none anywhere |
| `PortalSafety.DisabledNoMatch` | lnet/lnet/lib-ptl.c:113-136 | a disabled wildcard table holds no usable match |
| `PortalSafety.OfferToOk` | lnet/lnet/lib-ptl.c:676-728 | a new buffer offered to a queue is taken by the messages that match, in order, until it is exhausted; those kept cannot use what is left of it |
| `PortalRuns.FirstOk` | lnet/lnet/lib-ptl.c:562-637 | the first attempt of a request keeps the invariant |
| `PortalRuns.StealOk` | lnet/lnet/lib-ptl.c:462-560 | a round of the stealing loop keeps the invariant, and the last one delays the message only when no table has a match |
| `PortalRuns.PostMdOk` | lnet/lnet/lib-ptl.c:649-742 | attaching a buffer leaves nobody queued who could use it |
| `PortalRuns.EarlyReturn` | lnet/lnet/lib-ptl.c:669-672 | with nothing queued and the bit clear the work skipped would change nothing |
| `PortalRuns.PostMeOk` | lnet/lnet/lib-me.c:71-122 | a new entry goes to the list and table where searches for it look |
| `PortalRuns.UnlinkOk` | lnet/lnet/lib-me.c:222-273 | unlinking an entry or descriptor keeps the invariant |
| `PortalRuns.ClearOk` | lnet/lnet/lib-ptl.c:919-966 | making a portal eager drops all that was delayed and keeps the invariant |
| `PortalRuns.StepOk` | lnet/lnet/lib-ptl.c:430-742 | every step of matchers and posters keeps the invariant |
| `PortalRuns.NoLostWakeup` | lnet/lnet/lib-ptl.c:462-742 | in every run no request is delayed while an attached descriptor would take it, and the stealing and delayed lists hold exactly the requests in those phases, each once |
| `PortalRuns.ExhaustedBitsTruthful` | lnet/lnet/lib-ptl.c:88-136 | in every run the list of enabled tables is strictly sorted and exact, and a set bit or a disabled table means only spent descriptors |
| `PortalRuns.SettledForGood` | lnet/lnet/lib-ptl.c:462-742 | no step changes a request already delivered or dropped, loses a request or alters it |
| `PortalRuns.LastRoundSettles` | lnet/lnet/lib-ptl.c:508-557 | the stealing loop ends with the request delivered, dropped or delayed |
| `PortalWindow.TakeOffIs` | lnet/lnet/lib-ptl.c:501-523 | taking a message off the stealing list and then putting it on the delayed one is the round of the stealing loop |
| `PortalWindow.PostMdCommutes` | lnet/lnet/lib-ptl.c:664-672 | storing a buffer that a message does not take leaves the same portal before and after the message is put on the delayed list |
| `PortalWindow.QuietCommutes` | lnet/lnet/lib-ptl.c:488-548 | so does every step that needs neither the portal lock nor the lock of the table searched last |
| `PortalWindow.Refines` | lnet/lnet/lib-ptl.c:462-742 | with the unlocked look and the moment between the lists, every harmless step is a step of the locked protocol or none |
| `PortalWindow.NoLostWakeupUnlocked` | lnet/lnet/lib-ptl.c:462-742 | in every run without a harmful look no delayed message has a usable buffer attached |
| `PortalWindow.LostExactly` | lnet/lnet/lib-ptl.c:518-672 | a step while a message is between the lists leaves it delayed beside a usable buffer exactly when it is an unlocked look with a buffer the message would take |
| `PortalRace.Race` | lnet/lnet/lib-ptl.c:518-672 | a run from a portal just set up to such a look |
| `Portal.Portal.InsertMap` | lnet/lnet/lib-ptl.c:99-110 | the shifting loop inserts into the array of enabled tables in order |
| `Portal.Portal.RemoveMap` | lnet/lnet/lib-ptl.c:131-135 | the shifting loop takes an entry out of the array |
| `Portal.Portal.EnableMt` | lnet/lnet/lib-ptl.c:88-111 | the table is enabled and listed in order |
| `Portal.Portal.DisableMt` | lnet/lnet/lib-ptl.c:113-136 | unless it is the only one the table is disabled and no longer listed |
| `Portal.Portal.MatchMd` | lnet/lnet/lib-ptl.c:374-428 | the loops over lists and entries compute the search of the protocol |
| `Portal.Portal.PtlMatchMd` | lnet/lnet/lib-ptl.c:562-637 | matching a request is the first-attempt step of the protocol |
| `Portal.Portal.StealRound` | lnet/lnet/lib-ptl.c:488-545 | one round of stealing is the protocol's step |
| `Portal.Portal.OfferAround` | lnet/lnet/lib-ptl.c:676-728 | the loop over queued messages offers the buffer to each in turn |
| `Portal.Portal.AttachMd` | lnet/lnet/lib-ptl.c:649-742 | attaching, early return included, is the protocol's step; a buffer posted exhausted stays attached |
| `HashTable.LayoutValid` | libcfs/libcfs/hash.c:476-486 | low bits choose a bucket that exists and high bits a list in it |
| `HashTable.LayoutSeparates` | libcfs/libcfs/hash.c:476-486 | keys share bucket and list exactly when they share their hash |
| `HashTable.PutListed` | libcfs/libcfs/hash.c:526-543 | an item added is on that list only and the bucket's count is right |
| `HashTable.TakeListed` | libcfs/libcfs/hash.c:546-564 | an item deleted is on no list, all others are where they were, and the count is right |
| `HashTable.AddAtOk` | libcfs/libcfs/hash.c:526-543 | adding an item where it belongs keeps the table's invariant |
| `HashTable.DelAtOk` | libcfs/libcfs/hash.c:546-564 | deleting keeps it and never takes a count below zero |
| `HashTable.MoveToOk` | libcfs/libcfs/hash.c:567-593 | moving an item between lists keeps it |
| `HashOps.OrderedIs` | libcfs/libcfs/hash.c:784-805 | two positions come out in locking order, lower bucket index first, and equal ones once |
| `HashOps.DualGetIs` | libcfs/libcfs/hash.c:807-825 | the positions looked at are of lists that exist and include the old and the new one of the key |
| `HashOps.DualCovers` | libcfs/libcfs/hash.c:807-860 | at any pause of a rehash the list an item is on is at one of the two positions of its key |
| `HashOps.ScanList` | libcfs/libcfs/hash.c:623-662 | the walk along a list finds the first item asked for, or there is none |
| `HashOps.MultiScan` | libcfs/libcfs/hash.c:720-734 | looking in several positions in turn finds an item if one of them has it |
| `HashOps.OrderBds` | libcfs/libcfs/hash.c:784-805 | the pair of positions is sorted the way the order says |
| `HashOps.DualScan` | libcfs/libcfs/hash.c:837-860 | the search at two positions finds an item of the table with that key exactly when there is one |
| `HashOps.AddItem` | libcfs/libcfs/hash.c:736-765 | the set of items gains the item and nothing else changes |
| `HashOps.DelItem` | libcfs/libcfs/hash.c:767-782 | the set of items loses the item and nothing else changes |
| `HashOps.RehashList` | libcfs/libcfs/hash.c:1868-1882 | the loop over a list moves every item of it to its new position and no other |
| `HashOps.RehashBd` | libcfs/libcfs/hash.c:1857-1885 | every item of the bucket goes to its new position, none is lost or doubled |
| `HashOps.BucketsFree` | libcfs/libcfs/hash.c:862-874 | exactly the buckets in the given range are freed |
| `HashOps.BucketsRealloc` | libcfs/libcfs/hash.c:881-932 | the new table keeps the old buckets it has room for and adds empty ones; it fails exactly for want of memory for the array or a bucket, and then frees all it allocated |
| `HashRehash.StartGrowing` | libcfs/libcfs/hash.c:1937-1938 | publishing a larger table keeps the invariant, nothing moved yet |
| `HashRehash.StartShrinking` | libcfs/libcfs/hash.c:1937-1938 | publishing a smaller table, which shares its buckets with the old one, keeps it |
| `HashRehash.BucketDone` | libcfs/libcfs/hash.c:1954-1963 | after a bucket is dealt with nothing in it is out of place |
| `HashRehash.AllMoved` | libcfs/libcfs/hash.c:1941-1964 | after the last bucket every item is at its new position |
| `HashRehash.DroppedEmpty` | libcfs/libcfs/hash.c:1966-1981 | every bucket freed at the end is empty and not part of the new table |
| `HashRehash.FinishOk` | libcfs/libcfs/hash.c:1966-1981 | after the swap and the freeing the invariant holds of the new table |
| `HashRehash.AbortGrowing` | libcfs/libcfs/hash.c:1942-1972 | giving up a growth keeps all items and buckets |
| `HashRehash.AbortShrinking` | libcfs/libcfs/hash.c:1942-1951 | giving up a shrinkage keeps all items and buckets |
| `HashRuns.StartRehash` | libcfs/libcfs/hash.c:1900-1937 | a rehash starts exactly when the size differs, memory for the array and the buckets is there and the load is still out of bounds; else the table is exactly as it was |
| `HashRuns.RehashNext` | libcfs/libcfs/hash.c:1941-1964 | a round of the worker keeps the invariant and the items |
| `HashRuns.FinishRehash` | libcfs/libcfs/hash.c:1966-1981 | what is freed at the end is empty and unused, and the rest is intact |
| `HashRuns.AnnounceExit` | libcfs/libcfs/hash.c:1085-1089 | announcing the end of the table changes nothing else |
| `HashRuns.AbortRehash` | libcfs/libcfs/hash.c:1942-1972 | an abort loses no item and frees no bucket |
| `HashRuns.NewHash` | libcfs/libcfs/hash.c:1039-1065 | a new table is empty and valid; there is one exactly when there is memory for its array and its buckets |
| `HashRuns.HashedIs` | libcfs/libcfs/hash.c:1203-1291 | a node is on some list exactly when its item is in the set |
| `HashRuns.Add` | libcfs/libcfs/hash.c:1197-1217 | an addition of a node on no list, at any pause of a rehash, acts as on a plain set |
| `HashRuns.FindAdd` | libcfs/libcfs/hash.c:1220-1245 | find-or-add with a node on no list returns an item of the set with that key if there is one and else adds its own |
| `HashRuns.Delete` | libcfs/libcfs/hash.c:1284-1315 | deleting a node takes its item out of the set, and does nothing if the node is on no list |
| `HashRuns.DeleteKey` | libcfs/libcfs/hash.c:1284-1329 | deleting by key removes one item with the key exactly when the set has one |
| `HashRuns.Lookup` | libcfs/libcfs/hash.c:1339-1357 | a lookup finds an item with the key exactly when the set has one |
| `HashRuns.CfsHash.Execute` | libcfs/libcfs/hash.c:1197-1357 | each call gets the answer to what it asked for, as from a plain set, and each step of the worker gets done what it is for |
| `HashRuns.CfsHash.Run` | libcfs/libcfs/hash.c:1857-1986 | in any interleaving of calls with a rehash starting, pausing, ending and being given up for the destruction of the table, the answers are those of a run of the same operations on a plain set |
| `HashRuns.CfsHash.Create` | libcfs/libcfs/hash.c:996-1066 | a created table is valid and empty, so that every run can start from it |
| `HashRuns.CfsHash.Destroy` | libcfs/libcfs/hash.c:1072-1131 | whatever the run before, every item of the set leaves once and no bucket stays allocated |
| `HashDestroy.EmptyBucket` | libcfs/libcfs/hash.c:1098-1121 | emptying a bucket takes exactly its items out, each once |
| `HashDestroy.Destroy` | libcfs/libcfs/hash.c:1091-1126 | every item leaves exactly once, all counts come down to 0 and every bucket is freed, after an aborted rehash too |
| `TxCredits.HoldersAre` | lnet/lnet/lib-move.c:976-1010 | a change of one message's flags adds it to or takes it from the holders of a gate and no one else |
| `TxCredits.EnterOk` | lnet/lnet/lib-move.c:976-1014 | a message that takes a credit passes or waits and the gate's accounts stay right |
| `TxCredits.LeaveOk` | lnet/lnet/lib-move.c:1134-1157 | a credit given back goes to the first who waits and the accounts stay right |
| `TxCredits.BytesWithout` | lnet/lnet/lib-move.c:982 | the bytes of a set of messages are those of any one of them and of the rest |
| `TxCredits.NobAfter` | lnet/lnet/lib-move.c:1167-1168 | what a message holds of its peer decides its share of the queued bytes |
| `TxCredits.StepOk` | lnet/lnet/lib-move.c:921-1218 | every half of posting and returning, in any order among messages, keeps the invariant |
| `TxCredits.Conservation` | lnet/lnet/lib-move.c:976-1207 | in every run and at every gate credits and holders add up to the grant, so many wait as credits are overdrawn, no more than the grant are past the gate, and messages pass in the order in which they came |
| `TxCredits.ClearedHoldsBoth` | lnet/lnet/lib-move.c:1015-1023 | a message handed to the driver holds both credits and waits nowhere; a waiting one waits at one gate; a finished one holds nothing |
| `TxCredits.QueuedBytes` | lnet/lnet/lib-move.c:982-1168 | the bytes charged to a peer are those of the messages that hold or await its credits, never negative |
| `TxCredits.Drained` | lnet/lnet/lib-move.c:1127-1218 | when all messages are finished every credit and byte is back |
| `TxCredits.NoDeadlock` | lnet/lnet/lib-move.c:976-1207 | as long as a message waits, some message that does not can take a step |
| `TxPath.PathOk` | lnet/lnet/lib-move.c:921-1218 | the invariant survives any sequence of steps |
| `TxPath.TxPath.TakeCredit` | lnet/lnet/lib-move.c:976-1012 | a credit is taken or the message queued last, and it says which |
| `TxPath.TxPath.PostSend` | lnet/lnet/lib-move.c:921-1024 | posting is a sequence of protocol steps and its return code tells what became of the message |
| `TxPath.TxPath.GiveCredit` | lnet/lnet/lib-move.c:1138-1156 | a credit is given back and names the message it lets through |
| `TxPath.TxPath.ReturnTxCredits` | lnet/lnet/lib-move.c:1127-1218 | returning credits, with posting whom they let through, is a sequence of protocol steps that keeps the invariant and finishes the message |
| `RouterPool.RecvOk` | lnet/lnet/lib-move.c:1079-1105 | a message that takes a buffer or waits keeps the pool's invariant |
| `RouterPool.ReturnOk` | lnet/lnet/lib-move.c:1260-1302 | a returned buffer, kept, passed on or thrown away, keeps it |
| `RouterPool.ScheduleOk` | lnet/lnet/lib-move.c:1220-1232 | serving a waiting message keeps every buffer in one place |
| `RouterPool.Keeps` | lnet/lnet/lib-move.c:1288-1296 | a buffer is thrown away only when nobody waits, no buffers are being added and as many are free as are requested |
| `RouterPool.StepOk` | lnet/lnet/router.c:1386-1463 | every step, those of the thread changing the number of buffers included, keeps the invariant |
| `RouterPool.PoolConservation` | lnet/lnet/lib-move.c:1079-1302 | in every run credits are free buffers less waiting messages and buffers are free or owned by one message each; unless new buffers are being handed out one of free and waiting is nil |
| `RouterPool.ReturnedWell` | lnet/lnet/lib-move.c:1260-1302 | at every moment of every run a returned buffer is thrown away only when nobody waits, goes to the first who waits when more wait than buffers are free, and else on the free list, which does not grow past the requested number |
| `RouterPool.SignTellsExact` | lnet/lnet/lib-move.c:1278-1279 | in every run the assertion on the sign of the credits fails exactly while some buffers are free but no more than messages wait, and only while new buffers are being handed out |
| `RouterPool.WhileAdding` | lnet/lnet/router.c:1439-1449 | with n buffers added and w messages waiting it fails after hand-out k exactly when k < n <= w |
| `RouterPool.SignMisleads` | lnet/lnet/lib-move.c:1278-1279 | a run to a moment at which a returning message would find the assertion false |
| `RouterPool.MsgToPool` | lnet/lnet/lib-move.c:1027-1045 | the pool chosen is the first whose buffers hold the message, and the loop does not run off |
| `RouterPool.LargePagesSuffice` | lnet/lnet/router.c:33-34 | the page count of the largest pool holds the largest message |
| `RouterPool.RtrBufPool.PostRoutedRecv` | lnet/lnet/lib-move.c:1079-1125 | the message has a buffer or waits, as the step says |
| `RouterPool.RtrBufPool.ReturnRxCredits` | lnet/lnet/lib-move.c:1260-1302 | the buffer goes where the step says |
| `RouterPool.RtrBufPool.AdjustBufs` | lnet/lnet/router.c:1386-1463 | with too little memory the pool is as it was; else the number is as requested and nobody waits while a buffer is free; the invariant stays |
| `RouterPool.RtrBufPool.Serve` | lnet/lnet/router.c:1447-1449 | free buffers go to waiting messages in order until one of the two runs out |
| `MdLifecycle.SetMdBase` | lnet/lnet/lib-md.c:42-81 | a descriptor's flags, size and offset are nobody else's business |
| `MdLifecycle.DisownBase` | lnet/lnet/lib-md.c:44-64 | unlinking parts a descriptor from its entry, and unlinks an entry made to go with it |
| `MdLifecycle.FreeBase` | lnet/lnet/lib-md.c:66-80 | freeing a descriptor that nobody uses leaves all reference counts right |
| `MdLifecycle.AttachOk` | lnet/lnet/lib-msg.c:337-363 | a message that attaches to a descriptor keeps the invariant |
| `MdLifecycle.DetachOk` | lnet/lnet/lib-msg.c:365-386 | a message that lets go, and may be the last to, keeps it |
| `MdLifecycle.OwnerUnlinkOk` | lnet/lnet/lib-md.c:525-556 | an owner's unlink keeps it |
| `MdLifecycle.UnlinkMeOk` | lnet/lnet/lib-me.c:222-273 | unlinking an entry with a descriptor keeps it |
| `MdLifecycle.MatchOk` | lnet/lnet/lib-ptl.c:201-214 | a match that exhausts a descriptor and unlinks it keeps it |
| `MdLifecycle.LinkOk` | lnet/lnet/lib-md.c:271-303 | linking a new descriptor keeps it |
| `MdLifecycle.EqFreeExact` | lnet/lnet/lib-eq.c:151-204 | an event queue is freed exactly when no linked descriptor reports to it |
| `MdLifecycle.StepOk` | lnet/lnet/lib-md.c:368-556 | every step keeps the invariant |
| `MdLifecycle.Lifecycle` | lnet/lnet/lib-md.c:42-81 | in every run nothing freed is touched, a descriptor is freed at most once and not while a message uses it, and its queue is told it is unlinked once, with its last event, when it is freed |
| `MdLifecycle.EqOutlivesMds` | lnet/lnet/lib-eq.c:175-193 | in every run the queue of a linked descriptor exists and its count by partition is the number of linked descriptors that report to it |
| `MdLifecycle.ZombieEnds` | lnet/lnet/lib-md.c:45-70 | in every run an unlinked descriptor still in use can be found neither by handle nor by matching and goes with its last message |
| `MdResources.Resources.UnlinkMd` | lnet/lnet/lib-md.c:42-81 | unlinking in place is the protocol's |
| `MdResources.Resources.MsgDetachMd` | lnet/lnet/lib-msg.c:365-386 | a message lets go, the event is sent, and the descriptor unlinked if that was the last |
| `MdResources.Resources.MDUnlink` | lnet/lnet/lib-md.c:525-556 | the handle is good exactly for a descriptor not yet unlinked, which is then unlinked |
| `MdResources.Resources.MEUnlink` | lnet/lnet/lib-me.c:222-273 | the entry goes, and its descriptor is unlinked |
| `MdResources.Resources.EQFree` | lnet/lnet/lib-eq.c:151-204 | the queue is busy exactly when a linked descriptor reports to it |
| `EventQueue.DecideExact` | lnet/include/uapi/linux/lnet/lnet-types.h:620 | for which pairs of numbers the wrapping comparison gives the true verdict, and for no others |
| `EventQueue.DecideNear` | lnet/lnet/lib-eq.c:236-267 | it does while the backlog is less than half the counter's range |
| `EventQueue.VerdictExact` | lnet/lnet/lib-eq.c:236-267 | for which size and backlog the reader of a queue gets the right verdict, and for no others |
| `EventQueue.DecideFar` | lnet/lnet/lib-eq.c:236-267 | in queues of every size and wherever the reader is, two backlogs for which it does not |
| `EventQueue.RoundUpPow2` | lnet/lnet/lib-eq.c:77-78 | the least power of two that is not less |
| `EventQueue.SizeFor` | lnet/lnet/lib-eq.c:77-90 | the size of a queue is the count rounded up; more than 2^31 leaves none; without size and callback it is refused |
| `EventQueue.NewestNext` | lnet/lnet/lib-eq.c:219-225 | after an event is stored every slot still holds the newest event of its residue |
| `EventQueue.Found` | lnet/lnet/lib-eq.c:236-267 | the reader's slot holds an older event exactly when it has read everything, its next one exactly when that is among the last so many, and else one whole rounds later |
| `EventQueue.WrappedSlot` | lnet/lnet/lib-eq.c:220-223 | the slot of a wrapped number is the slot of the number |
| `EventQueue.Queue.constructor` | lnet/lnet/lib-eq.c:96-107 | a new queue is empty |
| `EventQueue.Queue.Enqueue` | lnet/lnet/lib-eq.c:207-234 | the event is the newest, whatever has been read |
| `EventQueue.Queue.Dequeue` | lnet/lnet/lib-eq.c:236-267 | 0 exactly when nothing is unread, 1 with exactly the next event when it is still there, and overflow exactly when it was overwritten, with an event whole rounds later; the numbers read only grow |
| `ScatterGather.AddrAt` | lnet/lnet/lib-move.c:284-340 | byte o of a fragment is the flat byte so far after the fragment's start |
| `ScatterGather.Seek` | lnet/lnet/lib-move.c:297-313 | skipping whole fragments, empty ones too, stops in the fragment that holds the offset |
| `ScatterGather.Extract` | lnet/lnet/lib-move.c:343-672 | the fragments made denote exactly the flat bytes from the offset on, are as many as the fragments touched, and stay in the pages of the source |
| `ScatterGather.Memcpy` | lnet/lnet/lib-move.c:322-323 | the bytes at one place become those at another and no other changes |
| `ScatterGather.Piece` | lnet/lnet/lib-move.c:315-338 | one more piece extends what has been copied and touches nothing else |
| `ScatterGather.Map` | lnet/lnet/lib-move.c:443-448 | a page is mapped once and stays mapped in its fragment |
| `ScatterGather.Advance` | lnet/lnet/lib-move.c:457-475 | moving on unmaps the page when its fragment is done |
| `ScatterGather.Round` | lnet/lnet/lib-move.c:436-475 | a round copies bytes or passes an empty fragment |
| `ScatterGather.Copy` | lnet/lnet/lib-move.c:284-622 | for any fragments and any of the four kinds of copy the loops end, exactly the destination bytes asked for become the source bytes asked for, no other byte of memory changes and no page is left mapped |
| `ScatterGather.FlatCopy` | lnet/lnet/lib-move.c:284-622 | in flat bytes the copy is one splice of the source into the destination |
| `ScatterGather.FlatExtract` | lnet/lnet/lib-move.c:343-672 | extracted fragments hold the slice of the source's flat bytes |
| `Route.CompareIs` | lnet/lnet/lib-move.c:1361-1390 | the comparison follows priority, hops, queued bytes and credits, and the sequence numbers only in a tie |
| `Route.BeatsTransitive` | lnet/lnet/lib-move.c:1343-1390 | not being beaten is transitive, and so is being tied |
| `Route.FindRoute` | lnet/lnet/lib-move.c:1392-1449 | a route is found exactly when there is a live candidate; the router asked for by name is taken as soon as it is met; else the pick of the scan is, and is marked last used |
| `Route.NotBeaten` | lnet/lnet/lib-move.c:1411-1441 | the pick is live and beaten by no live candidate, whatever the sequence numbers |
| `Route.DifferenceExact` | lnet/lnet/lib-move.c:1386-1433 | for which pairs of numbers the wrapping difference has the right sign, and for no others |
| `Route.ScanIs` | lnet/lnet/lib-move.c:1411-1448 | with numbers within half the range the pick is the least recently used of those tied for best |
| `Route.SelectionTurns` | lnet/lnet/lib-move.c:1443-1447 | the pick had the least number of the tied and then has the greatest |
| `Route.OneTurnEach` | lnet/lnet/lib-move.c:1443-1447 | as many turns as there are tied go to each once |
| `Route.RoundRobin` | lnet/lnet/lib-move.c:1392-1449 | while the same n candidates stay tied for best any n selections in a row pick each exactly once |
| `Route.Beforehand` | lnet/lnet/lib-move.c:1392-1449 | for n selections it is enough that the numbers of all candidates are within 2^31 less n beforehand |
| `Route.OnlyBest` | lnet/lnet/lib-move.c:1411-1441 | the only best candidate is picked whatever the sequence numbers |
| `Route.TopRises` | lnet/lnet/lib-move.c:1443-1447 | with all candidates tied the pick gets the number one above the greatest |
| `Route.LastNumbers` | lnet/lnet/lib-move.c:1443-1447 | after n turns of n tied routes their numbers are the last n given out, however far apart they were |
| `Route.AllTiedForever` | lnet/lnet/lib-move.c:1392-1449 | with all candidates tied any n selections in a row pick each of the n once in runs of any length, wherever the numbers wrap |
| `Route.FreshRounds` | lnet/lnet/lib-move.c:1392-1449 | with any number of tied and worse routes just added, in any order, any n selections in a row among the first 2^31 - 1 pick each of the n tied once |
| `Route.TwoTurns` | lnet/lnet/lib-move.c:1431-1447 | for which numbers two selections among two tied routes and a worse one after them pick each tied one once, and for no others |
| `Route.FreshState` | lnet/lnet/lib-move.c:1431-1447 | the numbers two tied routes have after k selections in every run from routes just added |
| `Route.StopsForGood` | lnet/lnet/lib-move.c:1431-1447 | in every such run the two take turns for 2^31 + 1 selections and then one of them is picked every time |
| `Route.WorseFirstForever` | lnet/lnet/lib-move.c:1431-1447 | with the worse route before them the two take turns in runs of any length |
| `Heap.Rise` | libcfs/libcfs/heap.c:324-336 | a node that changes places with a later parent leaves the heap broken at most above it |
| `Heap.Fall` | libcfs/libcfs/heap.c:372-401 | a node that changes places with its lesser child leaves it broken at most below |
| `Heap.Bubble` | libcfs/libcfs/heap.c:310-342 | written through the slots of the memory: the same nodes, each knowing its slot; moved, the heap is whole, and not moved, nothing changed |
| `Heap.Sink` | libcfs/libcfs/heap.c:353-407 | written through the slots of the memory: the same nodes, each knowing its slot, and the heap whole |
| `Heap.Rekeyed` | libcfs/libcfs/heap.c:483-497 | changing what one node compares as breaks the heap at that node only |
| `Heap.RootLeast` | libcfs/libcfs/heap.c:310-407 | the root comes before every node |
| `Heap.BinHeap.constructor` | libcfs/libcfs/heap.c:166-203 | a new heap is valid and empty |
| `Heap.BinHeap.Relocate` | libcfs/libcfs/heap.c:492-497 | repairs a heap broken at one node, in either direction |
| `Heap.BinHeap.Insert` | libcfs/libcfs/heap.c:418-445 | memory grows exactly when all slots are in use; the node is added and the heap whole, or memory or the callback refused and nothing changed |
| `Heap.BinHeap.Remove` | libcfs/libcfs/heap.c:454-481 | just that node is gone and the heap whole |
| `Heap.BinHeap.Drain` | libcfs/include/libcfs/libcfs_heap.h:191-199 | taking nodes off the root gives all of them in order |
| `HeapStorage.LeafNumber` | libcfs/libcfs/heap.c:266-280 | the three ways of taking an index apart number the chunks without gaps |
| `HeapStorage.BelowMark` | libcfs/libcfs/heap.c:266-280 | slots below the high-water mark are exactly those in chunks there are |
| `HeapStorage.PointerInjective` | libcfs/libcfs/heap.c:266-280 | different slots are different words, each in an allocated chunk of slots |
| `HeapStorage.SlotsStay` | libcfs/libcfs/heap.c:69-151 | growing moves no slot and keeps what is in them |
| `HeapStorage.Grown3Ok` | libcfs/libcfs/heap.c:119-147 | a chunk added at the third level leaves every chunk with one role and every role with its chunk |
| `HeapStorage.Grow` | libcfs/libcfs/heap.c:69-151 | succeeds exactly when the third level is not full and there is memory, with just the chunks needed; else all is as before and nothing leaked |
| `HeapStorage.Grow2` | libcfs/libcfs/heap.c:89-108 | the same of the second level |
| `HeapStorage.Grow3` | libcfs/libcfs/heap.c:110-147 | the same of the third |
| `HeapStorage.Destroy` | libcfs/libcfs/heap.c:214-254 | every chunk is freed, each when it is still allocated and so once |
| `HeapSlots.EmptyStore` | libcfs/libcfs/heap.c:185-187 | no chunks at all is a valid memory of no slots |
| `HeapSlots.Locate` | libcfs/libcfs/heap.c:266-280 | the chain of tables followed leads to the slot's word |
| `HeapSlots.WriteOne` | libcfs/libcfs/heap.c:266-280 | a write through the pointer of a slot changes what that slot holds, no other slot and no table |
| `HeapSlots.Write` | libcfs/libcfs/heap.c:437-441 | after a write to a slot in use, or the first free one, the slots hold the sequence so changed or so extended |
| `HeapSlots.MoreSlots` | libcfs/libcfs/heap.c:424-428 | growing adds a chunk of slots or fails as the growth does, and leaves what the slots hold |
| `WorkItem.ScheduleOk` | libcfs/libcfs/workitem.c:178-202 | scheduling keeps the invariant and the code's assertions hold |
| `WorkItem.DescheduleOk` | libcfs/libcfs/workitem.c:137-168 | descheduling does |
| `WorkItem.ExitOk` | libcfs/libcfs/workitem.c:107-131 | an exit does |
| `WorkItem.StartOk` | libcfs/libcfs/workitem.c:233-247 | taking the first item does |
| `WorkItem.ReturnOk` | libcfs/libcfs/workitem.c:252-263 | the return of an action, with a reschedule pending or not, does |
| `WorkItem.Scheduling` | libcfs/libcfs/workitem.c:107-264 | in every run no assertion fails, an item is on the run queue exactly when scheduled and not running, on the rerun queue exactly when scheduled, running and not exited, runs on one thread at most, and the count is that of the queues |
| `WorkItem.NoLostSchedule` | libcfs/libcfs/workitem.c:178-264 | from the call on an item is on a queue until it starts or is cancelled |
| `WorkItem.StartsWithin` | libcfs/libcfs/workitem.c:233-264 | an item at position p starts within p further starts |
| `WorkItem.WiSched.ScheduleItem` | libcfs/libcfs/workitem.c:178-202 | scheduling in place is the step |
| `WorkItem.WiSched.DescheduleItem` | libcfs/libcfs/workitem.c:137-168 | the item is on no queue, and the result is true exactly when no thread runs it |
| `WorkItem.WiSched.ExitItem` | libcfs/libcfs/workitem.c:107-131 | cancels and bars the item from being scheduled |
| `WorkItem.WiSched.TakeNext` | libcfs/libcfs/workitem.c:233-247 | the thread runs the item that was first |
| `WorkItem.WiSched.ActionDone` | libcfs/libcfs/workitem.c:252-263 | the item is gone, idle, or at the end of the run queue |
| `CpuTable.DistanceCalculate` | libcfs/libcfs/libcfs_cpu.c:362-379 | the largest distance between a node of the one mask and a node of the other, 0 if there is none |
| `CpuTable.Recompute` | libcfs/libcfs/libcfs_cpu.c:417-430 | all distances from and to a partition are right and no other changes |
| `CpuTable.AddNode` | libcfs/libcfs/libcfs_cpu.c:397-432 | the node is in both masks and what depends on them is recomputed |
| `CpuTable.DelNode` | libcfs/libcfs/libcfs_cpu.c:434-481 | a node goes from a mask exactly when no CPU of it is left, and then what depends on it is recomputed and another holder named |
| `CpuTable.SetCpu` | libcfs/libcfs/libcfs_cpu.c:483-513 | exactly a CPU online at the time and in no partition is added, and the whole table stays right |
| `CpuTable.UnsetCpu` | libcfs/libcfs/libcfs_cpu.c:516-546 | exactly a CPU in the partition named, or in any, is removed, and the whole table stays right |
| `CpuTable.AddedDistances` | libcfs/libcfs/libcfs_cpu.c:397-432 | after an addition every distance with a partition ever populated is right |
| `CpuTable.RemovedDistances` | libcfs/libcfs/libcfs_cpu.c:434-481 | after a removal it is |
| `CpuTable.RemovedNodes` | libcfs/libcfs/libcfs_cpu.c:434-481 | after a removal masks are the nodes of the CPUs and a node in use is held by the partition named |
| `CpuTable.CptTable.Run` | libcfs/libcfs/libcfs_cpu.c:381-546 | any run of additions and removals puts each CPU where the accepted operations say, and the whole table stays right |
| `CpuTable.CptTable.Distance` | libcfs/libcfs/libcfs_cpu.c:346-355 | between partitions of which one ever had a CPU it is the largest distance between their CPUs' nodes |
| `CpuTable.Disjoint` | libcfs/libcfs/libcfs_cpu.c:381-395 | partitions share no CPU and `cpu2cpt` is their inverse |
| `DropRule.FreshRate` | lnet/lnet/net_fault.c:172-178 | a rate rule added or reset picks a message of the first window |
| `DropRule.InWindow` | lnet/lnet/net_fault.c:391-403 | within a window the number of the message to drop does not change and is in it |
| `DropRule.OnePerWindow` | lnet/lnet/net_fault.c:391-403 | exactly one message of every aligned window is dropped, whatever the random numbers |
| `DropRule.FreshInterval` | lnet/lnet/net_fault.c:172-178 | an interval rule added or reset drops nothing before its start and has its second interval after the first |
| `DropRule.Spaced` | lnet/lnet/net_fault.c:372-389 | after n drops the next is due no sooner than n intervals from the start |
| `DropRule.AtMostPerInterval` | lnet/lnet/net_fault.c:372-389 | by time t at most (t - t0) / I + 1 messages are dropped, whatever the arrivals and random numbers |
| `DropRule.TimeZero` | lnet/lnet/net_fault.c:172-403 | exactly when an interval rule, added or reset, is taken for a rate rule and divides by zero |
| `DropRule.NeverZeroAgain` | lnet/lnet/net_fault.c:372-389 | an interval rule not so taken at first never is |
| `DropRule.DecidedIs` | lnet/lnet/net_fault.c:364-403 | the code's decisions over any arrivals are those of an interval rule, unless the first drop time is 0 |
| `DropRule.IntervalRule` | lnet/lnet/net_fault.c:364-403 | an interval rule gets through any arrivals exactly when its first drop time is not 0, and then drops at most (t - t0) / I + 1 by time t |
| `DropRule.DropRule.MatchMessage` | lnet/lnet/net_fault.c:345-415 | the decision and the new state of the rule are those of the model, and drops are counted |

## Left out

- `LNetMEInsert`: it puts an entry on its neighbour's list whatever its match bits are, so completeness of matching covers entries placed by `LNetMEAttach`.
- `Portal.Portal.AttachMd`: the look before the portal lock and the section under it are one step; the look among other threads is in `PortalWindow`.
- The exhausted bits of a match table are single bits here, not packed 64 to a word.
- GET requests at a portal appear as steps of the environment that use up descriptors; portal shutdown and the type check of a portal set elsewhere are not modelled.
- The tiling of accepted ranges does not cover descriptors whose offset the sender chooses.
- The four list layouts of the hash table (with and without tail pointer and depth) are one: a sequence that grows at its head or its tail. Item reference counts, bucket versions and depth statistics are not modelled, nor `cfs_hash_rehash_key`, iteration, and the sleeping and waking of the rehash worker.
- Resending: each attempt to send is a message of its own. Low-water marks and the sum of credits over the queues of an interface are not kept.
- `TxPath.TxPath.ReturnTxCredits`: a message it lets through and that is refused is finalized by a later call, not within this one.
- The gate of router credits in front of a pool, which is built like a peer's transmit gate, and switching routing off.
- `RouterPool.RtrBufPool.AdjustBufs`: the method runs alone; its steps among those of other threads are in `RouterPool.StepOk`.
- Response trackers, health checks and the choice of whom a finished message is reported to; only where a message lets go of its descriptor is modelled.
- Polling and sleeping on event queues, and callbacks.
- Overlapping fragments: a copy requires, as `memcpy` does, that destination bytes are distinct and not source bytes.
- `Route.RoundRobin`: outside the half-range window what happens depends on the order of the routes; it is given for two tied routes with a worse one after them (`Route.TwoTurns`) or before them (`Route.WorseFirstForever`), not for every number and order.
- Preallocation of heap slots at creation, which repeats the growth. What a removed node's index field holds afterwards is not stated.
- Starting and stopping of scheduler threads and their sleeping.
- Creation of CPU tables from masks and patterns, and `cfs_cpt_set_cpumask` and `cfs_cpt_set_node`, which do without the checks of `cfs_cpt_set_cpu`.
- Filters of drop rules, rules that decide by a coin, health errors, and what delay rules do with a message after the decision, which is made as for drop rules.
- Configuration and address parsing, sockets, module and debug code, and start-up and shutdown of LNet.
