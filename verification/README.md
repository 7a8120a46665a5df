# Verification of the time daemon, the fake clock and the hash table

Daemons on several hosts elect a leader, and the leader keeps their clocks together by averaging. A host's clock is
not set: the daemon rewrites its FAKETIME variable, and libfaketime, preloaded into the process, turns the system
clock into a faked one according to it. libfaketime in turn keeps its condition variables in a uthash table. This
project models these parts in Dafny and proves what they promise.

| files | model |
|---|---|
| `Bits`, `Seqs`, `Text`, `TimeOps` | shift and mask arithmetic, sequences, decimal text, normalised two-part times |
| `UthashSpec`, `UthashLaws`, `UthashExpansion`, `UthashSort`, `UthashRuns` | uthash on values: expansion policy, invariant, load bound, stable sort, whole histories |
| `UthashLinks`, `UthashRelink`, `UthashTable` | uthash in place: class `HashTable` with bucket array and both intrusive lists, proved against the value functions |
| `TempoNode`, `TempoElection`, `TempoRuns` | the election: one node, the network, all runs |
| `TempoEpisodes`, `TempoDaemon` | one stay in a state and how it lies in the runs of the network, and the daemon object, whose state methods are proved to be such stays |
| `TempoStays`, `TempoPromises` | what a stay comes to, told by the messages taken in it: the state diagram, the traffic, the leader's list; and what the daemons owe each other along every run |
| `TempoSync`, `TempoMessenger` | the averaging round with its error bounds, and the wire format |
| `FakeClock`, `FakeClockLaws`, `FakeFamilies`, `Specifications` | parsing of "+offset", "+offset xrate" and "+offset iincrement", readings and ticks, FAKETIME_XRESET, absolute deadlines, each clock's own start, and what the texts mean |
| `Steering`, `TempoHosts` | the daemon steering the fake clock through the variable, end to end, and averaging rounds between hosts so steered |
| `Replay` | saved and replayed times, and ticks shared between processes |

The main results are statements over every run: a table is a map plus a sequence, and while expansion is not inhibited
it holds on average at most 19 items per bucket and no chain outgrows its own expansion threshold
(`UthashRuns.RunIsDictionary`); it has thirty-two buckets, doubled once for every addition that brought a chain to
10*(expand_mult+1) items (`UthashRuns.BucketsDoubled`); the linked merge sort is the stable sort (`UthashSort.MergeSortIsStableSort`); duelling
leaders always have a message on its way that ends the duel (`TempoRuns.AlwaysPending`); an elected leader's bid stays
the oldest exactly in the runs in which no candidate's time was up too early (`TempoRuns.TimelyElections`); what a
daemon object does from START on is what a node of the network does, in every interleaving
(`TempoEpisodes.CareerInRuns`, `TempoDaemon.TimeDaemon.Run`); every event puts exactly the right messages into the
inboxes (`TempoStays.TrafficExactly`), a leader lists exactly the followers it has heard, and misses none
(`TempoPromises.LeaderListsFollowers`, `TempoPromises.FollowersListed`); the skew between two participants of a round is bounded
whatever happened before, for the clocks of the analysis (`TempoSync.SkewOverRuns`) and for hosts whose every reading
is a faked one and whose every adjustment rewrites FAKETIME (`TempoHosts.HostsSynchronised`); a changed specification
takes the fake clock back exactly when what it would have shown at the last reading falls short of what was shown, or
its rate or increment is negative (`FakeClockLaws.NeverBackExactly`), and otherwise the clock never runs backwards
(`FakeClockLaws.NeverFallsBack`); steering adds up to the nanosecond (`Steering.SteeringAddsUp`); and a saved session
replays exactly (`Replay.SessionReplays`).

Points where the code differs from what one might expect, and what is proved instead:

- `HASH_ADD` does not look for the key: adding keeps the table sound exactly when the key is fresh
  (`UthashLaws.AddValidExactly`), so the operations that add require that, which is all the caller must see to.
- The load bound is an average: a chain of equal hashes can grow to 10*(expand_mult+1) items, and what every chain
  keeps is that threshold of its own (`UthashLaws.LoadFactor`).
- No code path sends CONFLICT. The CONFLICT state and its way back to LEADER are in the model all the same.
- An election can leave two elected leaders when both candidates time out before reading each other's ELECTION
  (`TempoRuns.UntimelyElectionsDuel`). A step breaks the precedence of older bids exactly when it is premature: an
  unmarked candidate leaves while a contender with an older bid still owes it a refusal (`TempoRuns.OldestExactly`).
- An adjustment of exactly zero is sent as an empty field, which the follower passes to `float` and fails on
  (`Steering.AdjustmentArrives`).
- A changed specification of the kinds "+offset", "+offset xrate" and "+offset iincrement" (beginning with a sign, every
  number in it finite) keeps the clock from running backwards exactly when the rate then in force, or for a clock that
  ticks the increment, is not negative, and when it would have shown no less at the last reading than was shown
  (`FakeClockLaws.NeverBackExactly`). FAKETIME_XRESET takes care of the second half only for specifications with an
  "x", and not against a negative rate, as in "+0 x -1" (`FakeClockLaws.BlankBeforeRate`). From "+100 x1" the plain "+0"
  takes the clock back by 100 seconds (`FakeClockLaws.HundredFallBack`), and "+100 i1" by all the time that has passed
  (`FakeClockLaws.TicksFallBack`). A restart takes every clock to what CLOCK_REALTIME last showed
  (`FakeFamilies.EachRestarts`), and a clock not read by then is measured from the unset value and leaps ahead
  (`FakeFamilies.UnreadClockLeaps`). An increment once set stays in force: a later "x" changes nothing but the base.
- A second reply of one follower in the same round ends the leader's averaging thread with a KeyError, unless everybody
  has answered by then (`TempoSync.GetFollowerDiffs`).

Check the whole project with `dafny verify dfyconfig.toml` (Dafny 4.11).

## Model

| member | source | states |
|---|---|---|
| UthashRuns.RunIsDictionary | code/third-party/libfaketime/src/uthash.h:156-173 | After any sequence of adds, ordered adds, replaces, deletes and sorts the table holds the items of a plain map-plus-sequence in the same application order, finding a key returns the item stored under it or NULL, and without inhibition there are at most 19*num_buckets items and no chain is longer than its threshold 10*(expand_mult+1) |
| UthashRuns.Run | code/third-party/libfaketime/src/uthash.h:396-477 | Every operation a caller may make keeps the full invariant, also across expansions and across a table freed with its last item and rebuilt |
| UthashRuns.StepOrder | code/third-party/libfaketime/src/uthash.h:254-269 | One operation changes the application order as it changes the plain sequence |
| UthashRuns.StepAgrees | code/third-party/libfaketime/src/uthash.h:450-477 | One operation keeps the plain map and the plain sequence in agreement: same items, distinct keys |
| UthashRuns.InhibitedAfterTwo | code/third-party/libfaketime/src/uthash.h:946-951 | `noexpand` is set exactly when the last two expansions of the allocated table were both ineffective |
| UthashRuns.StreakIsIneff | code/third-party/libfaketime/src/uthash.h:946-947 | `ineff_expands` is the length of the current run of ineffective expansions in the recorded history, an expansion being every addition that brings a chain to 10*(expand_mult+1) items |
| UthashRuns.InhibitionStays | code/third-party/libfaketime/src/uthash.h:850-852 | No operation that leaves the table allocated resets `noexpand` or changes the bucket count once it is set |
| UthashRuns.InhibitedForGood | code/third-party/libfaketime/src/uthash.h:850-852 | So over any further run until the table is freed |
| UthashRuns.BucketsDoubled | code/third-party/libfaketime/src/uthash.h:847-852 | After any history an allocated table has 32 buckets, doubled once for every addition since it was made that brought a chain to 10*(expand_mult+1) items without inhibition, and for nothing else |
| UthashRuns.FewItemsFewBuckets | code/third-party/libfaketime/src/uthash.h:847-852 | So a table that has never held 10 items has 32 buckets |
| UthashRuns.StepBuckets | code/third-party/libfaketime/src/uthash.h:847-852 | Every other operation, and every addition that does not, leaves bucket count, multipliers and all counters as they are |
| UthashLaws.ExpandMoves | code/third-party/libfaketime/src/uthash.h:923-927 | An item of bucket i ends in bucket i or i+num_buckets, the one its hash selects, and in no other |
| UthashLaws.ExpandLinked | code/third-party/libfaketime/src/uthash.h:906-954 | Doubling keeps all items, each once, in the bucket its hash selects; the chain lengths still sum to num_items |
| UthashLaws.ExpandLoaded | code/third-party/libfaketime/src/uthash.h:919-931 | An expansion computes 1 <= ideal_chain_maxlen <= 10, so the division is safe, and restores the bound on the sum of max(count, 10*(expand_mult+1)-1) |
| UthashLaws.ExpandedCounters | code/third-party/libfaketime/src/uthash.h:919-951 | In plain numbers: ideal_chain_maxlen is the least that holds all items; expand_mult is 0 for count <= ideal and otherwise ideal*expand_mult <= count < ideal*(expand_mult+1); nonideal_items is the sum of what the chains have beyond ideal; the doubling is ineffective when that is more than half of all items, and inhibits at the second time in a row |
| UthashLaws.SplitTurnsRound | code/third-party/libfaketime/src/uthash.h:924-940 | What stands nearer the front of an old chain ends further back in the new one |
| UthashLaws.CapsAfterExpansion | code/third-party/libfaketime/src/uthash.h:929-932 | Weighted bound on the thresholds that the new multipliers set, for any distribution over the new buckets |
| UthashLaws.LoadFactor | code/third-party/libfaketime/src/uthash.h:840-859 | While `noexpand` is 0, num_items <= 19*num_buckets, and every chain is within its own threshold, count <= 10*(expand_mult+1) |
| UthashLaws.ThresholdAfterExpansion | code/third-party/libfaketime/src/uthash.h:929-932 | The multipliers an expansion sets put every chain within its threshold, however uneven the distribution |
| UthashLaws.AddToBucketValid | code/third-party/libfaketime/src/uthash.h:840-859 | Bucket insertion with its possible expansion keeps membership, placement, counts and load bound |
| UthashLaws.AddedToBucket | code/third-party/libfaketime/src/uthash.h:840-852 | In plain numbers: the buckets double exactly when expansion is not inhibited and the chain with the new item reaches 10*(expand_mult+1); otherwise the item is in front of its chain and nothing else changes |
| UthashLaws.AddDoublesExactly | code/third-party/libfaketime/src/uthash.h:396-415 | So for an add to a NULL head or to a table |
| UthashLaws.AddValid | code/third-party/libfaketime/src/uthash.h:396-415 | Adding an item with a fresh key keeps the invariant |
| UthashLaws.AddValidExactly | code/third-party/libfaketime/src/uthash.h:396-415 | And exactly then |
| UthashLaws.AddInOrderValid | code/third-party/libfaketime/src/uthash.h:350-381 | So does adding it in order |
| UthashLaws.AddInOrderDoublesExactly | code/third-party/libfaketime/src/uthash.h:350-381 | The same for an ordered add |
| UthashLaws.DeleteValid | code/third-party/libfaketime/src/uthash.h:450-477 | Deleting keeps the invariant and removes exactly that item from the application order |
| UthashLaws.LookupDeleted | code/third-party/libfaketime/src/uthash.h:450-477 | After a delete no item has the deleted key |
| UthashLaws.DeleteLeaves | code/third-party/libfaketime/src/uthash.h:450-477 | A delete takes the item out of its chain and leaves all other chains, the bucket count, multipliers and counters alone; it frees the table exactly at the last item |
| UthashLaws.ReplaceValid | code/third-party/libfaketime/src/uthash.h:254-269 | After a replace the new item is the only one with its key and last in application order; the others keep their order |
| UthashLaws.ReplaceDoublesExactly | code/third-party/libfaketime/src/uthash.h:254-269 | The same for a replace, from what is left without the old item, which may be a table made anew |
| UthashLaws.SortValid | code/third-party/libfaketime/src/uthash.h:961-1043 | Sorting keeps the invariant and the multiset of items |
| UthashLaws.FindIsLookup | code/third-party/libfaketime/src/uthash.h:818-837 | Searching one bucket returns what a search through all items would |
| UthashLaws.NewTableValid | code/third-party/libfaketime/src/uthash.h:212-242 | The freshly made table of 32 empty buckets satisfies the invariant |
| UthashExpansion.PartialStep | code/third-party/libfaketime/src/uthash.h:925-939 | Moving the next item of the old bucket puts it in front of the new bucket its hash selects and changes nothing else |
| UthashExpansion.CountsStep | code/third-party/libfaketime/src/uthash.h:929-932 | Counting item by item gives the multipliers and the `nonideal_items` total that the finished chains determine; the multiplier just set says how often the ideal length goes into the count, and is 0 within it |
| UthashExpansion.PartialEnd | code/third-party/libfaketime/src/uthash.h:906-945 | When all old buckets have been walked the new chains are those of the doubled table |
| UthashSort.MergeSortIsStableSort | code/third-party/libfaketime/src/uthash.h:961-1043 | For a comparator that is a total preorder the result is a sorted permutation, and items that compare equal keep their order |
| UthashSort.StableSortUnique | code/third-party/libfaketime/src/uthash.h:961-1043 | There is only one such list |
| UthashSort.MergeStable | code/third-party/libfaketime/src/uthash.h:988-1016 | Merging two runs, the left one winning ties, is stable |
| UthashSort.PassDoublesRuns | code/third-party/libfaketime/src/uthash.h:970-1033 | A pass over sorted runs of length k leaves sorted runs of length 2k |
| UthashSort.InsertSorted | code/third-party/libfaketime/src/uthash.h:286-293 | Ordered insertion into a sorted list leaves it sorted, the new item after all that compare no greater and before all greater ones |
| UthashSort.InsertAllIsStableSort | code/third-party/libfaketime/src/uthash.h:350-381 | Adding items in order one by one is a stable sort of them |
| UthashSort.SortingIsInserting | code/third-party/libfaketime/src/uthash.h:961-1043 | Sorting gives the very list that ordered insertion of the same items gives |
| Bits.MaskIsRemainder | code/third-party/libfaketime/src/uthash.h:430-433 | Masking with num_buckets-1 is the remainder modulo num_buckets, a power of two |
| Bits.CeilByShiftAndMask | code/third-party/libfaketime/src/uthash.h:888-903 | Shift plus masked correction is the rounded-up quotient |
| Bits.DoubledModulus | code/third-party/libfaketime/src/uthash.h:927 | Doubling the modulus splits each residue class in two |
| UthashTable.HashTable.constructor | code/third-party/libfaketime/src/uthash.h:159 | A NULL head is the empty table |
| UthashTable.HashTable.FindKey | code/third-party/libfaketime/src/uthash.h:156-173 | Returns the item with the key, or NULL if no item has it |
| UthashTable.HashTable.FindInBucket | code/third-party/libfaketime/src/uthash.h:818-837 | The first item of the chain with the key |
| UthashTable.HashTable.BucketIndex | code/third-party/libfaketime/src/uthash.h:430-433 | Bucket index by mask is the hash modulo the bucket count |
| UthashTable.HashTable.MakeTable | code/third-party/libfaketime/src/uthash.h:212-242 | Thirty-two empty buckets, counters cleared, tail at the first item |
| UthashTable.HashTable.AppendList | code/third-party/libfaketime/src/uthash.h:278-284 | The item follows the old tail; both link directions and the tail are right |
| UthashTable.HashTable.AddItem | code/third-party/libfaketime/src/uthash.h:396-422 | In place on the links and buckets: the new table is the specified one and the invariant holds; the bucket count is 32 for a new table, and doubles exactly when the item's bucket with it holds 10*(expand_mult+1) without inhibition |
| UthashTable.HashTable.AddToTable | code/third-party/libfaketime/src/uthash.h:337-345 | Counts the item, links it into its bucket, and doubles the bucket array exactly when the bucket with it holds 10*(expand_mult+1) and expansion is not inhibited |
| UthashTable.HashTable.ExpandIfNeeded | code/third-party/libfaketime/src/uthash.h:850-852 | Compares the count with 10*(expand_mult+1): below it, or inhibited, bucket array and count stay |
| UthashTable.PushBucket | code/third-party/libfaketime/src/uthash.h:840-850 | Links the item in front of its chain with back-link and count; every other bucket is unchanged |
| UthashTable.PopBucket | code/third-party/libfaketime/src/uthash.h:862-875 | Unlinks the item from its chain, repairing head, back-link and count; every other bucket is unchanged |
| UthashTable.HashTable.ExpandBuckets | code/third-party/libfaketime/src/uthash.h:906-954 | In-place doubling: new bucket array, links, counts and counters are the specified ones; every bucket has expand_mult 0 within the ideal length and otherwise count divided by it; head, tail and items unchanged |
| UthashTable.HashTable.Rehash | code/third-party/libfaketime/src/uthash.h:910-942 | The new buckets hold the doubled chains, each with the multiplier that says how often the ideal length goes into its count; `nonideal_items` is the sum over buckets of max(0, count-ideal) |
| UthashTable.HashTable.SetIdeal | code/third-party/libfaketime/src/uthash.h:919-921 | `ideal_chain_maxlen` is num_items/(2*num_buckets) rounded up: the least length with which the doubled table holds all items |
| UthashTable.HashTable.MoveChain | code/third-party/libfaketime/src/uthash.h:924-941 | Empties one old bucket item by item into the new ones |
| UthashTable.HashTable.MoveItem | code/third-party/libfaketime/src/uthash.h:927-939 | Moves one item to the front of its new bucket, counting it; every new bucket then has the multiplier its count and the ideal length determine |
| UthashTable.HashTable.CountItem | code/third-party/libfaketime/src/uthash.h:929-932 | One more item in a new bucket: beyond the ideal length it counts as misplaced and the multiplier is the quotient of count and ideal; within it both stay 0 |
| UthashTable.HashTable.Install | code/third-party/libfaketime/src/uthash.h:943-951 | Replaces the bucket array and updates num_buckets, log2_num_buckets, `ineff_expands` and `noexpand` |
| UthashTable.HashTable.AddItemInOrder | code/third-party/libfaketime/src/uthash.h:350-381 | Ordered add in place, front, middle and end: application order is the ordered insertion, head, tail and links consistent; the bucket count as for an add |
| UthashTable.HashTable.FirstAfter | code/third-party/libfaketime/src/uthash.h:286-293 | Finds the first item that compares greater than the new one |
| UthashTable.HashTable.LinkBefore | code/third-party/libfaketime/src/uthash.h:364-377 | Links the item in front of that one, or after the tail |
| UthashTable.HashTable.DeleteItem | code/third-party/libfaketime/src/uthash.h:450-477 | Delete in place; the last item takes the table with it |
| UthashTable.HashTable.LeaveOrder | code/third-party/libfaketime/src/uthash.h:461-471 | Application order without the item: links, head and tail repaired |
| UthashTable.HashTable.LeaveBucket | code/third-party/libfaketime/src/uthash.h:472-474 | Bucket without the item, total count one less |
| UthashTable.HashTable.RemoveKey | code/third-party/libfaketime/src/uthash.h:256-260 | Deletes the item with the key if there is one, and returns it |
| UthashTable.HashTable.ReplaceItem | code/third-party/libfaketime/src/uthash.h:254-269 | Returns the replaced item; the table is the specified one |
| UthashTable.HashTable.SortItems | code/third-party/libfaketime/src/uthash.h:961-1043 | Sorts the application order in place; buckets, chains and counts untouched |
| UthashTable.HashTable.Fsck | code/third-party/libfaketime/src/uthash.h:506-553 | The integrity check succeeds exactly when all back-links, bucket counts and the total count, against buckets and application order, are right |
| UthashTable.HashTable.FsckBucket | code/third-party/libfaketime/src/uthash.h:514-530 | Accepts a bucket exactly when its count and back-links are right |
| UthashTable.HashTable.FsckOrder | code/third-party/libfaketime/src/uthash.h:536-546 | Accepts the application order exactly when its back-links are right |
| UthashTable.HashTable.ValidIsConsistent | code/third-party/libfaketime/src/uthash.h:506-553 | The invariant of the table implies everything the integrity check looks for |
| UthashLinks.UnlinkFromChain | code/third-party/libfaketime/src/uthash.h:866-874 | Unlinking from a doubly linked chain leaves the chain without the item, doubly linked |
| UthashLinks.UnlinkFromApp | code/third-party/libfaketime/src/uthash.h:464-471 | The same for the application order |
| UthashLinks.InsertBefore | code/third-party/libfaketime/src/uthash.h:367-373 | Links an item in front of another one |
| UthashRelink.SortList | code/third-party/libfaketime/src/uthash.h:961-1043 | The in-place sort terminates with prev and next mutually inverse and head and tail at the ends of the merge-sorted list |
| UthashRelink.SortPass | code/third-party/libfaketime/src/uthash.h:970-1038 | One pass relinks the list as merged pairs of runs, and counts at most one merge exactly when the list is then sorted through |
| UthashRelink.MergeRuns | code/third-party/libfaketime/src/uthash.h:987-1029 | Merges two runs onto the output, leaving the rest of the input linked |
| UthashRelink.TakeNext | code/third-party/libfaketime/src/uthash.h:989-1016 | Chooses the next node as the merge prescribes, ties to the left run |
| UthashRelink.MeasureRun | code/third-party/libfaketime/src/uthash.h:976-986 | Measures the left run and finds where the right one starts |
| TempoRuns.AlwaysPending | code/src/time-daemon.py:586-660 | In every reachable state, for any number of nodes and any interleaving, both rivalry invariants hold |
| TempoElection.DuelsKept | code/src/time-daemon.py:586-621 | Between two leaders in office the later one's LEADERUP or the earlier one's QUIT is pending; every step keeps this |
| TempoElection.RivalryKept | code/src/time-daemon.py:464-503 | Between a contender and a candidate that came later an ELECTION, REFUSE or QUIT is pending or the candidate is marked to step back; every step keeps this |
| TempoElection.AnswersElection | code/src/time-daemon.py:479-480 | A candidate or leader that takes an ELECTION refuses it or tells its sender to quit |
| TempoRuns.QuietHasOneLeader | code/src/time-daemon.py:606-613 | With no message pending at most one leader is in office |
| TempoRuns.OldestExactly | code/src/time-daemon.py:494-503 | One step keeps every elected leader's bid older than all other contenders' exactly when it is not premature: not an unmarked candidate leaving while a contender with an older bid still owes it a refusal |
| TempoRuns.TimelyElections | code/src/time-daemon.py:494-503 | Over every run: elected leaders' bids were the oldest throughout exactly when no event of the run was premature |
| TempoRuns.SettledIsTimely | code/src/time-daemon.py:494-503 | A candidate's timeout is not premature exactly when its ELECTION has been taken, answered and the answer read for every older contender; bystanders do not matter |
| TempoRuns.OneElectedLeader | code/src/time-daemon.py:494-503 | Without a premature timeout at most one leader is in office by election |
| TempoRuns.UntimelyElectionsDuel | code/src/time-daemon.py:494-503 | A concrete run of two nodes that ends with a premature timeout and two elected leaders |
| TempoRuns.OneAcceptPerEpisode | code/src/time-daemon.py:333-341 | A node that has sent ACCEPT sends no other, and refuses every ELECTION, until its ACCEPT episode is over |
| TempoRuns.PledgedUntil | code/src/time-daemon.py:411-459 | From its ACCEPT to the end of the ACCEPT episode a node stays pledged |
| TempoElection.Delivered | code/src/time-daemon.py:200-217 | What is sent reaches the destination, a multicast every other node |
| TempoElection.StaysPending | code/src/time-daemon.py:79-90 | A pending message stays pending until it is taken |
| TempoDaemon.TimeDaemon.constructor | code/src/time-daemon.py:104-109 | A daemon starts in START having sent nothing |
| TempoDaemon.TimeDaemon.WaitForSignals | code/src/time-daemon.py:220-270 | Takes messages, also such as arrive while it polls, up to the first wanted one, dropping the others; at a timeout it has emptied the queue. All its callers pass one queue |
| TempoDaemon.TimeDaemon.StartState | code/src/time-daemon.py:273-291 | The whole effect on state, messages still to be read and sendings is one stay of the state machine in START: greeting, answers, leaving |
| TempoDaemon.TimeDaemon.ConsistencyState | code/src/time-daemon.py:294-305 | The same for CONSISTENCY |
| TempoDaemon.TimeDaemon.NoLeaderState | code/src/time-daemon.py:308-317 | The same for NOLEADER |
| TempoDaemon.TimeDaemon.FollowerState | code/src/time-daemon.py:320-424 | The same for FOLLOWER and its general queue; not its clock-sync thread |
| TempoDaemon.TimeDaemon.FollowerHandles | code/src/time-daemon.py:333-341 | One message: FOLLOWERUP to a leader's announcement, ACCEPT to an ELECTION, which ends the reading |
| TempoDaemon.TimeDaemon.AcceptState | code/src/time-daemon.py:427-459 | The same for ACCEPT |
| TempoDaemon.TimeDaemon.CandidateState | code/src/time-daemon.py:462-503 | The same for CANDIDATE |
| TempoDaemon.TimeDaemon.CandidateHandles | code/src/time-daemon.py:475-486 | One message: ACK to ACCEPT, REFUSE to ELECTION, and stepping back on QUIT or REFUSE |
| TempoDaemon.TimeDaemon.LeaderState | code/src/time-daemon.py:586-644 | The same for LEADER; the followers list is exactly the senders of FOLLOWERUP among the messages taken, each once and in order of first arrival; the call ends still in LEADER when it has been polled as often as asked |
| TempoDaemon.TimeDaemon.LeaderHandles | code/src/time-daemon.py:596-620 | One message: new followers listed once, LEADERACK, QUIT, or the state change it orders |
| TempoDaemon.TimeDaemon.LeaderRound | code/src/time-daemon.py:562-569 | A round asks exactly the followers listed by then, without duplicates, and nobody exactly when no FOLLOWERUP has been taken; what it learns are their estimates |
| TempoDaemon.TimeDaemon.ConflictState | code/src/time-daemon.py:647-660 | The same for CONFLICT |
| TempoDaemon.TimeDaemon.RunState | code/src/time-daemon.py:162-181 | One turn of the run loop is one stay in the present state, and it leads where the messages taken say, for a leader on to the next turn if none told it to go |
| TempoDaemon.TimeDaemon.Run | code/src/time-daemon.py:162-181 | Any number of turns from START are a career: complete stays one after the other, everything sent in their order, and possibly a leader still reading |
| TempoDaemon.TimeDaemon.PlayedInRun | code/src/time-daemon.py:162-181 | What a state method has done, a node of any reachable network in the same state with the same messages pending can do: the run ends in the daemon's new state with its sendings delivered |
| TempoEpisodes.EpisodeInRun | code/src/time-daemon.py:162-181 | Opening a state, taking the messages and leaving are enabled in turn in any reachable network where they are pending; the result is a run, the node is where the stay leads, just those messages are gone, everything sent has arrived |
| TempoEpisodes.EpisodeInterleaved | code/src/time-daemon.py:162-181 | In any run in which the node's own events are those of a stay, whatever the others do in between, it ends where the stay leads and has sent what the stay sends |
| TempoEpisodes.CareerInRuns | code/src/time-daemon.py:162-181 | The same for whole careers from START on: the invariants over runs apply to what the daemon does |
| TempoStays.RosterLists | code/src/time-daemon.py:598-601 | Listing senders of FOLLOWERUP as they are first heard gives each of them, once, in order of first arrival, and nobody else |
| TempoStays.NotesTell | code/src/time-daemon.py:320-644 | In every run a node's events, flags and followers list say of the messages it has taken since it entered its state exactly what matters: an ELECTION heard, a QUIT or REFUSE heard, whom to list, which message ended the term |
| TempoStays.EventLeads | code/src/time-daemon.py:273-660 | The state diagram: in every run every event takes its node where the diagram says, judged by the messages taken in that stay |
| TempoStays.EnabledExactly | code/src/time-daemon.py:273-660 | Which events a run may go on with: opening a state once, taking any pending message unless an ELECTION has ended a follower's reading or a QUIT or CONFLICT a leader's, leaving at any time, a leader only then |
| TempoStays.EpisodeEnds | code/src/time-daemon.py:162-181 | Every stay ends where its messages say; only a leader's can last |
| TempoStays.TrafficExactly | code/src/time-daemon.py:273-660 | Every event puts into every other inbox exactly the replies and announcements of the protocol, each once, and takes from its node's own inbox just the message it takes |
| TempoPromises.LeaderListsFollowers | code/src/time-daemon.py:586-601 | In every run a leader lists exactly the senders of the FOLLOWERUPs it has taken since it entered LEADER, each once, in order of first arrival; they are other nodes of the network |
| TempoPromises.AlwaysEnrolled | code/src/time-daemon.py:333-335 | In every reachable state a leader in office lists every announced follower, or the FOLLOWERUP or LEADERUP between them is pending |
| TempoPromises.FollowersListed | code/src/time-daemon.py:595-601 | So with neither pending the follower is on the list |
| TempoPromises.QuestionAnswered | code/src/time-daemon.py:603-604 | From a LEADERREQ or RESOLVE on, as long as a leader stays in office and the asking node waits, the question or the LEADERACK is pending |
| TempoPromises.SecondAckQuitsFirst | code/src/time-daemon.py:294-305 | In CONSISTENCY a second LEADERACK sends one QUIT, to the leader whose LEADERACK ended START, and nothing else |
| TempoPromises.LeftAlone | code/src/time-daemon.py:273-317 | A node that takes no message is in START until its first timeout, in NOLEADER until its second, and then in LEADER for good |
| TempoPromises.BidRecorded | code/src/time-daemon.py:462-503 | The stamp that orders bids is the time at which the present bid began, and a bid counts as elected exactly when it began as a candidacy |
| TempoPromises.AnnouncementRecorded | code/src/time-daemon.py:620-621 | A leader in office has been so since its announcement, whose time is the stamp that orders duels |
| TempoSync.GetFollowerDiffs | code/src/time-daemon.py:512-540 | An estimate for exactly the followers that replied, from request time, timestamp and reply time; or a KeyError exactly when a follower is heard twice before the leader has all it waits for |
| TempoSync.CollectReplies | code/src/time-daemon.py:518-531 | Takes replies until all have answered, none is left, or a follower is heard again; every follower's reply is recorded and strangers are ignored |
| TempoSync.KeyErrorExactly | code/src/time-daemon.py:518-531 | The KeyError is raised exactly when the queue holds a reply from a follower heard before while another follower has not been heard by then |
| TempoSync.OneEach | code/src/time-daemon.py:518-540 | With one reply each there is no KeyError, and the replies not taken do not matter |
| TempoSync.Adjustments | code/src/time-daemon.py:569-580 | The leader moves to the mean, each responder by the mean minus its estimate; before rounding the adjustments sum to zero |
| TempoSync.ZeroSum | code/src/time-daemon.py:569-580 | Mean plus the responders' adjustments is exactly zero |
| TempoSync.Gather | code/src/time-daemon.py:512-540 | For one same-round reply per responder, the estimates are those of the exchanges |
| TempoSync.SendAdjustments | code/src/time-daemon.py:572-581 | Leader and responders are each adjusted once, by their own rounded amount |
| TempoSync.SyncRound | code/src/time-daemon.py:551-581 | The whole round in place on the clocks |
| TempoSync.RoundHalfEven | code/src/time-daemon.py:184-186 | Rounding moves a number by at most one half, and a tie to the even neighbour |
| TempoSync.RoundingError | code/src/time-daemon.py:366-368 | An adjustment rounded to hundredths is off by at most 0.005 s |
| TempoSync.EstimateAccuracy | code/src/time-daemon.py:537 | For a leader clock that does not run backwards, t2-(t1+t3)/2 is within (t3-t1)/2 of the true offset at the reading |
| TempoSync.Deviation | code/src/time-daemon.py:551-581 | How far each participant ends from the common target, also when clocks are read only to within some error |
| TempoSync.Synchronised | code/src/time-daemon.py:551-581 | With rates in [0.90, 1.10] two participants differ, from when both have applied their adjustments, by at most e_i+e_j+0.01+0.2*(D_i+D_j) |
| TempoSync.SynchronisedEqualRates | code/src/time-daemon.py:551-581 | When the two and the leader run at equal rates, from then on by at most e_i+e_j+0.01 |
| TempoSync.NearlySynchronised | code/src/time-daemon.py:551-581 | Clocks read only to within n: the bound grows by 6*n |
| TempoSync.SkewOverRuns | code/src/time-daemon.py:551-584 | After any number of rounds with any leaders and participants, the bound depends on the last round alone |
| TempoMessenger.RoundTrip | code/src/time-daemon.py:60-77 | A message arrives as meant (signal, and the text of each value with absent, empty or zero values as empty text) exactly when no field contains a bar |
| TempoMessenger.NumberRoundTrip | code/src/time-daemon.py:33-50 | Signal numbers read back as the signal |
| TempoMessenger.SignalTexts | code/src/time-daemon.py:33-50 | The fifteen signals as they stand on the wire, 1 to 15 |
| TempoMessenger.WireLayout | code/src/time-daemon.py:60-67 | Signal, address, port, timestamp and adjustment in this order, between bars |
| TempoMessenger.ParsesExactly | code/src/time-daemon.py:69-77 | A text is a message exactly when it begins with the number of a signal before the first bar, and carries that signal |
| Text.SplitJoin | code/src/time-daemon.py:66 | Splitting a joined list gives the list, for parts without the separator |
| Text.JoinSplit | code/src/time-daemon.py:73 | Joining the parts of a split text gives the text |
| Text.DigitsRoundTrip | code/src/time-daemon.py:76 | A printed whole number reads back |
| TimeOps.TimerAdd | code/third-party/libfaketime/src/time_ops.h:36-47 | Exact normalised sum, also over an operand |
| TimeOps.TimerSub | code/third-party/libfaketime/src/time_ops.h:48-59 | Exact normalised difference, also over an operand |
| TimeOps.TimerMul | code/third-party/libfaketime/src/time_ops.h:60-74 | Exactly the product truncated toward zero, normalised for negative values too, also over the operand |
| TimeOps.AddExact | code/third-party/libfaketime/src/time_ops.h:36-47 | Totals add; the fraction stays in [0, unit) |
| TimeOps.SubExact | code/third-party/libfaketime/src/time_ops.h:48-59 | Totals subtract; the fraction stays in [0, unit) |
| TimeOps.MulExact | code/third-party/libfaketime/src/time_ops.h:60-74 | The total is the truncated product; the fraction stays in [0, unit) |
| TimeOps.TotalInjective | code/third-party/libfaketime/src/time_ops.h:36-74 | A normalised time is determined by its total, so the exact results are the only ones |
| FakeClock.FakeTime.constructor | code/third-party/libfaketime/src/libfaketime.c:2880-2890 | From the start time settled on, the first parse, for specifications that begin with a sign |
| FakeClock.FakeTime.ParseOffset | code/third-party/libfaketime/src/libfaketime.c:2386-2398 | Offset as atof reads it (leading blanks, exponent, hexadecimal), times 60, 3600, 86400 or 31536000 for an m, h, d or y, the first of these that occurs; whole seconds rounded down and the rest truncated to nanoseconds |
| FakeClock.FakeTime.ParseModifiers | code/third-party/libfaketime/src/libfaketime.c:2461-2491 | Rate, and under FAKETIME_XRESET the restart from the cached pair if CLOCK_REALTIME has been read; without an "x" the tick increment |
| FakeClock.FakeTime.ParseFtString | code/third-party/libfaketime/src/libfaketime.c:2341-2497 | For specifications that begin with a sign the whole effect on the statics; nothing changes when the text has not changed |
| FakeClock.FakeTime.FakeClockGettime | code/third-party/libfaketime/src/libfaketime.c:3095-3264 | For specifications that begin with a sign, what is parsed when the specification is fetched again, what is answered, by the line or by one more tick, and what is cached |
| FakeClock.FakeTime.StartAt | code/third-party/libfaketime/src/libfaketime.c:3174-3218 | Once an increment is set the next tick, and otherwise the stretched time since the start |
| FakeClock.FakeTime.CheckCache | code/third-party/libfaketime/src/libfaketime.c:3098-3119 | The specification is fetched again when caching is off, when that is forced, or when it is older than the cache duration |
| FakeClock.FakeTime.Fake | code/third-party/libfaketime/src/libfaketime.c:3182-3218 | base + trunc(rate*(now - start)), the start being that of CLOCK_MONOTONIC for it and its coarse form, that of CLOCK_MONOTONIC_RAW and CLOCK_BOOTTIME for these, and that of CLOCK_REALTIME for all others |
| FakeClock.FakeTime.Cache | code/third-party/libfaketime/src/libfaketime.c:3235-3264 | Only the four exact clocks are cached, each in its own pair |
| FakeClock.FakedExact | code/third-party/libfaketime/src/libfaketime.c:3182-3218 | In nanoseconds the answer is exactly base + trunc(rate*(now - start)), normalised |
| FakeClock.DisplayExact | code/third-party/libfaketime/src/libfaketime.c:3174-3218 | And base + ticks*inc for a clock that ticks |
| FakeClock.FakeTime.NanosleepDeadline | code/third-party/libfaketime/src/libfaketime.c:1381-1404 | The real deadline for CLOCK_REALTIME and CLOCK_MONOTONIC, each after its own start; other clocks untouched |
| FakeClock.FakeTime.TimerDeadline | code/third-party/libfaketime/src/libfaketime.c:1850-1884 | The real deadline of an absolute timer; a zero value passes unchanged |
| FakeClockLaws.DeadlineInverts | code/third-party/libfaketime/src/libfaketime.c:1381-1396 | For a clock that does not tick, rate > 0 and T >= base the converted deadline is the last instant at which the clock does not show more than T, and it then shows more than T-rate-1; mirrored before the base |
| FakeClockLaws.NeverFallsBack | code/third-party/libfaketime/src/libfaketime.c:2465-2491 | Over any readings with nondecreasing system time and tick count and any changed specifications of that class that keep up, FAKETIME_XRESET or not, reported CLOCK_REALTIME times never decrease, whichever clock's reading re-parses |
| FakeClockLaws.ReadingKeepsLine | code/third-party/libfaketime/src/libfaketime.c:3235-3264 | One reading, re-parsing or not, keeps the cached pair on or below what the clock would show |
| FakeClockLaws.RestartsWhereItStood | code/third-party/libfaketime/src/libfaketime.c:2467-2482 | After a changed rate the clock continues from the last pair at the new rate; a clock that ticks adds all the ticks counted to it |
| FakeClockLaws.NeverBackExactly | code/third-party/libfaketime/src/libfaketime.c:2383-2491 | For any changed specification that begins with a sign and has finite numbers, "x" and "i" or neither, FAKETIME_XRESET or not: no later reading, at any later time and tick count, falls below the last one exactly when the rate or increment then in force is not negative and the clock would have shown no less at that reading |
| FakeClockLaws.NonNegativeRateIsExact | code/third-party/libfaketime/src/libfaketime.c:2465-2482 | With an "x" under FAKETIME_XRESET: exactly when the new rate, or the increment of a clock that ticks, is not negative |
| FakeClockLaws.LaterBaseIsExact | code/third-party/libfaketime/src/libfaketime.c:2383-2399 | With neither, for a clock that does not tick: exactly when the new base is not earlier |
| FakeClockLaws.TicksExactly | code/third-party/libfaketime/src/libfaketime.c:2484-2491 | With an "i" and no "x": exactly when the increment is not negative and start, offset and all the ticks counted come to no less than was shown |
| FakeClockLaws.PlusZeroFallsBack | code/third-party/libfaketime/src/libfaketime.c:3136-3139 | The "+0" that stands for an unset FAKETIME takes back whatever the base was ahead of the start |
| FakeClockLaws.HundredFallBack | code/third-party/libfaketime/src/libfaketime.c:2383-2399 | From "+100 x1" that is 100 seconds, between two readings at one instant |
| FakeClockLaws.TicksFallBack | code/third-party/libfaketime/src/libfaketime.c:2484-2491 | From "+100 x1" to "+100 i1" it is the time passed since the start less a second for every tick counted |
| FakeClockLaws.BlankBeforeRate | code/third-party/libfaketime/src/libfaketime.c:2463-2464 | "+0 x -1" names the rate -1 |
| FakeClockLaws.FirstParse | code/third-party/libfaketime/src/libfaketime.c:2886-2890 | The first parse of a specification without a negative rate or increment establishes the invariant |
| FakeFamilies.EachFromItsStart | code/third-party/libfaketime/src/libfaketime.c:3182-3218 | For a clock that does not tick, in nanoseconds and for each of the seven clock ids: base + trunc(rate*(now - start)) with the start of its own family |
| FakeFamilies.AllShowOneTime | code/third-party/libfaketime/src/libfaketime.c:2383-2399 | After the first parse all clocks, each read at its own start, show one time: the start of CLOCK_REALTIME plus the offset |
| FakeFamilies.DeadlinesFromStart | code/third-party/libfaketime/src/libfaketime.c:1381-1404 | The real deadline lies after the start of CLOCK_MONOTONIC, or of CLOCK_REALTIME, as far as the faked one after the base, divided by the rate; the deadline of the base is that start |
| FakeFamilies.LastReadingKept | code/third-party/libfaketime/src/libfaketime.c:3235-3264 | Over any readings of any clocks and any specifications in between, the cached pair of each exact clock is that of its own last reading |
| FakeFamilies.EachRestarts | code/third-party/libfaketime/src/libfaketime.c:2465-2482 | Under FAKETIME_XRESET a changed rate starts every clock again from its own last reading, all at what CLOCK_REALTIME last showed |
| FakeFamilies.UnreadClockLeaps | code/third-party/libfaketime/src/libfaketime.c:2471-2476 | A clock not read by then is measured from the unset value, and so leaps ahead by the system clock's whole time |
| FakeFamilies.UnchangedIsIdle | code/third-party/libfaketime/src/libfaketime.c:2345-2346 | A specification that has not changed is not parsed again and restarts nothing |
| Specifications.SignedOffset | code/third-party/libfaketime/src/libfaketime.c:2386-2395 | After a sign, the number in the unit a letter names: m before h before d before y |
| Specifications.WholeOffset | code/third-party/libfaketime/src/libfaketime.c:2386-2395 | For digits and a unit behind them, whatever else follows: their decimal value times the unit, negative after a minus sign |
| Specifications.FractionOffset | code/third-party/libfaketime/src/libfaketime.c:2386-2395 | The same for a decimal fraction |
| Specifications.UnitsAgree | code/third-party/libfaketime/src/libfaketime.c:2392-2395 | n hours are 60n minutes and 3600n seconds, n days 24n hours, n years 365n days, forward and back |
| Specifications.SpansParseAlike | code/third-party/libfaketime/src/libfaketime.c:2386-2399 | So "+1h" parses to what "+60m" and "+3600" do, "+1d" to what "+24h" does, "+1y" to what "+365d" does, and so for all numbers |
| Specifications.HoursParse | code/third-party/libfaketime/src/libfaketime.c:2386-2399 | The base is then n*3600*10^9 ns from the start of CLOCK_REALTIME |
| Specifications.RateReads | code/third-party/libfaketime/src/libfaketime.c:2463-2464 | The rate is the number behind the first "x", and then no increment is looked for |
| Specifications.FractionRateReads | code/third-party/libfaketime/src/libfaketime.c:2463-2464 | The same for a decimal fraction |
| Specifications.IncrementReads | code/third-party/libfaketime/src/libfaketime.c:2484-2490 | Without an "x" the increment is the number behind the first "i" |
| Specifications.FractionIncrementReads | code/third-party/libfaketime/src/libfaketime.c:2484-2490 | The same for a decimal fraction |
| Specifications.HexOffset | code/third-party/libfaketime/src/libfaketime.c:2387 | A number printed in hexadecimal is read as that number |
| Specifications.ExponentOffset | code/third-party/libfaketime/src/libfaketime.c:2387 | A decimal exponent multiplies or divides by that power of ten |
| Specifications.HexExponentOffset | code/third-party/libfaketime/src/libfaketime.c:2387 | A binary exponent behind a hexadecimal number multiplies or divides by that power of two |
| Steering.Environment.constructor | code/src/time-daemon.py:104-106 | Initial offset zero and the drift drawn |
| Steering.Environment.FixMyClock | code/src/time-daemon.py:184-197 | The variable is rewritten as specified, or left alone when a ValueError is raised |
| Steering.FixShifts | code/src/time-daemon.py:184-197 | An adjustment of a whole number of hundredths shifts the printed offset by exactly that and keeps the drift |
| Steering.FixableExactly | code/src/time-daemon.py:184-197 | The variable can be rewritten exactly when it is two parts around one blank of which the first is a number and one more character; otherwise a ValueError |
| Steering.ThousandthsCount | code/src/time-daemon.py:184-185 | Of any adjustment only the nearest thousandth of a second counts |
| Text.FormatRoundTrip | code/src/time-daemon.py:197 | An offset printed with two decimals reads back exactly, whatever follows it that is not a digit or an exponent |
| Text.ScientificReads | code/src/time-daemon.py:368 | A number printed with an exponent, as small adjustments are, reads back |
| Text.AtofIsScan | code/third-party/libfaketime/src/libfaketime.c:2387 | Without leading blanks and hexadecimals atof reads what float() reads |
| Steering.SpecMeaning | code/third-party/libfaketime/src/libfaketime.c:2386-2395 | The daemon's text parses as that offset in seconds and that rate |
| Steering.SpecIsOffset | code/third-party/libfaketime/src/libfaketime.c:2383-2395 | And is of the class of specifications above |
| Steering.ShiftedEverywhere | code/third-party/libfaketime/src/libfaketime.c:2383-2399 | Re-parsing after a change by a hundredths shifts every clock at every real instant by a*10^7 ns and keeps start and rate |
| Steering.SteeringAddsUp | code/src/time-daemon.py:184-197 | After any interleaving of fixes and readings a reading shows the unsteered time plus the sum of all adjustments |
| Steering.SteeredIsClock | code/third-party/libfaketime/src/libfaketime.c:3182-3218 | A steered fake clock is the drifting clock of the averaging analysis to within one nanosecond |
| Steering.AdjustmentArrives | code/src/time-daemon.py:575-581 | A follower can read an adjustment, printed with or without an exponent, as a number exactly when it is not zero |
| TempoHosts.HostsSynchronised | code/src/time-daemon.py:551-584 | Hosts with a FAKETIME text and a fake clock each: after any rounds and readings, two participants of the last round that have applied their adjustments show times that differ by at most e_i+e_j+0.01+0.2*(D_i+D_j) and 13 ns, all readings faked and all adjustments made through the text |
| TempoHosts.NetworkKept | code/src/time-daemon.py:184-197 | Over any rounds and readings every host's text stays an offset with its drift, and its fake clock stays on such a line |
| TempoHosts.ShownAfter | code/src/time-daemon.py:364-368 | After a round a participant shows what it would have shown plus exactly its adjustment |
| TempoHosts.ShownNear | code/third-party/libfaketime/src/libfaketime.c:3182-3218 | What a host shows is within 2.1 ns of the drifting clock of the analysis, at any real instant |
| TempoHosts.StartsInTune | code/src/time-daemon.py:104-106 | A daemon that has just started satisfies the invariant |
| Replay.RecordRoundTrip | code/third-party/libfaketime/src/libfaketime.c:271-284 | A stored time reads back from its big-endian record |
| Replay.RecordBytes | code/third-party/libfaketime/src/libfaketime.c:689-690 | Bytes 0 to 7 of a record are the seconds and 8 to 15 the nanoseconds, highest byte first: each the quotient by its power of 256, modulo 256 |
| Replay.SavedRoundTrip | code/third-party/libfaketime/src/libfaketime.c:689-690 | A file of saved times reads back as exactly those times in order |
| Replay.OutFile.SaveTime | code/third-party/libfaketime/src/libfaketime.c:681-726 | Appends one whole record |
| FakeClock.SharedMemory.constructor | code/third-party/libfaketime/src/libfaketime.c:406-414 | Ticks and file index zero, start time unset |
| FakeClock.SharedMemory.StartTime | code/third-party/libfaketime/src/libfaketime.c:2858-2878 | Sets the common start time if it is unset, and takes it otherwise |
| FakeClock.SharedMemory.NextTime | code/third-party/libfaketime/src/libfaketime.c:643-672 | base + ticks*inc, and one tick more |
| Replay.OneStartTime | code/third-party/libfaketime/src/libfaketime.c:2858-2878 | However many processes start, all have the start time of the first |
| Replay.Process.constructor | code/third-party/libfaketime/src/libfaketime.c:2815-2846 | Starts replaying if a file is given; init has made sure that it holds at least one record and only whole ones |
| Replay.Process.LoadTime | code/third-party/libfaketime/src/libfaketime.c:732-787 | Hands out the next record, or leaves replay for the last record's time, setting the common start time once |
| Replay.Process.NextTime | code/third-party/libfaketime/src/libfaketime.c:643-672 | The same for a process that may have replayed before |
| Replay.RecordsInOrder | code/third-party/libfaketime/src/libfaketime.c:751-776 | Over any interleaving the records handed out are the first ones of the file, each once, in order |
| Replay.ReplayEndsAlike | code/third-party/libfaketime/src/libfaketime.c:751-770 | All processes that have left replay have the last record as base and one start time; every record had been handed out |
| Replay.FirstToNotice | code/third-party/libfaketime/src/libfaketime.c:751-770 | When every process replays, the common start time afterwards is what the clocks showed to the first process that found no record left |
| Replay.TicksProgress | code/third-party/libfaketime/src/libfaketime.c:661-664 | All ticks shown count up by one, none repeated or skipped, starting from 0 or, when replay ended first, from 1 |
| Replay.TicksFromZero | code/third-party/libfaketime/src/libfaketime.c:661-664 | Without replay they start from 0 |
| Replay.SessionReplays | code/third-party/libfaketime/src/libfaketime.c:681-787 | Save, replay and tick: the saved times in order, then the last one plus 1, 2, 3, ... increments |

## Left out

uthash

- The separate `UT_hash_table` object and the items' `tbl` pointers: the table's fields live in class `HashTable`, and a freed table is a null head.
- The 32-bit width of counters and hash values: all are unbounded naturals.
- HASH_SELECT, which does not maintain the destination's tail and counts an item after a possible expansion.
- HASH_CLEAR, HASH_REPLACE_INORDER and the iteration macros, which add only easy members.
- The Bloom filter, the out-of-memory variants, the hash functions themselves (a table takes any function of the key) and the pointer-offset arithmetic between items and handles.
- Keys are byte sequences compared by value; the memory they point into is not modelled.
- The nested loops of expansion and sort, and the longer macros, are split into one method per loop, loop body or step.

Time daemon

- Sockets and threads: in the network a node's inbox is a multiset, so every order of delivery is allowed, and nothing is lost; in the daemon object the queue fills while the object sleeps on an empty queue, by any number of messages each time.
- The lengths of timeouts: any state but LEADER may time out at any moment after it has opened, including a FOLLOWER that has just heard its leader; the daemon object is told how often it finds its queue empty first.
- TempoDaemon.TimeDaemon.WaitForSignals: one queue, as all callers pass, where the code could watch several.
- TempoDaemon.TimeDaemon.LeaderState: the thread polls without end; the model's call ends after as many polls as asked and says that it is still LEADER.
- TempoDaemon.TimeDaemon.LeaderRound: up to the estimates, one round between two messages of the message thread, as the lock has it; `TempoSync.SyncRound` goes on from there, and when a round is due is left to the caller.
- The second LEADERUP of a node that comes from CONFLICT is sent once on leaving CONFLICT and once on opening LEADER, as in the code; who hears it in between is left to the interleaving.
- Logging, clearing of queues, and the clock-sync queue of a follower, whose effect is the subject of `TempoSync`.
- Stale clock replies: the code checks neither round nor signal, so for the averaging round one same-round reply per responder is assumed.
- Rounds that overlap: in runs of rounds a round begins when the adjustments of the one before have been applied.
- TempoDaemon.TimeDaemon.FollowerState: the clock-sync thread, whose effect is the subject of `TempoSync` and `Steering`.
- The adjustment is applied at the value it was sent with; that a zero adjustment cannot be read is stated separately.
- Election liveness.
- `int()` and `float()` accept more forms (spaces, underscores, infinities) than the forms modelled.

Clocks and text

- Rounding and range of binary floating point, and signed zero: numbers are exact reals, with the explicit roundings and truncations of the code.
- TempoSync.Synchronised: clocks are real-valued; `TempoHosts.HostsSynchronised` adds what the fake clock truncates.
- TempoHosts.HostsSynchronised: every reading parses the variable again, as with FAKETIME_NO_CACHE, which code/docker-compose.yml sets; a timestamp travels unrounded.
- FakeClock.FakeTime.constructor: only offset specifications, see the next line; the start time comes from `FakeClock.SharedMemory.StartTime` or the clocks.
- FakeClock.FakeTime.ParseFtString: only specifications that begin with a sign.
- FakeClock.FakeTime.FakeClockGettime: the limited faking, spawning, replay and freeze branches are not in it; `Replay` has the replay.
- FAKETIME forms that do not begin with a sign (absolute times, "@", "%"), and numbers that atof reads as an infinity or no number. An unset FAKETIME reads as "+0". The decimal point is the period.
- Systems without named semaphores, on which nothing is shared and a clock that should tick shows the system's time.
- Truncation of FAKETIME at its buffer length, config files, limited faking and spawning, CPU-time clocks, freezing, and switching faking off (`dont_fake`).
- Overflow of 64-bit nanosecond products: times are unbounded.
- FakeClockLaws.NeverFallsBack: CLOCK_REALTIME only, because the restart takes the CLOCK_REALTIME base for every clock (`FakeFamilies.EachRestarts`).
- Relative sleeps, timer intervals and sem_timedwait, which scales by the rate where the others scale by its inverse.
- Replay: semaphore creation and failure, the retry loop of save_time (a record is written whole), and processes that replay different files.
