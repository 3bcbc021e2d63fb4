# A verified model of the TSM server core

The server runs scripts of bytecode that talk to smart cards through agents. A reader thread takes
messages off the agents' sockets and queues them, a pool of workers runs bytecode for them, and a writer
sends the replies. Underneath lie a chained hash table (the variables of a script), intrusive circular
lists, packet buffers and packet queues, and a tick-driven timer list.

| file | models |
|---|---|
| `HashTable.dfy`, `HashTableRuns.dfy`, `StrHash.dfy` | the hash table on heap nodes, its whole runs, and the string hash |
| `List.dfy` | the circular lists of `fm_List.h` on heap nodes |
| `SkBuff.dfy` | packet windows and the sentinel packet queue |
| `Timer.dfy`, `TimerRuns.dfy` | the two timer lists on heap nodes, and whole runs of the timer module |
| `Framing.dfy`, `Router.dfy` | A0/A1 framing on packet buffers, the lookup by number, the message head, control records |
| `Load.dfy` | LOAD blocks, BER lengths, APDU building, from a content to the packet for the agent |
| `Dispatch.dfy` | the bytecode table |
| `Protocol.dfy`, `Revival.dfy` | reader, workers and writer as a state machine over their queues and semaphores, for any number of workers; and when a packet may arrive without another being misplaced |
| `Order.dfy` | in which order packets leave the queues, and what reader and workers owe for what they receive |
| `Fragments.dfy` | the fragment array that each worker keeps across the turns of its loop |

The C code works by changing structures in place, and so does the model: nodes are heap objects with `prev`
and `next` fields, the methods reassign them, and ghost sequences or maps say what the pointers represent.
Each class method is proved against a function of the old abstract value; the theorems about whole runs
are proved about those functions and carried over to the classes by the `Replay` methods, which answer every
call and end in the state that the run of exactly these calls leads to. The exception is `Protocol.dfy` with
`Revival.dfy`, `Order.dfy` and `Fragments.dfy`: threads interleave, so each thread's program is a step function, an enqueue
and the `sem_post` after it being separate steps, and the theorems are about all sequences of steps.

## What the code does and what it is meant to do

The hash table, the lists and the queues are modelled as written. Elsewhere the code is unfinished, and the
model does what is evidently meant. Where the difference can be stated, the code as written is modelled
beside it and the inputs on which it is right are given exactly:

- `padding_tagA1` (`tsm_vm.c:77-84`) puts its head after the contents instead of pushing it in front. In the
  buffer the VM allocates this panics for every queue that gets so far: `WriteBackAsWritten`. An empty queue
  does not, since `setting_agent_info` (`tsm_vm.c:61-62`) follows the NULL that `skb_peek` returns for it; nor does
  one with a packet that has fewer than 3 bytes in front. `gp_msg_macing` (`bc_gp.c:484-488`) writes back a queue
  that it has not filled again: `WriteBackAgain`, which fails for packets with the 3 bytes that
  `apdu_preprocess` reserves.
- `skip_tagAx` (`tsm_vm.c:86-92`) and `tagA0s_to_fmBytesarray` (`tsm_vm.c:93-116`) use what `skb_pull`
  returns, which points behind the bytes consumed: `SkipAsWrittenIff`, `SplitAsWrittenIff`. `skb_pull` itself
  is kept, and `Consume` gives the bytes its callers want. The reader does the same with the instruction byte of
  a control message (`tsm_router.c:205`), so that it acts on the byte behind it; the protocol's `Msg` stands for
  the instruction that was sent. The fragment array is taken to grow.
- Even when meant well, an A1 content of exactly 255 bytes cannot be told from the long form (`SkipFrame`).
  The lookup by number is right for more restricted lengths than splitting is (`SplitFrames`, `LookupAllIff`):
  a body of 0 or 1 byte makes it overrun, the length byte of one of 254 bytes reads as the long form
  (`LookupLongestIff`), and the length byte of a longer one has wrapped.
- `padding_tagA0` (`tsm_vm.c:45-47`) pushes a byte and reads the length in one statement, in unspecified
  order; the length is taken before the push, so that it counts the body and the number.
- The message length (`tsm_router.c:289`) is stored when 8 of the 12 head bytes have been pushed, while the
  receiver subtracts 12 (`tsm_router.c:142`): `MessageAsWrittenIff`. Both sides are taken to use four binary
  bytes, where the receiver calls `atoi`.
- The receiver reads type and session with `read(fd,buf[i],4)` (`tsm_router.c:127`), passing a byte of the buffer
  as the address. Nothing is mapped there, so that the read fails, and lines 128-132 throw the rest of the
  stream away and return NULL: literally no stream gives a packet (`RouterDoReadLiterally`, and
  `ReadFieldsLiterally` for any lowest address). The field reads are taken to go into the buffer. They are not
  repeated: a field that arrives in pieces also has the stream thrown away, which the model keeps (`Whole`).
- With that repaired, the receiver puts the whole stated length into the packet's window (`tsm_router.c:136`) and
  reads 12 bytes less into it, so that content arrives with zero bytes behind it: `OverlongNever` and
  `OverlongIff` for every stated length, `EndToEndOverlong` for framed bodies, which then do not split, and
  `ParseTrailing` for control records, which gain four empty ones. `skb_put(skb,len-12)` is taken as meant. With
  a stated length of 0, or one too large for an int, no packet comes about on either reading.
- `router_parse_tlv` (`tsm_router.c:107-115`) copies every value from the start of the input and steps by
  the value's length only: `ParseAsWrittenIff`.
- The LOAD loop (`bc_gp.c:401-420`) keeps `pos` in a byte, subtracts it from the rest instead of the block
  size, and has the two last-block flags swapped; the first block can be longer than a length byte says:
  `LoadAsWrittenIff`, about the commands that `_gp_load` is asked for. In the repaired loop both block limits
  are parameters; `LoadSurvivesFraming` gives the limit that the whole path to the card needs.
- `_gp_make_apdu` declares the pointer to the data as a byte (`bc_gp.c:56`, `bc_gp.c:65`). As written it
  therefore builds no command that carries data: `MakeAsWrittenIff`. `MakeApdu` keeps the pointer.
- `ccb_add_bc` (`tsm_ccb.c:29`) multiplies an index by the size of a pointer: `AddedAsWrittenIff`, about that line
  alone and for pointers of any width. `memcpy_int` and `memset_int` are taken to work on elements; they step
  by bytes, so that literally the table is garbled even where an empty set is added. The caller's null test
  (`tsm_ccb.c:98`) is inverted.
- A timeout is an unsigned 32-bit number put in an int (`fm_timer.c:145`): `HonouredIff` gives the timeouts
  that run out when they should. What it says of timeouts from 2^31 up relies on the conversion, and on the
  subtraction of the interval from the smallest ints, wrapping around. `to_handler` (`fm_timer.c:59-79`) has no
  loop: `FiredByHandlerOnly` says what one pass leaves; the runs allow any number of passes.
- A worker that has freed its packet still tests `bootstrap` (`tsm_vm.c:151`, `tsm_vm.c:170`). A packet of the
  same session that arrives while one is in service can lead to the freed packet being queued again, even if
  the agent has had its reply (`AnsweredTooSoon`). `ArrivesSafelyIff` gives the exact condition: with one worker
  every arrival is safe, whatever the threads then do; with more, one for the workers is if and only if no
  packet of its session is queued for them or with one that has not come back to its `sem_wait`.
- A worker keeps `fba` across its turns and sets it for new packets only (`tsm_vm.c:135-138`). A bootstrapped
  packet therefore runs with its own fragments only if the same worker takes it again, and has neither split
  another packet nor written back in between: `DispatchIff`. Otherwise it runs with a variable that was never
  set (`UnsetInTurn`) or an array that has been freed and is then freed again (`FreedTwiceInTurn`), also when
  packets come in turn.
- The flag setters are called without their CCB in places (`bc_gp.c:249`), and `router_get_des_wfd` locks
  where it should unlock (`tsm_router.c:58`); both are taken as meant.

`get_BERLen`, `int2byteBE`, `_get_Tag_Ax_len` and `_skip_Tag_Ax` live in `common/fm_Util.c`; their rows below
cite the calls.

## Model

| member | source | states |
|---|---|---|
| HashTables.LinkAtHead | common/fm_hashtable.c:211-216 | head insertion, shared by put and rehash, keeps every chain doubly linked and every entry in the bucket of its hash key |
| HashTables.MoveChain | common/fm_hashtable.c:120-131 | relinking one old chain front to back, while reading it, leaves in each new bucket what head insertion spreads there, all links valid |
| HashTables.MoveAll | common/fm_hashtable.c:112-132 | the new table has the buckets `Rehashed` of the old ones, the same entries, and every entry in its new bucket |
| HashTables.SlotDouble | common/fm_hashtable.c:125 | doubling sends the entries of bucket i to bucket i or i + tab_size only |
| HashTables.SpreadReverses | common/fm_hashtable.c:120-131 | what head insertion leaves in a bucket is the reverse of the entries that belong there |
| HashTables.RehashSplits | common/fm_hashtable.c:119-132 | new bucket j is the reverse of those entries of old bucket j mod tab_size whose hash key is j modulo the new size, and nothing else |
| HashTables.Unlink | common/fm_hashtable.c:251-261 | unlinking any entry of a chain, first, middle or last, leaves the chain without it, links mutually inverse |
| HashTables.ReplaceEntry | common/fm_hashtable.c:187-188 | overwriting key and value of the entry found updates the represented map at that key and keeps keys pairwise unequal |
| HashTables.AddEntry | common/fm_hashtable.c:199-216 | inserting a new entry extends the represented map by exactly that binding |
| HashTables.RemoveEntry | common/fm_hashtable.c:251-263 | unlinking removes exactly that key from the represented map |
| HashTables.LoadBound | common/fm_hashtable.c:191-197 | in every state the load invariant allows, 10(nelem - 1) <= 13 tab_size, and all rehashes together have moved at most three entries per inserting put |
| HashTables.Enumeration | common/fm_hashtable.h:57-58 | bucket order lists every entry of the table exactly once, nelem of them |
| HashTables.WhereHashed | common/fm_hashtable.c:140-152 | every entry has the hash of its key and stands in bucket hash mod tab_size |
| HashTables.Table.constructor | common/fm_hashtable.c:17-48 | a new table represents the empty map |
| HashTables.Table.GetEntry | common/fm_hashtable.c:140-152 | returns null exactly when no key of the map equals the argument, otherwise the one entry whose key does |
| HashTables.Table.Get | common/fm_hashtable.c:154-166 | the value the map has for the key, if any |
| HashTables.Table.Rehash | common/fm_hashtable.c:103-138 | keeps the map and the entries, gives the buckets `Rehashed`, and when allocation fails changes nothing |
| HashTables.Table.Put | common/fm_hashtable.c:168-221 | updates or extends the map, the new key stored with its value, calling the deleters for the pair replaced; rehashes exactly for a new key above the load of 1.3; returns -1 exactly when an allocation it needs fails, the map then unchanged |
| HashTables.Table.Remove | common/fm_hashtable.c:223-267 | removes the key from the map and calls the deleters for the pair removed; a null or absent key changes nothing |
| HashTables.Table.Clean | common/fm_hashtable.c:80-101 | the map is empty and the deleters were called for every pair, in bucket order |
| HashTables.Table.Del | common/fm_hashtable.c:50-78 | the deleters are called for every pair, in bucket order |
| HashTables.Table.Begin | common/fm_hashtable.c:269-282 | the first entry of bucket order, or null for an empty table |
| HashTables.Table.Next | common/fm_hashtable.c:284-301 | from any entry, the one after it in bucket order, or null at the end |
| HashTables.Table.ForEach | common/fm_hashtable.h:57-58 | the loop visits every entry exactly once, in bucket order, and stops after nelem steps; each is the one that get_entry returns for its key |
| HashTableRuns.RunBalance | common/fm_hashtable.c:180-189 | over every run of calls with any allocation failures, every key and value put in is held or was handed to its deleter, once each |
| HashTableRuns.GetsLatest | common/fm_hashtable.c:154-267 | in every run a get answers with the value of the last put of an equal key that was not refused, unless it was removed or cleaned away since |
| HashTableRuns.CleanTotals | common/fm_hashtable.c:86-98 | the deleter calls of one sweep over the buckets are exactly the keys and values of the map |
| HashTableRuns.Perform | common/fm_hashtable.c:140-267 | every call is answered as the ledger of map, deleter calls, insertions, size and moves says, a put being refused only where an allocation that it needs fails, and does to the linked table what it does to the ledger |
| HashTableRuns.Replay | common/fm_hashtable.c:80-267 | in every run of any calls with any allocation failures each answer, the map, the number of buckets and the deleter calls are those of a finite map; keys and values are conserved and both load bounds kept |
| HashTableRuns.Close | common/fm_hashtable.c:50-78 | a run that ends in del has handed every key and every value ever put in to its deleter exactly once |
| StrHash.StrHash | common/fm_hashtable.c:305-314 | the wrapping shift-and-add loop computes the times-33 polynomial of the signed characters modulo 2^32 |
| StrHash.HashSteps | common/fm_hashtable.c:305-314 | from 5381, each signed character is added to 33 times the hash so far, modulo 2^32 |
| StrHash.StringsLawful | common/fm_hashtable.c:305-319 | string hash and string equality meet what the table asks of them |
| Lists.RingWith | common/fm_List.h:29-37 | the four links that insertion sets, here and in the packet queue, make the ring with the node in its k-th gap |
| Lists.RingWithout | common/fm_List.h:74-78 | the two links that removal sets make the ring without the k-th node |
| Lists.ListAdd | common/fm_List.h:29-37 | inserting into the k-th gap of a ring gives the ring with the node spliced in there |
| Lists.ListAddTail | common/fm_List.h:62-65 | appends the node to the ring |
| Lists.ListDel | common/fm_List.h:91-96 | the ring without its k-th node |
| Lists.ListDelInit | common/fm_List.h:124-128 | the ring without its k-th node, that node a ring of its own |
| Lists.RingTests | common/fm_List.h:169-214 | the pointer tests for empty and singular mean what they say of every ring |
| Lists.RingLast | common/fm_List.h:159-163 | the last-node test holds of the last node only |
| Lists.ListMoveTail | common/fm_List.h:147-152 | within one list, moves the k-th node behind all others |
| Lists.ListMoveTailTo | common/fm_List.h:147-152 | moves the k-th node of one list behind all nodes of another |
| Lists.ListRotateLeft | common/fm_List.h:197-205 | rotates the ring by one; an empty ring stays so |
| Lists.ListCutPosition | common/fm_List.h:242-254 | cutting at the k-th entry splits the ring into its first k + 1 nodes and the rest, both rings valid and apart; cutting at the head empties the target; an empty source is left alone |
| Lists.ListSplice | common/fm_List.h:256-268 | splices a non-empty ring into any gap of another |
| Lists.ListSpliceHead | common/fm_List.h:275-280 | gives list ++ head |
| Lists.ListSpliceTail | common/fm_List.h:287-292 | gives head ++ list |
| Lists.ListSpliceInit | common/fm_List.h:301-308 | gives list ++ head and empties list |
| Lists.ListSpliceTailInit | common/fm_List.h:318-325 | gives head ++ list and empties list |
| Lists.CutThenSplice | common/fm_List.h:242-308 | splicing back what was cut restores the original ring, for every cut position |
| SkBuffs.SkBuff.AllocSkb | common/fm_skbuff.c:217-247 | an empty window at the start of a zeroed buffer |
| SkBuffs.SkBuff.Put | common/fm_skbuff.c:160-171 | appends to the window; panics exactly when the end of the buffer is passed or the buffer has no bytes |
| SkBuffs.SkBuff.Push | common/fm_skbuff.c:173-182 | prepends to the window; panics exactly when the head of the buffer is passed |
| SkBuffs.SkBuff.Pull | common/fm_skbuff.c:104-187 | drops from the front and returns the place behind what was dropped; refuses more than there is |
| SkBuffs.SkBuff.Trim | common/fm_skbuff.c:119-194 | truncates the window to at most the length given |
| SkBuffs.SkBuff.Reserve | common/fm_skbuff.c:195-199 | moves both ends of the window, unchecked: it is one still exactly when it stays inside the buffer |
| SkBuffs.SkBuff.Consume | tsm_vm.c:105-108 | the bytes the callers of skb_pull mean to read, which the window then drops |
| SkBuffs.SkbQueue.QueueHeadInit | common/fm_skbuff.c:276-282 | the empty sequence |
| SkBuffs.SkbQueue.QueueHead | common/fm_skbuff.c:79-133 | prepends a packet, qlen in step |
| SkBuffs.SkbQueue.QueueTail | common/fm_skbuff.c:86-140 | appends a packet, qlen in step |
| SkBuffs.SkbQueue.Unlink | common/fm_skbuff.c:25-41 | removes any member, qlen in step |
| SkBuffs.SkbQueue.Peek | common/fm_skbuff.c:201-208 | the first packet, or null exactly when there is none |
| SkBuffs.SkbQueue.Dequeue | common/fm_skbuff.c:53-150 | takes the first packet; null and no change exactly when there is none |
| SkBuffs.SkbQueue.DequeueTail | common/fm_skbuff.c:43-159 | takes the last packet; null and no change exactly when there is none |
| SkBuffs.SkbQueue.Purge | common/fm_skbuff.c:284-289 | terminates with every packet freed once, front to back, and the queue empty |
| SkBuffs.SkbQueue.SkbDel | common/fm_skbuff.c:210-214 | unlinks but leaves qlen one too high, so it cannot be mixed with the counted operations |
| SkBuffs.SkbQueue.EmptyMeans | common/fm_skbuff.c:290-293 | the pointer test agrees with qlen and with the sequence |
| Timers.TickWalk | common/fm_timer.c:42-53 | the safe walk counts every node down once and, although it relinks nodes as it goes, leaves the survivors in order and the expired nodes appended to the expire list in order |
| Timers.DelWalk | common/fm_timer.c:184-191 | the walk unlinks every node of the ID and no other |
| Timers.RearmWalk | common/fm_timer.c:166-173 | sets the counter of the first node of the ID, or reports that there is none |
| Timers.DrainWalk | common/fm_timer.c:70-77 | takes every node off the expire list, running each once in list order |
| Timers.TimerList.ClocktickHandler | common/fm_timer.c:36-57 | the linked lists, counters and semaphore go where one abstract tick takes them; it posts exactly when the counter of expired timers is then positive |
| Timers.TimerList.FmtimerAdd | common/fm_timer.c:140-158 | a node with a new ID at the end of the active list |
| Timers.TimerList.FmtimerRearm | common/fm_timer.c:160-176 | returns 0 exactly when the ID is on the active list |
| Timers.TimerList.FmtimerDel | common/fm_timer.c:178-194 | takes the ID off the active list |
| Timers.TimerList.ToHandler | common/fm_timer.c:59-79 | one pass runs, in order, and frees everything on the expire list; the counter of expired timers is not reduced |
| TimerRuns.HonouredIff | common/fm_timer.c:36-57 | in every run, with enough ticks, a timer left alone has left the active list on the tick that its timeout means exactly when the timeout is below 2^31 plus one interval |
| TimerRuns.ExactTick | common/fm_timer.c:36-57 | from any state of any run, a timer neither rearmed nor deleted leaves the active list on exactly its max(1, ceil(to/interval))-th tick (the first tick for timeouts that are not honoured), with the function and data it was added with, whatever happens to others in between |
| TimerRuns.CalledAsAdded | common/fm_timer.c:70-77 | over every run, each timer that counts down, waits for the handler or has been run by it has the function and data that its own addition gave |
| TimerRuns.DeletedNever | common/fm_timer.c:178-194 | a deletion takes the timers of the ID off the active list and no other, and what it takes off never expires in any run that follows |
| TimerRuns.SemaphoreRun | common/fm_timer.c:56-65 | over every run the posts, pending or taken by a pass, are as many as the ticks from the first that a timer ran out on |
| TimerRuns.SoundRun | common/fm_timer.c:36-194 | every run keeps the active list in ID order, what has left it in order of (tick, ID), and both counters as active, and as expired plus fired |
| TimerRuns.RearmedIff | common/fm_timer.c:160-176 | from any state of any run, a timer rearmed to e for the last time leaves on exactly one tick, with enough ticks the max(1, ceil(e/interval))-th from there exactly when the first subtraction does not wrap around |
| TimerRuns.AllPerformedIff | common/fm_timer.c:59-79 | all operations are performed exactly when no handler has to wait |
| TimerRuns.ExactlyOnePlace | common/fm_timer.c:36-194 | every timer ever added is in exactly one of active, expired, fired and deleted |
| TimerRuns.LeavesOnce | common/fm_timer.c:42-53 | a timer leaves the active list on one tick only |
| TimerRuns.NeverAsleep | common/fm_timer.c:56-65 | over every run the semaphore is up whenever the expire list is not empty, so a handler that loops never sleeps on an expired timer |
| TimerRuns.FiredByHandlerOnly | common/fm_timer.c:59-79 | between passes of the handler nothing fires and what expires piles up |
| TimerRuns.Replay | common/fm_timer.c:36-194 | for any operations in any order, the linked lists end exactly where the abstract run of these operations ends, only handlers that would have to wait being left out, and what has been run had the function and data of its addition |
| Framing.SplitFrames | tsm_vm.c:93-116 | splitting undoes A0 framing exactly for bodies of at most 254 bytes each, any number of them |
| Framing.SplitIff | tsm_vm.c:93-116 | splitting accepts exactly the frames, with any tags and numbers, of bodies of at most 254 bytes, and gives those bodies |
| Framing.SkipFrame | tsm_vm.c:67-92 | skipping undoes the A1 frame exactly for contents not 255 bytes long |
| Framing.FrameLength | bc_data.c:14-16 | the length read from an A1 frame is that of its content, below 2^16 and 255 apart |
| Framing.GetTagA0At | bc_data.c:8-36 | the pointer loop terminates and computes the search by number, running past the data only where that does |
| Framing.LookupFramed | bc_data.c:8-36 | the number of the j-th body finds that body without its two status bytes, the number of no body finds nothing |
| Framing.LookupAllIff | bc_data.c:8-36 | for which lengths every lookup in a queue of at most 255 bodies is right, whatever the bytes: 2 to 253 for each body, and not 255 for all frames together |
| Framing.LookupLongestIff | bc_data.c:20-28 | a lone body of 254 bytes is found only under number 0 and with one particular content |
| Framing.PaddingTagA0 | tsm_vm.c:37-52 | packet k of the queue becomes A0, length, k + 1, body, and the result is the total length; it panics exactly when some packet has fewer than 3 bytes in front |
| Framing.PaddingTagA1 | tsm_vm.c:67-85 | the out packet holds A1, the length in one byte or behind FF in two, and the queue's packets in order |
| Framing.AllocOut | tsm_vm.c:159-164 | the out packet's window is empty, 12 bytes up, with exactly the frames and the A1 head to come before the end |
| Framing.WriteBack | tsm_vm.c:155-165 | with the head pushed: the packet holds the frames, its body ends at the end of the buffer and the message head still has room; it follows a NULL pointer exactly for an empty queue and panics exactly when a packet has too little room in front |
| Framing.WriteBackAgain | bc_gp.c:484-488 | a second write-back of the same packets panics exactly when some packet had fewer than 6 bytes in front at first, as those of apdu_preprocess have |
| Framing.PaddingTagA1AsWritten | tsm_vm.c:67-85 | as written the first byte of the head panics when the contents end where the buffer does |
| Framing.WriteBackAsWritten | tsm_vm.c:155-165 | as written, the write-back of an empty queue follows a NULL pointer and every other ends in a panic branch |
| Framing.SkipTagAx | tsm_vm.c:86-92 | on the packet window, what skipping means on its bytes |
| Framing.TagA0sToArray | tsm_vm.c:93-116 | on the packet window, what splitting means on its bytes, the packet used up |
| Framing.SkipTagAxAsWritten | tsm_vm.c:86-92 | the pulls as written, the refused one included, do to the window what `SkipAsWritten` says |
| Framing.SkipAsWrittenIff | tsm_vm.c:86-92 | as written skipping is right exactly for short contents that do not begin with 0xFF or are that one byte, and long ones whose high length byte is 0xFF |
| Framing.SplitAsWrittenIff | tsm_vm.c:93-116 | the bodies that are split right as written: each has a length one below its number and repeats the bytes behind it, or is empty with too little behind it |
| Framing.SplitAsWrittenNever | tsm_vm.c:93-116 | with status words the bodies come out right as written only when there are none |
| Router.Be4RoundTrip | tsm_router.c:285-290 | four bytes, the highest first, carry a number modulo 2^32 |
| Router.PackHead | tsm_router.c:283-290 | three pushes put length, type and session in this order in front of the packet, without a panic |
| Router.Fill | tsm_router.c:142-147 | the read loop takes exactly the bytes asked for off the stream, in order, however read splits them, or finds the stream too short |
| Router.RouterDoRead | tsm_router.c:118-149 | with field reads and put as meant, the packet holds type, session and content and the stream is left at the next message; NULL exactly when a field comes in pieces, which discards the stream, or no packet can be made or filled |
| Router.ReadFieldsLiterally | tsm_router.c:126-134 | with a byte of the buffer as the address, both fields are read exactly when they come whole and both bytes are mapped addresses |
| Router.RouterDoReadLiterally | tsm_router.c:118-149 | as it stands, no stream gives a packet and what is left of each is thrown away |
| Router.RouterDoReadOverlong | tsm_router.c:118-149 | with the put as written, the field reads being as meant, the packet's window is the content and the zeros that were not read over |
| Router.MessageRoundTrip | tsm_router.c:118-149 | a receiver gets back type, session and content, ints of either sign, and leaves the stream at the next message |
| Router.MessageAsWrittenIff | tsm_router.c:289 | with the length as written, a reader that is as meant loses the last four bytes; it gets the content only when that is empty |
| Router.OverlongNever | tsm_router.c:135-147 | with the put as written, the field reads being as meant, no stated length gives the content and leaves the stream at the next message |
| Router.OverlongIff | tsm_router.c:135-147 | then the window is the content exactly when the head is not counted and the content ends in the zeros left unread |
| Router.ArrivesOverlong | tsm_router.c:135-147 | then a message whose length counts the head arrives with 12 zeros behind its content |
| Router.EndToEnd | tsm_router.c:268-297 | bodies framed by the VM arrive whole through both frames and the message head, the reader being as meant |
| Router.EndToEndOverlong | tsm_router.c:135-147 | with the put as written, the field reads being as meant, they never split |
| Router.ParseTrailing | tsm_router.c:206 | with the put as written, the field reads being as meant, every list of control records gains four empty ones |
| Router.RouterParseTlv | tsm_router.c:97-117 | the index loop terminates, each record advancing it by at least three, and gives the records of the input or fails where one runs over |
| Router.ParseFirst | tsm_router.c:97-117 | a record is a tag, the high and the low byte of the length, and that many bytes |
| Router.ParsePrint | tsm_router.c:97-117 | parsing undoes printing for every list of records with values below 2^16 bytes, empty ones included |
| Router.PrintParse | tsm_router.c:97-117 | printing undoes parsing, so no two inputs parse alike |
| Router.ParseAsWrittenIff | tsm_router.c:107-115 | as written only the empty list is parsed right |
| Loads.BigEndianFacts | bc_gp.c:389-394 | the length bytes read back as the length, and there are as many as were counted |
| Loads.GetBERLen | bc_gp.c:389-394 | the two loops store the BER encoding of any 32-bit length and return its size |
| Loads.BerForm | bc_gp.c:389-394 | the bytes of the length for each of its five sizes |
| Loads.BerRoundTrip | bc_gp.c:389-394 | a reader of BER lengths gets back every 32-bit length, whatever follows it |
| Loads.LoadRead | bc_gp.c:387-394 | a reader of the blocks put together finds C4, the length and the content |
| Loads.LoadBlocks | bc_gp.c:387-420 | for every content and both block limits the queue is filled with one packet a block: 80 E8, P1 with the last-block bit for the final one only, the number without gaps, the length, the data; the data together are C4, BER length and content, and all blocks but the final one are as long as the limits allow |
| Loads.LoadAsWrittenIff | bc_gp.c:387-420 | as written the commands that _gp_load is asked for are right exactly for contents of at most 252 bytes |
| Loads.RepeatsAsWritten | bc_gp.c:401-420 | as written the second and third block of every content from 288 bytes up repeat bytes already sent and are both marked last |
| Loads.LoadSurvivesFraming | bc_gp.c:387-420 | the blocks of a load come whole out of A0 framing exactly when no data field exceeds 247 bytes |
| Loads.ApduRoundTrip | bc_gp.c:49-52 | the data of the command that is meant can be read back exactly when it is at most 255 bytes long |
| Loads.ApduPreprocess | bc_gp.c:221-232 | an empty packet with the head room that A0 framing uses |
| Loads.MakeApdu | bc_gp.c:70-77 | with the pointer kept, appends class, instruction, P1, P2, the length and as much of the data as that byte counts, without a panic |
| Loads.MakeAsWrittenIff | bc_gp.c:56-77 | with the pointer in a byte, wherever the data lies, the command is right exactly when there is no data |
| Loads.PaddingSw | bc_gp.c:207-215 | every packet of the queue gets 90 00 at its end; it panics exactly when some buffer has fewer than 2 bytes left |
| Loads.LoadWrittenBack | bc_gp.c:365-420 | the queue emptied, filled with the LOAD commands, given status words and written back: the packet for the agent is the A1 frame of the A0 frames of the commands, and with data fields of at most 247 bytes the other side gets every block back whole |
| Loads.StoreData | bc_gp.c:445-463 | the queue is filled with one packet a parameter in order: 80 E2, P1 with the last-block bit for the last one only, the number from 0, the length, the value |
| Dispatch.GrowTwice | tsm_ccb.c:22-25 | growing by half again for one need and then another is growing once for the larger |
| Dispatch.ByteCode.AllocBc | tsm_ccb.c:34-43 | 512 entries, all of them tsm_reserve |
| Dispatch.ByteCode.AddBc | tsm_ccb.c:17-33 | the growth loop terminates with less than half too much; the set's codes go to its functions, other old entries stay, the rest go to tsm_reserve |
| Dispatch.LoadedCode | tsm_ccb.c:84-102 | after loading disjoint sets every code goes to the one set that serves it, entry code - base, or to tsm_reserve |
| Dispatch.LoadedSize | tsm_ccb.c:84-102 | the size of the table depends on the largest need only |
| Dispatch.GrowSteps | tsm_ccb.c:22-25 | the size grown to is the first, of those that adding half goes through, to reach the need |
| Dispatch.LoadedSteps | tsm_ccb.c:84-102 | a whole load leaves the first of the sizes 512, 768, 1152, ... with room for every set, less than half more than the largest need if it grew |
| Dispatch.LoadSets | tsm_ccb.c:84-102 | loading the sets one after the other leaves the table that `LoadedCode` and `LoadedSteps` describe |
| Dispatch.AnyOrder | tsm_ccb.c:84-102 | loading pairwise disjoint sets in any order gives the same table, size included |
| Dispatch.EitherOrderIff | tsm_ccb.c:17-33 | two sets can be loaded in either order exactly when they agree on the codes they share |
| Dispatch.AddedAsWrittenIff | tsm_ccb.c:29 | with line 29 alone as written, for any pointer width, a set is added right exactly when it is empty, has its base at that many times the old size, or leaves all its codes to tsm_reserve as they were, with room for the copy |
| Protocol.SemaphoresCount | tsm_vm.c:131-174 | for any number of workers and any interleaving each queue is as long as its semaphore plus the threads past the wait and those yet to post, so no dequeue returns null |
| Protocol.NoLostWakeup | tsm_router.c:215-284 | while a thread sleeps on a queue that is not empty, some thread at that queue can take its step |
| Order.FirstInFirstOut | tsm_router.c:215-284 | on every run, for any number of workers and each queue: what has been put on it is what has been taken off it followed by what is still there, in order; so data reaches workers and replies the writer first come first served |
| Order.ReaderAccounts | tsm_router.c:201-262 | on every run the reader frees and acknowledges each registration once, drops exactly the other control messages, and makes one CCB for each request |
| Order.RepliesMatch | tsm_vm.c:146-166 | on every run over opened sessions each packet of a session that a worker frees is answered by exactly one packet to that session |
| Protocol.OnePlaceIff | tsm_vm.c:145-175 | on every run each packet is in one queue, with one thread, freed once or lost, plus once more for each time a worker queued it after freeing it; when that can happen is `Revival.ArrivesSafelyIff` |
| Protocol.ClearAtFetch | tsm_vm.c:139-145 | a worker with no other on its session finds both flags clear when it fetches the CCB |
| Protocol.AfterCode | tsm_vm.c:145-175 | which bytecodes are followed by a reply, which by a bootstrap, and which by neither |
| Protocol.WhoChanges | tsm_vm.c:145-175 | in any state bytecode sets the flags of its own CCB and clears none, and only the worker that found a flag clears it |
| Protocol.OnePlaceInTurn | tsm_vm.c:145-175 | since no bytecode sets both flags, when packets of a session come one at a time every packet is in exactly one place on every run, none freed twice or queued after being freed |
| Protocol.OnePlaceAlone | tsm_vm.c:130-177 | with one worker, on every run whatever arrives, every packet is in exactly one place |
| Revival.ArrivesSafelyIff | tsm_vm.c:130-177 | for every state that packets in turn lead to, any number of workers and any arrival: every packet stays in exactly one place on all runs without another arrival, if and only if there are not two workers, or the packet is not for them, or no packet of its session was in service |
| Revival.MisplacedRun | tsm_vm.c:145-175 | a run from the start with two workers and two packets that misplaces one |
| Revival.OutOfTurn | tsm_vm.c:145-175 | if one was, wherever it is in the queue or with a worker and whatever else goes on, some run misplaces a packet, be the second data or a request for a CCB |
| Revival.Parks | tsm_vm.c:130-177 | every worker can be brought to its sem_wait, or to a test that finds nothing, without a packet of a given session leaving service |
| Revival.Revived | tsm_vm.c:151-174 | two workers on one CCB, one past its write-back and one about to ask for a bootstrap, queue the packet that was freed |
| Revival.AnsweredTooSoon | tsm_vm.c:151-174 | from every idle state there is a run in which the agent sends its next packet only after its reply has been sent, and a freed packet is queued |
| Fragments.DispatchIff | tsm_vm.c:133-145 | at every dispatch of every run, for any number of workers and any arrivals, the packet was split before, and its bytecode gets its own array, not yet freed, exactly when the worker is the one that split it and has since neither split another packet nor written back |
| Fragments.KeptIff | tsm_vm.c:135-152 | an array is kept by the worker that has it exactly until that one splits another packet or writes back, and no other worker ever gets it |
| Fragments.FreedOnceIff | tsm_vm.c:152 | on a run no array is freed twice and no unset variable is freed exactly when every write-back is by a worker whose variable has been set to an array not yet freed |
| Fragments.UnsetInTurn | tsm_vm.c:135-152 | with two workers or more a run of packets in turn frees an unset variable |
| Fragments.FreedTwiceInTurn | tsm_vm.c:135-152 | with any number of workers a run of packets in turn frees an array twice |
| Protocol.CcbAlwaysFound | tsm_vm.c:139-142 | while data comes only for sessions that have a CCB no worker uses a null CCB |
| Protocol.AtRestAllDone | tsm_vm.c:130-177 | when nothing can move until a packet arrives, both work queues are empty and every packet was freed or lost, once, or waits for the tool |

## Left out

- Sockets, epoll, agent registration records, loading of shared objects and files, logging, thread creation and the POSIX timer: foreign calls. Arriving messages, bytecode chosen, ticks and allocation failures are inputs of the model.
- Failed allocation, except in `zc_hashtable_put`; fm_free and the contents of freed memory, except that the protocol records which packets were freed.
- Overflow of counters, of table sizes and of timer IDs: `nelem`, `tab_size`, `qlen`, `active_cnt` and the like are unbounded. Timeouts, hashes, lengths and block numbers keep their widths.
- The load factor 1.3 is taken as 13/10 exactly, not as the nearest double.
- HashTables.Table.Del: what is freed besides the calls to the deleters is not stated, because the model has no explicit memory release.
- Timers.TimerList.ClocktickHandler: the counters are brought up to date once after the walk, and the test of expire_cnt, which the source makes after unlocking, is part of the same step.
- Timers.TimerList.FmtimerAdd: taking an ID and linking the node are one step, while the source takes the ID before it locks.
- Protocol.OnePlaceInTurn: the packets' bytes and the command queue of a CCB are not part of the protocol's state; `Framing.dfy` treats them for one worker, `Fragments.dfy` says whose fragment array a dispatch gets.
- Fragments.DispatchIff: splitting is one step with taking the packet off the queue, and always yields an array.
- Protocol.SemaphoresCount: mutex-protected queue operations are single steps, memory is sequentially consistent, and the semaphores start at 0, which the source never sets.
- What `skip_tagAx` does to the bytes of a bootstrapped packet, to which it is applied once more.
- Router.RouterDoRead: read waits for bytes. The accepted sockets are non-blocking (`common/fm_socket.c:67`), so that a read with nothing to take returns -1, which the content loop adds; and the caller's own read of the length is taken to get all four bytes.
- Loads.LoadWrittenBack: the INSTALL command in front of the LOAD commands is left out, and the queue filled is the one written back, where the source fills `apduQ` and leaves the way from there to `cmdQ` to the agent that adds MACs (the call for `apduQ` at `tsm_vm.c:158` is commented out).
- `setting_agent_info` and the choice of the receiving socket by agent name.
- `list_replace`, `list_empty_careful`, `list_move` and the reverse and entry iterators of `fm_List.h`: variants of what is modelled.
- `gp_traverse` pads its earlier commands repeatedly, and the remaining handlers fill buffers with given fields; only the flag that each sets is modelled.
- Script execution as a whole, the response tests of `bc_rsp.c` and the other operations of `bc_data.c`: no step advances the program counter, so a script's run has no settled meaning.
- `fmtimer_deinit`, which uses a node before setting it, `tsm_cfg.c`, `tsm_scloader.c`, `tsm_bcloader.c`, `tsm_main.c` and `agent/`.
