# Verified model of the server's core components

A Dafny model of seven components of the web server, each with proofs about all inputs, all calls or all runs. Where
the C++ updates objects in place, the model has a class with the same fields, and each method is proved against a
specification on values; what the component promises is then proved about that specification, over every run.

| files | component |
|---|---|
| `LfuSpec`, `LfuLayout`, `LfuHeap`, `LfuCache` | the LFU cache: a doubly linked list of doubly linked lists and two hash maps |
| `AsyncLogSpec`, `AsyncLog`, `FixedBuffers` | the double-buffered asynchronous logger |
| `MemoryPoolSpec`, `MemoryPool` | the 64 fixed-size memory pools |
| `EventLoopSpec`, `EventLoop` | handing functors to an event loop across threads |
| `PollerSpec`, `EpollPoller` | registration of channels with epoll |
| `Decimal`, `LogStream` | decimal output into a log line |
| `BufferSpec`, `LineSpec`, `FeedSpec`, `Buffer` | the byte buffer and the scan for the end of a request line, with input in chunks |
| `Options` | an optional value |

How the parts fit together:

* LFU cache. `LfuSpec` has the abstract lists (frequency to entries, most recent first) and, independently, a reference
  cache defined from the history of calls alone, which evicts the least used and among these the least recently used key.
  `LfuLayout` is the placement of nodes as a value; `LfuHeap` and `LfuCache` are the code on the heap. The class carries
  its history as a ghost, so the contracts of `Get` and `Set` speak of the reference cache directly. Frequencies are
  unbounded (the overflow remark at `LFUCache/LFUCache.cc:87` is not modelled). `set` does not look whether the key is
  there; its precondition `MaySet` says that it is absent, or is the very key that is evicted first, and `MaySetIsNeeded`
  that otherwise the key is filed twice. Both callers call it after a miss. That suffices as long as no other connection
  sets the key in between (`MissMaySet`); but get and set lock separately (`LFUCache/LFUCache.cc:119`, `:134`) and all
  connections share one cache (`LFUCache/LFUCache.cc:171`), and when two connections both miss and both set, it does not
  (`TwoMisses`).
* Logger. `AsyncLogSpec` is a transition system: a producer's append and the backend's swap are atomic (they hold the
  lock), the backend's other steps interleave freely, and the timed wait lets the swap come at any time. A failed C++
  assertion, or the use of a pointer that was moved from, is a step to `Crashed`. `stop` does not always flush:
  `StopFlushes` says that it does if and only if the backend is already waiting for its swap or no accepted line is in
  front of it, and `StopMayKeepLines` is a run of the other case. `EverythingIsWritten` says that until then the backend
  always gets to what was appended.
* Memory pool. Memory is word addressed, and both lists are threaded through it, so a client's write can in principle hit
  a link. Calls are sequential: the test at `MemoryPool/MemoryPool.cc:59` is outside the mutex.
* Event loop. Other threads' queueInLoop and quit are two steps each, the push or store and the wake-up. A functor queued
  by the loop's own thread outside its callbacks may not be awaited; `SelfQueueIsAwaited` says when exactly.
* Byte buffer. `makeSpace` is modelled as written: in its second branch the writer index is computed from the reader index
  just changed (`Buffer/Buffer.h:62-63`), so it does not move, no space is made, and the copy in `append` would run past
  the end. `AppendOk` says that append works exactly when that branch is not taken; the class asks callers for this.
  Feeding a request line in chunks, with parseLine after each, is one scan of it all (`FeedIsScan`) on every run where
  that branch is not taken; it is taken only while a CR waits for its LF (`CompactsAfterOpen`), and then it may be
  (`SplitCrLfCompacts`).

## Model

| member | source | states |
|---|---|---|
| LfuSpec.RunsAreLfu | LFUCache/LFUCache.cc:85-159 | on every history, the lists hold exactly the keys and values of the reference cache, each under 1 plus its hits since set, ordered by last use; never more than the capacity |
| LfuSpec.AnswersAreLfu | LFUCache/LFUCache.cc:117-130 | get answers the value last set, exactly when the reference cache still holds the key |
| LfuSpec.VictimIsLeastUsed | LFUCache/LFUCache.cc:137-149 | the entry evicted is the least, by number of hits and then by time of last use, of all cached keys |
| LfuSpec.TracksHit | LFUCache/LFUCache.cc:85-114 | a hit keeps the agreement with the history: one more hit, used last |
| LfuSpec.TracksEvict | LFUCache/LFUCache.cc:137-149 | an eviction keeps the agreement for all keys but the victim |
| LfuSpec.TracksInsert | LFUCache/LFUCache.cc:150-158 | an insertion of an absent key keeps the agreement |
| LfuSpec.SetKeepsKeysUnique | LFUCache/LFUCache.cc:132-159 | set leaves every key at most once in the lists if and only if capacity is 0, the key is absent, or it is the one evicted to make room |
| LfuSpec.MaySetLists | LFUCache/LFUCache.cc:132-159 | the precondition of set, read off the history, holds if and only if it does read off the lists; and they fit the capacity |
| LfuSpec.MaySetIsNeeded | LFUCache/LFUCache.cc:132-159 | after any history of proper calls, a set leaves every key at most once in the lists if and only if the precondition holds |
| LfuSpec.MissMaySet | HttpConnection/HttpConnection.cc:459-463 | after a miss the key may be set, whatever calls come between, as long as none of them sets that key |
| LfuSpec.TwoMisses | LFUCache/LFUCache.cc:117-159 | when two callers miss the same key and both set it, the key is in the lists twice if and only if the capacity is above 1 |
| LfuHeap.FreqNode.Init | LFUCache/LFUCache.cc:8-14 | a new list has its dummy node only |
| LfuHeap.FreqNode.Add | LFUCache/LFUCache.cc:29-40 | the node is linked in right behind the dummy node, both ways, and the tail is the last node |
| LfuHeap.FreqNode.Del | LFUCache/LFUCache.cc:43-51 | the node is linked out, both ways, and the tail is the last node |
| LfuHeap.FreqNode.Destroy | LFUCache/LFUCache.cc:17-24 | every node of the list is freed, each while allocated |
| LfuHeap.FreqNode.IsEmpty | LFUCache/LFUCache.cc:53-55 | true exactly when the list has its dummy node only |
| LfuHeap.FreqNode.GetLast | LFUCache/LFUCache.cc:56-58 | the last node of the list |
| LfuHeap.NextList | LFUCache/LFUCache.cc:85-103 | the list of the next frequency, created right behind in ascending order when it is missing |
| LfuHeap.AddFreq | LFUCache/LFUCache.cc:85-114 | the node moves to the front of the next frequency, its own list goes if empty, all nodes stay linked and disjoint, and the lists change as a hit |
| LfuHeap.AddFreqNew | LFUCache/LFUCache.cc:85-114 | a new node goes to the front of frequency 1, whose list is created when missing |
| LfuHeap.Del | LFUCache/LFUCache.cc:161-170 | an empty list leaves the outer list and its nodes are freed |
| LfuLayout.AddListOk | LFUCache/LFUCache.h:52-60 | a list put between two neighbours' frequencies keeps the order ascending, the chains disjoint and the lists shown |
| LfuLayout.DropListOk | LFUCache/LFUCache.h:52-60 | so does dropping an empty list |
| LfuLayout.LinkOk | LFUCache/LFUCache.h:52-60 | so does linking a loose node into a chain |
| LfuLayout.UnlinkOk | LFUCache/LFUCache.h:52-60 | so does taking a node out of its chain |
| LfuHeap.StepsAreHit | LFUCache/LFUCache.cc:85-114 | creating the next list, moving the entry and dropping its old list add up to a hit |
| LfuCache.MappedKeys | LFUCache/LFUCache.h:67-68 | when the maps agree with the structure, every key is in the lists once, and the maps have exactly the keys of the lists |
| LfuCache.RefiledMapped | LFUCache/LFUCache.cc:104-104 | after a hit the maps agree again, fmap pointing to the entry's new list |
| LfuCache.EvictAgrees | LFUCache/LFUCache.cc:141-142 | so they do after an eviction, one key less in both |
| LfuCache.InsertAgrees | LFUCache/LFUCache.cc:156-158 | so they do after an insertion, the key in both |
| LfuCache.EvictStep | LFUCache/LFUCache.cc:137-149 | the victim leaves its list, both maps and the heap, and its list goes with it when left empty |
| LfuCache.InsertStep | LFUCache/LFUCache.cc:150-158 | the new entry is in front of frequency 1 and in both maps |
| LfuCache.LFUCache.constructor | LFUCache/LFUCache.cc:59-79 | a new cache is empty; a capacity becomes a size_t |
| LfuCache.LFUCache.Get | LFUCache/LFUCache.cc:117-130 | hits exactly when the reference cache holds the key, and then appends its value to val; otherwise val and the cache stay |
| LfuCache.LFUCache.Set | LFUCache/LFUCache.cc:132-159 | the structure is that of the history with this call; capacity 0 is inert |
| LfuCache.LFUCache.Destroy | LFUCache/LFUCache.cc:63-71 | every node is freed, each exactly once |
| LfuCache.GetOrSet | HttpConnection/HttpConnection.cc:459-463 | the callers' pattern with no other call in between: it meets the precondition of set, answers the value of the reference cache or else the value loaded, and is in the history |
| AsyncLogSpec.RunKeeps | LogSystem/AsyncLogging.cc:24-113 | the invariant holds after every interleaving of producers, stop and the backend |
| AsyncLogSpec.NeverCrashes | LogSystem/AsyncLogging.cc:66-109 | no backend assertion fails and no empty vector is popped; all buffers held are distinct; next is null only while something is queued; two buffers at most are left after the resize |
| AsyncLogSpec.FileIsPrefix | LogSystem/AsyncLogging.cc:65-113 | while no batch exceeds 25 buffers, file, unwritten batch, queued buffers and current buffer are exactly the accepted lines in lock order, which are those offered, so the file is a prefix of them |
| AsyncLogSpec.UnwrittenIsInHand | LogSystem/AsyncLogging.cc:91-93 | what is left to write is what the buffers of the batch still hold |
| AsyncLogSpec.FileIsSubsequence | LogSystem/AsyncLogging.cc:86-93 | in every run the file has whole accepted lines in the order accepted |
| AsyncLogSpec.FileIsWhatIsKept | LogSystem/AsyncLogging.cc:86-93 | only buffers from the third on of batches over 25 are lost; at most 25 of a batch are written |
| AsyncLogSpec.AcceptedIffFits | LogSystem/AsyncLogging.cc:24-40 | a line is accepted, whole, if and only if its length is at least 0 and less than 4000000 |
| AsyncLogSpec.AcceptedAreOffered | LogSystem/AsyncLogging.cc:24-40 | in every run the lines accepted are exactly those the calls of append offer, in lock order, that fit a buffer |
| AsyncLogSpec.TurnsWhenFull | LogSystem/AsyncLogging.cc:24-40 | append queues the current buffer if and only if the line does not fit it, and then takes the next buffer, or a new one |
| AsyncLogSpec.AppendSparesBatch | LogSystem/AsyncLogging.cc:91-93 | no append changes a buffer the backend is writing |
| AsyncLogSpec.EverythingIsWritten | LogSystem/AsyncLogging.cc:65-113 | progress: between start and stop, from wherever it is, the backend comes by its own steps to its loop test with nothing in front of it, and with no batch cut the file has exactly the lines offered |
| AsyncLogSpec.EndsOnlyAfterStop | LogSystem/AsyncLogging.cc:42-65 | in every run the loop has ended only if stop was called, and running_ is set if and only if start was called and stop was not |
| AsyncLogSpec.CallsAnyTime | LogSystem/AsyncLogging.cc:24-52 | in every state append may come next, and, once start has returned, stop |
| AsyncLogSpec.StopEndsLoop | LogSystem/AsyncLogging.cc:48-113 | after stop the backend comes by its own steps to the end of its loop |
| AsyncLogSpec.StopFlushes | LogSystem/AsyncLogging.cc:48-113 | for every run, stop and every way the backend then ends, no append in between: nothing is left in front of the backend, and with no batch cut the file has exactly the accepted lines, if and only if at the stop the backend was waiting for its swap or nothing was in front of it |
| AsyncLogSpec.StopMayKeepLines | LogSystem/AsyncLogging.cc:48-65 | the other case happens: a run in which stop leaves an accepted line unwritten |
| AsyncLog.AsyncLogging.Append | LogSystem/AsyncLogging.cc:24-40 | append on the shared buffers is the step of the transition system; the current buffer is queued if and only if the line does not fit it |
| AsyncLog.AsyncLogging.Start | LogSystem/AsyncLogging.cc:42-46 | start is its step: running, the thread begun |
| AsyncLog.AsyncLogging.Enter | LogSystem/AsyncLogging.cc:54-64 | the head of the thread is its step: its assertion holds in every valid state, and the two spare buffers are new and empty |
| AsyncLog.AsyncLogging.Stop | LogSystem/AsyncLogging.cc:48-52 | stop is its step, possible once the thread is past that assertion |
| AsyncLog.AsyncLogging.Test | LogSystem/AsyncLogging.cc:65-68 | the loop test goes on to the swap while running and ends the loop otherwise, and the assertions behind it hold |
| AsyncLog.AsyncLogging.Swap | LogSystem/AsyncLogging.cc:70-82 | the exchange under the lock is its step: the batch is what was queued and the current buffer, the queue is empty and the first spare is current |
| AsyncLog.AsyncLogging.Trim | LogSystem/AsyncLogging.cc:86-90 | a batch over 25 is cut to its first two buffers, any other is left as it is |
| AsyncLog.AsyncLogging.Write | LogSystem/AsyncLogging.cc:91-93 | the contents of the next buffer go to the output |
| AsyncLog.AsyncLogging.DoWriteOne | LogSystem/AsyncLogging.cc:91-93 | the output grows by the contents of the buffer, byte by byte the lines of the state's file |
| AsyncLog.AsyncLogging.Resize | LogSystem/AsyncLogging.cc:95-97 | the first two buffers of the batch are kept |
| AsyncLog.AsyncLogging.Recycle1 | LogSystem/AsyncLogging.cc:98-103 | the last buffer of the batch, emptied, is the first spare again |
| AsyncLog.AsyncLogging.Recycle2 | LogSystem/AsyncLogging.cc:104-109 | and the next one the second spare, if that is missing |
| AsyncLog.AsyncLogging.Clear | LogSystem/AsyncLogging.cc:110-110 | the batch is empty again |
| AsyncLog.AsyncLogging.OutputIsPrefix | LogSystem/AsyncLogging.cc:65-113 | while no batch was cut, the bytes written are a prefix of the bytes accepted |
| FixedBuffers.FixedBuffer.Append | LogSystem/LogStream.h:16-21 | takes all characters or none, and never the last free one |
| FixedBuffers.FixedBuffer.Add | LogSystem/LogStream.h:29-29 | the contents grow by what was written in place |
| MemoryPoolSpec.PadOk | MemoryPool/MemoryPool.cc:26-29 | the padding, in 64-bit wrap-around arithmetic, is less than a slot and a multiple of 8 |
| MemoryPoolSpec.PadAligns | MemoryPool/MemoryPool.cc:26-29 | it aligns to the slot size if and only if nothing wraps around or the slot size divides 2^64 |
| MemoryPoolSpec.SlotsAlignedToSize | MemoryPool/MemoryPool.cc:32-67 | in every run, where the slot size divides 2^64, every slot is a multiple of it |
| MemoryPoolSpec.AllocateOk | MemoryPool/MemoryPool.cc:32-83 | allocation keeps blocks, slots and both threaded lists in order |
| MemoryPoolSpec.FreeOk | MemoryPool/MemoryPool.cc:85-91 | so does freeing a live slot |
| MemoryPoolSpec.FreeThenAllocate | MemoryPool/MemoryPool.cc:70-91 | freeing and allocating gives the same slot back and restores the pool |
| MemoryPoolSpec.IndexOk | MemoryPool/MemoryPool.cc:99-121 | for every size from 1 to 512 the pool's slots are the size rounded up to a multiple of 8 |
| MemoryPoolSpec.UseOk | MemoryPool/MemoryPool.cc:106-112 | useMemory keeps all 64 pools in order and apart from each other |
| MemoryPoolSpec.UseAnswers | MemoryPool/MemoryPool.cc:106-112 | the answer is null for size 0, operator new's block above 512, and else a slot of the pool of that size which was not live; then the live slots of that pool are those before and the answer, no other pool changes, and the new block is taken only if it is needed |
| MemoryPoolSpec.FreeMemoryOk | MemoryPool/MemoryPool.cc:114-121 | so does freeMemory of a live slot with its own size |
| MemoryPoolSpec.FreeReleases | MemoryPool/MemoryPool.cc:114-121 | null, and sizes above 512, leave the pools alone; else the slot given back, and no other, is live no longer and first on the free list |
| MemoryPoolSpec.ClientWriteOk | MemoryPool/MemoryPool.h:7-9 | so does any write inside a live slot |
| MemoryPoolSpec.LiveSlotsApart | MemoryPool/MemoryPool.cc:32-91 | in every run, each live slot lies inside one block past its header, is 8-byte aligned, and is disjoint from every other live slot of any pool |
| MemoryPoolSpec.LiveIsHeld | MemoryPool/MemoryPool.cc:106-121 | in every run the live slots are exactly the answers of useMemory not yet given back |
| MemoryPoolSpec.LiveApartFromFree | MemoryPool/MemoryPool.cc:32-91 | and from every free slot and every tail still to be carved, of any pool |
| MemoryPoolSpec.FreeListsAreStacks | MemoryPool/MemoryPool.cc:70-91 | in every run, whatever clients write, each free list is threaded over exactly the slots freed and not reused, last freed first, without repetition, and ends in null |
| MemoryPoolSpec.ReuseIsLifo | MemoryPool/MemoryPool.cc:70-83 | a pool with freed slots answers with the one freed last |
| MemoryPool.MemoryPool.PadPointer | MemoryPool/MemoryPool.cc:26-29 | computes the padding |
| MemoryPool.MemoryPool.AllocateBlock | MemoryPool/MemoryPool.cc:32-55 | the cursors, links and slot of a new block |
| MemoryPool.MemoryPool.NoFreeSolve | MemoryPool/MemoryPool.cc:58-67 | carves, or takes a new block when the tail is used up |
| MemoryPool.MemoryPool.Allocate | MemoryPool/MemoryPool.cc:70-83 | hands out a slot that was not live, and keeps the pool in order |
| MemoryPool.MemoryPool.DeAllocate | MemoryPool/MemoryPool.cc:85-91 | puts the slot in front of the free list; null is ignored |
| MemoryPool.MemoryPool.Destroy | MemoryPool/MemoryPool.cc:6-14 | gives back every block, each once, following the links in memory |
| MemoryPool.MemoryPools.constructor | MemoryPool/MemoryPool.cc:99-103 | 64 pools of 8, 16, ..., 512 bytes |
| MemoryPool.MemoryPools.UseMemory | MemoryPool/MemoryPool.cc:106-112 | 0 gives null and more than 512 operator new's block, with nothing changed; else a slot of the pool of the size that was not live, which is live now with those before |
| MemoryPool.MemoryPools.FreeMemory | MemoryPool/MemoryPool.cc:114-121 | gives the slot back to the pool of the size: it is live no longer and handed out next; null and sizes above 512 change nothing |
| EventLoopSpec.RunKeeps | Reactor/EventLoop.cc:39-130 | the invariant holds after every interleaving of the loop thread and the others |
| EventLoopSpec.PendingIsAwaited | Reactor/EventLoop.cc:72-100 | at poll with functors pending, the eventfd counter is positive or another thread is about to write it, unless the loop's own thread queued one outside its loop |
| EventLoopSpec.SelfQueueIsAwaited | Reactor/EventLoop.cc:39-80 | a functor queued by the loop's own thread, with the eventfd at 0 and no other thread active: when the thread comes to poll next, it has been taken or the eventfd is readable if and only if the thread was in its loop or the flag still set |
| EventLoopSpec.EarlyPushSleeps | Reactor/EventLoop.cc:72-80 | a run in which the loop polls, unawakened, with a functor its own thread had queued before |
| EventLoopSpec.QuitIsAwaited | Reactor/EventLoop.cc:55-61 | a quit from another thread has its wake-up done or under way when the loop is at poll |
| EventLoopSpec.QuitEndsLoop | Reactor/EventLoop.cc:39-57 | in every run the loop test leaves the loop if and only if quit was called, by any thread, since loop() was entered |
| EventLoopSpec.CallsAnyTime | Reactor/EventLoop.cc:55-80 | in every state any other thread may queue a functor or quit, and in every callback the loop's own |
| EventLoopSpec.LoopReturns | Reactor/EventLoop.cc:39-57 | progress: when quit was called, the loop thread comes by its own steps, and polls that return, out of loop() |
| EventLoopSpec.CalledInOrder | Reactor/EventLoop.cc:109-121 | functors called, rest of the batch and pending ones are exactly those queued, in order: each is called at most once, first in first out |
| EventLoopSpec.SwappedAreCalled | Reactor/EventLoop.cc:109-121 | everything pending at a swap has been called when the loop tests quit again |
| EventLoopSpec.PolledAreCalled | Reactor/EventLoop.cc:43-121 | in every run everything queued when poll returned has been called when the loop tests quit again |
| EventLoopSpec.PolledGetCalled | Reactor/EventLoop.cc:43-121 | progress: from poll's return the loop thread comes by its own steps to that test, with exactly the functors queued by then called |
| EventLoopSpec.FlagSticks | Reactor/EventLoop.cc:109-130 | on every run, outside doPendingFunctors callingPendingFunctors_ is set if and only if the last swap found nothing pending |
| EventLoop.EventLoop.QueuePush | Reactor/EventLoop.cc:72-76 | the critical section of queueInLoop is the step of the transition system |
| EventLoop.EventLoop.QueueWake | Reactor/EventLoop.cc:77-80 | the rest of queueInLoop is its step |
| EventLoop.EventLoop.RunInLoop | Reactor/EventLoop.cc:63-70 | in the loop thread nothing is queued, elsewhere a push |
| EventLoop.EventLoop.Quit | Reactor/EventLoop.cc:55-57 | quit_ is set, whichever thread calls |
| EventLoop.EventLoop.EnterLoop | Reactor/EventLoop.cc:39-42 | entering the loop is its step, and forgets an earlier quit |
| EventLoop.EventLoop.TestQuit | Reactor/EventLoop.cc:43-43 | the loop test is its step: the loop goes on, looping_ still set, if and only if quit_ is not set |
| EventLoop.EventLoop.ReadEventFd | Reactor/EventLoop.cc:102-108 | reading the eventfd is its step |
| EventLoop.EventLoop.SwapPending | Reactor/EventLoop.cc:113-116 | the exchange under the lock is its step |
| EventLoop.EventLoop.NextFunctor | Reactor/EventLoop.cc:118-127 | one turn of the loop over the batch, or its end, is its step |
| EventLoopSpec.CounterCountsWakeups | Reactor/EventLoop.cc:90-108 | on every run, the eventfd counter is the number of wake-ups since it was last read, up to its largest value |
| PollerSpec.RunKeeps | Reactor/EpollPoller.cc:54-100 | after every sequence of calls on channels with distinct descriptors, no epoll_ctl was illegal, the kernel holds exactly the added channels, each with its current mask, and channels_ exactly those not new |
| PollerSpec.UpdateKeeps | Reactor/EpollPoller.cc:54-74 | one update keeps this, for any mask |
| PollerSpec.RemoveKeeps | Reactor/EpollPoller.cc:76-84 | one removal keeps this |
| PollerSpec.RemoveForgets | Reactor/EpollPoller.cc:76-84 | after a removal the channel is in neither table, is new, and keeps its mask |
| PollerSpec.OthersStay | Reactor/EpollPoller.cc:54-100 | no call changes another channel in any table |
| PollerSpec.TablesAreHistory | Reactor/EpollPoller.cc:54-100 | after every sequence of calls a channel is in channels_ if and only if some call other than remove came since its last remove, and in the kernel if and only if the calls since then leave it there: each takes it out when it was in and the mask is empty, and puts it in otherwise |
| PollerSpec.DeletedWhenEmpty | Reactor/EpollPoller.cc:54-74 | after an enable or disable a channel is in the kernel if and only if it was not before or its mask is not empty |
| PollerSpec.DisableKeepsClose | Reactor/Channel.cc:4-7 | disabling reads or writes never empties a mask with the close events, and takes the one-shot flag both share |
| PollerSpec.MaskIsWanted | Reactor/Channel.h:27-31 | after every sequence of calls a channel's mask, and the kernel's when it is there, has reading and writing as last asked, the close events since the first enabling after a disableAll, and the one-shot flag if the last of these calls was an enabling |
| EpollPoller.EpollPoller.UpdateChannel | Reactor/EpollPoller.cc:54-74 | adds only what is absent, changes and deletes only what is present |
| EpollPoller.EpollPoller.RemoveChannel | Reactor/EpollPoller.cc:76-84 | the channel is in neither table and new again |
| EpollPoller.EpollPoller.SetMask | Reactor/Channel.h:27-31 | an enable or disable call as a whole keeps both tables exact |
| EpollPoller.EpollPoller.HasChannel | Reactor/Poller.cc:3-6 | for any channel: true exactly when it is of this poller and not new |
| Decimal.TextParses | LogSystem/LogStream.cc:6-23 | the text of an integer is canonical, without leading zeros, and reads back as the integer |
| Decimal.ParseTexts | LogSystem/LogStream.cc:6-23 | every canonical text is the text of its value |
| Decimal.TextLength | LogSystem/LogStream.h:82-82 | an integer of up to 64 bits takes at most 20 characters |
| Decimal.TableEntry | LogSystem/LogStream.cc:3-15 | the symmetric table gives the right digit for truncated remainders of either sign |
| LogStream.ReverseRange | LogSystem/LogStream.cc:21-21 | reverses the range in place and nothing else |
| LogStream.PutDigits | LogSystem/LogStream.cc:8-15 | the loop writes the digits, last one first |
| LogStream.Convert | LogSystem/LogStream.cc:6-23 | writes the decimal text with a NUL behind it, at most 20 characters, and touches nothing else, also for the least signed value |
| LogStream.RenderFits | LogSystem/LogStream.h:16-29 | every run of integer and text output stays inside the buffer with at least one byte free |
| LogStream.EmitMeans | LogSystem/LogStream.cc:25-31 | a number adds, where 32 characters are free, a canonical text that reads back as the number, and otherwise nothing; a text is added whole if it is shorter than what is free, and otherwise nothing is |
| LogStream.LogStream.FormatInteger | LogSystem/LogStream.cc:25-31 | adds a canonical decimal text that reads back as the value if 32 characters are free, and nothing otherwise |
| LogStream.LogStream.Append | LogSystem/LogStream.h:62-74 | appends the text whole or not at all |
| BufferSpec.AppendOk | Buffer/Buffer.h:37-64 | append works, keeping the contents and adding the data, if and only if makeSpace does not take its second branch |
| BufferSpec.CompactionKeepsWriter | Buffer/Buffer.h:60-64 | in that branch the writer index stays, stale bytes join the contents and no space is made |
| BufferSpec.ReadFdIsAppend | Buffer/Buffer.cc:7-28 | readFd of n bytes is append of them, however they split between tail and spill |
| BufferSpec.RetrieveOk | Buffer/Buffer.h:18-28 | retrieve drops that many bytes, or all |
| BufferSpec.Run | Buffer/Buffer.h:15-64 | on every run that does not take the second branch, bytes retrieved and bytes readable are together the bytes appended, and 8 <= reader <= writer <= size |
| BufferSpec.StepIff | Buffer/Buffer.h:15-64 | and what is left out of these runs is exactly that branch, and input above what one readv can bring |
| BufferSpec.MakeSpaceOk | Buffer/Buffer.h:56-65 | makeSpace makes the space, and keeps the contents, if and only if it does not take its second branch |
| BufferSpec.CompactionReached | Buffer/Buffer.h:18-65 | that branch is reached: in a buffer of any size above 1, filled and read but for one byte |
| Buffer.Buffer.Append | Buffer/Buffer.h:42-46 | the contents grow by the data |
| Buffer.Buffer.Retrieve | Buffer/Buffer.h:18-28 | the contents lose their first bytes |
| Buffer.Buffer.RetrieveAsString | Buffer/Buffer.h:32-36 | gives the bytes from the reader index on, also past the readable ones, and drops those or all |
| Buffer.Buffer.ReadFd | Buffer/Buffer.cc:7-28 | the contents grow by what was read; nothing changes on an error |
| LineSpec.ScanMeans | HttpConnection/HttpConnection.cc:240-272 | a line ends in CR LF, a bare CR or LF is an error and not consumed, a last CR waits, and no other CR or LF is consumed |
| LineSpec.ScanDecided | HttpConnection/HttpConnection.cc:240-272 | a decided line stays decided whatever follows |
| LineSpec.ScanResumes | HttpConnection/HttpConnection.cc:240-272 | an open scan can be resumed where it stopped |
| FeedSpec.ParseIsParsed | HttpConnection/HttpConnection.cc:240-272 | parseLine, on any buffer, answers and consumes as the scan does, unless it starts at an LF with a CR just before the reader index |
| FeedSpec.NeverLooksBack | HttpConnection/HttpConnection.cc:259-267 | on every run of reads, parseLine and resets of the input buffer, that branch is not taken, and parseLine is the scan of what can be read |
| FeedSpec.FeedIsScan | HttpConnection/HttpConnection.cc:240-272 | however the input is split: appending each chunk and calling parseLine after it gives the status and offset of one scan of it all, and what is not consumed of the chunks taken is still to be read |
| FeedSpec.CompactsAfterOpen | Buffer/Buffer.h:37-65 | behind an open parseLine an append takes makeSpace's second branch if and only if a CR waits and the space behind it is too small, but not together with that in front |
| FeedSpec.FeedFits | HttpConnection/HttpConnection.cc:55-66 | so feeding goes through when nothing waits at first and no chunk but the last ends in CR |
| FeedSpec.SplitCrLfCompacts | HttpConnection/HttpConnection.cc:55-66 | and may not otherwise: a line that fills the buffer up to its CR, its LF coming with the next chunk |
| Buffer.ParseLine | HttpConnection/HttpConnection.cc:240-272 | the loop over the buffer answers and consumes as the scan does, but for that case, and leaves no CR among the bytes consumed |
| Buffer.ReadAndParse | HttpConnection/HttpConnection.cc:55-66 | a read, then parseLine: status and bytes consumed are those of the scan of what was there and what came |

## Left out

- LfuHeap.KeyNode: key and value are given when the node is allocated and constant after, while the code assigns them right after allocation; the frequency does not overflow.
- EventLoopSpec.PendingIsAwaited: does not cover functors the loop's own thread queues outside its loop, because these are not awaited (`EarlyPushSleeps`).
- Buffer.Buffer.Append: asks that makeSpace does not take its second branch, because there the C++ copy runs past the end of the vector.
- FeedSpec.FeedIsScan: for feeds in which no append takes makeSpace's second branch, where the C++ copy runs past the end of the vector; `CompactsAfterOpen` says when that is. It speaks of status and offset: the bytes of a line once consumed are not kept, the next read may overwrite them.
- Buffer.Buffer.RetrieveAsString: asks that the bytes asked for lie inside the vector, past which the C++ read is undefined.
- LfuCache.GetOrSet: one caller at a time; what other connections may do between its get and its set is in `MissMaySet` and `TwoMisses`.
- MemoryPool.MemoryPool.Allocate: the block that operator new would give is a parameter, new and 8-byte aligned; allocation failure and concurrent calls are not modelled.
- AsyncLogSpec.RunKeeps: mutexes are atomic steps; wake-up latency, thread creation and LogFile's own input and output are not modelled, and appending to the file writes all bytes.
- EpollPoller.Epoll.Control: the kernel does not fail on legal calls; one-shot re-arming, epoll_wait and the dispatch of events to callbacks are not modelled.
- Floating-point output in LogStream, which calls snprintf.
- Buffer::writeFd and vappend, which are foreign calls; writeFd advances the writer index on a write.
- HttpConnection other than parseLine: C strings into shared buffers, files, mmap and SQL.
- SqlConnectionPool, Timer, EventLoopThreadPool, Thread, CountDownLatch, Acceptor, Socket, Timestamp, Logger: operating system calls or small wrappers.
