# Verified models of the chat server and its reactor library

The repository is a small clustered chat server on top of the muduo reactor library, whose examples
ship with it. This project models the stateful components in which something can go wrong across
several calls or several threads, and proves what each of them promises, over all inputs, all runs
and all interleavings.

Code that works in place is imperative here too: classes with the source's fields, arrays for the
node table and the byte buffer, loops with invariants. Each method is proved against a pure step
function, and the properties of whole runs are lemmas about those functions. Threads are modelled as
atomic steps (a lock section, an access to a shared flag or counter, a local stretch of one thread)
in arbitrary interleavings. The kernel, the clock and the allocator appear as parameters of steps:
what a write took, which thread a notification woke, where a new timer was put.

| files | component |
|---|---|
| `DancingLinks.dfy`, `ExactCover.dfy`, `DancingSearch.dfy` | dancing links on an array of nodes; cover and uncover; the search decides the exact cover problem |
| `SudokuRules.dfy`, `SudokuCover.dfy`, `TableGrowth.dfy`, `BoardMatrix.dfy`, `Sudoku.dfy` | Sudoku as exact cover, the construction of the table from a board, the whole solver |
| `AsyncLogging.dfy` | the asynchronous logger |
| `TimerQueue.dfy` | the timer queue |
| `EventLoop.dfy` | the queue of pending functors of the event loop |
| `ChatCluster.dfy` | login, logout, routing and offline messages in a cluster of chat servers |
| `ByteBuffer.dfy`, `TcpConnection.dfy` | the byte buffer, and the output path of a connection that uses it |
| `Pollers.dfy` | the poll and the epoll poller |
| `Multiplexer.dfy` | packet framing, multiplexer and demultiplexer |
| `Calendar.dfy` | Julian day numbers and UTC time |
| `Memcache.dfy` | the store of the memcached example and the arrival of a value |
| `BoundedQueue.dfy` | the bounded blocking queue |
| `SudokuStatistics.dfy` | the sliding window statistics of the Sudoku server |
| `Options.dfy`, `Division.dfy` | shared definitions and facts |

Properties that the code does not have without a condition are stated with the exact condition, and
with a run that reaches the failure:

- A run of the chat cluster keeps its registry right throughout exactly when every logout is handled
  by the server that maps the user, unless the user is offline, and every connection that ends
  carries at most one user (`RightThroughoutIff`, `StrayLogoutReachable`,
  `SharedConnectionReachable`).
- The demultiplexer loses the bytes of a client exactly when that client sent some and its end was
  handled before its onward connection was up, and then it loses all of them (`NothingLostIff`,
  `EarlyEndLosesBytes`).
- Cancelling a live timer keeps it out of the index for good exactly when its insertion is not still
  queued (`CancelWorksIff`, `EarlyCancelReachable`). Even then it may still run: once, by the end of
  the batch in progress, exactly when it stands there behind the callback that cancels it, and
  otherwise never again (`CancelledRuns`, `CancelledRunsIff`, `StillRunsReachable`).
- A functor may wait for the poll timeout exactly when the loop thread queued one before it entered
  the loop (`AttendedIffNothingEarly`).
- The negated entries of the poll array are, after every step of a run, those without interest
  exactly when no channel is registered without interest in that run (`QuietThroughoutIff`,
  `SilentRegistrationShows`).
- The statistics window is exact after every response of a sequence exactly when the first response
  is not in second 0 of 1970 and, whenever the newest second of the window is 0, the next response is
  in second 0 or 1 (`ExactThroughoutIff`, `JumpFromSecondZero`).
- Putters and takers of the bounded queue never sleep at the same time with nobody signalled, exactly
  when its capacity is not 0 (`NeverBothAsleepIff`).
- A connection accepts every byte offered while connected exactly when no direct write of some bytes
  finds it broken (`OneByteStream`).
- The day of the week is negative on most days before number -1, which is where UTC times stop
  ticking like a clock (`WeekDayInRangeIff`, `UtcTicksIff`); the day of the year is off by one in the
  year -4800 (`YearDayIff`); the date formula needs more than an int outside `FitsIff`.

## Model

| member | source | states |
|---|---|---|
| DancingLinks.RelinkUndoesUnlink | thirdparty/muduo-master/examples/sudoku/sudoku.cc:231-239 | the three statements of uncover undo those of cover on any node whose neighbours point at it, link for link and size for size |
| DancingLinks.RelinkHeaderUndoesUnlinkHeader | thirdparty/muduo-master/examples/sudoku/sudoku.cc:240-241 | the same for a column header |
| DancingLinks.BypassShortensRing | thirdparty/muduo-master/examples/sudoku/sudoku.cc:218-227 | bypassing a member of a ring leaves exactly the ring without it, in both directions of traversal |
| ExactCover.RowChoiceIff | thirdparty/muduo-master/examples/sudoku/sudoku.cc:116-122 | a set that holds an untouched row covers the open columns exactly when the rest covers what the row leaves |
| ExactCover.BranchComplete | thirdparty/muduo-master/examples/sudoku/sudoku.cc:116-132 | the open columns can be covered exactly when some row of any one open column leads to a cover, so trying only the rows of the chosen column loses nothing |
| ExactCover.SizeIsRingLength | thirdparty/muduo-master/examples/sudoku/sudoku.cc:201-227 | in every state of the search the size of every column, open or covered, is the length of its ring, which holds exactly the nodes alive when it was covered |
| DancingSearch.SudokuSolver.Cover | thirdparty/muduo-master/examples/sudoku/sudoku.cc:218-229 | the in-place loops compute the covered table, with the invariant that every ring is the original one without the covered columns' rows |
| DancingSearch.SudokuSolver.Uncover | thirdparty/muduo-master/examples/sudoku/sudoku.cc:231-242 | uncover restores the whole table as it was before cover, in every nesting |
| DancingSearch.SudokuSolver.CoverOthers | thirdparty/muduo-master/examples/sudoku/sudoku.cc:118-122 | going right along a row covers its other columns one inside the other |
| DancingSearch.SudokuSolver.UncoverOthers | thirdparty/muduo-master/examples/sudoku/sudoku.cc:126-129 | going left along the row restores the whole table |
| DancingSearch.SudokuSolver.GetMinColumn | thirdparty/muduo-master/examples/sudoku/sudoku.cc:201-216 | the first column of least size, or of size at most one, among the columns still in the header ring |
| DancingSearch.SudokuSolver.Solve | thirdparty/muduo-master/examples/sudoku/sudoku.cc:95-133 | true exactly when the open columns can be covered, then with a cover on the stack and written to the board; on false all links, sizes, the stack and the board are as before; terminates because the header ring shrinks |
| DancingSearch.SudokuSolver.CellAndValue | thirdparty/muduo-master/examples/sudoku/sudoku.cc:98-112 | from any node of a row the loop finds the row's cell and value |
| SudokuRules.DistinctIffFull | thirdparty/muduo-master/examples/sudoku/sudoku.cc:63-72 | on a full board no unit repeats a digit exactly when every unit has every digit, which is what the columns demand |
| SudokuRules.NamesMeaning | thirdparty/muduo-master/examples/sudoku/sudoku.cc:186-199 | a column name stands for exactly one cell or one digit in one unit |
| SudokuCover.CompletionGivesCover | thirdparty/muduo-master/examples/sudoku/sudoku.cc:57-92 | a completion of the board makes the columns coverable |
| SudokuCover.CoverGivesCompletion | thirdparty/muduo-master/examples/sudoku/sudoku.cc:97-114 | the board written from a cover is a completion that keeps every given |
| TableGrowth.AddColumnGrown | thirdparty/muduo-master/examples/sudoku/sudoku.cc:144-165 | appending a column keeps the table well formed |
| TableGrowth.AddRowGrown | thirdparty/muduo-master/examples/sudoku/sudoku.cc:82-88 | linking four new nodes into a row keeps the table well formed |
| TableGrowth.GrownIsInv | thirdparty/muduo-master/examples/sudoku/sudoku.cc:33-93 | a table built this way satisfies the invariant the search starts from |
| Sudoku.MarkGivens | thirdparty/muduo-master/examples/sudoku/sudoku.cc:43-55 | the three tables mark exactly the digits given in each row, column and box |
| Sudoku.TableBuilder.AppendUnits | thirdparty/muduo-master/examples/sudoku/sudoku.cc:63-72 | after the loops there is a column for exactly the digits that each unit lacks |
| Sudoku.TableBuilder.AppendRows | thirdparty/muduo-master/examples/sudoku/sudoku.cc:74-92 | the finished table represents the board as an exact cover problem, within the node table's size |
| Sudoku.SolveBoard | thirdparty/muduo-master/examples/sudoku/sudoku.cc:33-133 | for every board of digits: true exactly when the givens have a completion; the board then is one, and is unchanged otherwise |
| Sudoku.SolveSudoku | thirdparty/muduo-master/examples/sudoku/sudoku.cc:263-291 | a puzzle string of digits with a completion yields one, every other one NoSolution |
| AsyncLogging.RunsKeepInv | thirdparty/muduo-master/muduo/base/AsyncLogging.cc:34-135 | the invariant across both threads holds in every interleaving |
| AsyncLogging.LogIsFifo | thirdparty/muduo-master/muduo/base/AsyncLogging.cc:34-135 | at every moment of every interleaving the file and the unwritten rest of the batch are the kept part of all batches, and batches, waiting buffers and current buffer hold all accepted lines in order; only oversized batches lose anything |
| AsyncLogging.StopAndTake | thirdparty/muduo-master/muduo/base/AsyncLogging.cc:69-88 | a thread past its test when the logger is stopped still takes every accepted line |
| AsyncLogging.StopAndLeave | thirdparty/muduo-master/muduo/base/AsyncLogging.cc:69-69 | a thread before its test leaves them in the buffers, and no continuation ever writes anything |
| AsyncLogging.RoomKeepsBuffers | thirdparty/muduo-master/muduo/base/AsyncLogging.cc:37-53 | a line with room joins the current buffer, any other hands the buffer over |
| AsyncLogging.WaitingNeedsText | thirdparty/muduo-master/muduo/base/AsyncLogging.cc:34-56 | n waiting buffers take n / 2 buffers' worth of text since the last lock section, and with less than one buffer's worth there are none |
| AsyncLogging.NeverFloodedLosesNothing | thirdparty/muduo-master/muduo/base/AsyncLogging.cc:34-135 | a run that never appends 12.5 buffers' worth of text between two lock sections loses nothing |
| AsyncLogging.RoundWrites | thirdparty/muduo-master/muduo/base/AsyncLogging.cc:69-133 | one round of a logger that was not stopped takes every accepted line and writes all that the size limit leaves |
| AsyncLogging.SparesNeverMissing | thirdparty/muduo-master/muduo/base/AsyncLogging.cc:71-129 | every assertion about spare buffers and about batches long enough to refill them holds in every interleaving |
| AsyncLogging.Logger.AppendLine | thirdparty/muduo-master/muduo/base/AsyncLogging.cc:34-56 | an append is the appender's step and keeps the invariant |
| AsyncLogging.Logger.TestRunning | thirdparty/muduo-master/muduo/base/AsyncLogging.cc:69-69 | the loop test, apart from the lock section |
| AsyncLogging.Logger.TakeBatch | thirdparty/muduo-master/muduo/base/AsyncLogging.cc:71-90 | the lock section takes all waiting buffers and leaves spares behind, also when the logger was stopped since the test |
| AsyncLogging.Logger.TrimBatch | thirdparty/muduo-master/muduo/base/AsyncLogging.cc:92-101 | batches of more than 25 buffers are cut to two, with a notice |
| AsyncLogging.Logger.WriteBatch | thirdparty/muduo-master/muduo/base/AsyncLogging.cc:103-107 | the file receives the batch, buffer by buffer |
| AsyncLogging.Logger.RecycleBuffers | thirdparty/muduo-master/muduo/base/AsyncLogging.cc:109-131 | both spares are full again and the batch never runs short |
| TimerQueue.QueueServed | thirdparty/muduo-master/muduo/net/TimerQueue.cc:132-259 | in every run both indexes hold the same timers under their current expirations, and outside handleRead the descriptor has fired or is armed no later than every timer |
| TimerQueue.FreedOnce | thirdparty/muduo-master/muduo/net/TimerQueue.cc:143-233 | every timer ever made is live under exactly one owner (index, running batch, queued insertion) or was freed, and that once |
| TimerQueue.BatchIsDue | thirdparty/muduo-master/muduo/net/TimerQueue.cc:183-202 | the batch is exactly the entries due, in order, and leaves exactly the others |
| TimerQueue.BatchSettled | thirdparty/muduo-master/muduo/net/TimerQueue.cc:204-222 | after reset every timer of the batch is freed, or, if it repeats and was not cancelled, indexed under the batch's time plus its interval, cut down by less than a microsecond |
| TimerQueue.AddTimeRight | thirdparty/muduo-master/muduo/base/Timestamp.h:115-119 | whole seconds are added exactly, and less than a microsecond is cut off a fraction |
| TimerQueue.NotDueEarly | thirdparty/muduo-master/muduo/net/Timer.cc:16-26 | a repeating timer of n seconds is not due again before n seconds have passed, and with exactly n seconds right then |
| TimerQueue.CreatedAsAsked | thirdparty/muduo-master/muduo/net/TimerQueue.cc:116-141 | a new timer is indexed under the expiration, interval and number it was given, and no other timer changes |
| TimerQueue.ArmedForEarliest | thirdparty/muduo-master/muduo/net/TimerQueue.cc:132-141 | the descriptor is set only when the earliest expiration changes or a batch ends, and then to the earliest expiration |
| TimerQueue.MarksAreCancels | thirdparty/muduo-master/muduo/net/TimerQueue.cc:171-172 | only cancellations made during a batch are marked in it |
| TimerQueue.CancelledNeverReturns | thirdparty/muduo-master/muduo/net/TimerQueue.cc:143-233 | a timer cancelled while indexed or by a callback of its batch never is indexed again, in any continuation |
| TimerQueue.StaleCancelHarmless | thirdparty/muduo-master/muduo/net/TimerQueue.cc:143-161 | cancelling a freed timer's id changes nothing about any timer, now or later, even if its address is reused |
| TimerQueue.EarlyCancelIsLost | thirdparty/muduo-master/muduo/net/TimerQueue.cc:116-161 | a cancellation that runs before the queued insertion of its timer does not prevent it |
| TimerQueue.CancelWorksIff | thirdparty/muduo-master/muduo/net/TimerQueue.cc:116-161 | cancelling a live timer keeps it out of the index in every continuation exactly when its insertion is not still queued |
| TimerQueue.EarlyCancelReachable | thirdparty/muduo-master/muduo/net/TimerQueue.cc:116-130 | right after a timer is created its cancellation is lost |
| TimerQueue.CancelledRuns | thirdparty/muduo-master/muduo/net/TimerQueue.cc:143-181 | in every continuation a live timer that is cancelled while indexed or in the batch runs at most once more, and has run exactly once more when no batch is in progress if it stood in the batch behind the canceller, else never |
| TimerQueue.CancelledRunsIff | thirdparty/muduo-master/muduo/net/TimerQueue.cc:143-181 | such a timer never runs again in any continuation exactly when it does not stand in the running batch behind the canceller |
| TimerQueue.StillRunsReachable | thirdparty/muduo-master/muduo/net/TimerQueue.cc:163-181 | a run in which a callback cancels the next timer of its batch, which then runs |
| TimerQueue.Queue.AddTimer | thirdparty/muduo-master/muduo/net/TimerQueue.cc:116-124 | a new timer waits for its insertion under a new sequence number |
| TimerQueue.Queue.AddTimerInLoop | thirdparty/muduo-master/muduo/net/TimerQueue.cc:132-141 | the timer enters both indexes and the descriptor is armed if it became the earliest |
| TimerQueue.Queue.InsertTimer | thirdparty/muduo-master/muduo/net/TimerQueue.cc:235-259 | both sets gain the timer; tells whether the earliest expiration changed |
| TimerQueue.Queue.CancelInLoop | thirdparty/muduo-master/muduo/net/TimerQueue.cc:143-161 | the three cases of cancellation, with equal index sizes afterwards |
| TimerQueue.Queue.GetExpired | thirdparty/muduo-master/muduo/net/TimerQueue.cc:183-202 | takes the due entries out of both indexes |
| TimerQueue.Queue.HandleReadBegin | thirdparty/muduo-master/muduo/net/TimerQueue.cc:163-172 | handleRead up to its callbacks keeps the invariant |
| TimerQueue.Queue.RunCallback | thirdparty/muduo-master/muduo/net/TimerQueue.cc:174-177 | a callback is called on a timer that is still in memory, and keeps the invariant |
| TimerQueue.Queue.Reset | thirdparty/muduo-master/muduo/net/TimerQueue.cc:204-233 | the loop over the batch computes the end of handleRead |
| EventLoop.AttendedIffNothingEarly | thirdparty/muduo-master/muduo/net/EventLoop.cc:103-171 | no interleaving leaves a functor or a quit waiting in a blocked poll without a readable counter or a thread about to write it, exactly when the loop thread queued nothing before the loop |
| EventLoop.AttendedAfterFirstRound | thirdparty/muduo-master/muduo/net/EventLoop.cc:103-134 | otherwise the first round restores the guarantee and has run the early functors |
| EventLoop.FunctorsInOrder | thirdparty/muduo-master/muduo/net/EventLoop.cc:160-269 | executed functors, the rest of the batch and the pending ones are always all queued ones in order |
| EventLoop.RoundRunsWaiting | thirdparty/muduo-master/muduo/net/EventLoop.cc:254-269 | whatever else happens, a finished round has run everything that waited before it |
| EventLoop.WakeUpSuffices | thirdparty/muduo-master/muduo/net/EventLoop.cc:103-134 | from every reachable blocked poll with functors waiting or a quit requested, the owed write and one round run all of them, use up the wake-up and end the loop if asked, without the timeout; in the first round after an early functor, if a wake-up is there or owed |
| EventLoop.RoundRunsAll | thirdparty/muduo-master/muduo/net/EventLoop.cc:112-131 | a round runs everything that waits, whether the wake-up, another channel or the timeout began it |
| EventLoop.TimeoutSuffices | thirdparty/muduo-master/muduo/net/EventLoop.cc:112-131 | from every reachable blocked poll the timeout alone brings every waiting functor to run |
| EventLoop.AsAsked | thirdparty/muduo-master/muduo/net/EventLoop.cc:136-171 | the loop is told to quit exactly by the quits of the run, stops only then, and holds exactly the functors queued in it |
| EventLoop.Loop.QueueInLoop | thirdparty/muduo-master/muduo/net/EventLoop.cc:160-171 | queueing from a callback writes the counter exactly while functors are being called |
| EventLoop.Loop.QueueFromOutside | thirdparty/muduo-master/muduo/net/EventLoop.cc:160-171 | the lock section of another thread keeps order and wake-up invariant |
| EventLoop.Loop.QuitFromOutside | thirdparty/muduo-master/muduo/net/EventLoop.cc:136-146 | a quit by another thread owes a wake-up |
| EventLoop.Loop.Wakeup | thirdparty/muduo-master/muduo/net/EventLoop.cc:234-242 | pays the owed wake-up |
| EventLoop.Loop.HandleRead | thirdparty/muduo-master/muduo/net/EventLoop.cc:244-252 | drains the counter |
| EventLoop.Loop.Continue | thirdparty/muduo-master/muduo/net/EventLoop.cc:112-112 | poll is entered only with nothing pending or a wake-up on its way |
| EventLoop.Loop.SwapPending | thirdparty/muduo-master/muduo/net/EventLoop.cc:259-262 | the batch is everything pending |
| EventLoop.Loop.CallNext | thirdparty/muduo-master/muduo/net/EventLoop.cc:264-267 | functors of the batch run one by one |
| ChatCluster.RunsKeepInv | src/server/message_handler.cpp:62-261 | in every run of a cluster of any size whose logouts and logins are polite the registry is right, messages are conserved, and connections get only their users' messages |
| ChatCluster.RightThroughoutIff | src/server/message_handler.cpp:62-261 | for every run at all, the registry is right after every step exactly when every logout and every end of a connection meets its guard |
| ChatCluster.StrayLogoutReachable | src/server/message_handler.cpp:144-162 | a polite run reaches a logout that leaves a user mapped but offline |
| ChatCluster.SharedConnectionReachable | src/server/message_handler.cpp:245-261 | a run reaches the end of a connection that leaves a user mapped to nothing |
| ChatCluster.OnlineIffMappedOnce | src/server/message_handler.cpp:62-162 | a user is online in the table exactly when one server maps it, and that server alone subscribes its channel |
| ChatCluster.LogoutKeepsRegistryIff | src/server/message_handler.cpp:144-162 | a logout keeps the registry right exactly when its server maps the user or the user is not online |
| ChatCluster.LoginKeepsRegistry | src/server/message_handler.cpp:62-118 | every login keeps the registry right |
| ChatCluster.LoginAcceptedIff | src/server/message_handler.cpp:67-77 | who may log in: a registered, offline user with the right password, or whoever gives id -1 and an empty password |
| ChatCluster.LoginKeepsOneUserIff | src/server/message_handler.cpp:62-118 | a login keeps one user per connection exactly when it is refused, maps nothing new, or the connection carries no user |
| ChatCluster.CloseKeepsRegistryIff | src/server/message_handler.cpp:245-261 | the end of a connection keeps the registry right exactly when it carried at most one user |
| ChatCluster.PublishOnce | src/server/message_handler.cpp:176-180 | publishing to an online user reaches exactly one queue, that of the server that maps the user |
| ChatCluster.StepConserves | src/server/message_handler.cpp:62-261 | every handler keeps each issued message in exactly one place: written, in flight or stored |
| ChatCluster.StepSendsRight | src/server/message_handler.cpp:62-261 | whatever is written to a connection is for a user it logged in as |
| ChatCluster.MessagePlace | src/server/message_handler.cpp:164-184 | a direct message goes at once to the recipient's connection on the sender's server, else to the one other server that maps an online recipient, else to the store, and nowhere besides |
| ChatCluster.BrokerMessagePlace | src/server/message_handler.cpp:235-243 | a published message is written if the recipient is still mapped and stored otherwise |
| ChatCluster.OfflineMessageArrives | src/server/message_handler.cpp:96-101 | a message to an offline user stays stored whatever happens until that user's next accepted login, which writes it |
| ChatCluster.RegisteredCanLogin | src/server/message_handler.cpp:120-142 | a new user can log in with the registered password and no other |
| ChatCluster.LoginDoes | src/server/message_handler.cpp:78-86 | an accepted login maps, subscribes and marks online that user alone |
| ChatCluster.CrossServerDelivery | src/server/message_handler.cpp:164-243 | a message to a user on another server is written to that user's connection once the broker has delivered what it holds |
| ChatCluster.RowsSplit | src/server/model/offline_message_dao.cpp:16-42 | a user's rows and the others make up the offline table |
| ChatCluster.Cluster.HandlerRegister | src/server/message_handler.cpp:120-142 | a registration adds a new offline row or none |
| ChatCluster.Cluster.HandlerLogin | src/server/message_handler.cpp:62-118 | error code, offline messages and new state, and exactly when the invariant survives |
| ChatCluster.Cluster.HandlerLogout | src/server/message_handler.cpp:144-162 | the logout step, and exactly when the invariant survives |
| ChatCluster.Cluster.HandlerDirectChat | src/server/message_handler.cpp:164-184 | local delivery, publication or storage, keeping the invariant |
| ChatCluster.Cluster.HandlerRedisSubscribeMessage | src/server/message_handler.cpp:235-243 | delivery or storage of a published message, keeping the invariant |
| ChatCluster.Cluster.ClientCloseException | src/server/message_handler.cpp:245-261 | the search and clean-up at the end of a connection, keeping the invariant |
| ByteBuffer.ReadBack | thirdparty/muduo-master/muduo/net/Buffer.h:224-322 | every integer that fits is read back from its big-endian bytes |
| ByteBuffer.WriteBack | thirdparty/muduo-master/muduo/net/Buffer.h:224-322 | all bytes are the big-endian form of the integer they are read as |
| ByteBuffer.ByteAt | thirdparty/muduo-master/muduo/net/Buffer.h:224-249 | the most significant byte comes first: each byte is worth 256 to the number of bytes behind it |
| ByteBuffer.Buffer.MakeSpace | thirdparty/muduo-master/muduo/net/Buffer.h:390-409 | both ways to make room keep the contents, also with an overlapping copy, and the assertion before the copy holds |
| ByteBuffer.Buffer.EnsureWritableBytes | thirdparty/muduo-master/muduo/net/Buffer.h:194-201 | room is made without changing the contents |
| ByteBuffer.Buffer.Append | thirdparty/muduo-master/muduo/net/Buffer.h:182-187 | the contents grow by the data at the end |
| ByteBuffer.Buffer.Prepend | thirdparty/muduo-master/muduo/net/Buffer.h:354-360 | the contents grow by the data at the front |
| ByteBuffer.Buffer.Retrieve | thirdparty/muduo-master/muduo/net/Buffer.h:113-124 | the contents lose their first bytes |
| ByteBuffer.Buffer.RetrieveAsString | thirdparty/muduo-master/muduo/net/Buffer.h:164-170 | what is returned followed by what remains is what was there |
| ByteBuffer.Buffer.Unwrite | thirdparty/muduo-master/muduo/net/Buffer.h:215-219 | the contents lose their last bytes |
| ByteBuffer.Buffer.Shrink | thirdparty/muduo-master/muduo/net/Buffer.h:362-369 | new storage with the same contents and the reserve |
| ByteBuffer.Buffer.ReadFd | thirdparty/muduo-master/muduo/net/Buffer.cc:25-57 | whatever the scattered read delivered is appended in order, over both areas |
| ByteBuffer.Buffer.ReadInt | thirdparty/muduo-master/muduo/net/Buffer.h:254-322 | reads the one integer whose big-endian bytes were in front, and removes them |
| ByteBuffer.Buffer.FindCRLF | thirdparty/muduo-master/muduo/net/Buffer.h:80-94 | the first line end from a position on, or none |
| TcpConnection.OneByteStream | thirdparty/muduo-master/muduo/net/TcpConnection.cc:139-213 | in every run bytes written followed by buffered bytes are the accepted sends, which are all bytes offered while connected exactly if no direct write of some bytes found the connection broken; write interest, half-close and states are consistent |
| TcpConnection.SilentAfterShutdown | thirdparty/muduo-master/muduo/net/TcpConnection.cc:194-213 | the half-close comes once, with everything written, and nothing is written or accepted after it |
| TcpConnection.CallbacksRight | thirdparty/muduo-master/muduo/net/TcpConnection.cc:155-191 | write-complete is queued exactly when the last accepted byte goes out, high-water exactly when the mark is crossed |
| TcpConnection.WireOnlyGrows | thirdparty/muduo-master/muduo/net/TcpConnection.cc:139-213 | what is written or accepted is never taken back |
| TcpConnection.WireIsWhatKernelTook | thirdparty/muduo-master/muduo/net/TcpConnection.cc:151-170 | in every run the wire holds exactly as many bytes as the kernel said it took, by direct and by deferred writes |
| TcpConnection.OfferedIsSent | thirdparty/muduo-master/muduo/net/TcpConnection.cc:92-110 | the offered bytes are exactly the messages sent while connected, and the states follow from what was asked |
| TcpConnection.PartialWritesDrain | thirdparty/muduo-master/muduo/net/TcpConnection.cc:368-406 | partial writes move exactly the bytes taken; when they add up the buffer is drained, write interest dropped and a deferred half-close done |
| TcpConnection.Connection.SendMessage | thirdparty/muduo-master/muduo/net/TcpConnection.cc:139-192 | sendInLoop over the byte buffer is the send step |
| TcpConnection.Connection.HandleWritable | thirdparty/muduo-master/muduo/net/TcpConnection.cc:368-406 | handleWrite is the write step, with the deferred half-close |
| TcpConnection.Connection.ShutdownConnection | thirdparty/muduo-master/muduo/net/TcpConnection.cc:194-213 | half-close at once or when drained |
| TcpConnection.Connection.ForceCloseConnection | thirdparty/muduo-master/muduo/net/TcpConnection.cc:239-247 | asks for a close in the loop |
| TcpConnection.Connection.HandlePeerClose | thirdparty/muduo-master/muduo/net/TcpConnection.cc:408-421 | disconnects and drops all interest |
| Pollers.BothRefine | thirdparty/muduo-master/muduo/net/poller/EPollPoller.cc:107-192 | over every sequence of updates, removals and waits both pollers know exactly the interests asked for, and every epoll call adds an absent or changes a present descriptor |
| Pollers.BothWatchWanted | thirdparty/muduo-master/muduo/net/poller/PollPoller.cc:75-140 | in runs in which every channel asks for something when it is registered both kernels watch exactly the wanted descriptors for the wanted events |
| Pollers.QuietThroughoutIff | thirdparty/muduo-master/muduo/net/poller/PollPoller.cc:75-140 | exactly the entries without interest are negated after every step of a run if and only if the run is of that kind |
| Pollers.UpdateKeepsQuietIff | thirdparty/muduo-master/muduo/net/poller/PollPoller.cc:75-110 | exactly the entries without interest are negated, unless a channel is registered without interest |
| Pollers.SilentRegistrationShows | thirdparty/muduo-master/muduo/net/poller/PollPoller.cc:79-90 | such a channel is watched, and the check made at its removal fails |
| Pollers.PollRemoveIndexed | thirdparty/muduo-master/muduo/net/poller/PollPoller.cc:124-139 | the swap at a removal keeps every channel's index at its own entry |
| Pollers.UpdateClearsEvents | thirdparty/muduo-master/muduo/net/poller/PollPoller.cc:79-109 | an update leaves no returned events at the entry and changes no other |
| Pollers.PollPoller.UpdateChannel | thirdparty/muduo-master/muduo/net/poller/PollPoller.cc:75-110 | registers or changes an entry in place |
| Pollers.PollPoller.RemoveChannel | thirdparty/muduo-master/muduo/net/poller/PollPoller.cc:112-140 | removes an entry by swapping; all assertions hold |
| Pollers.PollPoller.Poll | thirdparty/muduo-master/muduo/net/poller/PollPoller.cc:29-53 | after the kernel's answer exactly the channels with events are returned and told, and indexes, interests and negations are as before |
| Pollers.PollPoller.FillActiveChannels | thirdparty/muduo-master/muduo/net/poller/PollPoller.cc:55-73 | despite the early stop exactly the channels with events are returned, in order, and told their events |
| Pollers.EPollPoller.UpdateChannel | thirdparty/muduo-master/muduo/net/poller/EPollPoller.cc:107-149 | the state machine of new, added and deleted channels, with legal calls |
| Pollers.EPollPoller.RemoveChannel | thirdparty/muduo-master/muduo/net/poller/EPollPoller.cc:151-170 | forgets the channel and deletes it from the kernel's set if it is there |
| Multiplexer.ParseInPieces | thirdparty/muduo-master/examples/multiplexer/demux.cc:79-115 | parsing does not depend on how the stream is cut |
| Multiplexer.AnyChunking | thirdparty/muduo-master/examples/multiplexer/demux.cc:79-115 | encoded messages are received as sent, in whatever chunks they arrive |
| Multiplexer.PacketLayout | thirdparty/muduo-master/examples/multiplexer/multiplexer_simple.cc:142-157 | length byte, low and high byte of the id, payload |
| Multiplexer.SplitCarries | thirdparty/muduo-master/examples/multiplexer/multiplexer_simple.cc:127-140 | the packets of a client's data carry exactly the data |
| Multiplexer.CommandRead | thirdparty/muduo-master/examples/multiplexer/demux.cc:117-123 | the demultiplexer reads from a command the id and direction the multiplexer wrote |
| Multiplexer.StreamsArrive | thirdparty/muduo-master/examples/multiplexer/demux.cc:79-166 | in every run each onward connection has a prefix of its client's bytes, and all of them once it is up and the wire is empty; what is missing is pending or under way unless the entry was dropped |
| Multiplexer.EverythingArrives | thirdparty/muduo-master/examples/multiplexer/demux.cc:79-166 | from every reachable state, once the wire has arrived and the onward connection is up, it has received exactly what its client sent |
| Multiplexer.LifeIsRight | thirdparty/muduo-master/examples/multiplexer/multiplexer_simple.cc:50-125 | what is recorded as sent and the ids in use follow from the clients' steps alone |
| Multiplexer.ComesUp | thirdparty/muduo-master/examples/multiplexer/demux.cc:155-166 | an onward connection that comes up receives what was pending, and no other changes |
| Multiplexer.EmptyPacketWaits | thirdparty/muduo-master/examples/multiplexer/demux.cc:81-90 | a packet without payload is taken only when a byte follows it |
| Multiplexer.NothingLostIff | thirdparty/muduo-master/examples/multiplexer/demux.cc:79-166 | in every run nothing a client sent is lost exactly when its end was never handled before its onward connection was up, or it sent nothing; otherwise everything is |
| Multiplexer.DroppedByMessageIff | thirdparty/muduo-master/examples/multiplexer/demux.cc:142-152 | one message drops an entry exactly when it is the end of a client whose onward connection is not up |
| Multiplexer.EarlyEndLosesBytes | thirdparty/muduo-master/examples/multiplexer/demux.cc:142-152 | a run that loses a byte |
| Multiplexer.ChecksNeverFail | thirdparty/muduo-master/examples/multiplexer/demux.cc:94-145 | no assertion of the demultiplexer fails in any run |
| Multiplexer.ReusableIffDropped | thirdparty/muduo-master/examples/multiplexer/demux.cc:126-152 | an id can be announced again exactly when its entry was dropped |
| Multiplexer.MultiplexServer.SendBackendBuffer | thirdparty/muduo-master/examples/multiplexer/multiplexer_simple.cc:127-140 | the splitting loop sends exactly the packets of the split data |
| Multiplexer.MultiplexServer.SendBackendPacket | thirdparty/muduo-master/examples/multiplexer/multiplexer_simple.cc:142-157 | length, low and high id byte, payload |
| Multiplexer.DemuxServer.OnServerMessage | thirdparty/muduo-master/examples/multiplexer/demux.cc:79-115 | the parsing loop handles exactly the whole packets and keeps the rest |
| Multiplexer.DemuxServer.DoCommand | thirdparty/muduo-master/examples/multiplexer/demux.cc:117-153 | announces or ends a connection; its checks hold |
| Multiplexer.DemuxServer.OnSocksConnection | thirdparty/muduo-master/examples/multiplexer/demux.cc:155-166 | flushes what was pending |
| Calendar.NumberCountsDays | thirdparty/muduo-master/muduo/base/Date.cc:20-27 | the formula counts the days of the Gregorian calendar one by one from 1 March -4800 |
| Calendar.FormulasInverse | thirdparty/muduo-master/muduo/base/Date.cc:29-42 | from that day on the second formula is the day-by-day calendar and inverts the first |
| Calendar.EveryDateReached | thirdparty/muduo-master/muduo/base/Date.cc:20-42 | every valid date from that day on is found again from its number |
| Calendar.ValidIffCovered | thirdparty/muduo-master/muduo/base/Date.cc:29-42 | the second formula gives a valid date exactly from that day on |
| Calendar.FitsIff | thirdparty/muduo-master/muduo/base/Date.cc:29-42 | for every number, no intermediate value of the second formula exceeds an int exactly while its first product does not |
| Calendar.WeekDaysFollow | thirdparty/muduo-master/muduo/base/Date.h:95-99 | days of the week follow each other from number -1 on |
| Calendar.WeekDayInRangeIff | thirdparty/muduo-master/muduo/base/Date.h:95-99 | the day of the week is in its documented range exactly from number -1 on and on every seventh day before |
| Calendar.UtcBack | thirdparty/muduo-master/muduo/base/TimeZone.cc:322-363 | time fields are always in range; the date is valid exactly from the first covered instant on, and from then the instant is found again |
| Calendar.UtcForth | thirdparty/muduo-master/muduo/base/TimeZone.cc:322-363 | every valid date and time of day is found again from its instant |
| Calendar.UtcTicksIff | thirdparty/muduo-master/muduo/base/TimeZone.cc:322-348 | from the first covered instant on the conversion ticks second by second through the day-by-day calendar exactly except at the midnights after which the day of the week is negative |
| Calendar.YearDayIff | thirdparty/muduo-master/muduo/base/TimeZone.cc:342-346 | the day of the year counts from 1 January exactly after the year -4800 |
| Calendar.FillHMS | thirdparty/muduo-master/muduo/base/TimeZone.cc:76-82 | hours, minutes and seconds in range that add up |
| Calendar.ToUtcTime | thirdparty/muduo-master/muduo/base/TimeZone.cc:322-348 | the conversion despite truncating division, and when it can be undone |
| Memcache.HistoriesRight | thirdparty/muduo-master/examples/memcached/server/MemcacheServer.cc:44-155 | in every history live tokens are positive, distinct and at most the counter, and a swap is accepted exactly on the untouched item that issued its token |
| Memcache.CasIffUntouched | thirdparty/muduo-master/examples/memcached/server/MemcacheServer.cc:119-131 | a swap is accepted exactly when the store that issued its token was to this key and nothing happened to the key since |
| Memcache.CasOnce | thirdparty/muduo-master/examples/memcached/server/MemcacheServer.cc:119-131 | no continuation ever accepts a swap with a used token, whatever the key |
| Memcache.IncomingValue | thirdparty/muduo-master/examples/memcached/server/MemcacheServer.cc:88-118 | appending and prepending join the bodies in order and keep one line end |
| Memcache.ReadAfterStore | thirdparty/muduo-master/examples/memcached/server/MemcacheServer.cc:44-147 | what a read returns after a store under each policy, for its key and for every other |
| Memcache.ReadAfterDelete | thirdparty/muduo-master/examples/memcached/server/MemcacheServer.cc:149-155 | a deleted key is gone, can be added and not replaced, extended or swapped; nothing else changes |
| Memcache.PresentIff | thirdparty/muduo-master/examples/memcached/server/MemcacheServer.cc:44-155 | in every history a key is present exactly when an accepted store of it is not followed by its deletion |
| Memcache.AcceptedIff | thirdparty/muduo-master/examples/memcached/server/MemcacheServer.cc:52-118 | which stores are accepted, in terms of that history |
| Memcache.MemcacheServer.StoreItem | thirdparty/muduo-master/examples/memcached/server/MemcacheServer.cc:44-138 | the shards together are one map under every policy; acceptance and existence as reported |
| Memcache.MemcacheServer.GetItem | thirdparty/muduo-master/examples/memcached/server/MemcacheServer.cc:140-147 | looks the key up in the one map |
| Memcache.MemcacheServer.DeleteItem | thirdparty/muduo-master/examples/memcached/server/MemcacheServer.cc:149-155 | the key is gone from the one map, every other key keeps its item, and reports whether it was there |
| Memcache.Session.ReceiveValue | thirdparty/muduo-master/examples/memcached/server/Session.cc:136-181 | however the value is cut into pieces, the item is stored when its last byte is there with exactly the announced bytes, the rest stays in the buffer, and what each reply says about the store |
| BoundedQueue.RunsKeepInv | thirdparty/muduo-master/muduo/base/BoundedBlockingQueue.h:30-66 | in every interleaving with spurious wake-ups and overtaking the queue is first-in first-out, within its capacity, and no wake-up is lost |
| BoundedQueue.PutOutcome | thirdparty/muduo-master/muduo/base/BoundedBlockingQueue.h:30-40 | a put puts its item at the end, or sleeps with it exactly if there is no room |
| BoundedQueue.TakeOutcome | thirdparty/muduo-master/muduo/base/BoundedBlockingQueue.h:54-66 | a take takes the oldest item, or sleeps exactly if there is none |
| BoundedQueue.ResumeOutcome | thirdparty/muduo-master/muduo/base/BoundedBlockingQueue.h:30-66 | a woken thread comes to the same, a putter with the item of its call |
| BoundedQueue.WaitersStay | thirdparty/muduo-master/muduo/base/BoundedBlockingQueue.h:30-66 | until it resumes a waiting thread stays inside its call, with its item |
| BoundedQueue.SleeperHasHelper | thirdparty/muduo-master/muduo/base/BoundedBlockingQueue.h:54-66 | while a taker sleeps and items wait, a signalled taker can take the oldest |
| BoundedQueue.SleepingPutterHasHelper | thirdparty/muduo-master/muduo/base/BoundedBlockingQueue.h:30-40 | while a putter sleeps and there is room, a signalled putter can put its item |
| BoundedQueue.NeverBothAsleepIff | thirdparty/muduo-master/muduo/base/BoundedBlockingQueue.h:30-66 | no interleaving leaves takers and putters both asleep with nobody signalled, exactly when the capacity is not 0 |
| BoundedQueue.BoundedBlockingQueue.PutOrWait | thirdparty/muduo-master/muduo/base/BoundedBlockingQueue.h:30-40 | a call of put up to its return or its wait |
| BoundedQueue.BoundedBlockingQueue.TakeOrWait | thirdparty/muduo-master/muduo/base/BoundedBlockingQueue.h:54-66 | a call of take up to its return or its wait |
| BoundedQueue.BoundedBlockingQueue.PutAgain | thirdparty/muduo-master/muduo/base/BoundedBlockingQueue.h:33-39 | a woken putter tests again |
| BoundedQueue.BoundedBlockingQueue.TakeAgain | thirdparty/muduo-master/muduo/base/BoundedBlockingQueue.h:57-65 | a woken taker tests again |
| SudokuStatistics.RecordShows | thirdparty/muduo-master/examples/sudoku/stat.h:85-160 | whichever way the clock jumps, every second of the window shows exactly the history's responses for it, and the window never starts earlier |
| SudokuStatistics.RecordShowsIff | thirdparty/muduo-master/examples/sudoku/stat.h:101-159 | a response is counted and an exact window stays exact exactly when, for an empty window, it is not in second 0, and when the newest second of the window is 0, it is in second 0 or 1 |
| SudokuStatistics.RecordReach | thirdparty/muduo-master/examples/sudoku/stat.h:101-159 | how far the window reaches after each jump of the clock: as far back as before up to 60 seconds, or only to the new second after 60 or more |
| SudokuStatistics.ExactThroughoutIff | thirdparty/muduo-master/examples/sudoku/stat.h:85-160 | for every sequence of responses, each is counted and leaves the window exact exactly when each meets that condition |
| SudokuStatistics.JumpFromSecondZero | thirdparty/muduo-master/examples/sudoku/stat.h:108-115 | a run after which two counts stand under wrong seconds |
| SudokuStatistics.NeverZeroIsExact | thirdparty/muduo-master/examples/sudoku/stat.h:85-160 | after any sequence of responses none of which is in second 0 the window is exact |
| SudokuStatistics.WindowTotal | thirdparty/muduo-master/examples/sudoku/stat.h:40-59 | the reported totals count exactly the responses from the window's start on and add up their latencies |
| SudokuStatistics.SudokuStat.RecordResponse | thirdparty/muduo-master/examples/sudoku/stat.h:85-160 | window, totals and history after a response, good or bad, in any second for which the code is defined, and exactly when the window stays exact |
| SudokuStatistics.SudokuStat.UpdateWindow | thirdparty/muduo-master/examples/sudoku/stat.h:101-159 | the cases of the clock compute the new window |
| SudokuStatistics.SudokuStat.Reset | thirdparty/muduo-master/examples/sudoku/stat.h:68-83 | forgets the history |

## Left out

- The Sudoku solver is two classes here, one that builds the table and one that searches it; in the source the constructor and solve() belong to one class. Nodes are indexes into the node array instead of pointers.
- AsyncLogging: file rolling, flushing and the text of the notice, and the timed wait, which changes nothing. A logger that is stopped before its thread tests the flag leaves lines in the buffers, in the source and in the model.
- TimerQueue: a callback is modelled by its call and the additions and cancellations that follow; the 100 microsecond minimum of the relative arming time is not, an arming is the absolute expiration asked for. The sorted sets are sequences. The clock is positive.
- EventLoop: the overflow of the 64-bit wake-up counter, and quit() before loop(), which the source itself marks as a defect.
- HandlerLogin: the friend list of the reply, which no other state depends on.
- ChatCluster: group chat and friends, JSON and SQL text, failures of the database or the broker, SIGINT; subscribing and unsubscribing are synchronous; every handler is atomic. Logins with id -1 and an empty password match the default entity; the model follows the code there, and the registry theorem speaks of registered users.
- HandlePeerClose: read interest and the close callbacks.
- TcpConnection: calls from other threads, the read side except the buffer it fills, delays, and the connection callbacks.
- ByteBuffer: the capacity of the underlying vector as opposed to its size, and the four integer widths as separate methods; one method takes the width.
- Pollers: the events array of epoll_wait and its growth, and the kernel's own reporting of errors on descriptors without interest; channels are not reused after their removal.
- Multiplexer: the way back to the clients, which runs the same loop; onward connections that go down; the list of available ids: any id below 65536 may be used, each once, where the source hands out ten and reuses them.
- Calendar: local time zones and their files; integers are unbounded, and FitsIff says where an int is too narrow for the second formula.
- StartValue: a negative announced length, which the command parser accepts and the item's assertion then rejects.
- Memcache: command parsing, item memory, discarded values, noreply, expiry, and 64-bit or int overflow of tokens and lengths.
- BoundedQueue: the queries empty, full and size.
- SudokuStatistics: the counters of requests, which are only incremented; a first response in second 0, for which the source has no last element to count in.
- Connector, HTTP, RPC, the codecs and the small examples are not part of this model.
