# Verified models of UtilityEngine and its bundled MySQL++ code

Dafny models of the parts of the repository whose correctness is least visible from one function
body, with proofs of what they promise. Code that changes objects in place is a class here, with one
method per function (or per lock-protected section); each method is proved equal to a specification
function or to one step of a step machine, and the theorems are about those.

| files | what they model |
|---|---|
| `ThreadPool`, `ThreadPoolMonitor` | the monitor of `com_thread_pool.hpp`: FIFO queue, three states, two counters updated outside the lock, `safe_stop`, the worker loop, shutdown |
| `Balance`, `BalanceDispatcher`, `BalanceDiscipline` | `dispatcher_balance`: sticky worker indices over one-thread pools, `dispatch` as four interleaved steps; which callers it is safe for |
| `Session`, `SessionObject` | `session_iface` and `controler_wrap`: closing, re-posting, and the compkey that discards stale work |
| `Md5Rounds`, `Md5Spec`, `Md5`, `Md5Words`, `Md5Example` | the streaming MD5 context, its unrolled rounds, the digest of RFC 1321, what its word operations do, and one digest of its test suite |
| `BatchInsert`, `InsertPolicy`, `StatementText`, `BatchDatabase`, `BatchInsertObject` | `insertfrom`/`replacefrom`, the transaction guard, the three insert policies, a reader of the SQL text, and what the database keeps of any number of calls |
| `TemplateParse`, `TemplateRender`, `TemplateQuery` | the template scanner, the renderer that rewrites its defaults in place, the query object |
| `RefCounted`, `RefCountedPointer` | reference-counted handles |
| `ConnectionPool`, `ConnectionPoolObject` | the most-recently-used connection pool |
| `Options` | the optional value some of them use |
| `TrailingSpace`, `NumericDigit` | the eight-byte trailing-space scan, the mask-halving highest/lowest bit |

In the step machines every section under a mutex and every atomic operation outside one is a single
step, any number of callers and workers interleave in any order, condition variables may wake
spuriously, and the theorems quantify over all runs. Atomics are taken as sequentially consistent.

Assumptions that come from how the code is called: a scheduled task is never an empty function and
returns; the pool's destructor does not race with `safe_stop`; a session goes back to its pool only
from `do_close`; received data is posted under `m_close_mutex` (as net_session.inl does); `unsigned
long` has 32 bits in MD5; a command the database server refuses has no effect.

## Where the code does not do what its text says

Each is a lemma here, with the exact condition where there is one.

- Balance mode keeps one thread per object only if an object's first dispatch has stored its index
  before a second one begins; two racing first dispatches can be sent to different workers
  (`Balance.RacingDispatchesSplit`, `Balance.PromiseNeedsDiscipline`, `BalanceDiscipline.DisciplineIff`).
  The library's own sessions are such callers (`BalanceDiscipline.OneThreadPerSession`).
- A close task posted after the dispatcher began to stop is refused unnoticed, and the session never goes
  back to its pool; one posted before is delivered, stop or no stop (`Session.CloseIsDelivered`,
  `Session.RefusedCloseIsLost`, and a run of six steps in `Session.RefusedCloseRun`).
- `task_size()` can read 2^64 - 1: a worker may subtract before the caller adds
  (`ThreadPool.TaskSizeCanWrap`).
- `md5::update` never returns, and reads beyond its input, when the index behind the last whole block plus
  64 exceeds 2^32: the guard `i + 63 < length` wraps (`Md5.ReturnsIff`).
- `md5::final` does not leave the context as it was when the message length is 56 to 63 modulo 64,
  so a second digest is of another message (`Md5.Md5.Final`, `Md5.FinalKeepsMessage`, `Md5.FinalLosesMessage`); and
  `c_str` never uses its cached text, since `final` clears the flag through `update`.
- A transaction does not always make a batch a unit (`BatchDatabase.UnitIff`). A START TRANSACTION that
  fails on a connection without exceptions goes unnoticed, and the batch is then stored statement by
  statement (`BatchDatabase.TornBatch`). A COMMIT or ROLLBACK that is refused counts as finished, or its
  failure is swallowed: the rows stored so far stay behind in an open transaction, and the next batch's
  START TRANSACTION makes them durable, half a batch or not (`BatchDatabase.LeftOpen`,
  `BatchDatabase.TornLater`).
- The max-packet and threshold policies cast lengths to `int`: their bounds fail exactly for texts of
  2^31 characters or more (`InsertPolicy.MaxPacketExact`, `InsertPolicy.SizeThresholdExact`), and a row
  whose length modulo 2^32 is 2^31 or more always fits (`InsertPolicy.MaxPacketAnswer`).
- The row-count policy with the largest unsigned int as maximum never refuses a row
  (`InsertPolicy.RowCountRefuses`, `InsertPolicy.RowCountBatches`).
- A template parameter number above 127 does not survive the `signed char`, and an unnamed parameter
  takes in a colon that follows it (or, without an option, a q or Q, and with less than three digits a
  digit) (`TemplateParse.ParseUndoesPrint`).
- A named parameter whose number modulo 256 is 128 or more, such as `%128:x:`, makes the parser write
  outside `parsed_names_` (`TemplateParse.UndefinedIff`, `TemplateParse.NamedBeyond127`).
- A default used with two kinds of option is shown with the first in both places, so falling back on
  defaults that were never rendered is the composite list of `operator+` only if no parameter has two kinds
  (`TemplateRender.CompleteIff`).
- Copying a parameter value clears its processed flag. Defaults that were rendered and then copied, by
  `operator+`, by an assignment or because their list grew, are escaped and quoted a second time
  (`TemplateRender.CopyRequotes`, `TemplateRender.CompositeRequotes`, `TemplateRender.CopyIff`); over values
  rendered before, the composite list agrees only for templates without quoted parameters
  (`TemplateRender.CompleteIff`).
- `assign(T*)` is documented as a no-op for the pointer already managed; it starts a second count and
  destroys the object it goes on pointing to (`RefCounted.RawAssignIff`, `RefCounted.RawSelfAssign`).
- `numeric_digit::min` of zero is the width less two (`NumericDigit.MinIsLowestBit`).

## Model

| member | source | states |
|---|---|---|
| ThreadPool.InvStep | UtilityEngine/include/com_thread_pool.hpp:71-195 | every step of every thread, safe_stop going on before its sentinel's task() has returned included, keeps: accepted jobs are the queue plus what was popped in FIFO order, popped jobs are held or finished once each, both counters are exact modulo 2^64, no wakeup is lost, and the stop sequence is in order |
| ThreadPool.ConservedStep | UtilityEngine/include/com_thread_pool.hpp:140-170 | conservation of jobs alone: nothing is lost, duplicated or popped out of order by any step |
| ThreadPool.NtasksStep | UtilityEngine/include/com_thread_pool.hpp:80-155 | m_ntasks is the queue length plus pops not yet subtracted minus pushes not yet added, modulo the counter width, after every step |
| ThreadPool.WorkingStep | UtilityEngine/include/com_thread_pool.hpp:149-170 | m_working counts the workers holding a task or back at the loop head, after every step |
| ThreadPool.NoLostWakeupStep | UtilityEngine/include/com_thread_pool.hpp:71-195 | while somebody sleeps, each queued job has a pending notify or a worker on its way to the lock |
| ThreadPool.InvRun | UtilityEngine/include/com_thread_pool.hpp:71-195 | the invariant holds after every run |
| ThreadPool.LogIsAccepted | UtilityEngine/include/com_thread_pool.hpp:71-83 | the jobs queued over a run are exactly the tasks schedule accepted, in that order |
| ThreadPool.SafeStopDrains | UtilityEngine/include/com_thread_pool.hpp:110-134 | when safe_stop returns true every task ever accepted has finished exactly once, the queue is empty, all workers have left and m_working is 0 |
| ThreadPool.TaskSizeExact | UtilityEngine/include/com_thread_pool.hpp:136-138 | task_size() is the queue length if and only if the late additions and subtractions cancel; work_size() is exact |
| ThreadPool.TaskSizeCanWrap | UtilityEngine/include/com_thread_pool.hpp:77-81 | a run of one thread after which the queue is empty and task_size() reads 2^64 - 1 |
| ThreadPool.OneThreadIsSerial | UtilityEngine/include/com_thread_pool.hpp:140-170 | a pool of one thread finishes jobs in the order they were queued, at most one in hand |
| ThreadPool.ShutdownDecreases | UtilityEngine/include/com_thread_pool.hpp:110-195 | once shutdown has begun, every step but a spurious wakeup makes progress towards its end |
| ThreadPool.ShutdownNeverStuck | UtilityEngine/include/com_thread_pool.hpp:110-195 | until the call returns some such step is always possible: shutdown cannot deadlock |
| ThreadPool.ShutdownBounded | UtilityEngine/include/com_thread_pool.hpp:110-195 | a shutdown that has not returned has taken a bounded number of steps, whatever the scheduler did |
| ThreadPool.DownTakesNothing | UtilityEngine/include/com_thread_pool.hpp:140-153 | once the pool is down, jobs still queued stay queued in every continuation, and a worker that comes for one leaves |
| ThreadPoolMonitor.ThreadPoolWrap.ScheduleLocked | UtilityEngine/include/com_thread_pool.hpp:71-78 | the locked part of schedule accepts exactly in state start and is then the machine's push |
| ThreadPoolMonitor.ThreadPoolWrap.FinishInit | UtilityEngine/include/com_thread_pool.hpp:177-178 | the end of _init opens the pool, as the machine's first step |
| ThreadPoolMonitor.ThreadPoolWrap.ScheduleCount | UtilityEngine/include/com_thread_pool.hpp:80 | the unlocked addition of schedule is the machine's, modulo 2^64 |
| ThreadPoolMonitor.ThreadPoolWrap.SafeStopCount | UtilityEngine/include/com_thread_pool.hpp:127 | the unlocked addition for the sentinel is the machine's |
| ThreadPoolMonitor.ThreadPoolWrap.GetTaskCount | UtilityEngine/include/com_thread_pool.hpp:155 | the unlocked subtraction of get_task is the machine's |
| ThreadPoolMonitor.ThreadPoolWrap.RunEnter | UtilityEngine/include/com_thread_pool.hpp:161 | a worker entering _run is counted as working |
| ThreadPoolMonitor.ThreadPoolWrap.RunLoop | UtilityEngine/include/com_thread_pool.hpp:164 | a worker at the loop head is no longer counted |
| ThreadPoolMonitor.ThreadPoolWrap.SafeStopLocked | UtilityEngine/include/com_thread_pool.hpp:110-125 | the locked part of safe_stop refuses unless started, and tells an idle pool from one that needs the sentinel |
| ThreadPoolMonitor.ThreadPoolWrap.GetTaskLocked | UtilityEngine/include/com_thread_pool.hpp:140-153 | one turn of get_task under the lock sleeps, leaves or pops the front as the machine's fetch does |
| ThreadPoolMonitor.ThreadPoolWrap.DestroyLocked | UtilityEngine/include/com_thread_pool.hpp:181-188 | only the first _destory switches the pool off |
| Balance.Leftmost | UtilityEngine/src/task_dispatcher_balance.cpp:72-86 | the scan finds a least load, and the leftmost one on a tie |
| Balance.LeftmostUnique | UtilityEngine/src/task_dispatcher_balance.cpp:72-86 | those two properties determine the scan's result |
| Balance.PinnedStep | UtilityEngine/src/task_dispatcher_balance.cpp:55-87 | every step keeps: all tasks of an object ever queued, and all its dispatches under way, agree with its stored index |
| Balance.OneThreadPerObject | UtilityEngine/src/task_dispatcher_balance.cpp:55-87 | in every disciplined run, for any number of workers and left-over indices, no object is handled by two threads at once, its tasks all go to one pool, and they run in the order they were queued |
| Balance.StopDrainsEveryPool | UtilityEngine/src/task_dispatcher_balance.cpp:27-39 | once every worker's safe_stop has returned, every queued task of every object has finished |
| Balance.RacingDispatchesSplit | UtilityEngine/src/task_dispatcher_balance.cpp:57-59 | for any two or more workers a run of two racing first dispatches, choosing on the true loads, in which one object is handled by two threads |
| Balance.PromiseNeedsDiscipline | UtilityEngine/src/task_dispatcher_balance.cpp:57-59 | for arbitrary callers the promise holds if and only if there is at most one worker |
| BalanceDiscipline.SessionsAreDisciplined | UtilityEngine/include/net_session.inl:70-76 | a run whose dispatches for an object are made under its mutex, or by the worker that handles one of its tasks, is disciplined; those are the dispatch sites of a session |
| BalanceDiscipline.OneThreadPerSession | UtilityEngine/src/net_session.cpp:45-58 | so sessions are handled by one thread at a time, in one queue and in order, with nothing assumed of the callers |
| BalanceDiscipline.Serve | UtilityEngine/include/com_thread_pool.hpp:140-170 | from any state of a started one-thread pool, its own steps bring it to hold any job that is queued and not finished |
| BalanceDiscipline.DisciplineIff | UtilityEngine/src/task_dispatcher_balance.cpp:55-61 | in every state a running dispatcher of two workers or more reaches under the discipline, a dispatch is safe whatever disciplined calls follow if and only if it is disciplined; also if those calls choose on the task_size() values of the moment |
| BalanceDispatcher.DispatcherBalance.Start | UtilityEngine/src/task_dispatcher_balance.cpp:42-52 | no effect when running; otherwise the given number of distinct fresh one-thread pools |
| BalanceDispatcher.DispatcherBalance.GetWorker | UtilityEngine/src/task_dispatcher_balance.cpp:64-87 | a valid index is kept; otherwise the answer is a worker with a least task_size(), every one before it having more, and its one-based index |
| BalanceDispatcher.DispatcherBalance.Dispatch | UtilityEngine/src/task_dispatcher_balance.cpp:55-61 | an uninterrupted dispatch keeps a valid index and otherwise makes the least loaded worker stick, and queues the task at that worker and nowhere else |
| Session.InvStep | UtilityEngine/src/net_session.cpp:45-83 | every step keeps the relation between socket state, compkey, queued tasks and the task in hand |
| Session.HandlerIsCurrent | UtilityEngine/include/msg_controler.hpp:68-89 | a handler starts on a message exactly if it is of the connection that is current, although the 32-bit key wraps |
| Session.NoHandlerAfterDoClose | UtilityEngine/include/msg_controler.hpp:68-89 | after do_close has run for a connection no handler starts on a message of it, even one re-posted by a handler that ran during the close |
| Session.BegunInOrder | UtilityEngine/src/task_dispatcher_balance.cpp:55-61 | in every run the tasks begun are those accepted, in the order they were posted, each once, and the others wait in that order |
| Session.OneClosePerConnection | UtilityEngine/src/net_session.cpp:45-58 | exactly one close task is posted per connection: none until its close is through, one ever after |
| Session.ErrorClosesOwnConnection | UtilityEngine/src/net_session.cpp:61-65 | handle_error never closes a later connection of the same session |
| Session.CloseIsDelivered | UtilityEngine/src/net_session.cpp:56-57 | at every step after a close task was posted and before do_close runs, the task is lost if and only if the dispatcher had begun to stop before the post, and otherwise waits in the queue or is being run, whether the dispatcher stops meanwhile or not |
| Session.RefusedCloseIsLost | UtilityEngine/src/task_dispatcher_balance.cpp:55-61 | once the close task is lost do_close never runs for the session and it stays in use, in any continuation |
| Session.RefusedCloseRun | UtilityEngine/src/net_session.cpp:45-58 | a run in which the dispatcher begins to stop while the session is connected, and the close task is lost |
| SessionObject.Closed | UtilityEngine/src/net_session.cpp:45-58 | a winning close leaves the session unconnected, under the next key, with one close task posted behind the queue |
| SessionObject.Errored | UtilityEngine/src/net_session.cpp:61-65 | the worker's two steps of handle_error are one call of it: a close if and only if the key is current and the session connected |
| SessionObject.SessionIface.SetConnected | UtilityEngine/src/net_session.cpp:74-83 | an unused session becomes connected and keeps its key |
| SessionObject.SessionIface.Close | UtilityEngine/src/net_session.cpp:45-58 | close does nothing unless connected and is otherwise the machine's four steps |
| SessionObject.SessionIface.HandleError | UtilityEngine/src/net_session.cpp:61-65 | on any thread, closes if and only if the key is current and the session connected |
| SessionObject.SessionIface.PostRequest | UtilityEngine/include/msg_controler.hpp:48-66 | on any thread, no message posts the close task, a complete one is posted under the given key, an incomplete one dropped, a malformed one an error |
| SessionObject.SessionIface.ProcessRecv | UtilityEngine/include/net_session.inl:70-76 | received data is posted under the current key while connected; malformed data closes the session |
| SessionObject.SessionIface.HandleWrap | UtilityEngine/include/msg_controler.hpp:68-89 | the head task runs do_close, is discarded on a stale key, or is handled and re-posted, as the machine says |
| Md5Rounds.AllRounds | UtilityEngine/src/com_md5.cpp:129-199 | the 64 unrolled lines compute, for every state and block, a 64-step loop driven by the round functions, word-index formulas, shift table and constants of section 3.4 of RFC 1321 |
| Md5Rounds.TRANSFORM | UtilityEngine/src/com_md5.cpp:42-46 | one line is the next step of that loop when its arguments are the step's, whatever the naming of the registers |
| Md5Spec.DecodeEncode | UtilityEngine/src/com_md5.cpp:209-226 | decode undoes encode for every word sequence |
| Md5Words.FChooses | UtilityEngine/src/com_md5.cpp:34 | F takes the bit of y where x has one and that of z elsewhere, for every bit of every word |
| Md5Words.GChooses | UtilityEngine/src/com_md5.cpp:35 | G takes the bit of x where z has one and that of y elsewhere |
| Md5Words.HIsParity | UtilityEngine/src/com_md5.cpp:36 | H is the parity of the three bits |
| Md5Words.IFlips | UtilityEngine/src/com_md5.cpp:37 | I differs from y exactly where x has a bit or z has none |
| Md5Words.RotateNumber | UtilityEngine/src/com_md5.cpp:39-41 | rotation by n of 1 to 31 places is x * 2^n modulo 2^32 plus x / 2^(32 - n) |
| Md5Words.WordNumber | UtilityEngine/src/com_md5.cpp:221-226 | four bytes make the number with the first as lowest |
| Md5Words.LengthWords | UtilityEngine/src/com_md5.cpp:115 | the eight length bytes are the bit count modulo 2^64 in two words, low-order word first |
| Md5Words.HexReads | UtilityEngine/src/com_md5.cpp:228-230 | two hexadecimal digits of the text read as the byte they stand for |
| Md5Example.DigestOfAbc | UtilityEngine/src/com_md5.cpp:105-126 | the digest of abc is 900150983cd24fb0d6963f7d28e17f72, as appendix A.5 of RFC 1321 has it: initial state, tables, rounds, padding and byte order together |
| Md5.CarryIsExact | UtilityEngine/src/com_md5.cpp:73-77 | the two-word addition with its carry test is addition of eight times the chunk length modulo 2^64 |
| Md5.IndexIsRest | UtilityEngine/src/com_md5.cpp:72 | the index taken from the count word is the length modulo 64 |
| Md5.FoldAppend | UtilityEngine/src/com_md5.cpp:83-85 | compressing whole blocks in two goes is compressing their concatenation |
| Md5.Md5.Update | UtilityEngine/src/com_md5.cpp:68-93 | every call that returns takes a context that represents m to one that represents m + input, however the message is cut into calls: chaining state, buffered rest, and bit count |
| Md5.ReturnsIff | UtilityEngine/src/com_md5.cpp:83-85 | a call returns - there is no block loop, or one of its 32-bit guards fails - if and only if the index where the input's last whole block ends is at most 2^32 - 64, which is all that update requires |
| Md5.Md5.Transform | UtilityEngine/src/com_md5.cpp:129-204 | transform in place is the compression function of section 3.4 of RFC 1321 |
| Md5.Md5.EncodeWords | UtilityEngine/src/com_md5.cpp:209-216 | the byte loop is little-endian encoding |
| Md5.Md5.DecodeWords | UtilityEngine/src/com_md5.cpp:221-226 | the word loop is little-endian decoding |
| Md5.Md5.PadOut | UtilityEngine/src/com_md5.cpp:115-120 | the padding and length updates make the context represent the padded message of sections 3.1 and 3.2 of RFC 1321 |
| Md5.Md5.Final | UtilityEngine/src/com_md5.cpp:105-126 | final on a context for m writes the RFC 1321 digest of m and leaves a context for AfterFinal(m), which still represents m if and only if the two are equal |
| Md5.FinalKeepsMessage | UtilityEngine/src/com_md5.cpp:105-126 | AfterFinal(m) is m if and only if the length modulo 64 is below 56 or the rest of m already equals the padding written over it |
| Md5.Md5.StillRepresents | UtilityEngine/src/com_md5.cpp:105-126 | the context final leaves represents m if and only if AfterFinal(m) is m |
| Md5.FinalLosesMessage | UtilityEngine/src/com_md5.cpp:105-126 | a concrete message of 56 bytes: the context final leaves represents 56 zero bytes and no longer the message |
| Md5.Md5.CStr | UtilityEngine/src/com_md5.cpp:228-230 | c_str yields the hexadecimal digest of m and leaves the flag clear, so the cached text is never used |
| BatchInsert.TracksStatements | vs2013/mysql++/include/query.h:1080-1131 | under any policy and any server replies, the statements sent and the buffer make up the rows so far while the loop goes on, and a prefix of them once it has failed |
| BatchInsert.SentIsPrefix | vs2013/mysql++/include/query.h:1068-1141 | the rows of the executed statements, concatenated, are a prefix of the input in order, each once; COMMIT is sent if and only if all of them were stored in a transaction that was not given up; without a transaction nothing but statements is sent |
| BatchInsert.EveryPathEnds | vs2013/mysql++/include/transaction.cpp:89-119 | a transaction opens with START TRANSACTION and its last command is COMMIT or ROLLBACK, ROLLBACK on every path that failed or throws |
| BatchInsert.ThrowsIff | vs2013/mysql++/include/query.h:1068-1141 | a call throws if and only if START TRANSACTION, COMMIT or ROLLBACK fails on a connection that throws, or some row is not stored and the query throws |
| StatementText.TextReads | vs2013/mysql++/include/query.h:1084-1095 | a reader of SQL text that knows nothing of the writer finds in a statement its verb, the table and field list of its first row and the value lists of all its rows in order, for parts that hold no delimiter of their own |
| StatementText.SentReads | vs2013/mysql++/include/query.h:1068-1141 | so for every statement sent in any run, under any policy and replies |
| BatchDatabase.CallLeaves | vs2013/mysql++/include/transaction.cpp:40-119 | what a call leaves of any database, open transactions included: nothing changed after a loud failure of START TRANSACTION, else the effect of its last command on the rows stored, and COMMIT is last only if those are all rows |
| BatchDatabase.StoredAsAUnit | vs2013/mysql++/include/transaction.cpp:89-119 | with START TRANSACTION answered, all rows or none are durable and nothing is open if and only if the last command succeeded; otherwise the rows stored stay pending in an open transaction |
| BatchDatabase.StoredAtOnce | vs2013/mysql++/include/transaction.cpp:40-52 | without a transaction, or when its start fails unnoticed, each successful statement is durable at once |
| BatchDatabase.RefusedCloseStoresLater | vs2013/mysql++/include/transaction.cpp:104-119 | after a refused COMMIT or ROLLBACK the next START TRANSACTION on the connection makes the rows stored durable |
| BatchDatabase.SoundCallsLeave | vs2013/mysql++/include/query.h:1068-1141 | for any sequence of calls on one connection, any policies, verbs and replies: if no START TRANSACTION fails unnoticed and every closing command succeeds, exactly the committed batches are durable, whole and in order, and nothing is open |
| BatchDatabase.UnitIff | vs2013/mysql++/include/transaction.cpp:40-119 | every batch stays whole in every sequence of calls if and only if START TRANSACTION cannot fail or its failure is thrown, and no call's closing command can be refused for good |
| BatchDatabase.TornBatch | vs2013/mysql++/include/transaction.cpp:40-52 | START TRANSACTION fails unnoticed: half a batch is durable |
| BatchDatabase.LeftOpen | vs2013/mysql++/include/transaction.cpp:89-119 | a refused ROLLBACK leaves half a batch in an open transaction, whether the connection throws or not |
| BatchDatabase.TornLater | vs2013/mysql++/include/transaction.cpp:40-52 | and the next batch on the connection makes that half durable |
| InsertPolicy.GoodRun | vs2013/mysql++/include/query.h:1081-1131 | what a policy keeps true of a batch row by row holds of every statement sent, and each statement's text is that of its rows |
| InsertPolicy.CutByRefusal | vs2013/mysql++/include/query.h:1082-1125 | under any policy, of two statements sent in a row the first was cut because the policy refused the row that begins the second |
| InsertPolicy.SizeThresholdCuts | vs2013/mysql++/include/insertpolicy.h:143-147 | a statement is cut only where its length, as the cast sees it, has reached the threshold |
| InsertPolicy.MaxPacketCuts | vs2013/mysql++/include/insertpolicy.h:202-215 | a statement is cut only where the next row would pass the limit, as the casts see it |
| InsertPolicy.MaxPacketExact | vs2013/mysql++/include/insertpolicy.h:202-215 | for any rows, a statement of two or more is at most size_ long if and only if neither its last row nor the text before it reaches 2^31 characters |
| InsertPolicy.MaxPacketBound | vs2013/mysql++/include/insertpolicy.h:202-215 | rows whose own statement is below 2^31 characters keep every statement of two or more at most size_ long |
| InsertPolicy.MaxPacketAnswer | vs2013/mysql++/include/insertpolicy.h:202-215 | for a row of any length: it fits as if it were as long as its length modulo 2^32, and from 2^31 on always |
| InsertPolicy.MaxPacketPair | vs2013/mysql++/include/insertpolicy.h:202-215 | two rows overrun the limit if and only if the casts let the second through and one of the parts reaches 2^31 characters |
| InsertPolicy.MaxPacketOverrun | vs2013/mysql++/include/insertpolicy.h:202-215 | a row whose length modulo 2^32 is 2^31 or more, behind one that fits, makes a statement of two rows over the limit |
| InsertPolicy.SizeThresholdExact | vs2013/mysql++/include/insertpolicy.h:143-147 | for any rows, a statement without its last row is shorter than size_ if and only if it is shorter than 2^31 characters |
| InsertPolicy.SizeThresholdBound | vs2013/mysql++/include/insertpolicy.h:143-147 | rows that keep every text below 2^31 characters keep every statement without its last row shorter than size_ |
| InsertPolicy.RowCountBatches | vs2013/mysql++/include/insertpolicy.h:95-104 | for every maximum k from 1 on, whatever the replies: every statement but the last has exactly k rows (the first fewer by what an earlier run left counted), so their number is the rows sent divided by k, rounded up, if and only if k is below the largest unsigned int or the counter does not come round; with that k there is one statement |
| InsertPolicy.RowCountZero | vs2013/mysql++/include/query.h:1107-1125 | with maximum 0 the policy is too strict: no statement and no COMMIT is sent, and a throwing query throws |
| InsertPolicy.RowCountRefuses | vs2013/mysql++/include/insertpolicy.h:95-104 | the counter ever refuses a row if and only if the maximum is below the largest unsigned int |
| BatchInsertObject.Transaction.Begin | vs2013/mysql++/include/transaction.cpp:40-52 | finished_ stays set only if START TRANSACTION throws |
| BatchInsertObject.Transaction.Commit | vs2013/mysql++/include/transaction.cpp:104-109 | sends COMMIT; finished_ unless it throws |
| BatchInsertObject.Transaction.Rollback | vs2013/mysql++/include/transaction.cpp:114-119 | sends ROLLBACK; finished_ unless it throws |
| BatchInsertObject.Transaction.Destroy | vs2013/mysql++/include/transaction.cpp:89-99 | one ROLLBACK unless finished, its failure swallowed |
| BatchInsertObject.Query.Exec | vs2013/mysql++/include/query.cpp:141-158 | sends the buffer; it is emptied on success and kept otherwise |
| BatchInsertObject.Query.AddRow | vs2013/mysql++/include/query.h:1082-1125 | one round of the loop on the stream, the flags and the policy object is the specification's round |
| BatchInsertObject.Query.WriteFrom | vs2013/mysql++/include/query.h:1068-1141 | the loop over stream, flags, policy and transaction objects computes exactly the specified run |
| TemplateParse.NameLength | vs2013/mysql++/include/query.cpp:321-323 | a parameter name is the longest run of alphanumerics and underscores |
| TemplateParse.ScanLiteral | vs2013/mysql++/include/query.cpp:278-285 | text with doubled percent signs is read as that literal, whatever follows |
| TemplateParse.ParseUndoesPrint | vs2013/mysql++/include/query.cpp:267-363 | parsing a printed parameter list, each number with one to three digits, gives the list, its names and its numbers back if and only if every number is at most 127 and no parameter absorbs the text behind it |
| TemplateParse.DigitsValue | vs2013/mysql++/include/query.cpp:290-308 | decimal notation of any width is read as its number |
| TemplateParse.DecimalNotation | vs2013/mysql++/include/query.cpp:290-308 | one, two and three digits, written out |
| TemplateParse.SignedCharWraps | vs2013/mysql++/include/query.cpp:308 | the number kept is the one between -128 and 127 that is congruent to it modulo 256 |
| TemplateParse.LiteralParses | vs2013/mysql++/include/query.cpp:278-285 | any NUL-free text with doubled percents parses to one literal element |
| TemplateParse.NormalForm | vs2013/mysql++/include/query.cpp:267-363 | every template text, however loosely written, parses like its printed normal form: percents doubled, three digits, names closed by a colon |
| TemplateParse.NamesRead | vs2013/mysql++/include/query.cpp:330-340 | after parsing parsed_names_ holds for every number the last name given to it and otherwise what it held or an empty name, parsed_nums_ holds for every name the last number given to it, and neither holds more |
| TemplateParse.UnclosedName | vs2013/mysql++/include/query.cpp:321-328 | a name without its closing colon is read the same where the text behind cannot continue it |
| TemplateParse.LonePercent | vs2013/mysql++/include/query.cpp:346-353 | a percent sign that starts no parameter stands for itself |
| TemplateParse.ScanKeeps | vs2013/mysql++/include/query.cpp:343-361 | scanning only appends to the elements saved so far |
| TemplateQuery.Query.Parse | vs2013/mysql++/include/query.cpp:267-363 | the pointer loop leaves exactly what the scanner function describes, unless the text names a parameter whose number modulo 256 is 128 or more: exactly then the C++ function writes outside parsed_names_ |
| TemplateParse.UndefinedIff | vs2013/mysql++/include/query.cpp:330-341 | scanning is undefined if and only if the parameters the text reads as include a named one whose number modulo 256 is 128 or more |
| TemplateParse.NamedBeyond127 | vs2013/mysql++/include/query.cpp:330-341 | the text %128: is one of them |
| TemplateQuery.Query.ParseHole | vs2013/mysql++/include/query.cpp:286-328 | number, option and name of one parameter as the scanner function reads them |
| TemplateRender.ProcSubstitutes | vs2013/mysql++/include/query.cpp:427-464 | rendering is the substitution of each parameter from the list if it is long enough, else from the defaults; it throws if and only if some index is in neither; bound values used are left rewritten with the option of their first use |
| TemplateRender.KeptShows | vs2013/mysql++/include/query.cpp:367-423 | a rewritten value prints what it printed when it was rewritten, whatever option is asked for later |
| TemplateRender.SecondIsIdentical | vs2013/mysql++/include/query.cpp:367-464 | rendering again, from the values the first rendering left behind, gives the identical string and outcome |
| TemplateRender.EarlierDoesNotShow | vs2013/mysql++/include/query.cpp:367-464 | what earlier renderings with any other lists did to the defaults does not show in a later one |
| TemplateRender.CompleteIff | vs2013/mysql++/include/qparms.h:131-141 | falling back on the defaults equals substituting the composite list of operator+, for any escaping: over all values never rendered, if and only if no parameter is used with two kinds of option; over all values, if and only if no parameter is used with option q or Q |
| TemplateRender.CompositeRequotes | vs2013/mysql++/include/qparms.cpp:67-80 | for the template %0q and a default rendered once, falling back prints 'x' and the composite list ''x'' |
| TemplateRender.CopyRequotes | vs2013/mysql++/include/stadapter.cpp:46-50 | a value quoted on its first use prints as it then did; a copy of it is quoted, and under q escaped, once more |
| TemplateRender.CopyIff | vs2013/mysql++/include/stadapter.cpp:46-50 | copying the defaults between two renderings changes no later output, for all values and any escaping, if and only if no parameter is quoted where it is first used |
| TemplateQuery.SQLQueryParms.Append | vs2013/mysql++/include/qparms.h:118-122 | a copy of the value at the end; the values already there are copied too if the list had to move |
| TemplateQuery.SQLQueryParms.At | vs2013/mysql++/include/qparms.h:99-105 | indexing beyond the end grows the list with empty strings to hold the index, copying the values already there if the list had to move; otherwise nothing changes |
| TemplateQuery.SQLQueryParms.Plus | vs2013/mysql++/include/qparms.cpp:67-80 | the composite: copies of this list, completed with copies from the other |
| TemplateQuery.Query.PPrepare | vs2013/mysql++/include/query.cpp:367-423 | quoted by the option and the value's type, escaped under q only, otherwise as it is; the value is replaced by what is printed, or marked, only when told to; a processed value is returned as it is |
| TemplateQuery.Query.One | vs2013/mysql++/include/query.cpp:436-458 | one element: its text, then NULL, the value as it is, or the value as pprepare prints it, from the list if it reaches, else the defaults, else ERROR and the exception |
| TemplateQuery.Query.Proc | vs2013/mysql++/include/query.cpp:427-464 | the loop over the elements, with the list possibly the defaults themselves, computes exactly the specified rendering |
| TemplateQuery.Query.Str | vs2013/mysql++/include/query.cpp:614-621 | a query without elements is its buffer; a template is rendered |
| RefCounted.RunKeeps | vs2013/mysql++/include/refcounted.h:93-251 | over any sequence of construct, copy, assign, swap and destroy every counter equals its handles, no object has two counters, and no object is destroyed while it has a handle, twice, or never |
| RefCounted.DestroyedWithLastHandle | vs2013/mysql++/include/refcounted.h:127-133 | after any run an object handed over was destroyed exactly once if it has no handle, and not at all otherwise, when one counter shared by all its handles holds their number |
| RefCounted.DropKeeps | vs2013/mysql++/include/refcounted.h:127-133 | the destructor destroys the object if and only if its last handle leaves |
| RefCounted.SwapKeeps | vs2013/mysql++/include/refcounted.h:247-251 | swapping two handles keeps the books |
| RefCounted.SelfAssign | vs2013/mysql++/include/refcounted.h:151-166 | assigning a handle to itself changes nothing |
| RefCounted.AssignTakes | vs2013/mysql++/include/refcounted.h:151-166 | after the assignment of a handle the target is on the other's object and no other handle moved; the counters of the two objects change by one each; the old object is destroyed if and only if the target was its only handle and moved |
| RefCounted.AssignRawTakes | vs2013/mysql++/include/refcounted.h:135-149 | after the assignment of a null or new pointer the target is on it, with a new counter of one, and the old object fares the same |
| RefCounted.RawAssignIff | vs2013/mysql++/include/refcounted.h:135-149 | assigning a raw pointer keeps the books if and only if it is null or was never handed over |
| RefCounted.RawSelfAssign | vs2013/mysql++/include/refcounted.h:135-149 | a handle given the pointer it alone manages destroys the object it goes on pointing to |
| RefCountedPointer.Pointer.FromRaw | vs2013/mysql++/include/refcounted.h:102-111 | a counter of one for a non-null pointer, none otherwise |
| RefCountedPointer.Pointer.Copy | vs2013/mysql++/include/refcounted.h:114-121 | shares object and counter, which goes up by one |
| RefCountedPointer.Pointer.Drop | vs2013/mysql++/include/refcounted.h:127-133 | the destructor on the heap is the destructor on the books |
| RefCountedPointer.Pointer.Swap | vs2013/mysql++/include/refcounted.h:247-251 | swap on the heap is swap on the books |
| RefCountedPointer.Pointer.AssignRaw | vs2013/mysql++/include/refcounted.h:142-149 | the temporary-and-swap assignment of a raw pointer, on the heap as on the books, managed pointers included |
| RefCountedPointer.Pointer.Assign | vs2013/mysql++/include/refcounted.h:151-166 | the temporary-and-swap assignment of a handle, itself included: object and counter of the other, and on the heap as on the books |
| ConnectionPool.StrictWeakOrder | vs2013/mysql++/include/cpool.h:226-237 | the order of pool entries is a strict weak order |
| ConnectionPool.MaxElement | vs2013/mysql++/include/cpool.cpp:112-113 | the entry found is a greatest one, and the first of them |
| ConnectionPool.MruIsFreeAndLatest | vs2013/mysql++/include/cpool.cpp:109-120 | the entry is free and most recently used among the free ones, and there is none only if none is free |
| ConnectionPool.PruneExact | vs2013/mysql++/include/cpool.cpp:195-204 | pruning removes exactly the free entries idle for the limit or longer, destroys those, and touches none in use |
| ConnectionPool.KeepSplit | vs2013/mysql++/include/cpool.cpp:195-204 | what pruning keeps and what it destroys stay in the order of the list |
| ConnectionPool.StepKeeps | vs2013/mysql++/include/cpool.cpp:72-204 | every operation keeps: each connection created is pooled once or was destroyed once, and the entries in use are those handed out |
| ConnectionPool.RemoveTakesOut | vs2013/mysql++/include/cpool.cpp:169-189 | removing a pooled connection takes its entry from the list and destroys it, and changes nothing else; removing another changes nothing |
| ConnectionPool.ClearLeaves | vs2013/mysql++/include/cpool.cpp:71-85 | clearing leaves exactly the entries in use, or none, and destroys the others |
| ConnectionPool.ReleaseFrees | vs2013/mysql++/include/cpool.cpp:143-155 | releasing a pooled connection frees its entry with the time of the release, and changes no other |
| ConnectionPool.GrabMarks | vs2013/mysql++/include/cpool.cpp:125-138 | after a grab the list is the pruned one with the entry handed out marked, its time of last use as it was, or a new entry with the present time |
| ConnectionPool.GrabHandsOutMru | vs2013/mysql++/include/cpool.cpp:125-138 | grab returns a most recently used free connection that survives the pruning, a new one if and only if there is none, and never one held or destroyed |
| ConnectionPool.ReleaseThenGrab | vs2013/mysql++/include/cpool.cpp:125-155 | the connection released last is the one the next grab hands out, unless it has been idle for too long |
| ConnectionPool.NeverTwiceWithoutRelease | vs2013/mysql++/include/cpool.cpp:125-155 | in every run, between two grabs that hand out the same connection it was released |
| ConnectionPoolObject.Connections.RemoveOldConnections | vs2013/mysql++/include/cpool.cpp:195-204 | the find-and-erase loop keeps the others in order and destroys the old ones in order |
| ConnectionPoolObject.Connections.FindMru | vs2013/mysql++/include/cpool.cpp:109-120 | the scan marks the entry the specification names and no other |
| ConnectionPoolObject.Connections.Grab | vs2013/mysql++/include/cpool.cpp:125-138 | prune, search, create: the machine's grab and its result |
| ConnectionPoolObject.Connections.Release | vs2013/mysql++/include/cpool.cpp:143-155 | frees and stamps the first entry of the connection, if there is one |
| ConnectionPoolObject.Connections.Remove | vs2013/mysql++/include/cpool.cpp:169-189 | destroys and erases the first entry of the connection, if there is one |
| ConnectionPoolObject.Connections.Clear | vs2013/mysql++/include/cpool.cpp:71-85 | the iterator loop destroys all entries, or all that are free |
| ConnectionPoolObject.Connections.Exchange | vs2013/mysql++/include/cpool.cpp:92-101 | a removal, then a grab |
| TrailingSpace.WordOfSpaces | vs2013/mysql/include/byte_order_generic.h:56-69 | the 64-bit read equals 0x2020202020202020 if and only if all eight bytes are spaces |
| TrailingSpace.PlainEnd | vs2013/mysql/include/m_string.h:326-328 | the byte-wise scan ends behind the last byte that is no space |
| TrailingSpace.SkipTrailingSpace | vs2013/mysql/include/m_string.h:317-329 | the eight-byte stride returns the byte-wise scan's end, for every length |
| NumericDigit.Halves | UtilityEngine/include/com_numeric_digit.hpp:31-32 | the derived masks are the lower and the upper half of their parent, for every power-of-two width |
| NumericDigit.MaxIsHighestBit | UtilityEngine/include/com_numeric_digit.hpp:34-46 | max is the one-based position of the highest set bit, and 0 exactly for zero |
| NumericDigit.MinIsLowestBit | UtilityEngine/include/com_numeric_digit.hpp:35-47 | min is the position of the lowest set bit if and only if the value is not zero; of zero it is the width less two |

## Left out

- Restarting a thread pool after it went down: `_init` runs once per pool here.
- The waiting inside `dispatcher_balance::stop`: its loop of `safe_stop` calls is in the step machine (`Balance.StopDrainsEveryPool`), not a method.
- `add_ref`, `sub_ref` and `wait_ref` of task objects: the waiting loop leaves on the first failed exchange, so there is no waiting guarantee to prove.
- The close reason that `close` passes on as the address of a local variable, and the socket and service calls inside `close`.
- Message parsing, handler lookup and the handlers themselves: their answers are parameters of the session model.
- `pool` dispatch mode, epoll and IOCP loops, sockets, buffers, logging, the service manager.
- The table of sine constants of RFC 1321 is stated as 64 numbers and not derived from the sine function.
- The SQL text inside a row's field and value lists, and number formatting: rows are strings here.
- InsertPolicy.MaxPacketBound: assumes one-row statements below 2^31 characters; `InsertPolicy.MaxPacketExact` is the exact statement for any rows.
- InsertPolicy.SizeThresholdBound: assumes one-row statements, and threshold plus row, below 2^31 characters; `InsertPolicy.SizeThresholdExact` is the exact statement for any rows.
- How far a list of parameters grows its memory is the library's choice: the new capacity is a parameter here.
- The signed overflow of `size_ - size` in the max-packet policy, which takes a text whose length the cast makes more negative than size_ minus 2^31: the difference is a mathematical integer here.
- Databases that keep or lose part of a command they refuse, and a connection that drops: a refused command has no effect.
- A transaction with an isolation level: one more statement in front.
- Query results, `execute`, `store` and `use`, and the recursion of `execute` on one-parameter templates.
- Access to parameters by name: it looks the number up in the map that parsing fills.
- The escaping of SQL strings is an uninterpreted function.
- Wrap-around of the reference counter, and the exception path of its allocation.
- `safe_grab`: a loop of grab, ping and remove steps that need not end.
- The address of a destroyed connection being given to a new one.
- Signed types in `numeric_digit`, whose top mask is not all ones; the promotion of narrow types to int does not change the masks.
- The variant of the trailing-space scan for sparc.
