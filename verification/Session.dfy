/**
  One session under balance dispatch: `close`, `handle_error`, `set_connected`
  and the handle/commit/re-post loop of controler_wrap, as a step machine.

  The session's tasks form one FIFO queue served by one thread at a time:
  BalanceDiscipline.OneThreadPerSession.  Any thread may call close(); I/O
  threads post received data; a dispatcher that is stopping refuses tasks, and
  nobody looks at that answer.  A connection is numbered by how many were closed
  before it; `conn` in a task, `gen`, `connects`, `closePosts` and `doneCloses`
  are history.
 */
module Session {

  const KEY_MOD: int := 0x1_0000_0000

  datatype SocketState = NoConnection | Connected | Closing   // m_state

  // Progress of the thread inside close(), which holds m_close_mutex throughout.
  datatype Closer = Nobody | Untracking | Bumping | Posting

  datatype Task = CloseTask(conn: nat) | Message(key: nat, conn: nat)

  // The thread serving the queue, inside task_info::run.
  datatype Worker =
    | Ready
    | InDoClose(conn: nat)
    | Comparing(key: nat, conn: nat)      // before "obj->compkey() != compkey"
    | Handling(key: nat, conn: nat)       // in handle()
    | Reposting(key: nat, conn: nat)      // committed, in post_request
    | Failing(key: nat, conn: nat)        // in handle_error, before its comparison
    | AboutToClose(key: nat, conn: nat)   // comparison passed, close() not yet entered
    | InClose                             // is the closer

  datatype Session = Session(
    state: SocketState, key: nat, closer: Closer, inUse: bool, queue: seq<Task>, worker: Worker,
    accepting: bool, gen: nat, connects: nat, closePosts: seq<nat>, doneCloses: nat)

  datatype Confirm = Complete | Short | Malformed   // comfirm(len): true; false with len 0; false

  datatype Action =
    | Connect
    | BeginClose       // any thread's close() wins the compare-exchange
    | Clear            // close(): untrack, close the socket, m_state = none
    | Bump             // close(): ++m_compkey
    | PostClose        // close(): post the close task
    | Receive          // process_recv: a complete message is posted under m_close_mutex
    | Take             // the worker pops a task and enters handle_wrap
    | DoClose          // do_close: on_close, then back to the session pool
    | Compare
    | Handle(ok: bool) // handler found and returned 0, or not
    | Repost(c: Confirm)
    | CheckError       // handle_error: m_compkey == compkey
    | WorkerClose      // close() called by handle_error
    | Shut             // the worker's safe_stop begins: schedule refuses from now on

  function Init(): Session {
    Session(NoConnection, 0, Nobody, false, [], Ready, true, 0, 0, [], 0)
  }

  predicate Enabled(s: Session, a: Action) {
    match a
    case Connect => !s.inUse
    case BeginClose => s.state == Connected && s.closer == Nobody
    case Clear => s.closer == Untracking
    case Bump => s.closer == Bumping
    case PostClose => s.closer == Posting && s.gen > 0
    case Receive => s.state == Connected && s.closer == Nobody
    case Take => s.worker == Ready && s.queue != []
    case DoClose => s.worker.InDoClose?
    case Compare => s.worker.Comparing?
    case Handle(_) => s.worker.Handling?
    case Repost(_) => s.worker.Reposting?
    case CheckError => s.worker.Failing?
    case WorkerClose => s.worker.AboutToClose? && s.closer == Nobody
    case Shut => s.accepting
  }

  // dispatch: the queue, unless the task is refused.
  function Queued(s: Session, t: Task): seq<Task> {
    if s.accepting then s.queue + [t] else s.queue
  }

  function Apply(s: Session, a: Action): Session
    requires Enabled(s, a)
  {
    match a
    case Connect => s.(state := Connected, inUse := true, connects := s.connects + 1)
    case BeginClose => s.(state := Closing, closer := Untracking)
    case Clear => s.(state := NoConnection, closer := Bumping)
    case Bump => s.(key := (s.key + 1) % KEY_MOD, gen := s.gen + 1, closer := Posting)
    case PostClose =>
      s.(queue := Queued(s, CloseTask(s.gen - 1)), closePosts := s.closePosts + [s.gen - 1],
         closer := Nobody, worker := if s.worker == InClose then Ready else s.worker)
    case Receive => s.(queue := Queued(s, Message(s.key, s.gen)))
    case Take =>
      s.(queue := s.queue[1..],
         worker := match s.queue[0]
                   case CloseTask(c) => InDoClose(c)
                   case Message(k, c) => Comparing(k, c))
    case DoClose => s.(inUse := false, doneCloses := s.doneCloses + 1, worker := Ready)
    case Compare =>
      s.(worker := if s.key == s.worker.key then Handling(s.worker.key, s.worker.conn) else Ready)
    case Handle(ok) =>
      s.(worker := if ok then Reposting(s.worker.key, s.worker.conn) else Failing(s.worker.key, s.worker.conn))
    case Repost(c) => (
      match c
      case Complete => s.(queue := Queued(s, Message(s.worker.key, s.worker.conn)), worker := Ready)
      case Short => s.(worker := Ready)
      case Malformed => s.(worker := Failing(s.worker.key, s.worker.conn)))
    case CheckError =>
      s.(worker := if s.key == s.worker.key then AboutToClose(s.worker.key, s.worker.conn) else Ready)
    case WorkerClose =>
      if s.state == Connected then s.(state := Closing, closer := Untracking, worker := InClose)
      else s.(worker := Ready)
    case Shut => s.(accepting := false)
  }

  // ---- the invariant ---------------------------------------------------------------

  // The connection has been closed and its close task posted, but do_close has not run.
  predicate ClosePending(s: Session) {
    s.inUse && s.state == NoConnection && s.closer == Nobody
  }

  ghost predicate Lifecycle(s: Session) {
    && s.key == s.gen % KEY_MOD
    && (s.state == Closing <==> s.closer == Untracking)
    && (s.state == Connected ==> s.inUse && s.closer == Nobody)
    && (s.closer != Nobody ==> s.inUse)
    && s.gen == s.doneCloses + (if s.closer == Posting || ClosePending(s) then 1 else 0)
    && s.connects == s.doneCloses + (if s.inUse then 1 else 0)
    && |s.closePosts| == s.doneCloses + (if ClosePending(s) then 1 else 0)
    && (forall i :: 0 <= i < |s.closePosts| ==> s.closePosts[i] == i)
    && (s.worker == InClose ==> s.closer != Nobody)
  }

  // Queued messages belong to the last closed connection or the one after it; behind a close
  // task there is nothing older than the connection it closes.
  ghost predicate MessagesOk(s: Session) {
    forall i :: 0 <= i < |s.queue| && s.queue[i].Message? ==>
      s.doneCloses - 1 <= s.queue[i].conn <= s.doneCloses && s.queue[i].key == s.queue[i].conn % KEY_MOD
  }

  ghost predicate CloseTasksOk(s: Session) {
    && (forall i :: 0 <= i < |s.queue| && s.queue[i].CloseTask? ==>
      ClosePending(s) && !s.worker.InDoClose? && s.queue[i].conn == s.doneCloses)
    && (forall i, j :: 0 <= i < j < |s.queue| && s.queue[i].CloseTask? ==>
      s.queue[j].Message? && s.queue[j].conn == s.doneCloses)
  }

  ghost predicate CloseTaskPresent(s: Session) {
    s.accepting && ClosePending(s) && !s.worker.InDoClose? ==> exists i :: 0 <= i < |s.queue| && s.queue[i].CloseTask?
  }

  ghost predicate QueueOk(s: Session) {
    MessagesOk(s) && CloseTasksOk(s) && CloseTaskPresent(s)
  }

  ghost predicate WorkerOk(s: Session) {
    match s.worker
    case Ready => true
    case InClose => true
    case InDoClose(c) =>
      ClosePending(s) && c == s.doneCloses
      && forall i :: 0 <= i < |s.queue| ==> s.queue[i].Message? && s.queue[i].conn == s.doneCloses
    case Comparing(k, c) => s.doneCloses - 1 <= c <= s.doneCloses && k == c % KEY_MOD
    case w => w.conn == s.doneCloses && w.key == w.conn % KEY_MOD
  }

  ghost predicate Inv(s: Session) {
    Lifecycle(s) && QueueOk(s) && WorkerOk(s)
  }

  lemma KeysApart(c: int, g: int)
    requires 0 <= c && 0 <= g && -KEY_MOD < c - g < KEY_MOD && c % KEY_MOD == g % KEY_MOD
    ensures c == g
  {
    var m := KEY_MOD;
    assert c == c / m * m + c % m && g == g / m * m + g % m;
    assert (c / m - g / m) * m == c - g;
  }

  lemma LifecycleStep(s: Session, a: Action)
    requires Lifecycle(s) && (s.worker.InDoClose? ==> ClosePending(s)) && Enabled(s, a)
    ensures Lifecycle(Apply(s, a))
  {
  }

  lemma MessagesStep(s: Session, a: Action)
    requires Inv(s) && Enabled(s, a)
    ensures MessagesOk(Apply(s, a))
  {
  }

  lemma CloseTasksTake(s: Session)
    requires CloseTasksOk(s) && WorkerOk(s) && Enabled(s, Take)
    ensures CloseTasksOk(Apply(s, Take))
  {
    var t := Apply(s, Take);
    assert forall i :: 0 <= i < |t.queue| ==> t.queue[i] == s.queue[i + 1];
  }

  lemma CloseTasksPost(s: Session)
    requires Lifecycle(s) && CloseTasksOk(s) && WorkerOk(s) && Enabled(s, PostClose)
    ensures CloseTasksOk(Apply(s, PostClose))
  {
  }

  lemma CloseTasksStep(s: Session, a: Action)
    requires Lifecycle(s) && CloseTasksOk(s) && WorkerOk(s) && Enabled(s, a)
    ensures CloseTasksOk(Apply(s, a))
  {
    if a.Take? {
      CloseTasksTake(s);
    } else if a.PostClose? {
      CloseTasksPost(s);
    }
  }

  lemma CloseTaskPresentStep(s: Session, a: Action)
    requires Inv(s) && Enabled(s, a)
    ensures CloseTaskPresent(Apply(s, a))
  {
    var t := Apply(s, a);
    if a.PostClose? {
      assert t.accepting ==> t.queue[|s.queue|].CloseTask?;
    } else if t.accepting && ClosePending(t) && !t.worker.InDoClose? {
      var i :| 0 <= i < |s.queue| && s.queue[i].CloseTask?;
      assert t.queue[if a.Take? then i - 1 else i] == s.queue[i];
    }
  }

  lemma WorkerStep(s: Session, a: Action)
    requires Inv(s) && Enabled(s, a)
    ensures WorkerOk(Apply(s, a))
  {
    if a.Compare? && s.key == s.worker.key {
      KeysApart(s.worker.conn, s.gen);
    }
  }

  lemma InvStep(s: Session, a: Action)
    requires Inv(s) && Enabled(s, a)
    ensures Inv(Apply(s, a))
  {
    LifecycleStep(s, a);
    MessagesStep(s, a);
    CloseTasksStep(s, a);
    CloseTaskPresentStep(s, a);
    WorkerStep(s, a);
  }

  // ---- whole runs --------------------------------------------------------------------

  ghost predicate Run(states: seq<Session>, acts: seq<Action>) {
    && |states| == |acts| + 1 && states[0] == Init()
    && forall i :: 0 <= i < |acts| ==> Enabled(states[i], acts[i]) && states[i + 1] == Apply(states[i], acts[i])
  }

  lemma {:induction false} RunInv(states: seq<Session>, acts: seq<Action>, i: nat)
    requires Run(states, acts) && i < |states|
    ensures Inv(states[i])
  {
    if i > 0 {
      RunInv(states, acts, i - 1);
      InvStep(states[i - 1], acts[i - 1]);
    }
  }

  lemma {:induction false} ClosesGrow(states: seq<Session>, acts: seq<Action>, i: nat, j: nat)
    requires Run(states, acts) && i <= j < |states|
    ensures states[i].doneCloses <= states[j].doneCloses
  {
    if i < j { ClosesGrow(states, acts, i, j - 1); }
  }

  // A handler starts exactly on the messages of the connection whose key is current ...
  lemma HandlerIsCurrent(states: seq<Session>, acts: seq<Action>, j: nat)
    requires Run(states, acts) && j < |acts| && acts[j] == Compare
    ensures states[j + 1].worker.Handling? <==> states[j].worker.conn == states[j].gen
    ensures states[j + 1].worker.Handling? ==>
      states[j + 1].worker.conn == states[j].worker.conn == states[j].gen == states[j].doneCloses
  {
    RunInv(states, acts, j);
    RunInv(states, acts, j + 1);
    if states[j + 1].worker.Handling? { KeysApart(states[j].worker.conn, states[j].gen); }
  }

  // ... so none starts on a message of a connection for which do_close has run, although the key
  // wraps, messages are re-posted under old keys and handlers run while the connection closes.
  lemma NoHandlerAfterDoClose(states: seq<Session>, acts: seq<Action>, i: nat, j: nat)
    requires Run(states, acts) && i < j < |acts|
    requires acts[i] == DoClose
    requires acts[j] == Compare && states[j + 1].worker.Handling?
    ensures states[i].worker.conn < states[j + 1].worker.conn
  {
    RunInv(states, acts, i);
    HandlerIsCurrent(states, acts, j);
    ClosesGrow(states, acts, i + 1, j);
  }

  // ---- order --------------------------------------------------------------------------------------

  // The task an action hands to a dispatcher that takes it.
  function Accepts(s: Session, a: Action): seq<Task> {
    if !s.accepting then []
    else if a.PostClose? && s.gen > 0 then [CloseTask(s.gen - 1)]
    else if a.Receive? then [Message(s.key, s.gen)]
    else if a == Repost(Complete) && s.worker.Reposting? then [Message(s.worker.key, s.worker.conn)]
    else []
  }

  // The task a worker has just taken up.
  function Begins(w: Worker): seq<Task> {
    match w
    case InDoClose(c) => [CloseTask(c)]
    case Comparing(k, c) => [Message(k, c)]
    case _ => []
  }

  function Accepted(states: seq<Session>, acts: seq<Action>, n: nat): seq<Task>
    requires n <= |acts| < |states|
  {
    if n == 0 then [] else Accepted(states, acts, n - 1) + Accepts(states[n - 1], acts[n - 1])
  }

  function Begun(states: seq<Session>, acts: seq<Action>, n: nat): seq<Task>
    requires n <= |acts| < |states|
  {
    if n == 0 then []
    else Begun(states, acts, n - 1) + if acts[n - 1].Take? then Begins(states[n].worker) else []
  }

  // Tasks are begun in the order they were accepted, each once and none left out; the others wait.
  lemma {:induction false} BegunInOrder(states: seq<Session>, acts: seq<Action>, n: nat)
    requires Run(states, acts) && n <= |acts|
    ensures Accepted(states, acts, n) == Begun(states, acts, n) + states[n].queue
  {
    hide Accepts, Begins, Apply, Enabled;
    if n > 0 {
      BegunInOrder(states, acts, n - 1);
      QueueStep(states[n - 1], acts[n - 1]);
      Regrouped(Begun(states, acts, n - 1), states[n - 1].queue, Accepts(states[n - 1], acts[n - 1]),
                if acts[n - 1].Take? then Begins(states[n].worker) else [], states[n].queue);
    }
  }

  lemma Regrouped(b: seq<Task>, q: seq<Task>, x: seq<Task>, y: seq<Task>, r: seq<Task>)
    requires q + x == y + r
    ensures b + q + x == b + y + r
  {
    assert b + q + x == b + (q + x);
    assert b + y + r == b + (y + r);
  }

  lemma QueueStep(s: Session, a: Action)
    requires Enabled(s, a)
    ensures var t := Apply(s, a);
      s.queue + Accepts(s, a) == (if a.Take? then Begins(t.worker) else []) + t.queue
  {
  }

  // Exactly one close task per connection: none before its close() is through, one ever after.
  lemma OneClosePerConnection(states: seq<Session>, acts: seq<Action>, i: nat, conn: nat)
    requires Run(states, acts) && i < |states|
    ensures var s := states[i];
      && (conn in s.closePosts <==> conn < s.connects && !(conn == s.connects - 1 && s.inUse && !ClosePending(s)))
      && (forall j, k :: 0 <= j < k < |s.closePosts| ==> s.closePosts[j] != s.closePosts[k])
      && s.doneCloses <= |s.closePosts| <= s.doneCloses + 1
  {
    RunInv(states, acts, i);
    var s := states[i];
    if conn < |s.closePosts| { assert s.closePosts[conn] == conn; }
  }

  // The error path of handle_wrap never closes a later connection of the same session.
  lemma ErrorClosesOwnConnection(states: seq<Session>, acts: seq<Action>, j: nat)
    requires Run(states, acts) && j < |acts| && acts[j] == WorkerClose && states[j].state == Connected
    ensures states[j].worker.conn == states[j].gen
  {
    RunInv(states, acts, j);
  }

  // ---- what becomes of the close task -----------------------------------------------------------

  // The task that closes the current connection waits in the queue or is being run.
  predicate CloseDelivered(s: Session) {
    s.worker == InDoClose(s.doneCloses) || CloseTask(s.doneCloses) in s.queue
  }

  // The connection is closed, and its close task was refused and will never come.
  predicate CloseLost(s: Session) {
    !s.accepting && ClosePending(s) && !s.worker.InDoClose?
    && forall k :: 0 <= k < |s.queue| ==> s.queue[k].Message?
  }

  // A close task posted in time survives the stop of the dispatcher, until do_close runs.
  lemma DeliveredStep(s: Session, a: Action)
    requires Inv(s) && Enabled(s, a) && CloseDelivered(s) && a != DoClose
    ensures CloseDelivered(Apply(s, a)) && Apply(s, a).doneCloses == s.doneCloses
  {
    var t := Apply(s, a);
    if CloseTask(s.doneCloses) in s.queue {
      var k :| 0 <= k < |s.queue| && s.queue[k] == CloseTask(s.doneCloses);
      if a.Take? {
        if k > 0 { assert t.queue[k - 1] == s.queue[k]; }
      } else {
        assert t.queue[k] == s.queue[k];
      }
    }
  }

  // A refused close task is lost for good: do_close never runs for the session again.
  lemma LostStep(s: Session, a: Action)
    requires Inv(s) && Enabled(s, a) && CloseLost(s)
    ensures CloseLost(Apply(s, a)) && Apply(s, a).doneCloses == s.doneCloses && a != DoClose
  {
  }

  lemma PostedStep(s: Session)
    requires Inv(s) && Enabled(s, PostClose)
    ensures var t := Apply(s, PostClose);
      if s.accepting then CloseDelivered(t) else CloseLost(t)
  {
    var t := Apply(s, PostClose);
    if s.accepting { assert t.queue[|s.queue|] == CloseTask(t.doneCloses); }
  }

  // The close task posted at step i is lost exactly if the dispatcher had begun to stop before; posted
  // in time it waits or is being run at every later step until do_close, stop or no stop.
  lemma {:induction false} CloseIsDelivered(states: seq<Session>, acts: seq<Action>, i: nat, j: nat)
    requires Run(states, acts) && i < j < |states| && acts[i] == PostClose
    requires forall k :: i < k < j ==> acts[k] != DoClose
    ensures CloseLost(states[j]) <==> !states[i].accepting
    ensures CloseDelivered(states[j]) <==> states[i].accepting
    ensures states[j].doneCloses == states[i].doneCloses
  {
    RunInv(states, acts, i);
    if j == i + 1 {
      PostedStep(states[i]);
    } else {
      CloseIsDelivered(states, acts, i, j - 1);
      RunInv(states, acts, j - 1);
      if states[i].accepting {
        DeliveredStep(states[j - 1], acts[j - 1]);
      } else {
        LostStep(states[j - 1], acts[j - 1]);
      }
    }
    RunInv(states, acts, j);
    NotBoth(states[j]);
  }

  lemma NotBoth(s: Session)
    ensures CloseLost(s) ==> !CloseDelivered(s)
  {
  }

  // Once lost, whatever happens: no do_close, and the session stays in use.
  lemma {:induction false} RefusedCloseIsLost(states: seq<Session>, acts: seq<Action>, i: nat, j: nat)
    requires Run(states, acts) && i <= j < |states| && CloseLost(states[i])
    ensures CloseLost(states[j]) && states[j].inUse && states[j].doneCloses == states[i].doneCloses
    ensures forall k :: i <= k < j ==> acts[k] != DoClose
  {
    if i < j {
      RefusedCloseIsLost(states, acts, i, j - 1);
      RunInv(states, acts, j - 1);
      LostStep(states[j - 1], acts[j - 1]);
    }
  }

  // A run that gets there: the dispatcher begins to stop while the session is connected.
  lemma RefusedCloseRun() returns (states: seq<Session>, acts: seq<Action>)
    ensures Run(states, acts) && |acts| == 6 && acts[5] == PostClose && CloseLost(states[6])
  {
    var s0 := Init();
    var s1 := Apply(s0, Connect);
    var s2 := Apply(s1, Shut);
    var s3 := Apply(s2, BeginClose);
    var s4 := Apply(s3, Clear);
    var s5 := Apply(s4, Bump);
    var s6 := Apply(s5, PostClose);
    states, acts := [s0, s1, s2, s3, s4, s5, s6], [Connect, Shut, BeginClose, Clear, Bump, PostClose];
  }
}
