/**
  dispatcher_balance as a step machine over one-thread pools.

  `dispatch` is four separate steps (read the object's worker index, choose a
  worker, store the index, schedule), interleaved with those of every other
  call and with everything the pools do.
 */
module Balance {
  import opened ThreadPool

  datatype Task = Task(obj: nat, id: nat)

  datatype Call =
    | Read(task: Task, n: nat)     // get_worker_index returned n
    | Chosen(task: Task, n: nat)   // get_worker returned worker n
    | Stored(task: Task, n: nat)   // set_worker_index(n) done

  // index maps an object to m_worker_index; an absent object still has 0.
  datatype State = State(pools: seq<Pool<Task>>, index: map<nat, nat>, calls: map<nat, Call>)

  datatype Action =
    | Begin(c: nat, task: Task)
    | Choose(c: nat, loads: seq<int>)   // loads: the task_size() values as read
    | Store(c: nat)
    | Schedule(c: nat)
    | Inner(p: nat, a: ThreadPool.Action<Task>)

  function IndexOf(s: State, obj: nat): nat {
    if obj in s.index then s.index[obj] else 0
  }

  predicate Settled(s: State, n: nat) { 0 < n <= |s.pools| }

  // ---- get_worker ---------------------------------------------------------------

  // Position of the least load among loads[..n], the leftmost one on a tie.
  function Leftmost(loads: seq<int>, n: nat): (r: nat)
    requires 0 < n <= |loads|
    ensures r < n
    ensures forall j :: 0 <= j < n ==> loads[r] <= loads[j]
    ensures forall j :: 0 <= j < r ==> loads[r] < loads[j]
  {
    if n == 1 then 0
    else
      var r := Leftmost(loads, n - 1);
      if loads[r] > loads[n - 1] then n - 1 else r
  }

  // Worker r, counted from one, has a least load, and those before it have more.
  ghost predicate LeastLoaded(loads: seq<int>, r: nat) {
    && 0 < r <= |loads|
    && (forall j :: 0 <= j < |loads| ==> loads[r - 1] <= loads[j])
    && (forall j :: 0 <= j < r - 1 ==> loads[r - 1] < loads[j])
  }

  function WorkerFor(n: nat, loads: seq<int>): (r: nat)
    requires loads != []
    ensures 0 < r <= |loads|
    ensures 0 < n <= |loads| ==> r == n
    ensures !(0 < n <= |loads|) ==> LeastLoaded(loads, r)
  {
    if 0 < n <= |loads| then n else Leftmost(loads, |loads|) + 1
  }

  lemma LeftmostUnique(loads: seq<int>, r: nat)
    requires r < |loads|
    requires forall j :: 0 <= j < |loads| ==> loads[r] <= loads[j]
    requires forall j :: 0 <= j < r ==> loads[r] < loads[j]
    ensures r == Leftmost(loads, |loads|)
  {
    var l := Leftmost(loads, |loads|);
    assert loads[l] <= loads[r] <= loads[l];
  }

  // ---- the machine -----------------------------------------------------------------

  function Init(n: nat, index: map<nat, nat>): State {
    State(seq(n, _ => ThreadPool.Init<Task>(1)), index, map[])
  }

  ghost predicate Enabled(s: State, a: Action) {
    match a
    case Begin(c, t) => c !in s.calls
    case Choose(c, loads) => c in s.calls && s.calls[c].Read? && |loads| == |s.pools| > 0
    case Store(c) => c in s.calls && s.calls[c].Chosen?
    case Schedule(c) => c in s.calls && s.calls[c].Stored? && Settled(s, s.calls[c].n)
    case Inner(p, b) => p < |s.pools| && !b.Push? && ThreadPool.Enabled(s.pools[p], b)
  }

  ghost function Apply(s: State, a: Action): State
    requires Enabled(s, a)
  {
    match a
    case Begin(c, t) => s.(calls := s.calls[c := Read(t, IndexOf(s, t.obj))])
    case Choose(c, loads) =>
      s.(calls := s.calls[c := Chosen(s.calls[c].task, WorkerFor(s.calls[c].n, loads))])
    case Store(c) =>
      var call := s.calls[c];
      s.(index := s.index[call.task.obj := call.n], calls := s.calls[c := Stored(call.task, call.n)])
    case Schedule(c) =>
      var p, t := s.calls[c].n - 1, s.calls[c].task;
      s.(calls := s.calls - {c},
         pools := if s.pools[p].mode == Started
                  then s.pools[p := ThreadPool.Apply(s.pools[p], Push(t))] else s.pools)
    case Inner(p, b) => s.(pools := s.pools[p := ThreadPool.Apply(s.pools[p], b)])
  }

  // An object's first dispatch has stored its index before a second one begins.
  ghost predicate Disciplined(s: State, a: Action) {
    a.Begin? && !Settled(s, IndexOf(s, a.task.obj)) ==>
      forall c :: c in s.calls ==> s.calls[c].task.obj != a.task.obj
  }

  ghost predicate CanReplay(s: State, acts: seq<Action>, disciplined: bool)
    decreases |acts|
  {
    acts == [] ||
    (Enabled(s, acts[0]) && (disciplined ==> Disciplined(s, acts[0]))
     && CanReplay(Apply(s, acts[0]), acts[1..], disciplined))
  }

  ghost function Replay(s: State, acts: seq<Action>): State
    requires CanReplay(s, acts, false)
    decreases |acts|
  {
    if acts == [] then s else Replay(Apply(s, acts[0]), acts[1..])
  }

  // ---- what balance mode promises ------------------------------------------------------

  // The object whose task pool p's thread holds, if it holds one.
  ghost predicate Handles(p: Pool<Task>, obj: nat) {
    |p.workers| == 1 && Holding(p.workers[0]) && p.workers[0].job.Work? && p.workers[0].job.task.obj == obj
  }

  // No object is handled by two threads at once.
  ghost predicate Exclusive(s: State) {
    forall p, q, obj :: 0 <= p < q < |s.pools| && Handles(s.pools[p], obj) ==> !Handles(s.pools[q], obj)
  }

  ghost predicate PoolsOk(s: State) {
    forall p :: 0 <= p < |s.pools| ==> ThreadPool.Inv(s.pools[p]) && Serial(s.pools[p])
  }

  ghost predicate Alone(s: State, c: nat)
    requires c in s.calls
  {
    forall d :: d in s.calls && d != c ==> s.calls[d].task.obj != s.calls[c].task.obj
  }

  ghost predicate CallPinned(s: State, c: nat)
    requires c in s.calls
  {
    var call := s.calls[c];
    var i := IndexOf(s, call.task.obj);
    match call
    case Read(_, n) => n == i && (!Settled(s, i) ==> Alone(s, c))
    case Chosen(_, n) => Settled(s, n) && (n == i || (!Settled(s, i) && Alone(s, c)))
    case Stored(_, n) => Settled(s, n) && n == i
  }

  // Every task of an object ever queued went to the worker its index names.
  ghost predicate LogsPinned(s: State) {
    forall p, k :: 0 <= p < |s.pools| && 0 <= k < |s.pools[p].log| && s.pools[p].log[k].Work? ==>
      IndexOf(s, s.pools[p].log[k].task.obj) == p + 1
  }

  ghost predicate Pinned(s: State) {
    LogsPinned(s) && forall c :: c in s.calls ==> CallPinned(s, c)
  }

  lemma PoolsOkStep(s: State, a: Action)
    requires PoolsOk(s) && Enabled(s, a)
    ensures PoolsOk(Apply(s, a))
  {
    match a
    case Schedule(c) =>
      var p, t := s.calls[c].n - 1, s.calls[c].task;
      if s.pools[p].mode == Started {
        InvStep(s.pools[p], Push(t));
        SerialStep(s.pools[p], Push(t));
      }
    case Inner(p, b) =>
      InvStep(s.pools[p], b);
      SerialStep(s.pools[p], b);
    case _ =>
  }

  lemma PinnedStep(s: State, a: Action)
    requires PoolsOk(s) && Pinned(s) && Enabled(s, a) && Disciplined(s, a)
    ensures Pinned(Apply(s, a))
  {
    var t := Apply(s, a);
    forall c | c in t.calls
      ensures CallPinned(t, c)
    {
      if c in s.calls { assert CallPinned(s, c); }
    }
    LogsPinnedStep(s, a);
  }

  lemma InnerLog(p: Pool<Task>, b: ThreadPool.Action<Task>)
    requires ThreadPool.Enabled(p, b) && !b.Push?
    ensures ThreadPool.Apply(p, b).log == p.log + if b.StopBegin? && p.queue != [] then [Sentinel] else []
  {
  }

  lemma LogsPinnedStep(s: State, a: Action)
    requires Pinned(s) && Enabled(s, a)
    ensures LogsPinned(Apply(s, a))
  {
    var t := Apply(s, a);
    if a.Inner? {
      InnerLog(s.pools[a.p], a.a);
    } else if a.Store? || a.Schedule? {
      assert CallPinned(s, a.c);
    }
    forall p, k | 0 <= p < |t.pools| && 0 <= k < |t.pools[p].log| && t.pools[p].log[k].Work?
      ensures IndexOf(t, t.pools[p].log[k].task.obj) == p + 1
    {
      if k < |s.pools[p].log| {
        assert t.pools[p].log[k] == s.pools[p].log[k];
      }
    }
  }

  lemma {:induction false} PinnedRun(s: State, acts: seq<Action>, disciplined: bool)
    requires PoolsOk(s) && CanReplay(s, acts, disciplined)
    ensures CanReplay(s, acts, false)
    ensures PoolsOk(Replay(s, acts)) && |Replay(s, acts).pools| == |s.pools|
    ensures disciplined && Pinned(s) ==> Pinned(Replay(s, acts))
    decreases |acts|
  {
    if acts != [] {
      PoolsOkStep(s, acts[0]);
      if disciplined && Pinned(s) { PinnedStep(s, acts[0]); }
      PinnedRun(Apply(s, acts[0]), acts[1..], disciplined);
    }
  }

  lemma InitOk(n: nat, index: map<nat, nat>)
    ensures PoolsOk(Init(n, index)) && Pinned(Init(n, index))
  {
    InvInit<Task>(1);
  }

  // The object whose task is entry k of pool p's log.
  ghost predicate Logged(s: State, p: int, k: int, obj: nat) {
    0 <= p < |s.pools| && 0 <= k < |s.pools[p].log| && s.pools[p].log[k].Work? && s.pools[p].log[k].task.obj == obj
  }

  // In the pool's log, no job starts before every earlier one has finished.
  ghost predicate InOrder(p: Pool<Task>) {
    |p.workers| == 1 &&
    forall j: nat, k: nat :: j < k && (k in p.done || Holds(p.workers[0], k)) ==> j in p.done
  }

  // The README's promise, for every disciplined run, any number of workers, any left-over
  // indices: an object is handled by one thread at a time, and its tasks, all queued at the
  // same pool, run in the order they were queued.
  lemma OneThreadPerObject(n: nat, index: map<nat, nat>, acts: seq<Action>)
    requires CanReplay(Init(n, index), acts, true)
    ensures CanReplay(Init(n, index), acts, false)
    ensures var s := Replay(Init(n, index), acts);
      && Exclusive(s)
      && (forall p, q, j, k, obj :: Logged(s, p, j, obj) && Logged(s, q, k, obj) ==> p == q)
      && (forall p :: 0 <= p < |s.pools| ==> InOrder(s.pools[p]))
  {
    InitOk(n, index);
    PinnedRun(Init(n, index), acts, true);
    var s := Replay(Init(n, index), acts);
    forall p | 0 <= p < |s.pools|
      ensures InOrder(s.pools[p])
    {
      SerialInOrder(s.pools[p]);
    }
  }

  // dispatcher_balance::stop: once every safe_stop has returned, every queued task has finished.
  lemma StopDrainsEveryPool(n: nat, index: map<nat, nat>, acts: seq<Action>)
    requires CanReplay(Init(n, index), acts, false)
    requires forall p :: 0 <= p < n ==>
      |Replay(Init(n, index), acts).pools| == n && Replay(Init(n, index), acts).pools[p].stopper == Returned(true)
    ensures var s := Replay(Init(n, index), acts);
      forall p, k, obj :: Logged(s, p, k, obj) ==> k in s.pools[p].done
  {
    InitOk(n, index);
    PinnedRun(Init(n, index), acts, false);
    var s := Replay(Init(n, index), acts);
    forall p, k, obj | Logged(s, p, k, obj)
      ensures k in s.pools[p].done
    {
      assert ThreadPool.Inv(s.pools[p]) && s.pools[p].workers[0].Exited?;
      assert !Holds(s.pools[p].workers[0], k);
    }
  }

  lemma SerialInOrder(p: Pool<Task>)
    requires Serial(p)
    ensures InOrder(p)
  {
    forall j: nat, k: nat | j < k && (k in p.done || Holds(p.workers[0], k))
      ensures j in p.done
    {
      assert p.done[j] == j;
    }
  }

  // ---- without the discipline the promise holds for one worker only -----------------------

  // Every choice in the run is made on the task_size() values of that moment.
  ghost predicate HonestLoads(s: State, acts: seq<Action>)
    requires CanReplay(s, acts, false)
    decreases |acts|
  {
    acts == [] ||
    ((acts[0].Choose? ==> forall i :: 0 <= i < |s.pools| ==> acts[0].loads[i] == s.pools[i].ntasks)
     && HonestLoads(Apply(s, acts[0]), acts[1..]))
  }

  lemma {:induction false} ReplayAppend(s: State, acts: seq<Action>, more: seq<Action>)
    requires CanReplay(s, acts, false) && CanReplay(Replay(s, acts), more, false)
    requires HonestLoads(s, acts) && HonestLoads(Replay(s, acts), more)
    ensures CanReplay(s, acts + more, false) && HonestLoads(s, acts + more)
    ensures Replay(s, acts + more) == Replay(Replay(s, acts), more)
    decreases |acts|
  {
    if acts == [] {
      assert acts + more == more;
    } else {
      assert (acts + more)[1..] == acts[1..] + more;
      ReplayAppend(Apply(s, acts[0]), acts[1..], more);
    }
  }

  lemma Prefixed(s: State, a: Action, rest: seq<Action>) returns (acts: seq<Action>)
    requires Enabled(s, a) && CanReplay(Apply(s, a), rest, false) && HonestLoads(Apply(s, a), rest)
    requires a.Choose? ==> forall i :: 0 <= i < |s.pools| ==> a.loads[i] == s.pools[i].ntasks
    ensures acts == [a] + rest && CanReplay(s, acts, false) && HonestLoads(s, acts)
    ensures Replay(s, acts) == Replay(Apply(s, a), rest)
  {
    acts := [a] + rest;
    assert acts[1..] == rest;
  }

  // One call goes from its choice to the queue of worker w + 1, and is counted there.
  lemma Dispatched(s: State, c: nat, t: Task, w: nat, loads: seq<int>) returns (acts: seq<Action>)
    requires c in s.calls && s.calls[c] == Read(t, 0) && |loads| == |s.pools| > w
    requires forall i :: 0 <= i < |s.pools| ==> loads[i] == s.pools[i].ntasks
    requires WorkerFor(0, loads) == w + 1 && s.pools[w].mode == Started && s.pools[w].ntasks == 0
    ensures CanReplay(s, acts, false) && HonestLoads(s, acts)
    ensures var r := Replay(s, acts); var p := ThreadPool.Apply(s.pools[w], Push(t));
      && r.calls == s.calls - {c}
      && r.pools == s.pools[w := p.(ntasks := 1, toAdd := p.toAdd - 1, toNotify := p.toNotify + 1)]
  {
    var s1 := Apply(s, Choose(c, loads));
    var s2 := Apply(s1, Store(c));
    assert s2.calls[c] == Stored(t, w + 1);
    var s3 := Apply(s2, Schedule(c));
    assert s3.calls == s.calls - {c};
    var s4 := Apply(s3, Inner(w, CountPush));
    acts := Prefixed(s3, Inner(w, CountPush), []);
    acts := Prefixed(s2, Schedule(c), acts);
    acts := Prefixed(s1, Store(c), acts);
    acts := Prefixed(s, Choose(c, loads), acts);
  }

  // A pool with one queued task starts it.
  lemma Served(s: State, w: nat, t: Task) returns (acts: seq<Action>)
    requires w < |s.pools| && s.pools[w].mode == Started
    requires s.pools[w].workers == [Unborn] && s.pools[w].queue == [Work(t)]
    ensures CanReplay(s, acts, false) && HonestLoads(s, acts)
    ensures var r := Replay(s, acts);
      && |r.pools| == |s.pools| && Handles(r.pools[w], t.obj)
      && forall i :: 0 <= i < |s.pools| && i != w ==> r.pools[i] == s.pools[i]
  {
    var s1 := Apply(s, Inner(w, Enter(0)));
    var s2 := Apply(s1, Inner(w, Loop(0)));
    var s3 := Apply(s2, Inner(w, Fetch(0)));
    acts := Prefixed(s2, Inner(w, Fetch(0)), []);
    acts := Prefixed(s1, Inner(w, Loop(0)), acts);
    acts := Prefixed(s, Inner(w, Enter(0)), acts);
  }

  // Two first dispatches of one object race past the read of its index.
  lemma Raced(n: nat, t: Task, u: Task) returns (acts: seq<Action>)
    requires n >= 2
    ensures CanReplay(Init(n, map[]), acts, false) && HonestLoads(Init(n, map[]), acts)
    ensures var r := Replay(Init(n, map[]), acts);
      && r.calls == map[0 := Read(t, 0), 1 := Read(u, 0)]
      && r.pools == Init(n, map[]).pools[0 := ThreadPool.Apply(ThreadPool.Init<Task>(1), Open)]
                                        [1 := ThreadPool.Apply(ThreadPool.Init<Task>(1), Open)]
  {
    var s0 := Init(n, map[]);
    var s1 := Apply(s0, Begin(0, t));
    var s2 := Apply(s1, Begin(1, u));
    var s3 := Apply(s2, Inner(0, Open));
    var s4 := Apply(s3, Inner(1, Open));
    assert s4.calls == map[0 := Read(t, 0), 1 := Read(u, 0)];
    acts := Prefixed(s3, Inner(1, Open), []);
    acts := Prefixed(s2, Inner(0, Open), acts);
    acts := Prefixed(s1, Begin(1, u), acts);
    acts := Prefixed(s0, Begin(0, t), acts);
  }

  lemma RacingDispatchesSplit(n: nat) returns (acts: seq<Action>)
    requires n >= 2
    ensures CanReplay(Init(n, map[]), acts, false) && HonestLoads(Init(n, map[]), acts)
    ensures !Exclusive(Replay(Init(n, map[]), acts))
  {
    var s0 := Init(n, map[]);
    var t, u := Task(7, 0), Task(7, 1);
    acts := Raced(n, t, u);
    var s1 := Replay(s0, acts);
    var idle := seq(n, _ => 0);
    LeftmostUnique(idle, 0);
    var more := Dispatched(s1, 0, t, 0, idle);
    ReplayAppend(s0, acts, more);
    acts := acts + more;
    var s2 := Replay(s0, acts);
    LeftmostUnique(idle[0 := 1], 1);
    more := Dispatched(s2, 1, u, 1, idle[0 := 1]);
    ReplayAppend(s0, acts, more);
    acts := acts + more;
    var s3 := Replay(s0, acts);
    more := Served(s3, 0, t);
    ReplayAppend(s0, acts, more);
    acts := acts + more;
    var s4 := Replay(s0, acts);
    more := Served(s4, 1, u);
    ReplayAppend(s0, acts, more);
    acts := acts + more;
    assert Handles(Replay(s0, acts).pools[0], 7) && Handles(Replay(s0, acts).pools[1], 7);
  }

  ghost predicate AlwaysExclusive(n: nat) {
    forall acts :: CanReplay(Init(n, map[]), acts, false) ==> Exclusive(Replay(Init(n, map[]), acts))
  }

  // Left to arbitrary callers, balance mode keeps its promise exactly when it has at most one worker.
  lemma PromiseNeedsDiscipline(n: nat)
    ensures AlwaysExclusive(n) <==> n <= 1
  {
    if n >= 2 {
      var acts := RacingDispatchesSplit(n);
    } else {
      forall acts | CanReplay(Init(n, map[]), acts, false)
        ensures Exclusive(Replay(Init(n, map[]), acts))
      {
        InitOk(n, map[]);
        PinnedRun(Init(n, map[]), acts, false);
      }
    }
  }
}
