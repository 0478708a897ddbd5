/**
  The thread pool of com_thread_pool.hpp as a step machine.

  Every section under `mtx` and every atomic increment or decrement outside it
  is one action; any number of callers and workers interleave.  `log`, `head`
  and `done` are history: every job ever queued, how many were popped, and the
  log positions of finished jobs in the order they finished.
 */
module ThreadPool {

  const SIZE_MOD: int := 0x1_0000_0000_0000_0000

  datatype Mode = Down | Stopping | Started   // state::none, state::stop, state::start

  // A queued task, or the packaged_task safe_stop queues behind the last one.
  datatype Job<T> = Work(task: T) | Sentinel

  datatype Worker<T> =
    | Unborn                     // thread created, _run not entered
    | LoopTop                    // m_working counts it, "--m_working" is next
    | Fetching                   // in get_task, about to take the lock
    | Waiting                    // asleep in cv.wait
    | Popped(job: Job<T>, k: nat)   // popped, "--m_ntasks" is next
    | Running(job: Job<T>, k: nat)  // inside task()
    | Exited                     // left _run

  datatype Stopper =
    | NoStop
    | SentinelQueued
    | SentinelCounted
    | Awaiting
    | Destroying
    | Broadcasting(drained: bool)
    | Joining(next: nat, drained: bool)
    | Returned(drained: bool)

  datatype Pool<T> = Pool(
    mode: Mode, ready: bool, queue: seq<Job<T>>, ntasks: int, working: int,
    workers: seq<Worker<T>>, toAdd: nat, toNotify: nat, stopper: Stopper,
    log: seq<Job<T>>, head: nat, done: seq<nat>)

  datatype Action<T> =
    | Open                 // end of _init
    | Push(task: T)        // schedule, locked part
    | CountPush            // schedule: ++m_ntasks
    | Notify(w: int)       // schedule: notify_one, waking w (-1: nobody asleep)
    | Enter(i: nat)        // _run: ++m_working
    | Loop(i: nat)         // _run: --m_working
    | Fetch(i: nat)        // get_task, locked part
    | Wake(i: nat)         // spurious wakeup
    | Uncount(i: nat)      // get_task: --m_ntasks
    | Finish(i: nat)       // task() returns
    | StopBegin            // safe_stop, locked part
    | StopCount            // safe_stop: ++m_ntasks
    | StopNotify(w: int)   // safe_stop: notify_one
    | StopAwait            // safe_stop: future.get() returns, perhaps before the sentinel's task() does
    | Destroy              // _destory called by safe_stop, locked part
    | Destruct             // _destory called by the destructor, locked part
    | Broadcast            // _destory: notify_all
    | Join                 // _destory: one join returns, or the loop ends

  function Inc(x: int): int { (x + 1) % SIZE_MOD }
  function Dec(x: int): int { (x - 1) % SIZE_MOD }

  function Init<T>(n: nat): (p: Pool<T>)
    ensures |p.workers| == n && p.queue == [] && p.mode == Stopping
  {
    Pool(Stopping, false, [], 0, 0, seq(n, _ => Unborn), 0, 0, NoStop, [], 0, [])
  }

  // ---- one action ------------------------------------------------------------

  ghost predicate Asleep<T>(p: Pool<T>) {
    exists i :: 0 <= i < |p.workers| && p.workers[i].Waiting?
  }

  // notify_one wakes one sleeper if there is one.
  ghost predicate MayNotify<T>(p: Pool<T>, w: int) {
    if Asleep(p) then 0 <= w < |p.workers| && p.workers[w].Waiting? else w == -1
  }

  function Notified<T>(ws: seq<Worker<T>>, w: int): seq<Worker<T>> {
    if 0 <= w < |ws| then ws[w := Fetching] else ws
  }

  function WakeAll<T>(ws: seq<Worker<T>>): (r: seq<Worker<T>>)
    ensures |r| == |ws|
    ensures forall i :: 0 <= i < |ws| ==> r[i] == if ws[i].Waiting? then Fetching else ws[i]
  {
    seq(|ws|, i requires 0 <= i < |ws| => if ws[i].Waiting? then Fetching else ws[i])
  }

  // The sentinel runs, and may have set its result, or has finished.
  ghost predicate Answered<T>(p: Pool<T>) {
    |p.log| - 1 in p.done ||
    exists i :: 0 <= i < |p.workers| && p.workers[i].Running? && p.workers[i].job == Sentinel
  }

  ghost predicate Enabled<T>(p: Pool<T>, a: Action<T>) {
    match a
    case Open => !p.ready
    case Push(_) => p.mode == Started
    case CountPush => p.toAdd > 0
    case Notify(w) => p.toNotify > 0 && MayNotify(p, w)
    case Enter(i) => i < |p.workers| && p.workers[i].Unborn?
    case Loop(i) => i < |p.workers| && p.workers[i].LoopTop?
    case Fetch(i) => i < |p.workers| && p.workers[i].Fetching?
    case Wake(i) => i < |p.workers| && p.workers[i].Waiting?
    case Uncount(i) => i < |p.workers| && p.workers[i].Popped?
    case Finish(i) => i < |p.workers| && p.workers[i].Running?
    case StopBegin => p.mode == Started
    case StopCount => p.stopper == SentinelQueued
    case StopNotify(w) => p.stopper == SentinelCounted && MayNotify(p, w)
    case StopAwait => p.stopper == Awaiting && Answered(p)
    case Destroy => p.stopper == Destroying
    case Destruct => p.ready && p.stopper == NoStop
    case Broadcast => p.stopper.Broadcasting?
    case Join => p.stopper.Joining? && (p.stopper.next < |p.workers| ==> p.workers[p.stopper.next].Exited?)
  }

  // get_task under the lock: sleep, leave, or pop the front.
  function FetchStep<T>(p: Pool<T>, i: nat): Pool<T>
    requires i < |p.workers|
  {
    if p.queue == [] && p.mode != Down then
      p.(workers := p.workers[i := Waiting])
    else if p.mode == Down then
      p.(workers := p.workers[i := Exited])
    else
      p.(working := Inc(p.working), queue := p.queue[1..], head := p.head + 1,
         workers := p.workers[i := Popped(p.queue[0], p.head)])
  }

  function StopStep<T>(p: Pool<T>): Pool<T> {
    if p.queue == [] then
      p.(mode := Stopping, stopper := Destroying)
    else
      p.(mode := Stopping, stopper := SentinelQueued,
         queue := p.queue + [Sentinel], log := p.log + [Sentinel])
  }

  ghost function Apply<T>(p: Pool<T>, a: Action<T>): Pool<T>
    requires Enabled(p, a)
  {
    match a
    case Open => p.(mode := Started, ready := true)
    case Push(t) => p.(queue := p.queue + [Work(t)], log := p.log + [Work(t)], toAdd := p.toAdd + 1)
    case CountPush => p.(ntasks := Inc(p.ntasks), toAdd := p.toAdd - 1, toNotify := p.toNotify + 1)
    case Notify(w) => p.(toNotify := p.toNotify - 1, workers := Notified(p.workers, w))
    case Enter(i) => p.(working := Inc(p.working), workers := p.workers[i := LoopTop])
    case Loop(i) => p.(working := Dec(p.working), workers := p.workers[i := Fetching])
    case Fetch(i) => FetchStep(p, i)
    case Wake(i) => p.(workers := p.workers[i := Fetching])
    case Uncount(i) =>
      p.(ntasks := Dec(p.ntasks), workers := p.workers[i := Running(p.workers[i].job, p.workers[i].k)])
    case Finish(i) => p.(done := p.done + [p.workers[i].k], workers := p.workers[i := LoopTop])
    case StopBegin => StopStep(p)
    case StopCount => p.(ntasks := Inc(p.ntasks), stopper := SentinelCounted)
    case StopNotify(w) => p.(stopper := Awaiting, workers := Notified(p.workers, w))
    case StopAwait => p.(stopper := Destroying)
    case Destroy => p.(mode := Down, stopper := Broadcasting(true))
    case Destruct => p.(mode := Down, stopper := Broadcasting(false))
    case Broadcast => p.(workers := WakeAll(p.workers), stopper := Joining(0, p.stopper.drained))
    case Join =>
      if p.stopper.next < |p.workers| then p.(stopper := Joining(p.stopper.next + 1, p.stopper.drained))
      else p.(stopper := Returned(p.stopper.drained))
  }

  // ---- counting workers ------------------------------------------------------

  function Busy<T>(w: Worker<T>): nat { if w.LoopTop? || w.Popped? || w.Running? then 1 else 0 }
  function Unsubtracted<T>(w: Worker<T>): nat { if w.Popped? then 1 else 0 }
  function Heading<T>(w: Worker<T>): nat { if w.Fetching? then 1 else 0 }

  function Total<T>(ws: seq<Worker<T>>, f: Worker<T> -> nat): nat {
    if ws == [] then 0 else f(ws[0]) + Total(ws[1..], f)
  }

  lemma {:induction false} TotalUpdate<T>(ws: seq<Worker<T>>, f: Worker<T> -> nat, i: nat, w: Worker<T>)
    requires i < |ws|
    ensures Total(ws[i := w], f) == Total(ws, f) - f(ws[i]) + f(w)
  {
    if i == 0 {
      assert ws[i := w][1..] == ws[1..];
    } else {
      assert ws[i := w][1..] == ws[1..][i - 1 := w];
      TotalUpdate(ws[1..], f, i - 1, w);
    }
  }

  lemma {:induction false} TotalBounds<T>(ws: seq<Worker<T>>, f: Worker<T> -> nat, lo: nat, hi: nat)
    requires forall i :: 0 <= i < |ws| ==> lo <= f(ws[i]) <= hi
    ensures lo * |ws| <= Total(ws, f) <= hi * |ws|
  {
    if ws != [] {
      assert forall i :: 0 <= i < |ws[1..]| ==> ws[1..][i] == ws[1 + i];
      TotalBounds(ws[1..], f, lo, hi);
      assert lo * |ws| == lo + lo * |ws[1..]|;
      assert hi * |ws| == hi + hi * |ws[1..]|;
    }
  }

  // ---- the invariant -----------------------------------------------------------

  predicate Holding<T>(w: Worker<T>) { w.Popped? || w.Running? }

  ghost predicate Holds<T>(w: Worker<T>, k: nat) { Holding(w) && w.k == k }

  function PendingAdds<T>(p: Pool<T>): nat {
    p.toAdd + if p.stopper.SentinelQueued? then 1 else 0
  }

  function PendingNotifies<T>(p: Pool<T>): nat {
    p.toAdd + p.toNotify + if p.stopper.SentinelQueued? || p.stopper.SentinelCounted? then 1 else 0
  }

  // Accepted jobs = popped prefix + queue; popped jobs = held or finished, each once.
  ghost predicate Conserved<T>(p: Pool<T>) {
    && p.head <= |p.log| && p.queue == p.log[p.head..]
    && (forall i :: 0 <= i < |p.workers| && Holding(p.workers[i]) ==>
      p.workers[i].k < p.head && p.workers[i].job == p.log[p.workers[i].k] && p.workers[i].k !in p.done)
    && (forall i, j :: 0 <= i < j < |p.workers| && Holding(p.workers[i]) && Holding(p.workers[j]) ==>
      p.workers[i].k != p.workers[j].k)
    && (forall k :: k in p.done ==> k < p.head)
    && (forall i, j :: 0 <= i < j < |p.done| ==> p.done[i] != p.done[j])
    && (forall k: nat :: k < p.head ==> k in p.done || exists i :: 0 <= i < |p.workers| && Holds(p.workers[i], k))
  }

  ghost predicate Counted<T>(p: Pool<T>) {
    && p.ntasks == TaskBalance(p) % SIZE_MOD
    && p.working == Total(p.workers, Busy) % SIZE_MOD
  }

  // While anybody sleeps, each queued job has a pending notify or a worker on its way to the lock.
  ghost predicate NoLostWakeup<T>(p: Pool<T>) {
    p.mode != Down && Asleep(p) ==> |p.queue| <= PendingNotifies(p) + Total(p.workers, Heading)
  }

  ghost predicate Staged<T>(p: Pool<T>) {
    && (forall k :: 0 <= k < |p.log| && p.log[k].Sentinel? ==> k == |p.log| - 1)
    && (p.mode != Down ==> forall i :: 0 <= i < |p.workers| ==> !p.workers[i].Exited?)
    && StopperStaged(p)
  }

  ghost predicate StopperStaged<T>(p: Pool<T>) {
    match p.stopper
    case NoStop =>
      p.mode == (if p.ready then Started else Stopping) && forall k :: 0 <= k < |p.log| ==> p.log[k].Work?
    case Destroying => p.ready && p.mode == Stopping && p.queue == []
    case Broadcasting(d) => p.ready && p.mode == Down && (d ==> p.queue == [])
    case Joining(j, d) =>
      (p.ready && p.mode == Down && (d ==> p.queue == []) && j <= |p.workers| && !Asleep(p)
       && forall i :: 0 <= i < j ==> p.workers[i].Exited?)
    case Returned(d) =>
      (p.ready && p.mode == Down && (d ==> p.queue == [])
       && forall i :: 0 <= i < |p.workers| ==> p.workers[i].Exited?)
    case _ => p.ready && p.mode == Stopping && p.log != []
  }

  ghost predicate Inv<T>(p: Pool<T>) {
    Conserved(p) && Counted(p) && NoLostWakeup(p) && Staged(p)
  }

  lemma InvInit<T>(n: nat)
    ensures Inv(Init<T>(n))
  {
    var ws := Init<T>(n).workers;
    TotalBounds(ws, Unsubtracted, 0, 0);
    TotalBounds(ws, Busy, 0, 0);
  }

  // An action that pops nothing and finishes nothing.
  lemma ConservedKept<T>(p: Pool<T>, q: Pool<T>)
    requires Conserved(p)
    requires p.log <= q.log && q.head == p.head && q.done == p.done && q.queue == q.log[q.head..]
    requires |q.workers| == |p.workers|
    requires forall i :: 0 <= i < |p.workers| ==> (Holding(q.workers[i]) <==> Holding(p.workers[i]))
    requires forall i :: 0 <= i < |p.workers| && Holding(p.workers[i]) ==>
      Holding(q.workers[i]) && q.workers[i].job == p.workers[i].job && q.workers[i].k == p.workers[i].k
    ensures Conserved(q)
  {
    forall k: nat | k < q.head && k !in q.done
      ensures exists i :: 0 <= i < |q.workers| && Holds(q.workers[i], k)
    {
      var i :| 0 <= i < |p.workers| && Holds(p.workers[i], k);
      assert Holds(q.workers[i], k);
    }
  }

  lemma ConservedPop<T>(p: Pool<T>, i: nat)
    requires Conserved(p) && i < |p.workers| && p.workers[i].Fetching? && p.queue != [] && p.mode != Down
    ensures Conserved(FetchStep(p, i))
  {
    var q := FetchStep(p, i);
    assert Holds(q.workers[i], p.head);
    forall k: nat | k < p.head && k !in q.done
      ensures exists j :: 0 <= j < |q.workers| && Holds(q.workers[j], k)
    {
      var j :| 0 <= j < |p.workers| && Holds(p.workers[j], k);
      assert Holds(q.workers[j], k);
    }
  }

  lemma ConservedFinish<T>(p: Pool<T>, i: nat)
    requires Conserved(p) && Enabled(p, Finish(i))
    ensures Conserved(Apply(p, Finish(i)))
  {
    var q := Apply(p, Finish(i));
    assert q.done[|p.done|] == p.workers[i].k;
    forall k: nat | k < q.head && k !in q.done
      ensures exists j :: 0 <= j < |q.workers| && Holds(q.workers[j], k)
    {
      assert k !in p.done;
      var j :| 0 <= j < |p.workers| && Holds(p.workers[j], k);
      assert Holds(q.workers[j], k);
    }
  }

  lemma ConservedStep<T>(p: Pool<T>, a: Action<T>)
    requires Conserved(p) && Enabled(p, a)
    ensures Conserved(Apply(p, a))
  {
    if a.Fetch? && p.queue != [] && p.mode != Down {
      ConservedPop(p, a.i);
    } else if a.Finish? {
      ConservedFinish(p, a.i);
    } else {
      ConservedKept(p, Apply(p, a));
    }
  }

  // Whoever has popped the sentinel has popped the last job.
  lemma AnsweredEmpties<T>(p: Pool<T>)
    requires Staged(p) && Answered(p) && p.log != []
    requires p.head <= |p.log| && p.queue == p.log[p.head..] && forall k :: k in p.done ==> k < p.head
    requires forall i :: 0 <= i < |p.workers| && Holding(p.workers[i]) ==>
      p.workers[i].k < p.head && p.workers[i].job == p.log[p.workers[i].k]
    ensures p.queue == []
  {
    if |p.log| - 1 !in p.done {
      var i :| 0 <= i < |p.workers| && p.workers[i].Running? && p.workers[i].job == Sentinel;
      assert Holding(p.workers[i]);
      assert p.log[p.workers[i].k].Sentinel?;
    }
  }

  lemma StagedStep<T>(p: Pool<T>, a: Action<T>)
    requires Staged(p) && Enabled(p, a)
    requires p.head <= |p.log| && p.queue == p.log[p.head..] && forall k :: k in p.done ==> k < p.head
    requires forall i :: 0 <= i < |p.workers| && Holding(p.workers[i]) ==>
      p.workers[i].k < p.head && p.workers[i].job == p.log[p.workers[i].k]
    ensures Staged(Apply(p, a))
  {
    if a.StopAwait? { AnsweredEmpties(p); }
    var q := Apply(p, a);
    assert q.mode != Down ==> forall i :: 0 <= i < |q.workers| ==> !q.workers[i].Exited?;
    if a.Push? || a.StopBegin? { assert q.log == p.log || q.log == p.log + [q.log[|p.log|]]; }
  }

  // The one worker an action moves, and where it moves to.
  ghost function Mover<T>(a: Action<T>): int {
    match a
    case Notify(w) => w
    case Enter(i) => i
    case Loop(i) => i
    case Fetch(i) => i
    case Wake(i) => i
    case Uncount(i) => i
    case Finish(i) => i
    case StopNotify(w) => w
    case _ => -1
  }

  lemma TotalStep<T>(p: Pool<T>, a: Action<T>, f: Worker<T> -> nat)
    requires Enabled(p, a) && !a.Broadcast?
    ensures var q, i := Apply(p, a), Mover(a);
      if 0 <= i then
        i < |p.workers| == |q.workers| && q.workers == p.workers[i := q.workers[i]] &&
        Total(q.workers, f) == Total(p.workers, f) - f(p.workers[i]) + f(q.workers[i])
      else q.workers == p.workers
  {
    var q, i := Apply(p, a), Mover(a);
    if 0 <= i {
      TotalUpdate(p.workers, f, i, q.workers[i]);
    }
  }

  lemma {:induction false} TotalWakeAll<T>(ws: seq<Worker<T>>, f: Worker<T> -> nat)
    requires f(Waiting) == f(Fetching)
    ensures Total(WakeAll(ws), f) == Total(ws, f)
  {
    if ws != [] {
      assert WakeAll(ws)[1..] == WakeAll(ws[1..]);
      TotalWakeAll(ws[1..], f);
    }
  }

  lemma ModSteps(x: int)
    ensures Inc(x % SIZE_MOD) == (x + 1) % SIZE_MOD
    ensures Dec(x % SIZE_MOD) == (x - 1) % SIZE_MOD
  {
  }

  // m_ntasks before reduction: queued, plus popped but not subtracted, minus pushed but not added.
  function TaskBalance<T>(p: Pool<T>): int {
    |p.queue| + Total(p.workers, Unsubtracted) - PendingAdds(p)
  }

  lemma NtasksStep<T>(p: Pool<T>, a: Action<T>)
    requires p.ntasks == TaskBalance(p) % SIZE_MOD && StopperStaged(p) && Enabled(p, a)
    ensures Apply(p, a).ntasks == TaskBalance(Apply(p, a)) % SIZE_MOD
  {
    var q := Apply(p, a);
    if a.Broadcast? { TotalWakeAll(p.workers, Unsubtracted); } else { TotalStep(p, a, Unsubtracted); }
    var change := if a.CountPush? || a.StopCount? then 1 else if a.Uncount? then -1 else 0;
    assert TaskBalance(q) == TaskBalance(p) + change;
    ModSteps(TaskBalance(p));
  }

  lemma WorkingStep<T>(p: Pool<T>, a: Action<T>)
    requires p.working == Total(p.workers, Busy) % SIZE_MOD && Enabled(p, a)
    ensures Apply(p, a).working == Total(Apply(p, a).workers, Busy) % SIZE_MOD
  {
    var q := Apply(p, a);
    if a.Broadcast? { TotalWakeAll(p.workers, Busy); } else { TotalStep(p, a, Busy); }
    var change := if a.Enter? || (a.Fetch? && p.queue != [] && p.mode != Down) then 1 else if a.Loop? then -1 else 0;
    assert Total(q.workers, Busy) == Total(p.workers, Busy) + change;
    ModSteps(Total(p.workers, Busy));
  }

  lemma NoLostWakeupStep<T>(p: Pool<T>, a: Action<T>)
    requires NoLostWakeup(p) && StopperStaged(p) && Enabled(p, a)
    ensures NoLostWakeup(Apply(p, a))
  {
    var q := Apply(p, a);
    if !a.Broadcast? && q.mode != Down && Asleep(q) {
      TotalStep(p, a, Heading);
    }
  }

  lemma InvStep<T>(p: Pool<T>, a: Action<T>)
    requires Inv(p) && Enabled(p, a)
    ensures Inv(Apply(p, a))
  {
    ConservedStep(p, a);
    NtasksStep(p, a);
    WorkingStep(p, a);
    NoLostWakeupStep(p, a);
    StagedStep(p, a);
  }

  // ---- whole runs --------------------------------------------------------------

  ghost predicate CanReplay<T>(p: Pool<T>, acts: seq<Action<T>>)
    decreases |acts|
  {
    acts == [] || (Enabled(p, acts[0]) && CanReplay(Apply(p, acts[0]), acts[1..]))
  }

  ghost function Replay<T>(p: Pool<T>, acts: seq<Action<T>>): Pool<T>
    requires CanReplay(p, acts)
    decreases |acts|
  {
    if acts == [] then p else Replay(Apply(p, acts[0]), acts[1..])
  }

  lemma {:induction false} InvRun<T>(p: Pool<T>, acts: seq<Action<T>>)
    requires Inv(p) && CanReplay(p, acts)
    ensures Inv(Replay(p, acts))
    ensures |Replay(p, acts).workers| == |p.workers|
    decreases |acts|
  {
    if acts != [] {
      InvStep(p, acts[0]);
      InvRun(Apply(p, acts[0]), acts[1..]);
    }
  }

  // The tasks for which schedule answered true, in the order it took the lock.
  function AcceptedBy<T>(acts: seq<Action<T>>): seq<T> {
    if acts == [] then []
    else (if acts[0].Push? then [acts[0].task] else []) + AcceptedBy(acts[1..])
  }

  function TasksOf<T>(log: seq<Job<T>>): seq<T> {
    if log == [] then []
    else (if log[0].Work? then [log[0].task] else []) + TasksOf(log[1..])
  }

  lemma {:induction false} TasksOfAppend<T>(log: seq<Job<T>>, j: Job<T>)
    ensures TasksOf(log + [j]) == TasksOf(log) + if j.Work? then [j.task] else []
  {
    if log != [] {
      assert (log + [j])[1..] == log[1..] + [j];
      TasksOfAppend(log[1..], j);
    }
  }

  lemma LogStep<T>(p: Pool<T>, a: Action<T>)
    requires Enabled(p, a)
    ensures TasksOf(Apply(p, a).log) == TasksOf(p.log) + if a.Push? then [a.task] else []
  {
    assert TasksOf(p.log) + [] == TasksOf(p.log);
    match a
    case Push(t) => TasksOfAppend(p.log, Work(t));
    case StopBegin => TasksOfAppend(p.log, Sentinel);
    case _ =>
  }

  lemma {:induction false} LogIsAccepted<T>(p: Pool<T>, acts: seq<Action<T>>)
    requires CanReplay(p, acts)
    ensures TasksOf(Replay(p, acts).log) == TasksOf(p.log) + AcceptedBy(acts)
    decreases |acts|
  {
    hide Enabled, Apply, TasksOf;
    var before := TasksOf(p.log);
    if acts == [] {
      assert before + [] == before;
    } else {
      LogStep(p, acts[0]);
      LogIsAccepted(Apply(p, acts[0]), acts[1..]);
      var first := if acts[0].Push? then [acts[0].task] else [];
      var rest := AcceptedBy(acts[1..]);
      assert AcceptedBy(acts) == first + rest;
      assert before + first + rest == before + (first + rest);
    }
  }

  // When safe_stop returns true: everything accepted finished, exactly once.
  lemma SafeStopDrains<T>(n: nat, acts: seq<Action<T>>)
    requires CanReplay(Init(n), acts) && Replay(Init(n), acts).stopper == Returned(true)
    ensures var p := Replay(Init(n), acts);
      && TasksOf(p.log) == AcceptedBy(acts)
      && p.queue == []
      && (forall k: nat :: k < |p.log| <==> k in p.done)
      && (forall i, j :: 0 <= i < j < |p.done| ==> p.done[i] != p.done[j])
      && (forall i :: 0 <= i < |p.workers| ==> p.workers[i].Exited?)
      && p.working == 0
      && p.ntasks == (0 - p.toAdd) % SIZE_MOD
  {
    hide CanReplay, Replay, Inv;
    InvInit<T>(n);
    InvRun(Init(n), acts);
    LogIsAccepted(Init(n), acts);
    Drained(Replay(Init(n), acts));
  }

  lemma Drained<T>(p: Pool<T>)
    requires Inv(p) && p.stopper == Returned(true)
    ensures p.queue == [] && (forall k: nat :: k < |p.log| <==> k in p.done)
    ensures forall i, j :: 0 <= i < j < |p.done| ==> p.done[i] != p.done[j]
    ensures forall i :: 0 <= i < |p.workers| ==> p.workers[i].Exited?
    ensures p.working == 0 && p.ntasks == (0 - p.toAdd) % SIZE_MOD
  {
    hide NoLostWakeup;
    TotalBounds(p.workers, Unsubtracted, 0, 0);
    TotalBounds(p.workers, Busy, 0, 0);
  }

  // Once the pool is down nobody takes a job: what is queued stays queued, and every worker that still
  // comes for one leaves.
  lemma {:induction false} DownTakesNothing<T>(p: Pool<T>, acts: seq<Action<T>>)
    requires Inv(p) && p.mode == Down && CanReplay(p, acts)
    ensures var q := Replay(p, acts); q.mode == Down && q.queue == p.queue && q.head == p.head && q.log == p.log
    ensures forall i: nat :: Enabled(p, Fetch(i)) ==> Apply(p, Fetch(i)).workers == p.workers[i := Exited]
    decreases |acts|
  {
    if acts != [] {
      InvStep(p, acts[0]);
      DownStep(p, acts[0]);
      DownTakesNothing(Apply(p, acts[0]), acts[1..]);
    }
  }

  lemma DownStep<T>(p: Pool<T>, a: Action<T>)
    requires Inv(p) && p.mode == Down && Enabled(p, a)
    ensures var q := Apply(p, a); q.mode == Down && q.queue == p.queue && q.head == p.head && q.log == p.log
  {
  }

  // task_size() is the queue length exactly when the late additions and subtractions cancel.
  lemma TaskSizeExact<T>(p: Pool<T>)
    requires Inv(p) && |p.queue| + |p.workers| + PendingAdds(p) < SIZE_MOD
    ensures p.ntasks == |p.queue| <==> Total(p.workers, Unsubtracted) == PendingAdds(p)
    ensures p.working == Total(p.workers, Busy) <= |p.workers|
  {
    TotalBounds(p.workers, Unsubtracted, 0, 1);
    TotalBounds(p.workers, Busy, 0, 1);
    var late := Total(p.workers, Unsubtracted) - PendingAdds(p);
    assert -SIZE_MOD < late < SIZE_MOD;
    if |p.queue| + late < 0 {
      assert TaskBalance(p) % SIZE_MOD == TaskBalance(p) + SIZE_MOD;
    }
  }

  // A worker may pop and subtract before the caller adds: task_size() then reads 2^64 - 1.
  lemma TaskSizeCanWrap<T>(t: T) returns (acts: seq<Action<T>>)
    ensures CanReplay(Init(1), acts)
    ensures Replay(Init(1), acts).queue == [] && Replay(Init(1), acts).ntasks == SIZE_MOD - 1
  {
    acts := [Open, Push(t), Enter(0)] + [Loop(0), Fetch(0), Uncount(0)];
    var p0 := Init<T>(1);
    assert p0.workers == [Unborn];
    var p1 := Apply(p0, Open);
    var p2 := Apply(p1, Push(t));
    var p3 := Apply(p2, Enter(0));
    OvertakenPush(p3, t);
    var tail: seq<Action<T>> := [Loop(0), Fetch(0), Uncount(0)];
    hide Enabled, Apply;
    ReplayFirst(p2, Enter(0), tail);
    ReplayFirst(p1, Push(t), [Enter(0)] + tail);
    ReplayFirst(p0, Open, [Push(t)] + ([Enter(0)] + tail));
    assert [Open] + ([Push(t)] + ([Enter(0)] + tail)) == acts;
  }

  // The worker pops and subtracts before schedule adds.
  lemma OvertakenPush<T>(p: Pool<T>, t: T)
    requires p == Pool(Started, true, [Work(t)], 0, 1, [LoopTop], 1, 0, NoStop, [Work(t)], 0, [])
    ensures var acts: seq<Action<T>> := [Loop(0), Fetch(0), Uncount(0)];
      CanReplay(p, acts) && Replay(p, acts).queue == [] && Replay(p, acts).ntasks == SIZE_MOD - 1
  {
    var p1 := Apply(p, Loop(0));
    var p2 := Apply(p1, Fetch(0));
    var p3 := Apply(p2, Uncount(0));
    hide Enabled, Apply;
    ReplayFirst(p2, Uncount(0), []);
    ReplayFirst(p1, Fetch(0), [Uncount(0)]);
    ReplayFirst(p, Loop(0), [Fetch(0), Uncount(0)]);
  }

  lemma ReplayFirst<T>(p: Pool<T>, a: Action<T>, acts: seq<Action<T>>)
    requires Enabled(p, a) && CanReplay(Apply(p, a), acts)
    ensures CanReplay(p, [a] + acts) && Replay(p, [a] + acts) == Replay(Apply(p, a), acts)
  {
    assert ([a] + acts)[1..] == acts;
  }

  // ---- a pool of one thread ------------------------------------------------------

  // Jobs of a one-thread pool finish in log order; at most the next one is in hand.
  ghost predicate Serial<T>(p: Pool<T>) {
    && |p.workers| == 1
    && (forall i :: 0 <= i < |p.done| ==> p.done[i] == i)
    && p.head == |p.done| + (if Holding(p.workers[0]) then 1 else 0)
    && (Holding(p.workers[0]) ==> p.workers[0].k == |p.done|)
  }

  lemma SerialStep<T>(p: Pool<T>, a: Action<T>)
    requires Serial(p) && Enabled(p, a)
    ensures Serial(Apply(p, a))
  {
  }

  lemma {:induction false} OneThreadIsSerial<T>(p: Pool<T>, acts: seq<Action<T>>)
    requires Serial(p) && CanReplay(p, acts)
    ensures Serial(Replay(p, acts))
    decreases |acts|
  {
    if acts != [] {
      SerialStep(p, acts[0]);
      OneThreadIsSerial(Apply(p, acts[0]), acts[1..]);
    }
  }

  // ---- shutting down terminates ---------------------------------------------------

  function Rank<T>(w: Worker<T>): nat {
    match w
    case Unborn => 3
    case LoopTop => 2
    case Fetching => 1
    case Popped(_, _) => 4
    case Running(_, _) => 3
    case _ => 0
  }

  function StopperRank<T>(p: Pool<T>): nat {
    var n := |p.workers|;
    match p.stopper
    case NoStop => 0
    case SentinelQueued => 2 * n + 9
    case SentinelCounted => 2 * n + 7
    case Awaiting => 2 * n + 5
    case Destroying => 2 * n + 4
    case Broadcasting(_) => 2 * n + 3
    case Joining(j, _) => if j <= n then n + 1 - j else 0
    case Returned(_) => 0
  }

  function ShutdownMeasure<T>(p: Pool<T>): nat {
    4 * |p.queue| + 4 * p.toAdd + 2 * p.toNotify + StopperRank(p) + Total(p.workers, Rank)
  }

  ghost predicate ShuttingDown<T>(p: Pool<T>) {
    !p.stopper.NoStop? && !p.stopper.Returned?
  }

  lemma {:induction false} TotalRankWakeAll<T>(ws: seq<Worker<T>>)
    ensures Total(WakeAll(ws), Rank) <= Total(ws, Rank) + |ws|
  {
    if ws != [] {
      assert WakeAll(ws)[1..] == WakeAll(ws[1..]);
      TotalRankWakeAll(ws[1..]);
    }
  }

  lemma WorkerDecreases<T>(p: Pool<T>, a: Action<T>)
    requires Enabled(p, a) && Mover(a) >= 0 && !a.Wake? && !a.StopNotify?
    ensures ShutdownMeasure(Apply(p, a)) < ShutdownMeasure(p)
  {
    hide Asleep, Total;
    var q := Apply(p, a);
    TotalStep(p, a, Rank);
    assert StopperRank(q) == StopperRank(p);
  }

  lemma StopperDecreases<T>(p: Pool<T>, a: Action<T>)
    requires StopperStaged(p) && ShuttingDown(p) && Enabled(p, a) && (Mover(a) < 0 || a.StopNotify?)
    ensures ShutdownMeasure(Apply(p, a)) < ShutdownMeasure(p)
  {
    hide Asleep, Total;
    if a.Broadcast? {
      TotalRankWakeAll(p.workers);
    } else {
      TotalStep(p, a, Rank);
    }
  }

  // Once safe_stop or the destructor has begun, every action but a spurious wakeup makes progress.
  lemma ShutdownDecreases<T>(p: Pool<T>, a: Action<T>)
    requires StopperStaged(p) && ShuttingDown(p) && Enabled(p, a) && !a.Wake?
    ensures ShutdownMeasure(Apply(p, a)) < ShutdownMeasure(p)
  {
    hide StopperStaged, Enabled, Apply, ShutdownMeasure;
    if Mover(a) >= 0 && !a.StopNotify? { WorkerDecreases(p, a); } else { StopperDecreases(p, a); }
  }

  // The worker's own next action, unless it sleeps or has left.
  function NextOf<T>(w: Worker<T>, i: nat): Action<T> {
    match w
    case Unborn => Enter(i)
    case LoopTop => Loop(i)
    case Fetching => Fetch(i)
    case Popped(_, _) => Uncount(i)
    case Running(_, _) => Finish(i)
    case _ => Wake(i)
  }

  // ... and some such action can be taken until the call returns: it cannot deadlock.
  lemma ShutdownNeverStuck<T>(p: Pool<T>) returns (a: Action<T>)
    requires Inv(p) && ShuttingDown(p) && p.workers != []
    ensures Enabled(p, a) && !a.Wake?
  {
    match p.stopper
    case SentinelQueued => a := StopCount;
    case SentinelCounted =>
      if Asleep(p) {
        var w :| 0 <= w < |p.workers| && p.workers[w].Waiting?;
        a := StopNotify(w);
      } else {
        a := StopNotify(-1);
      }
    case Awaiting => a := AwaitingNeverStuck(p);
    case Destroying => a := Destroy;
    case Broadcasting(_) => a := Broadcast;
    case Joining(j, _) =>
      if j < |p.workers| && !p.workers[j].Exited? {
        a := NextOf(p.workers[j], j);
      } else {
        a := Join;
      }
  }

  lemma AwaitingNeverStuck<T>(p: Pool<T>) returns (a: Action<T>)
    requires Inv(p) && p.stopper.Awaiting? && p.workers != []
    ensures Enabled(p, a) && !a.Wake?
  {
    var s: nat := |p.log| - 1;
    if s in p.done {
      a := StopAwait;
    } else if i: nat :| i < |p.workers| && !p.workers[i].Waiting? {
      a := NextOf(p.workers[i], i);
    } else {
      // everybody sleeps, so the sentinel is still queued and a notify is due
      assert p.workers[0].Waiting?;
      assert forall i :: 0 <= i < |p.workers| ==> !Holds(p.workers[i], s);
      assert p.queue != [];
      TotalBounds(p.workers, Heading, 0, 0);
      a := if p.toAdd > 0 then CountPush else Notify(0);
    }
  }

  function Wakes<T>(acts: seq<Action<T>>): nat {
    if acts == [] then 0 else (if acts[0].Wake? then 1 else 0) + Wakes(acts[1..])
  }

  // So a run that has not returned yet is bounded, whatever the scheduler does.
  lemma {:induction false} ShutdownBounded<T>(p: Pool<T>, acts: seq<Action<T>>)
    requires Inv(p) && ShuttingDown(p) && CanReplay(p, acts) && ShuttingDown(Replay(p, acts))
    ensures |acts| <= ShutdownMeasure(p) + 2 * Wakes(acts)
    decreases |acts|
  {
    if acts != [] {
      var q := Apply(p, acts[0]);
      InvStep(p, acts[0]);
      if !ShuttingDown(q) {
        ReturnedIsFinal(q, acts[1..]);
      } else {
        ShutdownBounded(q, acts[1..]);
        if acts[0].Wake? {
          TotalStep(p, acts[0], Rank);
        } else {
          ShutdownDecreases(p, acts[0]);
        }
      }
    }
  }

  lemma {:induction false} ReturnedIsFinal<T>(p: Pool<T>, acts: seq<Action<T>>)
    requires Inv(p) && p.stopper.Returned? && CanReplay(p, acts)
    ensures Replay(p, acts).stopper == p.stopper
    decreases |acts|
  {
    if acts != [] {
      InvStep(p, acts[0]);
      ReturnedIsFinal(Apply(p, acts[0]), acts[1..]);
    }
  }
}
