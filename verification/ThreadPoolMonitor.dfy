/**
  thread_pool_wrap itself: its fields and, one method each, the sections its
  member functions execute under `mtx` and the atomic updates between them.
  Each method is proved to carry out exactly one action of the step machine:
  the ghost parameter is the machine state the object shows on entry, the ghost
  result the one it shows on exit.
 */
module ThreadPoolMonitor {
  import opened ThreadPool

  datatype Fetched<T> = Sleep | Leave | Take(job: Job<T>)

  class ThreadPoolWrap<T> {
    var tasks: seq<Job<T>>
    var working: int
    var ntasks: int
    var mode: Mode

    ghost predicate Shows(p: Pool<T>)
      reads this
    {
      tasks == p.queue && working == p.working && ntasks == p.ntasks && mode == p.mode
    }

    constructor (ghost n: nat)
      ensures Shows(Init(n))
    {
      tasks, working, ntasks, mode := [], 0, 0, Stopping;
    }

    method FinishInit(ghost p: Pool<T>) returns (ghost q: Pool<T>)
      requires Shows(p) && Enabled(p, Open)
      modifies this`mode
      ensures q == Apply(p, Open) && Shows(q)
    {
      mode := Started;
      q := Apply(p, Open);
    }

    // schedule: refuse unless started, else queue.
    method ScheduleLocked(task: T, ghost p: Pool<T>) returns (accepted: bool, ghost q: Pool<T>)
      requires Shows(p)
      modifies this`tasks
      ensures accepted <==> mode == Started
      ensures tasks == old(tasks) + if accepted then [Work(task)] else []
      ensures accepted <==> Enabled(p, Push(task))
      ensures q == (if accepted then Apply(p, Push(task)) else p) && Shows(q)
    {
      if mode != Started {
        return false, p;
      }
      tasks := tasks + [Work(task)];
      return true, Apply(p, Push(task));
    }

    method ScheduleCount(ghost p: Pool<T>) returns (ghost q: Pool<T>)
      requires Shows(p) && Enabled(p, CountPush)
      modifies this`ntasks
      ensures q == Apply(p, CountPush) && Shows(q)
    {
      ntasks := Inc(ntasks);
      q := Apply(p, CountPush);
    }

    // safe_stop: refuse unless started; an idle pool needs no sentinel.
    method SafeStopLocked(ghost p: Pool<T>) returns (accepted: bool, idle: bool, ghost q: Pool<T>)
      requires Shows(p)
      modifies this`mode, this`tasks
      ensures accepted <==> old(mode) == Started
      ensures mode == if accepted then Stopping else old(mode)
      ensures tasks == old(tasks) + if accepted && old(tasks) != [] then [Sentinel] else []
      ensures accepted <==> Enabled(p, StopBegin)
      ensures accepted ==> (idle <==> q.stopper.Destroying?)
      ensures q == (if accepted then Apply(p, StopBegin) else p) && Shows(q)
    {
      if mode != Started {
        return false, false, p;
      }
      mode := Stopping;
      if tasks == [] {
        return true, true, Apply(p, StopBegin);
      }
      tasks := tasks + [Sentinel];
      return true, false, Apply(p, StopBegin);
    }

    method SafeStopCount(ghost p: Pool<T>) returns (ghost q: Pool<T>)
      requires Shows(p) && Enabled(p, StopCount)
      modifies this`ntasks
      ensures q == Apply(p, StopCount) && Shows(q)
    {
      ntasks := Inc(ntasks);
      q := Apply(p, StopCount);
    }

    // One turn of get_task under the lock, for worker i.
    method GetTaskLocked(ghost i: nat, ghost p: Pool<T>) returns (got: Fetched<T>, ghost q: Pool<T>)
      requires Shows(p) && Enabled(p, Fetch(i))
      modifies this`tasks, this`working
      ensures if mode == Down then got == Leave
              else if old(tasks) == [] then got == Sleep
              else got == Take(old(tasks)[0])
      ensures if got.Take? then tasks == old(tasks)[1..] && working == Inc(old(working))
              else tasks == old(tasks) && working == old(working)
      ensures q == Apply(p, Fetch(i)) && Shows(q)
      ensures match got
        case Sleep => q.workers[i].Waiting?
        case Leave => q.workers[i].Exited?
        case Take(job) => q.workers[i] == Popped(job, p.head)
    {
      q := Apply(p, Fetch(i));
      if tasks == [] && mode != Down {
        return Sleep, q;
      }
      if mode == Down {
        return Leave, q;
      }
      working := Inc(working);
      got := Take(tasks[0]);
      tasks := tasks[1..];
    }

    method GetTaskCount(ghost i: nat, ghost p: Pool<T>) returns (ghost q: Pool<T>)
      requires Shows(p) && Enabled(p, Uncount(i))
      modifies this`ntasks
      ensures q == Apply(p, Uncount(i)) && Shows(q)
    {
      ntasks := Dec(ntasks);
      q := Apply(p, Uncount(i));
    }

    method RunEnter(ghost i: nat, ghost p: Pool<T>) returns (ghost q: Pool<T>)
      requires Shows(p) && Enabled(p, Enter(i))
      modifies this`working
      ensures q == Apply(p, Enter(i)) && Shows(q)
    {
      working := Inc(working);
      q := Apply(p, Enter(i));
    }

    method RunLoop(ghost i: nat, ghost p: Pool<T>) returns (ghost q: Pool<T>)
      requires Shows(p) && Enabled(p, Loop(i))
      modifies this`working
      ensures q == Apply(p, Loop(i)) && Shows(q)
    {
      working := Dec(working);
      q := Apply(p, Loop(i));
    }

    // _destory: nothing to do when already down.
    method DestroyLocked(ghost a: Action<T>, ghost p: Pool<T>) returns (first: bool, ghost q: Pool<T>)
      requires Shows(p) && Inv(p) && (a.Destroy? || a.Destruct?)
      requires mode != Down ==> Enabled(p, a)
      modifies this`mode
      ensures mode == Down && (first <==> old(mode) != Down)
      ensures q == (if first then Apply(p, a) else p) && Shows(q)
    {
      if mode == Down {
        return false, p;
      }
      mode := Down;
      return true, Apply(p, a);
    }
  }
}
