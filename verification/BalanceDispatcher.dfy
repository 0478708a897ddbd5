/**
  dispatcher_balance and the worker index of object_iface as they are written:
  `start` builds the one-thread pools, `get_worker` scans them, `dispatch`
  queues at the chosen one.  The interleavings are the business of Balance.
 */
module BalanceDispatcher {
  import opened ThreadPool
  import opened ThreadPoolMonitor
  import Balance

  type Task = Balance.Task

  class TaskObject {
    var workerIndex: nat

    constructor ()
      ensures workerIndex == 0
    {
      workerIndex := 0;
    }
  }

  class DispatcherBalance {
    var workers: seq<ThreadPoolWrap<Task>>
    var running: bool

    constructor ()
      ensures workers == [] && !running
    {
      workers, running := [], false;
    }

    // The task_size() of every worker.
    ghost function Loads(): (r: seq<int>)
      reads this, workers
      ensures |r| == |workers|
    {
      seq(|workers|, i requires 0 <= i < |workers| reads this, workers => workers[i].ntasks)
    }

    // start: no effect when running, else nworker fresh pools of one thread each.
    method Start(nworker: nat)
      requires nworker > 0
      modifies this
      ensures running
      ensures old(running) ==> workers == old(workers)
      ensures !old(running) ==> |workers| == nworker
      ensures !old(running) ==>
        forall i :: 0 <= i < nworker ==> fresh(workers[i]) && workers[i].Shows(ThreadPool.Init(1))
      ensures !old(running) ==> forall i, j :: 0 <= i < j < nworker ==> workers[i] != workers[j]
    {
      if running {
        return;
      }
      running := true;
      var pools: seq<ThreadPoolWrap<Task>> := [];
      while |pools| < nworker
        invariant |pools| <= nworker && running
        invariant forall i :: 0 <= i < |pools| ==> fresh(pools[i]) && pools[i].Shows(ThreadPool.Init(1))
        invariant forall i, j :: 0 <= i < j < |pools| ==> pools[i] != pools[j]
      {
        var pool := new ThreadPoolWrap<Task>(1);
        pools := pools + [pool];
      }
      workers := pools;
    }

    // get_worker: keep a valid index, else the leftmost least loaded worker.
    method GetWorker(index: nat) returns (worker: ThreadPoolWrap<Task>, n: nat)
      requires workers != []
      ensures 0 < index <= |workers| ==> n == index
      ensures !(0 < index <= |workers|) ==>
        && 0 < n <= |workers|
        && (forall j :: 0 <= j < |workers| ==> workers[n - 1].ntasks <= workers[j].ntasks)
        && (forall j :: 0 <= j < n - 1 ==> workers[n - 1].ntasks < workers[j].ntasks)
      ensures n == Balance.WorkerFor(index, Loads())
      ensures worker == workers[n - 1]
    {
      n := if index > |workers| then 0 else index;
      if n > 0 {
        return workers[n - 1], n;
      }
      worker := workers[0];
      var minTask := workers[0].ntasks;
      n := 1;
      var i := 1;
      while i < |workers|
        invariant 1 <= i <= |workers|
        invariant 1 <= n <= i && worker == workers[n - 1] && minTask == worker.ntasks
        invariant forall j :: 0 <= j < i ==> minTask <= workers[j].ntasks
        invariant forall j :: 0 <= j < n - 1 ==> minTask < workers[j].ntasks
      {
        var ntask := workers[i].ntasks;
        if minTask > ntask {
          minTask := ntask;
          worker := workers[i];
          n := i + 1;
        }
        i := i + 1;
      }
      IsLeftmost(n);
    }

    lemma IsLeftmost(n: nat)
      requires 0 < n <= |workers|
      requires forall j :: 0 <= j < |workers| ==> workers[n - 1].ntasks <= workers[j].ntasks
      requires forall j :: 0 <= j < n - 1 ==> workers[n - 1].ntasks < workers[j].ntasks
      ensures n == Balance.Leftmost(Loads(), |workers|) + 1
    {
      Balance.LeftmostUnique(Loads(), n - 1);
    }

    // dispatch, uninterrupted: the index sticks and only the chosen queue grows.
    method Dispatch(obj: TaskObject, task: Task)
      requires workers != []
      requires forall i, j :: 0 <= i < j < |workers| ==> workers[i] != workers[j]
      modifies obj, workers`tasks
      ensures 0 < old(obj.workerIndex) <= |workers| ==> obj.workerIndex == old(obj.workerIndex)
      ensures !(0 < old(obj.workerIndex) <= |workers|) ==> Balance.LeastLoaded(old(Loads()), obj.workerIndex)
      ensures obj.workerIndex == Balance.WorkerFor(old(obj.workerIndex), old(Loads()))
      ensures forall i :: 0 <= i < |workers| ==>
        var queued := if i == obj.workerIndex - 1 && workers[i].mode == Started then [Work(task)] else [];
        workers[i].tasks == old(workers[i].tasks) + queued
    {
      var worker, n := GetWorker(obj.workerIndex);
      obj.workerIndex := n;
      ghost var p: Pool<Task> := ThreadPool.Init(1);
      p := p.(mode := worker.mode, queue := worker.tasks, ntasks := worker.ntasks, working := worker.working);
      var accepted, q := worker.ScheduleLocked(task, p);
    }
  }
}
