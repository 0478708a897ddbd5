/**
  Who keeps the discipline balance mode depends on, and what breaks without it.  A session's dispatches
  are made under its close mutex or by the worker that handles one of its tasks.
 */
module BalanceDiscipline {
  import T = ThreadPool
  import opened Balance

  // ---- sessions are disciplined --------------------------------------------------------------

  // Where a dispatch is made: by process_recv or close, which hold m_close_mutex until it is done, or by
  // handle_wrap posting a message again.
  datatype Site = UnderMutex | FromWorker

  // `locked` are the calls made under a mutex.
  ghost predicate FromSite(s: State, a: Action, site: Site, locked: set<nat>) {
    a.Begin? ==>
      match site
      case UnderMutex => forall c :: c in s.calls && c in locked ==> s.calls[c].task.obj != a.task.obj
      case FromWorker => exists p :: 0 <= p < |s.pools| && Handles(s.pools[p], a.task.obj)
  }

  function Locked(a: Action, site: Site, locked: set<nat>): set<nat> {
    if !a.Begin? then locked else if site.UnderMutex? then locked + {a.c} else locked - {a.c}
  }

  ghost predicate SessionRun(s: State, acts: seq<Action>, sites: seq<Site>, locked: set<nat>)
    requires |acts| == |sites|
    decreases |acts|
  {
    acts == [] ||
    (Enabled(s, acts[0]) && FromSite(s, acts[0], sites[0], locked)
     && SessionRun(Apply(s, acts[0]), acts[1..], sites[1..], Locked(acts[0], sites[0], locked)))
  }

  // A worker dispatches again only for objects that have an index.
  ghost predicate FreeSettled(s: State, locked: set<nat>) {
    forall c :: c in s.calls && c !in locked ==> Settled(s, IndexOf(s, s.calls[c].task.obj))
  }

  lemma HandledByIndex(s: State, p: nat, obj: nat)
    requires PoolsOk(s) && LogsPinned(s) && p < |s.pools|
    ensures Handles(s.pools[p], obj) ==> IndexOf(s, obj) == p + 1
  {
    if Handles(s.pools[p], obj) {
      var w := s.pools[p].workers[0];
      assert T.Inv(s.pools[p]) && s.pools[p].log[w.k] == w.job;
    }
  }

  lemma SiteIsDisciplined(s: State, a: Action, site: Site, locked: set<nat>)
    requires PoolsOk(s) && Pinned(s) && FreeSettled(s, locked) && Enabled(s, a) && FromSite(s, a, site, locked)
    ensures Disciplined(s, a)
  {
    if a.Begin? && site.FromWorker? {
      var p :| 0 <= p < |s.pools| && Handles(s.pools[p], a.task.obj);
      HandledByIndex(s, p, a.task.obj);
    }
  }

  lemma FreeSettledStep(s: State, a: Action, site: Site, locked: set<nat>)
    requires PoolsOk(s) && Pinned(s) && FreeSettled(s, locked) && Enabled(s, a) && FromSite(s, a, site, locked)
    ensures FreeSettled(Apply(s, a), Locked(a, site, locked))
  {
    if a.Begin? && site.FromWorker? {
      var p :| 0 <= p < |s.pools| && Handles(s.pools[p], a.task.obj);
      HandledByIndex(s, p, a.task.obj);
    }
    if a.Store? { assert CallPinned(s, a.c); }
  }

  lemma {:induction false} SessionsAreDisciplined(s: State, acts: seq<Action>, sites: seq<Site>, locked: set<nat>)
    requires |acts| == |sites| && PoolsOk(s) && Pinned(s) && FreeSettled(s, locked)
    requires SessionRun(s, acts, sites, locked)
    ensures CanReplay(s, acts, true)
    decreases |acts|
  {
    if acts != [] {
      var a := acts[0];
      SiteIsDisciplined(s, a, sites[0], locked);
      FreeSettledStep(s, a, sites[0], locked);
      PoolsOkStep(s, a);
      PinnedStep(s, a);
      SessionsAreDisciplined(Apply(s, a), acts[1..], sites[1..], Locked(a, sites[0], locked));
    }
  }

  // The promise for sessions, with nothing assumed of the callers: no session is handled by two threads
  // at once, and its tasks form one queue served in order.
  lemma OneThreadPerSession(n: nat, index: map<nat, nat>, acts: seq<Action>, sites: seq<Site>)
    requires |acts| == |sites| && SessionRun(Init(n, index), acts, sites, {})
    ensures CanReplay(Init(n, index), acts, false)
    ensures var s := Replay(Init(n, index), acts);
      && Exclusive(s)
      && (forall p, q, j, k, obj :: Logged(s, p, j, obj) && Logged(s, q, k, obj) ==> p == q)
      && (forall p :: 0 <= p < |s.pools| ==> InOrder(s.pools[p]))
  {
    InitOk(n, index);
    SessionsAreDisciplined(Init(n, index), acts, sites, {});
    OneThreadPerObject(n, index, acts);
  }

  // ---- one undisciplined dispatch is one too many -------------------------------------------------

  // A disciplined continuation from s to r, every choice in it made on the true task_size() values.
  ghost predicate Leads(s: State, acts: seq<Action>, r: State) {
    CanReplay(s, acts, true) && CanReplay(s, acts, false) && HonestLoads(s, acts) && Replay(s, acts) == r
  }

  ghost predicate Honest(s: State, a: Action) {
    a.Choose? ==> |a.loads| == |s.pools| && forall i :: 0 <= i < |s.pools| ==> a.loads[i] == s.pools[i].ntasks
  }

  lemma LeadsNone(s: State)
    ensures Leads(s, [], s)
  {
  }

  lemma LeadsOne(s: State, a: Action)
    requires Enabled(s, a) && Disciplined(s, a) && Honest(s, a)
    ensures Leads(s, [a], Apply(s, a))
  {
    assert [a][1..] == [];
  }

  lemma {:induction false} LeadsThen(s: State, acts: seq<Action>, r: State, more: seq<Action>, t: State)
    requires Leads(s, acts, r) && Leads(r, more, t)
    ensures Leads(s, acts + more, t)
    decreases |acts|
  {
    if acts == [] {
      assert acts + more == more;
    } else {
      assert (acts + more)[1..] == acts[1..] + more;
      LeadsThen(Apply(s, acts[0]), acts[1..], r, more, t);
    }
  }

  lemma Extend(s: State, acts: seq<Action>, r: State, a: Action) returns (longer: seq<Action>)
    requires Leads(s, acts, r) && Enabled(r, a) && Disciplined(r, a) && Honest(r, a)
    ensures Leads(s, longer, Apply(r, a))
  {
    LeadsOne(r, a);
    LeadsThen(s, acts, r, [a], Apply(r, a));
    longer := acts + [a];
  }

  // ---- a pool gets round to a queued job --------------------------------------------------------------

  function Distance(w: T.Worker<Task>): nat {
    match w
    case Unborn => 5
    case LoopTop => 4
    case Waiting => 4
    case Fetching => 3
    case Popped(_, _) => 2
    case Running(_, _) => 1
    case Exited => 0
  }

  ghost predicate Ready(p: T.Pool<Task>) { T.Inv(p) && T.Serial(p) && p.mode == T.Started }

  // Steps of pool p alone lead from s to r.
  ghost predicate Within(s: State, p: nat, r: State) {
    && r.calls == s.calls && r.index == s.index && p < |r.pools| == |s.pools|
    && (forall q :: 0 <= q < |s.pools| && q != p ==> r.pools[q] == s.pools[q])
    && Ready(r.pools[p]) && r.pools[p].log == s.pools[p].log
  }

  // The worker's own next step, or a spurious wakeup: nearer to job k, and no other change.
  lemma Nearer(p: T.Pool<Task>, k: nat)
    requires Ready(p) && |p.done| <= k <= |p.log|
    requires |p.done| < k || (k < |p.log| && !T.Holding(p.workers[0]))
    ensures var a := T.NextOf(p.workers[0], 0);
      && T.Enabled(p, a) && !a.Push?
      && var q := T.Apply(p, a);
      && Ready(q) && q.log == p.log && q.toAdd == p.toAdd && |q.done| <= k
      && 6 * (k - |q.done|) + Distance(q.workers[0]) < 6 * (k - |p.done|) + Distance(p.workers[0])
  {
    var a := T.NextOf(p.workers[0], 0);
    T.InvStep(p, a);
    T.SerialStep(p, a);
  }

  lemma {:induction false} Serve(s: State, p: nat, k: nat) returns (acts: seq<Action>, r: State)
    requires p < |s.pools| && Ready(s.pools[p]) && |s.pools[p].done| <= k < |s.pools[p].log|
    ensures Leads(s, acts, r) && Within(s, p, r) && T.Holds(r.pools[p].workers[0], k)
    decreases 6 * (k - |s.pools[p].done|) + Distance(s.pools[p].workers[0])
  {
    assert |s.pools[p].workers| == 1;
    assert T.Holding(s.pools[p].workers[0]) ==> s.pools[p].workers[0].k == |s.pools[p].done|;
    hide T.Enabled, T.Apply, T.Inv, T.Serial;
    if T.Holds(s.pools[p].workers[0], k) {
      acts, r := [], s;
    } else {
      Nearer(s.pools[p], k);
      var a := Inner(p, T.NextOf(s.pools[p].workers[0], 0));
      LeadsOne(s, a);
      var more;
      more, r := Serve(Apply(s, a), p, k);
      LeadsThen(s, [a], Apply(s, a), more, r);
      acts := [a] + more;
    }
  }

  // The pool has finished its first k jobs, taken up no other, and its counter is up to date.
  ghost predicate Rested(p: T.Pool<Task>, k: nat) {
    Ready(p) && |p.done| == k <= |p.log| && !T.Holding(p.workers[0]) && p.toAdd == 0
  }

  lemma RestedCount(p: T.Pool<Task>, k: nat)
    requires Rested(p, k) && |p.log| - k < T.SIZE_MOD
    ensures p.ntasks == |p.log| - k
  {
    assert p.workers == [p.workers[0]] && p.workers[1..] == [];
    assert T.Total(p.workers, T.Unsubtracted) == 0;
    assert T.StopperStaged(p);
  }

  lemma CountsPush(p: T.Pool<Task>)
    requires Ready(p) && p.toAdd > 0
    ensures T.Enabled(p, T.CountPush)
    ensures var q := T.Apply(p, T.CountPush);
      Ready(q) && q.log == p.log && q.done == p.done && q.workers == p.workers && q.toAdd == p.toAdd - 1
  {
    T.InvStep(p, T.CountPush);
    T.SerialStep(p, T.CountPush);
  }

  lemma {:induction false} Rest(s: State, p: nat, k: nat) returns (acts: seq<Action>, r: State)
    requires p < |s.pools| && Ready(s.pools[p]) && |s.pools[p].done| <= k <= |s.pools[p].log|
    requires T.Holding(s.pools[p].workers[0]) ==> |s.pools[p].done| < k
    ensures Leads(s, acts, r) && Within(s, p, r) && Rested(r.pools[p], k)
    decreases s.pools[p].toAdd, 6 * (k - |s.pools[p].done|) + Distance(s.pools[p].workers[0])
  {
    assert |s.pools[p].workers| == 1;
    if s.pools[p].toAdd == 0 && |s.pools[p].done| == k {
      acts, r := [], s;
    } else {
      var b: T.Action<Task> := T.CountPush;
      if s.pools[p].toAdd > 0 {
        CountsPush(s.pools[p]);
      } else {
        Nearer(s.pools[p], k);
        NextHolds(s.pools[p], k);
        b := T.NextOf(s.pools[p].workers[0], 0);
      }
      hide T.Enabled, T.Apply, T.Inv, T.Serial;
      LeadsOne(s, Inner(p, b));
      var more;
      more, r := Rest(Apply(s, Inner(p, b)), p, k);
      LeadsThen(s, [Inner(p, b)], Apply(s, Inner(p, b)), more, r);
      acts := [Inner(p, b)] + more;
    }
  }

  lemma NextHolds(p: T.Pool<Task>, k: nat)
    requires Ready(p) && |p.done| < k <= |p.log| && T.Enabled(p, T.NextOf(p.workers[0], 0))
    ensures var q := T.Apply(p, T.NextOf(p.workers[0], 0));
      |q.workers| == 1 && (T.Holding(q.workers[0]) ==> |q.done| < k)
  {
  }

  // All pools but m come to rest with nothing queued.
  lemma {:induction false} RestOthers(s: State, m: nat, n: nat) returns (acts: seq<Action>, r: State)
    requires m < |s.pools| && n <= |s.pools| && forall p :: 0 <= p < |s.pools| ==> Ready(s.pools[p])
    ensures Leads(s, acts, r) && r.calls == s.calls && r.index == s.index && |r.pools| == |s.pools|
    ensures r.pools[m] == s.pools[m]
    ensures forall p :: 0 <= p < |s.pools| ==> Ready(r.pools[p])
    ensures forall p :: 0 <= p < n && p != m ==> Rested(r.pools[p], |r.pools[p].log|)
    decreases n
  {
    hide Ready, Rested, Leads;
    if n == 0 {
      LeadsNone(s);
      acts, r := [], s;
    } else {
      var s1;
      acts, s1 := RestOthers(s, m, n - 1);
      if n - 1 == m {
        r := s1;
      } else {
        ReadyBounds(s1.pools[n - 1]);
        var more;
        more, r := Rest(s1, n - 1, |s1.pools[n - 1].log|);
        LeadsThen(s, acts, s1, more, r);
        acts := acts + more;
      }
    }
  }

  lemma ReadyBounds(p: T.Pool<Task>)
    requires Ready(p)
    ensures |p.workers| == 1 && |p.done| <= |p.log| && (T.Holding(p.workers[0]) ==> |p.done| < |p.log|)
  {
  }

  // ---- the converse ---------------------------------------------------------------------------------

  // The dispatcher is running and has two workers or more.
  ghost predicate Running(s: State) {
    |s.pools| >= 2 && forall p :: 0 <= p < |s.pools| ==> s.pools[p].mode == T.Started
  }

  ghost predicate AllReady(s: State) { forall p :: 0 <= p < |s.pools| ==> Ready(s.pools[p]) }

  // The task_size() values of the moment.
  function TrueLoads(s: State): (loads: seq<int>)
    ensures |loads| == |s.pools| && forall i :: 0 <= i < |loads| ==> loads[i] == s.pools[i].ntasks
  {
    seq(|s.pools|, i requires 0 <= i < |s.pools| => s.pools[i].ntasks)
  }

  lemma ReadyPush(p: T.Pool<Task>, t: Task)
    requires Ready(p)
    ensures T.Enabled(p, T.Push(t))
    ensures var q := T.Apply(p, T.Push(t));
      && Ready(q) && |q.log| == |p.log| + 1 && q.log[|p.log|] == T.Work(t) && q.workers == p.workers
      && q.done == p.done && |q.done| <= |p.log| && (T.Holding(q.workers[0]) ==> |q.done| < |p.log|)
  {
    T.InvStep(p, T.Push(t));
    T.SerialStep(p, T.Push(t));
  }

  // A call that has chosen worker m stores its index and queues its task there.
  lemma Queued(s: State, e: nat, m: nat) returns (acts: seq<Action>, r: State)
    requires AllReady(s) && m < |s.pools|
    requires e in s.calls && s.calls[e].Chosen? && s.calls[e].n == m + 1
    ensures Leads(s, acts, r) && AllReady(r) && r.calls == s.calls - {e}
    ensures T.Enabled(s.pools[m], T.Push(s.calls[e].task))
    ensures r.pools == s.pools[m := T.Apply(s.pools[m], T.Push(s.calls[e].task))]
  {
    hide T.Inv, T.Serial, T.Apply;
    var s1 := Apply(s, Store(e));
    LeadsOne(s, Store(e));
    ReadyPush(s.pools[m], s.calls[e].task);
    hide Leads;
    acts := Extend(s, [Store(e)], s1, Schedule(e));
    r := Apply(s1, Schedule(e));
    assert r.calls == s.calls - {e};
  }

  lemma HoldsHandles(p: T.Pool<Task>, k: nat, t: Task)
    requires Ready(p) && T.Holds(p.workers[0], k) && k < |p.log| && p.log[k] == T.Work(t)
    ensures Handles(p, t.obj)
  {
  }

  // A call that has chosen worker m queues its task; worker m comes to it next, and has nothing else;
  // the other workers have nothing at all.
  lemma Prepared(s: State, e: nat, m: nat) returns (acts: seq<Action>, r: State)
    requires AllReady(s) && m < |s.pools|
    requires e in s.calls && s.calls[e].Chosen? && s.calls[e].n == m + 1
    ensures Leads(s, acts, r) && AllReady(r) && r.calls == s.calls - {e} && |r.pools| == |s.pools|
    ensures var k := |s.pools[m].log|;
      Rested(r.pools[m], k) && |r.pools[m].log| == k + 1 && r.pools[m].log[k] == T.Work(s.calls[e].task)
    ensures forall i :: 0 <= i < |r.pools| ==> r.pools[i].ntasks == if i == m then 1 else 0
  {
    hide Leads, T.Inv, T.Serial, T.Apply, T.Enabled;
    var k := |s.pools[m].log|;
    ReadyPush(s.pools[m], s.calls[e].task);
    var s1, s2, more;
    acts, s1 := Queued(s, e, m);
    more, s2 := Rest(s1, m, k);
    LeadsThen(s, acts, s1, more, s2);
    acts := acts + more;
    more, r := RestOthers(s2, m, |s2.pools|);
    LeadsThen(s, acts, s2, more, r);
    acts := acts + more;
    forall i | 0 <= i < |r.pools| ensures r.pools[i].ntasks == if i == m then 1 else 0 {
      RestedCount(r.pools[i], if i == m then k else |r.pools[i].log|);
    }
  }

  // A second call for the object that has not chosen yet then chooses another worker, and both workers
  // come to hold a task of the object.
  lemma BothServed(s: State, e: nat, c: nat, m: nat) returns (acts: seq<Action>, r: State)
    requires AllReady(s) && |s.pools| >= 2 && m < |s.pools| && e != c
    requires e in s.calls && s.calls[e].Chosen? && s.calls[e].n == m + 1
    requires c in s.calls && s.calls[c].Read? && !Settled(s, s.calls[c].n)
    requires s.calls[e].task.obj == s.calls[c].task.obj
    ensures Leads(s, acts, r) && !Exclusive(r)
  {
    hide Leads, T.Inv, T.Serial, T.Apply, T.Enabled, T.Holds, Handles, Ready, Rested;
    var t, u := s.calls[e].task, s.calls[c].task;
    var k, q := |s.pools[m].log|, if m == 0 then 1 else 0;
    var s1, s3, s4, more;
    acts, s1 := Prepared(s, e, m);
    var a := Choose(c, TrueLoads(s1));
    LeftmostUnique(TrueLoads(s1), q);
    acts := Extend(s, acts, s1, a);
    var s2 := Apply(s1, a);
    var l := |s2.pools[q].log|;
    ReadyPush(s2.pools[q], u);
    more, s3 := Queued(s2, c, q);
    LeadsThen(s, acts, s2, more, s3);
    acts := acts + more;
    more, s4 := Serve(s3, q, l);
    LeadsThen(s, acts, s3, more, s4);
    acts := acts + more;
    RestedBounds(s4.pools[m], k);
    more, r := Serve(s4, m, k);
    LeadsThen(s, acts, s4, more, r);
    acts := acts + more;
    HoldsHandles(r.pools[m], k, t);
    HoldsHandles(r.pools[q], l, u);
    if m < q { assert Handles(r.pools[m], t.obj); } else { assert Handles(r.pools[q], t.obj); }
  }

  lemma RestedBounds(p: T.Pool<Task>, k: nat)
    requires Rested(p, k)
    ensures |p.done| == k
  {
  }

  // Behind an undisciplined dispatch the object can be split over two workers.
  lemma Splits(s: State, c: nat, t: Task) returns (acts: seq<Action>, r: State)
    requires PoolsOk(s) && Pinned(s) && Running(s) && Enabled(s, Begin(c, t)) && !Disciplined(s, Begin(c, t))
    ensures Leads(Apply(s, Begin(c, t)), acts, r) && !Exclusive(r)
  {
    hide Leads, T.Inv, T.Serial, T.Apply, T.Enabled, Handles;
    var e :| e in s.calls && s.calls[e].task.obj == t.obj;
    assert CallPinned(s, e);
    assert AllReady(s);
    var s1 := Apply(s, Begin(c, t));
    LeadsNone(s1);
    acts := [];
    var s2 := s1;
    if s.calls[e].Read? {
      var a := Choose(e, TrueLoads(s1));
      acts := Extend(s1, acts, s1, a);
      s2 := Apply(s1, a);
    }
    var more;
    more, r := BothServed(s2, e, c, s2.calls[e].n - 1);
    LeadsThen(s1, acts, s2, more, r);
    acts := acts + more;
  }

  // No disciplined continuation breaks the promise; with `honest` those that choose on true loads.
  ghost predicate StaysExclusive(s: State, honest: bool) {
    forall acts ::
      CanReplay(s, acts, true) && CanReplay(s, acts, false) && (honest ==> HonestLoads(s, acts)) ==>
        Exclusive(Replay(s, acts))
  }

  // In every state a running dispatcher of two workers or more can reach under the discipline: a
  // dispatch is safe, whatever disciplined calls follow, exactly if it is disciplined; and if it is not,
  // choices made on the true task_size() values are enough to break the promise.
  lemma DisciplineIff(n: nat, index: map<nat, nat>, acts: seq<Action>, c: nat, t: Task, honest: bool)
    requires CanReplay(Init(n, index), acts, true) && CanReplay(Init(n, index), acts, false)
    requires Running(Replay(Init(n, index), acts)) && Enabled(Replay(Init(n, index), acts), Begin(c, t))
    ensures var s := Replay(Init(n, index), acts);
      StaysExclusive(Apply(s, Begin(c, t)), honest) <==> Disciplined(s, Begin(c, t))
  {
    InitOk(n, index);
    PinnedRun(Init(n, index), acts, true);
    var s := Replay(Init(n, index), acts);
    var s1 := Apply(s, Begin(c, t));
    if Disciplined(s, Begin(c, t)) {
      PoolsOkStep(s, Begin(c, t));
      PinnedStep(s, Begin(c, t));
      forall more | CanReplay(s1, more, true) && CanReplay(s1, more, false)
        ensures Exclusive(Replay(s1, more))
      {
        PinnedRun(s1, more, true);
        PinnedIsExclusive(Replay(s1, more));
      }
    } else {
      var more, r := Splits(s, c, t);
    }
  }

  lemma PinnedIsExclusive(s: State)
    requires PoolsOk(s) && LogsPinned(s)
    ensures Exclusive(s)
  {
    forall p, q, obj | 0 <= p < q < |s.pools| && Handles(s.pools[p], obj)
      ensures !Handles(s.pools[q], obj)
    {
      HandledByIndex(s, p, obj);
      HandledByIndex(s, q, obj);
    }
  }
}
