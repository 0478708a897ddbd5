/**
  RefCountedPointer: handles on objects that share a counter and destroy the object with the last
  handle.  Objects, counters and handles are numbered; a run is any sequence of the operations.
 */
module RefCounted {
  import opened Options

  datatype Handle = Handle(counted: Option<nat>, refs: Option<nat>)

  // A counter; the model also notes the object it was made for.
  datatype Counter = Counter(n: nat, target: nat)

  // Live handles and counters, the objects destroyed so far, and those ever handed over.
  datatype World = World(
    handles: map<nat, Handle>, counters: map<nat, Counter>, destroyed: seq<nat>, owned: set<nat>)

  const NOTHING := Handle(None, None)

  // ---- the operations ----------------------------------------------------------------

  // From a raw pointer: a counter of its own, whatever other handles there are.  Null is the
  // default constructor.
  function FromRaw(w: World, h: nat, c: Option<nat>, k: nat): World {
    match c
    case None => w.(handles := w.handles[h := NOTHING])
    case Some(o) =>
      w.(handles := w.handles[h := Handle(c, Some(k))], counters := w.counters[k := Counter(1, o)],
      owned := w.owned + {o})
  }

  function Count(w: World, k: nat, d: int): map<nat, Counter>
    requires k in w.counters && w.counters[k].n + d >= 0
  {
    w.counters[k := w.counters[k].(n := w.counters[k].n + d)]
  }

  function Copy(w: World, h: nat, other: nat): World
    requires other in w.handles
  {
    var g := w.handles[other];
    if g.counted.Some? && g.refs.Some? && g.refs.value in w.counters then
      w.(handles := w.handles[h := g], counters := Count(w, g.refs.value, 1))
    else w.(handles := w.handles[h := NOTHING])
  }

  // The destructor.
  function Drop(w: World, h: nat): World
    requires h in w.handles
  {
    var g := w.handles[h];
    var v := w.(handles := w.handles - {h});
    if g.counted.None? || g.refs.None? || g.refs.value !in w.counters then v
    else
      var k := g.refs.value;
      if w.counters[k].n <= 1 then
        v.(counters := w.counters - {k}, destroyed := w.destroyed + [g.counted.value])
      else v.(counters := Count(w, k, -1))
  }

  function Swap(w: World, h: nat, g: nat): World
    requires h in w.handles && g in w.handles
  {
    w.(handles := w.handles[h := w.handles[g]][g := w.handles[h]])
  }

  // Both assignments: a temporary t, swapped in and destroyed.
  function AssignRaw(w: World, h: nat, c: Option<nat>, k: nat, t: nat): World
    requires h in w.handles && t !in w.handles
  {
    Drop(Swap(FromRaw(w, t, c, k), t, h), t)
  }

  function Assign(w: World, h: nat, other: nat, t: nat): World
    requires h in w.handles && other in w.handles && t !in w.handles
  {
    Drop(Swap(Copy(w, t, other), t, h), t)
  }

  // ---- the invariant --------------------------------------------------------------------

  function Holders(w: World, k: nat): set<nat> {
    set h | h in w.handles && w.handles[h].refs == Some(k)
  }

  // A handle's counter is that of its object.
  predicate Fits(w: World, g: Handle) {
    if g.refs.None? then g.counted.None?
    else g.refs.value in w.counters && g.counted == Some(w.counters[g.refs.value].target)
  }

  ghost predicate AllFit(w: World) { forall h :: h in w.handles ==> Fits(w, w.handles[h]) }

  // Every counter counts its handles.
  ghost predicate Exact(w: World) {
    forall k :: k in w.counters ==> w.counters[k].n == |Holders(w, k)| && w.counters[k].n > 0
  }

  // No object has two counters.
  ghost predicate Single(w: World) {
    forall j, k :: j in w.counters && k in w.counters && w.counters[j].target == w.counters[k].target ==> j == k
  }

  predicate Live(w: World, o: nat) { exists k :: k in w.counters && w.counters[k].target == o }

  // An object handed over has a counter or was destroyed, not both and not twice.
  ghost predicate Once(w: World) {
    && (forall i, j :: 0 <= i < j < |w.destroyed| ==> w.destroyed[i] != w.destroyed[j])
    && (forall o :: o in w.destroyed ==> o in w.owned && !Live(w, o))
    && (forall o :: o in w.owned && o !in w.destroyed ==> Live(w, o))
    && (forall k :: k in w.counters ==> w.counters[k].target in w.owned)
  }

  ghost predicate Inv(w: World) { AllFit(w) && Exact(w) && Single(w) && Once(w) }

  lemma InvInit()
    ensures Inv(World(map[], map[], [], {}))
  {
  }

  // ---- each operation keeps it ------------------------------------------------------------

  lemma NullKeeps(w: World, h: nat)
    requires Inv(w) && h !in w.handles
    ensures Inv(w.(handles := w.handles[h := NOTHING]))
  {
    NullExact(w, h);
    assert forall o :: Live(w.(handles := w.handles[h := NOTHING]), o) == Live(w, o);
  }

  lemma NullExact(w: World, h: nat)
    requires AllFit(w) && Exact(w) && h !in w.handles
    ensures var v := w.(handles := w.handles[h := NOTHING]); AllFit(v) && Exact(v)
  {
    var v := w.(handles := w.handles[h := NOTHING]);
    forall k | k in v.counters ensures Holders(v, k) == Holders(w, k) {}
    assert forall i :: i in v.handles && i != h ==> v.handles[i] == w.handles[i];
  }

  // Counting up or down changes no object's fate.
  lemma CountKeeps(w: World, v: World)
    requires Single(w) && Once(w) && v.destroyed == w.destroyed && v.owned == w.owned
    requires v.counters.Keys == w.counters.Keys
    requires forall k :: k in w.counters ==> v.counters[k].target == w.counters[k].target
    ensures Single(v) && Once(v)
  {
    forall o: nat ensures Live(v, o) == Live(w, o) {
      if Live(w, o) { var j :| j in w.counters && w.counters[j].target == o; assert v.counters[j].target == o; }
      if Live(v, o) { var j :| j in v.counters && v.counters[j].target == o; assert w.counters[j].target == o; }
    }
  }

  lemma CopyKeeps(w: World, h: nat, other: nat)
    requires Inv(w) && h !in w.handles && other in w.handles
    ensures Inv(Copy(w, h, other)) && Copy(w, h, other).handles == w.handles[h := w.handles[other]]
    ensures Copy(w, h, other).destroyed == w.destroyed && Copy(w, h, other).owned == w.owned
  {
    hide Holders, Exact, Single, Once;
    var v := Copy(w, h, other);
    assert Fits(w, w.handles[other]);
    if w.handles[other].refs.Some? {
      CountKeeps(w, v);
      CopyExact(w, h, other);
      forall i | i in v.handles
        ensures Fits(v, v.handles[i])
      {
        assert Fits(w, w.handles[if i == h then other else i]);
      }
    } else {
      NullKeeps(w, h);
    }
  }

  lemma CopyExact(w: World, h: nat, other: nat)
    requires AllFit(w) && Exact(w) && h !in w.handles && other in w.handles && w.handles[other].refs.Some?
    ensures Exact(Copy(w, h, other))
  {
    var v := Copy(w, h, other);
    assert Fits(w, w.handles[other]);
    forall k | k in v.counters
      ensures v.counters[k].n == |Holders(v, k)| && v.counters[k].n > 0
    {
      assert h !in Holders(w, k);
      assert Holders(v, k) == if w.handles[other].refs == Some(k) then Holders(w, k) + {h} else Holders(w, k);
    }
  }

  lemma SwapKeeps(w: World, h: nat, g: nat)
    requires Inv(w) && h in w.handles && g in w.handles
    ensures Inv(Swap(w, h, g))
    ensures Swap(w, h, g) == w.(handles := w.handles[h := w.handles[g]][g := w.handles[h]])
  {
    CountKeeps(w, Swap(w, h, g));
    SwapExact(w, h, g);
  }

  lemma SwapExact(w: World, h: nat, g: nat)
    requires AllFit(w) && Exact(w) && h in w.handles && g in w.handles
    ensures AllFit(Swap(w, h, g)) && Exact(Swap(w, h, g))
  {
    hide Holders;
    var v := Swap(w, h, g);
    forall k | k in v.counters
      ensures |Holders(v, k)| == |Holders(w, k)|
    {
      SwapHolders(w, h, g, k);
    }
    SwapFits(w, h, g);
  }

  lemma SwapFits(w: World, h: nat, g: nat)
    requires AllFit(w) && h in w.handles && g in w.handles
    ensures AllFit(Swap(w, h, g))
  {
    var v := Swap(w, h, g);
    forall i | i in v.handles
      ensures Fits(v, v.handles[i])
    {
      assert Fits(w, w.handles[if i == h then g else if i == g then h else i]);
    }
  }

  lemma SwapHolders(w: World, h: nat, g: nat, k: nat)
    requires h in w.handles && g in w.handles
    ensures |Holders(Swap(w, h, g), k)| == |Holders(w, k)|
  {
    var a, b := Holders(w, k), Holders(Swap(w, h, g), k);
    forall i: nat ensures i in b <==> (if i == h then g in a else if i == g then h in a else i in a) {}
    hide Holders, Swap;
    if (h in a) == (g in a) {
      assert b == a;
    } else if h in a {
      assert b == a - {h} + {g};
      Replaced(a, h, g);
    } else {
      assert b == a - {g} + {h};
      Replaced(a, g, h);
    }
  }

  lemma Replaced(a: set<nat>, x: nat, y: nat)
    requires x in a && y !in a
    ensures |a - {x} + {y}| == |a|
  {
  }

  lemma FromRawKeeps(w: World, h: nat, c: Option<nat>, k: nat)
    requires Inv(w) && h !in w.handles && k !in w.counters && (c.Some? ==> c.value !in w.owned)
    ensures Inv(FromRaw(w, h, c, k))
  {
    if c.None? {
      NullKeeps(w, h);
    } else {
      var v := FromRaw(w, h, c, k);
      FromRawExact(w, h, c.value, k);
      FromRawOnce(w, v, c.value, k);
    }
  }

  lemma FromRawExact(w: World, h: nat, o: nat, k: nat)
    requires AllFit(w) && Exact(w) && h !in w.handles && k !in w.counters
    ensures AllFit(FromRaw(w, h, Some(o), k)) && Exact(FromRaw(w, h, Some(o), k))
  {
    var v := FromRaw(w, h, Some(o), k);
    forall j | j in v.counters
      ensures v.counters[j].n == |Holders(v, j)| && v.counters[j].n > 0
    {
      forall i | i in w.handles && j == k
        ensures v.handles[i] == w.handles[i] && w.handles[i].refs != Some(k)
      {
        assert Fits(w, w.handles[i]);
      }
      assert Holders(v, j) == if j == k then {h} else Holders(w, j);
    }
    assert forall i :: i in v.handles && i != h ==> v.handles[i] == w.handles[i];
  }

  lemma RawExact(w: World, h: nat, c: Option<nat>, k: nat)
    requires AllFit(w) && Exact(w) && h !in w.handles && k !in w.counters
    ensures AllFit(FromRaw(w, h, c, k)) && Exact(FromRaw(w, h, c, k))
  {
    if c.Some? { FromRawExact(w, h, c.value, k); } else { NullExact(w, h); }
  }

  lemma FromRawOnce(w: World, v: World, o: nat, k: nat)
    requires Single(w) && Once(w) && k !in w.counters && o !in w.owned
    requires v.counters == w.counters[k := Counter(1, o)] && v.owned == w.owned + {o} && v.destroyed == w.destroyed
    ensures Single(v) && Once(v)
  {
    forall p: nat ensures Live(v, p) == (Live(w, p) || p == o) {
      if Live(w, p) { var j :| j in w.counters && w.counters[j].target == p; assert v.counters[j].target == p; }
      assert v.counters[k].target == o;
    }
  }

  // The object goes with its last handle, and only then.
  lemma DropKeeps(w: World, h: nat)
    requires Inv(w) && h in w.handles
    ensures var v := Drop(w, h); var c := w.handles[h].counted;
      && Inv(v) && v.handles == w.handles - {h} && v.owned == w.owned
      && v.destroyed == w.destroyed + if c.Some? && !Live(v, c.value) then [c.value] else []
  {
    var v, g := Drop(w, h), w.handles[h];
    assert Fits(w, g);
    if g.refs.None? {
      forall k | k in v.counters ensures Holders(v, k) == Holders(w, k) {}
      CountKeeps(w, v);
      assert v.destroyed == w.destroyed + [];
    } else {
      var k := g.refs.value;
      DropExact(w, h);
      DropFits(w, h);
      if w.counters[k].n > 1 {
        CountKeeps(w, v);
        assert v.counters[k].target == g.counted.value;
        assert v.destroyed == w.destroyed + [];
      } else {
        DropOnce(w, v, k);
      }
    }
  }

  lemma DropExact(w: World, h: nat)
    requires Exact(w) && h in w.handles && Fits(w, w.handles[h]) && w.handles[h].refs.Some?
    ensures Exact(Drop(w, h))
  {
    var v, g := Drop(w, h), w.handles[h];
    forall k | k in v.counters
      ensures v.counters[k].n == |Holders(v, k)| && v.counters[k].n > 0
    {
      assert h in Holders(w, g.refs.value);
      assert Holders(v, k) == Holders(w, k) - if g.refs == Some(k) then {h} else {};
    }
  }

  lemma DropFits(w: World, h: nat)
    requires AllFit(w) && Exact(w) && h in w.handles && w.handles[h].refs.Some?
    ensures AllFit(Drop(w, h))
  {
    var v := Drop(w, h);
    assert Fits(w, w.handles[h]);
    var k := w.handles[h].refs.value;
    forall i | i in v.handles
      ensures Fits(v, v.handles[i])
    {
      assert Fits(w, w.handles[i]);
      if w.counters[k].n <= 1 && w.handles[i].refs == Some(k) {
        assert {h, i} <= Holders(w, k) && |{h, i}| == 2;
        SubsetSize({h, i}, Holders(w, k));
        assert false;
      }
    }
  }

  lemma {:induction false} SubsetSize(a: set<nat>, b: set<nat>)
    requires a <= b
    ensures |a| <= |b|
  {
    if a != {} {
      var x :| x in a;
      SubsetSize(a - {x}, b - {x});
    }
  }

  lemma DropOnce(w: World, v: World, k: nat)
    requires Single(w) && Once(w) && k in w.counters && v.counters == w.counters - {k} && v.owned == w.owned
    requires v.destroyed == w.destroyed + [w.counters[k].target]
    ensures Single(v) && Once(v) && !Live(v, w.counters[k].target)
  {
    var o := w.counters[k].target;
    assert Live(w, o);
    forall p: nat ensures Live(v, p) == (Live(w, p) && p != o) {
      if Live(w, p) && p != o {
        var j :| j in w.counters && w.counters[j].target == p;
        assert v.counters[j].target == p;
      }
    }
  }

  // ---- runs -------------------------------------------------------------------------------------

  // c: the object handed over raw, k: the new counter's number, t: the temporary's.
  datatype Action =
    | New(h: nat, c: Option<nat>, k: nat)
    | CopyOf(h: nat, other: nat)
    | Dispose(h: nat)
    | SwapWith(h: nat, other: nat)
    | SetRaw(h: nat, c: Option<nat>, k: nat, t: nat)
    | SetFrom(h: nat, other: nat, t: nat)

  // The program uses live handles, new ones are new, and a raw pointer is one never handed over.
  predicate Allowed(w: World, a: Action) {
    match a
    case New(h, c, k) => h !in w.handles && k !in w.counters && Unowned(w, c)
    case CopyOf(h, other) => h !in w.handles && other in w.handles
    case Dispose(h) => h in w.handles
    case SwapWith(h, other) => h in w.handles && other in w.handles
    case SetRaw(h, c, k, t) => h in w.handles && t !in w.handles && k !in w.counters && Unowned(w, c)
    case SetFrom(h, other, t) => h in w.handles && other in w.handles && t !in w.handles
  }

  predicate Unowned(w: World, c: Option<nat>) { c.Some? ==> c.value !in w.owned }

  function Act(w: World, a: Action): World
    requires Allowed(w, a)
  {
    match a
    case New(h, c, k) => FromRaw(w, h, c, k)
    case CopyOf(h, other) => Copy(w, h, other)
    case Dispose(h) => Drop(w, h)
    case SwapWith(h, other) => Swap(w, h, other)
    case SetRaw(h, c, k, t) => AssignRaw(w, h, c, k, t)
    case SetFrom(h, other, t) => Assign(w, h, other, t)
  }

  lemma ActKeeps(w: World, a: Action)
    requires Inv(w) && Allowed(w, a)
    ensures Inv(Act(w, a))
  {
    hide Inv, Copy, Drop, FromRaw;
    match a
    case New(h, c, k) => FromRawKeeps(w, h, c, k);
    case CopyOf(h, other) => CopyKeeps(w, h, other);
    case Dispose(h) => DropKeeps(w, h);
    case SwapWith(h, other) => SwapKeeps(w, h, other);
    case SetRaw(h, c, k, t) =>
      FromRawKeeps(w, t, c, k);
      FromRawHandles(w, t, c, k);
      var v := FromRaw(w, t, c, k);
      SwapKeeps(v, t, h);
      DropKeeps(Swap(v, t, h), t);
    case SetFrom(h, other, t) =>
      CopyKeeps(w, t, other);
      CopyHandles(w, t, other);
      var v := Copy(w, t, other);
      SwapKeeps(v, t, h);
      DropKeeps(Swap(v, t, h), t);
  }

  lemma FromRawHandles(w: World, h: nat, c: Option<nat>, k: nat)
    ensures FromRaw(w, h, c, k).handles.Keys == w.handles.Keys + {h}
  {
  }

  lemma CopyHandles(w: World, h: nat, other: nat)
    requires other in w.handles
    ensures Copy(w, h, other).handles.Keys == w.handles.Keys + {h}
  {
  }

  ghost predicate Runs(w: World, actions: seq<Action>)
    decreases |actions|
  {
    actions == [] || (Allowed(w, actions[0]) && Runs(Act(w, actions[0]), actions[1..]))
  }

  function After(w: World, actions: seq<Action>): World
    requires Runs(w, actions)
    decreases |actions|
  {
    if actions == [] then w else After(Act(w, actions[0]), actions[1..])
  }

  lemma {:induction false} RunKeeps(w: World, actions: seq<Action>)
    requires Inv(w) && Runs(w, actions)
    ensures Inv(After(w, actions))
    decreases |actions|
  {
    if actions != [] {
      ActKeeps(w, actions[0]);
      RunKeeps(Act(w, actions[0]), actions[1..]);
    }
  }

  // ---- what it means for the handles ------------------------------------------------------------

  function HandlesOn(w: World, o: nat): set<nat> {
    set h | h in w.handles && w.handles[h].counted == Some(o)
  }

  // After any run: an object handed over has been destroyed exactly once if no handle is on it, and
  // not at all otherwise; then one counter, shared by all its handles, holds their number.
  lemma DestroyedWithLastHandle(actions: seq<Action>, o: nat)
    requires Runs(World(map[], map[], [], {}), actions)
    ensures var w := After(World(map[], map[], [], {}), actions);
      o in w.owned ==>
        && multiset(w.destroyed)[o] == (if HandlesOn(w, o) == {} then 1 else 0)
        && (HandlesOn(w, o) != {} ==>
              exists k :: k in w.counters && w.counters[k].n == |HandlesOn(w, o)| && Holders(w, k) == HandlesOn(w, o))
  {
    InvInit();
    RunKeeps(World(map[], map[], [], {}), actions);
    var w := After(World(map[], map[], [], {}), actions);
    if o in w.owned {
      if o in w.destroyed {
        CountOnce(w.destroyed, o);
        forall h | h in w.handles ensures h !in HandlesOn(w, o) {
          assert Fits(w, w.handles[h]);
        }
        assert HandlesOn(w, o) == {};
      } else {
        var k :| k in w.counters && w.counters[k].target == o;
        forall h | h in w.handles ensures h in Holders(w, k) <==> h in HandlesOn(w, o) {
          assert Fits(w, w.handles[h]);
        }
        assert Holders(w, k) == HandlesOn(w, o);
      }
    }
  }

  lemma {:induction false} CountOnce(s: seq<nat>, o: nat)
    requires o in s && forall i, j :: 0 <= i < j < |s| ==> s[i] != s[j]
    ensures multiset(s)[o] == 1
  {
    var n := |s| - 1;
    assert s == s[..n] + [s[n]];
    if s[n] != o { CountOnce(s[..n], o); }
  }

  // ---- what the assignments do -------------------------------------------------------------------

  // What becomes of the handles on counter k when one moves from `from` to `to`.
  function Moved(n: nat, k: nat, from: Handle, to: Handle): int {
    n + (if to.refs == Some(k) then 1 else 0) - (if from.refs == Some(k) then 1 else 0)
  }

  // Counters go up and down by one and go away at zero.
  ghost predicate Recounted(c: map<nat, Counter>, d: map<nat, Counter>, from: Handle, to: Handle) {
    && (forall k :: k in c ==>
          var n := Moved(c[k].n, k, from, to);
          if n > 0 then k in d && d[k] == c[k].(n := n) else k !in d)
    && (forall k :: k in d && k !in c ==> to.refs == Some(k))
  }

  // From w to v handle h takes the value g, and the others keep theirs.  The object h was on is destroyed
  // exactly if h was its only handle.
  ghost predicate Takes(w: World, v: World, h: nat, g: Handle)
    requires h in w.handles
  {
    var was := w.handles[h];
    && v.handles == w.handles[h := g]
    && Recounted(w.counters, v.counters, was, g)
    && v.destroyed ==
         w.destroyed + if was.counted.Some? && was != g && HandlesOn(w, was.counted.value) == {h}
                       then [was.counted.value] else []
  }

  // A counter stands at one exactly if its object has one handle.
  lemma LastHandle(w: World, h: nat)
    requires Inv(w) && h in w.handles && w.handles[h].refs.Some?
    ensures w.handles[h].counted.Some? && w.handles[h].refs.value in w.counters
    ensures w.counters[w.handles[h].refs.value].n == 1 <==> HandlesOn(w, w.handles[h].counted.value) == {h}
  {
    var g := w.handles[h];
    assert Fits(w, g);
    forall i | i in w.handles ensures i in Holders(w, g.refs.value) <==> i in HandlesOn(w, g.counted.value) {
      assert Fits(w, w.handles[i]);
    }
    assert Holders(w, g.refs.value) == HandlesOn(w, g.counted.value);
    assert h in Holders(w, g.refs.value);
    if |Holders(w, g.refs.value)| == 1 { OnlyElement(Holders(w, g.refs.value), h); }
  }

  lemma OnlyElement(a: set<nat>, x: nat)
    requires |a| == 1 && x in a
    ensures a == {x}
  {
    assert |a - {x}| == 0;
  }

  // Destroying a handle that stands at t in place of h.
  lemma SwappedDrop(w: World, h: nat, t: nat)
    requires h in w.handles && t in w.handles && h != t && Fits(w, w.handles[h])
    ensures var v, was := Drop(Swap(w, t, h), t), w.handles[h];
      && v.handles == (w.handles - {t})[h := w.handles[t]] && v.owned == w.owned
      && if was.refs.None? then v.counters == w.counters && v.destroyed == w.destroyed
         else
           var k := was.refs.value;
           if w.counters[k].n <= 1 then
             v.counters == w.counters - {k} && v.destroyed == w.destroyed + [was.counted.value]
           else v.counters == Count(w, k, -1) && v.destroyed == w.destroyed
  {
    assert Swap(w, t, h).handles - {t} == (w.handles - {t})[h := w.handles[t]];
  }

  // Counted up for `to` from c to x, then down for `from` from x to d.
  lemma UpAndDown(c: map<nat, Counter>, x: map<nat, Counter>, d: map<nat, Counter>, from: Handle, to: Handle)
    requires forall k :: k in c ==> c[k].n > 0 && k in x
    requires forall k :: k in c ==> x[k] == c[k].(n := c[k].n + if to.refs == Some(k) then 1 else 0)
    requires forall k :: k in x && k !in c ==> to.refs == Some(k)
    requires if from.refs.None? then d == x
             else
               from.refs.value in c &&
               var n := x[from.refs.value].n - 1;
               d == if n <= 0 then x - {from.refs.value} else x[from.refs.value := x[from.refs.value].(n := n)]
    ensures Recounted(c, d, from, to)
  {
  }

  // The books after a temporary with the value g was made and took h's place.
  lemma TempBooks(w: World, x: World, h: nat, t: nat, g: Handle, alone: bool)
    requires h in w.handles && t !in w.handles && x.handles == w.handles[t := g] && Fits(x, w.handles[h])
    requires x.destroyed == w.destroyed && w.counters.Keys <= x.counters.Keys
    requires forall k :: k in x.counters && k !in w.counters ==> g.refs == Some(k)
    requires forall k :: k in w.counters ==> w.counters[k].n > 0
    requires forall k :: k in w.counters ==>
      x.counters[k] == w.counters[k].(n := w.counters[k].n + if g.refs == Some(k) then 1 else 0)
    requires var was := w.handles[h];
      was.refs.Some? ==> was.refs.value in w.counters && (w.counters[was.refs.value].n == 1 <==> alone)
    ensures var v, was := Drop(Swap(x, t, h), t), w.handles[h];
      && v.handles == w.handles[h := g] && Recounted(w.counters, v.counters, was, g)
      && v.destroyed ==
         w.destroyed + if was.counted.Some? && was.refs != g.refs && alone then [was.counted.value] else []
  {
    hide Drop;
    SwappedDrop(x, h, t);
    var v := Drop(Swap(x, t, h), t);
    assert v.handles == w.handles[h := g];
    UpAndDown(w.counters, x.counters, v.counters, w.handles[h], g);
    hide Recounted;
  }

  lemma TempTakes(w: World, x: World, h: nat, t: nat, g: Handle)
    requires Inv(w) && h in w.handles && t !in w.handles && x.handles == w.handles[t := g] && Fits(x, w.handles[h])
    requires x.destroyed == w.destroyed && w.counters.Keys <= x.counters.Keys
    requires forall k :: k in x.counters && k !in w.counters ==> g.refs == Some(k)
    requires forall k :: k in w.counters ==>
      x.counters[k] == w.counters[k].(n := w.counters[k].n + if g.refs == Some(k) then 1 else 0)
    requires w.handles[h].refs.Some? && w.handles[h].refs == g.refs ==> w.handles[h] == g
    ensures Takes(w, Drop(Swap(x, t, h), t), h, g)
  {
    Positive(w);
    var was := w.handles[h];
    assert Fits(w, was);
    if was.refs.Some? { LastHandle(w, h); }
    hide Inv, HandlesOn, Drop, Recounted;
    TempBooks(w, x, h, t, g, was.counted.Some? && HandlesOn(w, was.counted.value) == {h});
  }

  lemma Positive(w: World)
    requires Inv(w)
    ensures forall k :: k in w.counters ==> w.counters[k].n > 0
  {
  }

  // Assigning a handle: h is then on the object of the other.
  lemma AssignTakes(w: World, h: nat, other: nat, t: nat)
    requires Inv(w) && h in w.handles && other in w.handles && t !in w.handles
    ensures Takes(w, Assign(w, h, other, t), h, w.handles[other])
    ensures Assign(w, h, other, t).owned == w.owned
  {
    assert Fits(w, w.handles[h]) && Fits(w, w.handles[other]);
    var x := Copy(w, t, other);
    SwappedDrop(x, h, t);
    hide Inv, Swap, Drop;
    TempTakes(w, x, h, t, w.handles[other]);
  }

  // Assigning a raw pointer: h is then on that object, with a new counter at one.
  lemma AssignRawTakes(w: World, h: nat, c: Option<nat>, k: nat, t: nat)
    requires Inv(w) && h in w.handles && t !in w.handles && k !in w.counters && Unowned(w, c)
    ensures var v := AssignRaw(w, h, c, k, t);
      && Takes(w, v, h, Handle(c, if c.Some? then Some(k) else None))
      && (c.Some? ==> k in v.counters && v.counters[k] == Counter(1, c.value))
      && v.owned == w.owned + if c.Some? then {c.value} else {}
  {
    assert Fits(w, w.handles[h]);
    var x := FromRaw(w, t, c, k);
    SwappedDrop(x, h, t);
    hide Inv, Swap, Drop;
    TempTakes(w, x, h, t, Handle(c, if c.Some? then Some(k) else None));
  }

  // Assigning a handle to itself changes nothing.
  lemma SelfAssign(w: World, h: nat, t: nat)
    requires Inv(w) && h in w.handles && t !in w.handles
    ensures Assign(w, h, h, t) == w
  {
    assert Fits(w, w.handles[h]);
    var v := Assign(w, h, h, t);
    assert v.handles == w.handles;
    if w.handles[h].refs.Some? {
      assert h in Holders(w, w.handles[h].refs.value);
      assert v.counters == w.counters;
    }
  }

  // ---- assigning a raw pointer ------------------------------------------------------------------

  // It always starts a second count: it keeps the books exactly if the pointer is null or was never
  // handed over.
  lemma RawAssignIff(w: World, h: nat, c: Option<nat>, k: nat, t: nat)
    requires Inv(w) && h in w.handles && t !in w.handles && k !in w.counters
    ensures Inv(AssignRaw(w, h, c, k, t)) <==> Unowned(w, c)
  {
    if Unowned(w, c) {
      ActKeeps(w, SetRaw(h, c, k, t));
    } else {
      RawAssignBreaks(w, h, c.value, k, t);
    }
  }

  lemma RawAssignBreaks(w: World, h: nat, o: nat, k: nat, t: nat)
    requires Inv(w) && h in w.handles && t !in w.handles && k !in w.counters && o in w.owned
    ensures !Inv(AssignRaw(w, h, Some(o), k, t))
  {
    var v := AssignRaw(w, h, Some(o), k, t);
    assert Fits(w, w.handles[h]);
    assert k in v.counters && v.counters[k].target == o;
    assert Live(v, o);
    if o !in v.destroyed {
      assert o !in w.destroyed;
      var j :| j in w.counters && w.counters[j].target == o;
      assert j in v.counters && v.counters[j].target == o;
    }
  }

  // Given the pointer it already manages alone, a handle destroys the object it goes on pointing to.
  lemma RawSelfAssign(w: World, h: nat, k: nat, t: nat)
    requires Inv(w) && h in w.handles && t !in w.handles && k !in w.counters && w.handles[h].counted.Some?
    requires HandlesOn(w, w.handles[h].counted.value) == {h}
    ensures var o := w.handles[h].counted; var v := AssignRaw(w, h, o, k, t);
      v.handles[h].counted == o && o.value in v.destroyed
  {
    var g := w.handles[h];
    assert Fits(w, g);
    var j := g.refs.value;
    forall i | i in Holders(w, j) ensures i in HandlesOn(w, g.counted.value) {
      assert Fits(w, w.handles[i]);
    }
    assert h in Holders(w, j);
    assert Holders(w, j) == {h};
  }
}
