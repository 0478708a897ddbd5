/**
  ConnectionPool: a list of connections that are in use or free.  Each public operation holds the
  pool's mutex and is one step.  A connection's number stands for the object, not its address.
 */
module ConnectionPool {

  datatype Info = Info(conn: nat, lastUsed: int, inUse: bool)

  // ---- the order of ConnectionInfo ------------------------------------------------------

  predicate Less(a: Info, b: Info) {
    if a.inUse == b.inUse then a.lastUsed < b.lastUsed else a.inUse
  }

  // A strict weak order, as max_element needs.
  lemma StrictWeakOrder(a: Info, b: Info, c: Info)
    ensures !Less(a, a)
    ensures Less(a, b) && Less(b, c) ==> Less(a, c)
    ensures !Less(a, b) && !Less(b, a) && !Less(b, c) && !Less(c, b) ==> !Less(a, c) && !Less(c, a)
  {
  }

  // max_element: the first of the greatest.
  function MaxElement(pool: seq<Info>): (m: nat)
    requires pool != []
    ensures m < |pool|
    ensures forall i :: 0 <= i < |pool| ==> !Less(pool[m], pool[i])
    ensures forall i :: 0 <= i < m ==> Less(pool[i], pool[m])
  {
    var last := |pool| - 1;
    if last == 0 then 0
    else
      var m := MaxElement(pool[..last]);
      if Less(pool[m], pool[last]) then last else m
  }

  // ---- operations on the list ----------------------------------------------------------------

  function TooOld(now: int, idle: nat): Info -> bool {
    (c: Info) => !c.inUse && c.lastUsed <= now - idle
  }

  function Unused(all: bool): Info -> bool {
    (c: Info) => all || !c.inUse
  }

  function Keep(pool: seq<Info>, gone: Info -> bool): seq<Info> {
    if pool == [] then []
    else
      var last := pool[|pool| - 1];
      Keep(pool[..|pool| - 1], gone) + if gone(last) then [] else [last]
  }

  // The connections destroyed, in order.
  function Gone(pool: seq<Info>, gone: Info -> bool): seq<nat> {
    if pool == [] then []
    else
      var last := pool[|pool| - 1];
      Gone(pool[..|pool| - 1], gone) + if gone(last) then [last.conn] else []
  }

  // The first entry of a connection, or the length of the list.
  function Find(pool: seq<Info>, pc: nat): (i: nat)
    ensures i <= |pool| && (i < |pool| ==> pool[i].conn == pc)
    ensures forall j :: 0 <= j < i ==> pool[j].conn != pc
  {
    if pool == [] then 0 else if pool[0].conn == pc then 0 else 1 + Find(pool[1..], pc)
  }

  function Mru(pool: seq<Info>): (i: nat)
    ensures i <= |pool|
  {
    if pool != [] && !pool[MaxElement(pool)].inUse then MaxElement(pool) else |pool|
  }

  // The most recently used free connection, the first of several; none only if none is free.
  lemma MruIsFreeAndLatest(pool: seq<Info>)
    ensures var m := Mru(pool);
      && (m == |pool| <==> forall c <- pool :: c.inUse)
      && (m < |pool| ==>
            && !pool[m].inUse
            && (forall i :: 0 <= i < |pool| && !pool[i].inUse ==> pool[i].lastUsed <= pool[m].lastUsed)
            && (forall i :: 0 <= i < m && !pool[i].inUse ==> pool[i].lastUsed < pool[m].lastUsed))
  {
    if pool != [] {
      var m := MaxElement(pool);
      assert forall i :: 0 <= i < |pool| ==> !Less(pool[m], pool[i]);
      assert pool[m] in pool;
    }
  }

  // ---- the pool as a machine ---------------------------------------------------------------------

  // `held`: handed out by grab, and since neither released, removed nor cleared away.
  datatype Pool = Pool(list: seq<Info>, created: seq<nat>, destroyed: seq<nat>, held: set<nat>)

  // The times read in the step, the idle limit, and the connection create() would make.
  datatype Action =
    | Grab(asked: int, idle: nat, now: int, made: nat)
    | Release(pc: nat, now: int)
    | Remove(pc: nat)
    | Clear(all: bool)

  function Pruned(p: Pool, gone: Info -> bool): Pool {
    p.(list := Keep(p.list, gone), destroyed := p.destroyed + Gone(p.list, gone))
  }

  predicate Allowed(p: Pool, a: Action) { a.Grab? ==> a.made !in p.created }

  function Result(p: Pool, a: Action): nat
    requires a.Grab?
  {
    var list := Keep(p.list, TooOld(a.asked, a.idle));
    if Mru(list) < |list| then list[Mru(list)].conn else a.made
  }

  function Step(p: Pool, a: Action): Pool {
    match a
    case Grab(asked, idle, now, made) =>
      var q := Pruned(p, TooOld(asked, idle));
      var m := Mru(q.list);
      var q := q.(held := q.held + {Result(p, a)});
      if m < |q.list| then q.(list := q.list[m := q.list[m].(inUse := true)])
      else q.(list := q.list + [Info(made, now, true)], created := q.created + [made])
    case Release(pc, now) =>
      var i := Find(p.list, pc);
      var q := p.(held := p.held - {pc});
      if i < |p.list| then q.(list := p.list[i := Info(pc, now, false)]) else q
    case Remove(pc) =>
      var i := Find(p.list, pc);
      if i < |p.list| then
        Pool(p.list[..i] + p.list[i + 1..], p.created, p.destroyed + [pc], p.held - {pc})
      else p
    case Clear(all) =>
      var q := Pruned(p, Unused(all));
      if all then q.(held := {}) else q
  }

  // ---- the invariant ---------------------------------------------------------------------------

  function Conns(list: seq<Info>): seq<nat> {
    seq(|list|, i requires 0 <= i < |list| => list[i].conn)
  }

  ghost function InUse(list: seq<Info>): set<nat> {
    set i | 0 <= i < |list| && list[i].inUse :: list[i].conn
  }

  // Every connection created is in the pool once or was destroyed once, and the entries in use are
  // those handed out.
  ghost predicate Inv(p: Pool) {
    && multiset(p.created) == multiset(Conns(p.list)) + multiset(p.destroyed)
    && (forall c :: multiset(p.created)[c] <= 1)
    && p.held == InUse(p.list)
  }

  lemma InvInit()
    ensures Inv(Pool([], [], [], {}))
  {
  }

  lemma ConnsOne(list: seq<Info>, c: Info)
    ensures Conns(list + [c]) == Conns(list) + [c.conn]
    ensures InUse(list + [c]) == InUse(list) + if c.inUse then {c.conn} else {}
  {
    var l := list + [c];
    assert forall i :: 0 <= i < |list| ==> l[i] == list[i];
    forall x | x in InUse(list) + (if c.inUse then {c.conn} else {}) ensures x in InUse(l) {
      if x in InUse(list) {
        var i :| 0 <= i < |list| && list[i].inUse && list[i].conn == x;
        assert l[i].inUse && l[i].conn == x;
      } else {
        assert l[|list|] == c;
      }
    }
  }

  lemma {:induction false} PruneConns(list: seq<Info>, gone: Info -> bool)
    ensures multiset(Conns(Keep(list, gone))) + multiset(Gone(list, gone)) == multiset(Conns(list))
  {
    if list != [] {
      var init, last := list[..|list| - 1], list[|list| - 1];
      assert list == init + [last];
      PruneConns(init, gone);
      ConnsOne(init, last);
      ConnsOne(Keep(init, gone), last);
      hide Conns;
      assert Keep(init, gone) + [] == Keep(init, gone) && Gone(init, gone) + [] == Gone(init, gone);
    }
  }

  lemma {:induction false} PruneMembers(list: seq<Info>, gone: Info -> bool)
    ensures forall c :: c in Keep(list, gone) <==> c in list && !gone(c)
  {
    if list != [] {
      assert list == list[..|list| - 1] + [list[|list| - 1]];
      PruneMembers(list[..|list| - 1], gone);
    }
  }

  lemma PruneInUse(list: seq<Info>, gone: Info -> bool)
    requires forall c <- list :: gone(c) ==> !c.inUse
    ensures InUse(Keep(list, gone)) == InUse(list)
  {
    PruneMembers(list, gone);
    InUseMembers(list);
    InUseMembers(Keep(list, gone));
  }

  lemma InUseMembers(list: seq<Info>)
    ensures forall x :: x in InUse(list) <==> exists c <- list :: c.inUse && c.conn == x
  {
    forall x | exists c <- list :: c.inUse && c.conn == x ensures x in InUse(list) {
      var c :| c in list && c.inUse && c.conn == x;
      var i :| 0 <= i < |list| && list[i] == c;
    }
  }

  lemma PruneParts(list: seq<Info>, gone: Info -> bool)
    ensures multiset(Conns(Keep(list, gone))) + multiset(Gone(list, gone)) == multiset(Conns(list))
    ensures (forall c <- list :: gone(c) ==> !c.inUse) ==> InUse(Keep(list, gone)) == InUse(list)
    ensures forall c :: c in Keep(list, gone) <==> c in list && !gone(c)
  {
    PruneConns(list, gone);
    PruneMembers(list, gone);
    if forall c <- list :: gone(c) ==> !c.inUse { PruneInUse(list, gone); }
  }

  // Pruning keeps, in order, exactly the entries in use and those idle for less than the limit.
  lemma PruneExact(list: seq<Info>, now: int, idle: nat)
    ensures var kept := Keep(list, TooOld(now, idle));
      && (forall c :: c in kept <==> c in list && (c.inUse || now - c.lastUsed < idle))
      && InUse(kept) == InUse(list)
      && multiset(Conns(kept)) + multiset(Gone(list, TooOld(now, idle))) == multiset(Conns(list))
  {
    PruneParts(list, TooOld(now, idle));
  }

  lemma Update(list: seq<Info>, i: nat, c: Info)
    requires i < |list| && c.conn == list[i].conn
    ensures Conns(list[i := c]) == Conns(list)
  {
  }

  lemma {:induction false} Twice(s: seq<nat>, i: nat, j: nat)
    requires i < j < |s| && s[i] == s[j]
    ensures multiset(s)[s[i]] >= 2
  {
    var n := |s| - 1;
    assert s == s[..n] + [s[n]];
    if j < n {
      Twice(s[..n], i, j);
    } else {
      assert s[i] in s[..n];
    }
  }

  lemma PoolDistinct(p: Pool, i: nat, j: nat)
    requires Inv(p) && i < j < |p.list|
    ensures p.list[i].conn != p.list[j].conn
  {
    assert multiset(Conns(p.list))[p.list[i].conn] <= multiset(p.created)[p.list[i].conn] <= 1;
    if p.list[i].conn == p.list[j].conn { Twice(Conns(p.list), i, j); }
  }

  // ---- each step keeps it ----------------------------------------------------------------------

  lemma PrunedKeeps(p: Pool, gone: Info -> bool)
    requires Inv(p) && forall c <- p.list :: gone(c) ==> !c.inUse
    ensures Inv(Pruned(p, gone))
  {
    PruneParts(p.list, gone);
  }

  // An entry that changes hands.
  lemma InUseUpdate(list: seq<Info>, i: nat, c: Info)
    requires i < |list| && c.conn == list[i].conn
    requires forall j, k :: 0 <= j < k < |list| ==> list[j].conn != list[k].conn
    ensures InUse(list[i := c]) == if c.inUse then InUse(list) + {c.conn} else InUse(list) - {c.conn}
  {
    var l := list[i := c];
    forall x | x in InUse(list) && x != c.conn ensures x in InUse(l) {
      var k :| 0 <= k < |list| && list[k].inUse && list[k].conn == x;
      assert l[k].inUse && l[k].conn == x;
    }
    forall x | x in InUse(l) && x != c.conn ensures x in InUse(list) {
      var k :| 0 <= k < |l| && l[k].inUse && l[k].conn == x;
      assert list[k].inUse && list[k].conn == x;
    }
    if c.inUse { assert l[i].inUse && l[i].conn == c.conn; }
    forall k | 0 <= k < |l| && k != i ensures l[k].conn != c.conn {
      assert list[if k < i then k else i].conn != list[if k < i then i else k].conn;
    }
  }

  lemma AllDistinct(p: Pool)
    requires Inv(p)
    ensures forall j, k :: 0 <= j < k < |p.list| ==> p.list[j].conn != p.list[k].conn
  {
    forall j, k | 0 <= j < k < |p.list| ensures p.list[j].conn != p.list[k].conn { PoolDistinct(p, j, k); }
  }

  lemma GrabKeeps(p: Pool, a: Action)
    requires Inv(p) && a.Grab? && Allowed(p, a)
    ensures Inv(Step(p, a))
  {
    var q := Pruned(p, TooOld(a.asked, a.idle));
    PrunedKeeps(p, TooOld(a.asked, a.idle));
    var m := Mru(q.list);
    if m < |q.list| {
      AllDistinct(q);
      InUseUpdate(q.list, m, q.list[m].(inUse := true));
      Update(q.list, m, q.list[m].(inUse := true));
    } else {
      ConnsOne(q.list, Info(a.made, a.now, true));
    }
  }

  lemma ReleaseKeeps(p: Pool, pc: nat, now: int)
    requires Inv(p)
    ensures Inv(Step(p, Release(pc, now)))
  {
    var i := Find(p.list, pc);
    if i < |p.list| {
      AllDistinct(p);
      InUseUpdate(p.list, i, Info(pc, now, false));
      Update(p.list, i, Info(pc, now, false));
    } else {
      NotInUse(p.list, pc);
    }
  }

  lemma NotInUse(list: seq<Info>, pc: nat)
    requires forall j :: 0 <= j < |list| ==> list[j].conn != pc
    ensures pc !in InUse(list) && InUse(list) - {pc} == InUse(list)
  {
  }

  lemma RemoveKeeps(p: Pool, pc: nat)
    requires Inv(p)
    ensures Inv(Step(p, Remove(pc)))
  {
    hide InUse, Conns;
    var i := Find(p.list, pc);
    if i < |p.list| {
      AllDistinct(p);
      RemoveConns(p.list, i);
      RemoveInUse(p.list, i);
    }
  }

  lemma RemoveConns(list: seq<Info>, i: nat)
    requires i < |list|
    ensures multiset(Conns(list)) == multiset(Conns(list[..i] + list[i + 1..])) + multiset{list[i].conn}
  {
    var a, b := Conns(list[..i]), Conns(list[i + 1..]);
    assert Conns(list) == a + [list[i].conn] + b;
    assert Conns(list[..i] + list[i + 1..]) == a + b;
  }

  lemma RemoveInUse(list: seq<Info>, i: nat)
    requires i < |list| && forall j, k :: 0 <= j < k < |list| ==> list[j].conn != list[k].conn
    ensures InUse(list[..i] + list[i + 1..]) == InUse(list) - {list[i].conn}
  {
    var l := list[..i] + list[i + 1..];
    forall x | x in InUse(list) && x != list[i].conn ensures x in InUse(l) {
      var k :| 0 <= k < |list| && list[k].inUse && list[k].conn == x;
      assert l[if k < i then k else k - 1] == list[k];
    }
    forall x | x in InUse(l) ensures x in InUse(list) && x != list[i].conn {
      var k :| 0 <= k < |l| && l[k].inUse && l[k].conn == x;
      var j := if k < i then k else k + 1;
      assert l[k] == list[j];
    }
  }

  lemma {:induction false} NoneKept(list: seq<Info>)
    ensures Keep(list, Unused(true)) == []
  {
    if list != [] { NoneKept(list[..|list| - 1]); }
  }

  lemma ClearKeeps(p: Pool, all: bool)
    requires Inv(p)
    ensures Inv(Step(p, Clear(all)))
    ensures all ==> Step(p, Clear(all)).list == []
  {
    PruneParts(p.list, Unused(all));
    if all {
      NoneKept(p.list);
      assert InUse([]) == {};
    }
  }

  lemma StepKeeps(p: Pool, a: Action)
    requires Inv(p) && Allowed(p, a)
    ensures Inv(Step(p, a))
  {
    match a
    case Grab(_, _, _, _) => GrabKeeps(p, a);
    case Release(pc, now) => ReleaseKeeps(p, pc, now);
    case Remove(pc) => RemoveKeeps(p, pc);
    case Clear(all) => ClearKeeps(p, all);
  }

  // ---- what each step does to the entries -----------------------------------------------------------

  predicate Pooled(p: Pool, pc: nat) { exists c <- p.list :: c.conn == pc }

  lemma FindPooled(p: Pool, pc: nat)
    ensures Find(p.list, pc) < |p.list| <==> Pooled(p, pc)
  {
  }

  // Pruning a list in two parts: what is kept, and what is destroyed, keeps its order.
  lemma {:induction false} KeepSplit(a: seq<Info>, b: seq<Info>, gone: Info -> bool)
    ensures Keep(a + b, gone) == Keep(a, gone) + Keep(b, gone)
    ensures Gone(a + b, gone) == Gone(a, gone) + Gone(b, gone)
  {
    if b == [] {
      assert a + b == a;
    } else {
      var n := |b| - 1;
      assert (a + b)[..|a + b| - 1] == a + b[..n];
      KeepSplit(a, b[..n], gone);
    }
  }

  // Remove takes the connection from the list to the destroyed ones and leaves the others alone.
  lemma RemoveTakesOut(p: Pool, pc: nat)
    requires Inv(p)
    ensures var q := Step(p, Remove(pc));
      if Pooled(p, pc) then
        && q.destroyed == p.destroyed + [pc] && q.created == p.created && q.held == p.held - {pc}
        && |q.list| == |p.list| - 1 && forall c :: c in q.list <==> c in p.list && c.conn != pc
      else q == p
  {
    FindPooled(p, pc);
    var i, q := Find(p.list, pc), Step(p, Remove(pc));
    if i < |p.list| {
      AllDistinct(p);
      forall c ensures c in q.list <==> c in p.list && c.conn != pc {
        if c in p.list && c.conn != pc {
          var j :| 0 <= j < |p.list| && p.list[j] == c;
          assert q.list[if j < i then j else j - 1] == c;
        }
        if c in q.list {
          var j :| 0 <= j < |q.list| && q.list[j] == c;
          assert p.list[if j < i then j else j + 1] == c;
        }
      }
    }
  }

  // Clear leaves exactly the entries in use, or none, and destroys the others.
  lemma ClearLeaves(p: Pool, all: bool)
    ensures var q := Step(p, Clear(all));
      && (forall c :: c in q.list <==> c in p.list && c.inUse && !all)
      && multiset(Conns(q.list)) + multiset(q.destroyed) == multiset(Conns(p.list)) + multiset(p.destroyed)
      && q.created == p.created && q.held == if all then {} else p.held
  {
    PruneParts(p.list, Unused(all));
  }

  // Release frees the connection's entry, with the time of the release, and leaves the others alone.
  lemma ReleaseFrees(p: Pool, pc: nat, now: int)
    requires Inv(p)
    ensures var q := Step(p, Release(pc, now));
      && q.destroyed == p.destroyed && q.created == p.created && q.held == p.held - {pc}
      && if Pooled(p, pc) then
           forall c :: c in q.list <==> (c in p.list && c.conn != pc) || c == Info(pc, now, false)
         else q.list == p.list
  {
    FindPooled(p, pc);
    var i, q := Find(p.list, pc), Step(p, Release(pc, now));
    if i < |p.list| { UpdatedMembers(p, i, Info(pc, now, false)); }
  }

  lemma UpdatedMembers(p: Pool, i: nat, e: Info)
    requires Inv(p) && i < |p.list| && e.conn == p.list[i].conn
    ensures forall c :: c in p.list[i := e] <==> (c in p.list && c.conn != e.conn) || c == e
  {
    AllDistinct(p);
    var l := p.list[i := e];
    assert l[i] == e;
    forall c | c in p.list && c.conn != e.conn ensures c in l {
      var j :| 0 <= j < |p.list| && p.list[j] == c;
      assert l[j] == c;
    }
  }

  lemma NotPooled(p: Pool, made: nat)
    requires Inv(p) && made !in p.created
    ensures !Pooled(p, made)
  {
    assert made !in multiset(p.created);
    assert made !in multiset(Conns(p.list));
    forall c | c in p.list
      ensures c.conn != made
    {
      var i :| 0 <= i < |p.list| && p.list[i] == c;
      assert Conns(p.list)[i] == c.conn;
    }
  }

  // l is the list with the entry of e's connection, if there was one, replaced by e.
  ghost predicate Marked(list: seq<Info>, l: seq<Info>, e: Info) {
    forall c :: c in l <==> (c in list && c.conn != e.conn) || c == e
  }

  // Grab prunes, and marks the entry it hands out or makes one; the time of last use of a pooled one stays.
  lemma GrabMarks(p: Pool, a: Action) returns (e: Info)
    requires Inv(p) && a.Grab? && Allowed(p, a)
    ensures e.conn == Result(p, a) && e.inUse
    ensures if e.conn == a.made then e.lastUsed == a.now else e.(inUse := false) in p.list
    ensures Marked(Keep(p.list, TooOld(a.asked, a.idle)), Step(p, a).list, e)
  {
    var gone := TooOld(a.asked, a.idle);
    var q := Pruned(p, gone);
    PruneMembers(p.list, gone);
    PrunedKeeps(p, gone);
    NotPooled(p, a.made);
    var m := Mru(q.list);
    if m < |q.list| {
      MruIsFreeAndLatest(q.list);
      e := q.list[m].(inUse := true);
      hide Inv, Keep, Gone, Mru;
      UpdatedMembers(q, m, e);
      assert q.list[m] in q.list && e.(inUse := false) == q.list[m];
    } else {
      e := Info(a.made, a.now, true);
      hide Inv, Keep, Gone, Mru;
    }
  }

  // ---- what grab hands out ------------------------------------------------------------------------

  ghost predicate IsMru(list: seq<Info>, gone: Info -> bool, c: Info) {
    !c.inUse && !gone(c) && forall d <- list :: !d.inUse && !gone(d) ==> d.lastUsed <= c.lastUsed
  }

  // A most recently used free connection if one survives the pruning, a new one otherwise; never one
  // that is held or was destroyed.
  lemma GrabHandsOutMru(p: Pool, a: Action)
    requires Inv(p) && a.Grab? && Allowed(p, a)
    ensures var r := Result(p, a); var tooOld := TooOld(a.asked, a.idle);
      && r !in p.held && r !in p.destroyed && r in Step(p, a).held
      && (r == a.made <==> forall c <- p.list :: c.inUse || tooOld(c))
      && (r != a.made ==> exists c <- p.list :: c.conn == r && IsMru(p.list, tooOld, c))
  {
    var gone := TooOld(a.asked, a.idle);
    var kept := Keep(p.list, gone);
    PruneMembers(p.list, gone);
    MruIsFreeAndLatest(kept);
    var m := Mru(kept);
    hide Keep, Mru, Gone, Conns, InUse, TooOld;
    if m < |kept| {
      assert kept[m] in kept;
      FreeNotHeld(p, kept[m]);
    } else {
      NewNotHeld(p, a.made);
      forall c | c in p.list ensures c.inUse || gone(c) { if !gone(c) { assert c in kept; } }
    }
  }

  lemma NewNotHeld(p: Pool, made: nat)
    requires Inv(p) && made !in p.created
    ensures made !in p.held && made !in p.destroyed
  {
    assert made !in multiset(p.created);
    assert made !in multiset(Conns(p.list)) && made !in multiset(p.destroyed);
    forall c | c in InUse(p.list) ensures c != made {
      var i :| 0 <= i < |p.list| && p.list[i].inUse && p.list[i].conn == c;
      assert Conns(p.list)[i] == c;
    }
  }

  lemma FreeNotHeld(p: Pool, c: Info)
    requires Inv(p) && c in p.list && !c.inUse
    ensures c.conn !in p.held && c.conn !in p.destroyed && c.conn in p.created
  {
    AllDistinct(p);
    var i :| 0 <= i < |p.list| && p.list[i] == c;
    assert Conns(p.list)[i] == c.conn;
    assert multiset(Conns(p.list))[c.conn] >= 1;
    assert multiset(p.created)[c.conn] >= 1;
    assert multiset(p.destroyed)[c.conn] == 0;
  }

  // A connection released later than any other free one was used, and not idle for too long since,
  // is the one the next grab hands out.
  lemma ReleaseThenGrab(p: Pool, pc: nat, now: int, a: Action)
    requires Inv(p) && a.Grab? && Allowed(p, a) && Find(p.list, pc) < |p.list|
    requires forall c <- p.list :: !c.inUse && c.conn != pc ==> c.lastUsed < now
    requires a.asked - now < a.idle
    ensures Result(Step(p, Release(pc, now)), a) == pc
  {
    var q := Step(p, Release(pc, now));
    var i := Find(p.list, pc);
    ReleaseKeeps(p, pc, now);
    var e := q.list[i];
    assert e in q.list && !e.inUse && !TooOld(a.asked, a.idle)(e);
    forall c | c in q.list && !c.inUse && c.conn != pc ensures c.lastUsed < now {
      assert c in p.list;
    }
    GrabHandsOutMru(q, a);
    hide Step, Result, Inv;
    var c :| c in q.list && c.conn == Result(q, a) && IsMru(q.list, TooOld(a.asked, a.idle), c);
  }

  // ---- runs --------------------------------------------------------------------------------------

  ghost predicate Runs(p: Pool, actions: seq<Action>)
    decreases |actions|
  {
    actions == [] || (Allowed(p, actions[0]) && Runs(Step(p, actions[0]), actions[1..]))
  }

  function After(p: Pool, actions: seq<Action>): Pool
    decreases |actions|
  {
    if actions == [] then p else After(Step(p, actions[0]), actions[1..])
  }

  lemma {:induction false} RunKeeps(p: Pool, actions: seq<Action>)
    requires Inv(p) && Runs(p, actions)
    ensures Inv(After(p, actions))
    decreases |actions|
  {
    if actions != [] {
      StepKeeps(p, actions[0]);
      RunKeeps(Step(p, actions[0]), actions[1..]);
    }
  }

  // A connection that is held or gone is not handed out until it is released.
  predicate Taken(p: Pool, c: nat) { c in p.held || c in p.destroyed }

  lemma StaysTaken(p: Pool, a: Action, c: nat)
    requires Inv(p) && Allowed(p, a) && Taken(p, c) && !(a.Release? && a.pc == c)
    ensures Taken(Step(p, a), c)
    ensures a.Grab? ==> Result(p, a) != c
  {
    match a
    case Grab(_, _, _, _) => GrabHandsOutMru(p, a);
    case Release(pc, now) =>
    case Remove(pc) =>
    case Clear(all) => if all && c in p.held { ClearDestroys(p, c); }
  }

  lemma ClearDestroys(p: Pool, c: nat)
    requires Inv(p) && c in p.held
    ensures c in Step(p, Clear(true)).destroyed
  {
    PruneParts(p.list, Unused(true));
    NoneKept(p.list);
    var i :| 0 <= i < |p.list| && p.list[i].inUse && p.list[i].conn == c;
    assert Conns(p.list)[i] == c;
    assert Conns([]) == [];
    assert c in multiset(Conns(p.list));
    assert c in multiset(Gone(p.list, Unused(true)));
  }

  lemma {:induction false} TakenUntilReleased(p: Pool, actions: seq<Action>, c: nat, n: nat)
    requires Inv(p) && Runs(p, actions) && Taken(p, c) && n < |actions|
    requires forall i :: 0 <= i < n ==> !(actions[i].Release? && actions[i].pc == c)
    requires actions[n].Grab?
    ensures Result(After(p, actions[..n]), actions[n]) != c
    decreases n
  {
    hide Step, Inv, Taken, Result;
    if n == 0 {
      assert actions[..0] == [];
      StaysTaken(p, actions[0], c);
    } else {
      StaysTaken(p, actions[0], c);
      StepKeeps(p, actions[0]);
      assert actions[1..][..n - 1] == actions[..n][1..];
      TakenUntilReleased(Step(p, actions[0]), actions[1..], c, n - 1);
    }
  }

  lemma {:induction false} RunsSuffix(p: Pool, actions: seq<Action>, m: nat)
    requires Runs(p, actions) && m <= |actions|
    ensures Runs(p, actions[..m]) && Runs(After(p, actions[..m]), actions[m..])
    decreases m
  {
    if m > 0 {
      assert actions[..m][1..] == actions[1..][..m - 1] && actions[1..][m - 1..] == actions[m..];
      RunsSuffix(Step(p, actions[0]), actions[1..], m - 1);
    } else {
      assert actions[0..] == actions;
    }
  }

  lemma {:induction false} AfterAppend(p: Pool, a: seq<Action>, b: seq<Action>)
    ensures After(p, a + b) == After(After(p, a), b)
    decreases |a|
  {
    if a == [] {
      assert a + b == b;
    } else {
      assert (a + b)[1..] == a[1..] + b;
      AfterAppend(Step(p, a[0]), a[1..], b);
    }
  }

  // In any run from the empty pool: between two grabs that hand out the same connection it was released.
  lemma NeverTwiceWithoutRelease(actions: seq<Action>, m: nat, n: nat)
    requires Runs(Pool([], [], [], {}), actions) && m < n < |actions| && actions[m].Grab? && actions[n].Grab?
    requires Result(After(Pool([], [], [], {}), actions[..m]), actions[m]) ==
      Result(After(Pool([], [], [], {}), actions[..n]), actions[n])
    ensures var c := Result(After(Pool([], [], [], {}), actions[..m]), actions[m]);
      exists i :: m < i < n && actions[i].Release? && actions[i].pc == c
  {
    hide Step, Result, Inv;
    var p0 := Pool([], [], [], {});
    var p := After(p0, actions[..m]);
    var c := Result(p, actions[m]);
    InvInit();
    RunsSuffix(p0, actions, m);
    RunKeeps(p0, actions[..m]);
    assert actions[m..][0] == actions[m] && actions[m..][1..] == actions[m + 1..];
    GrabHandsOutMru(p, actions[m]);
    StepKeeps(p, actions[m]);
    var q := Step(p, actions[m]);
    var rest := actions[m + 1..];
    var k := n - m - 1;
    assert actions[..n] == actions[..m] + ([actions[m]] + rest[..k]);
    AfterAppend(p0, actions[..m], [actions[m]] + rest[..k]);
    assert ([actions[m]] + rest[..k])[1..] == rest[..k];
    assert After(p0, actions[..n]) == After(q, rest[..k]) && rest[k] == actions[n];
    if forall i :: 0 <= i < k ==> !(rest[i].Release? && rest[i].pc == c) {
      TakenUntilReleased(q, rest, c, k);
    } else {
      var i :| 0 <= i < k && rest[i].Release? && rest[i].pc == c;
      assert actions[m + 1 + i] == rest[i];
    }
  }
}
