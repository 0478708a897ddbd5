/**
  The pool object.  The clock, the idle limit and the connection create() makes are parameters.
 */
module ConnectionPoolObject {
  import opened ConnectionPool

  class Connections {
    var pool: seq<Info>
    var destroyed: seq<nat>
    ghost var created: seq<nat>
    ghost var held: set<nat>

    ghost function View(): Pool
      reads this
    {
      Pool(pool, created, destroyed, held)
    }

    constructor ()
      ensures View() == Pool([], [], [], {})
    {
      pool, destroyed, created, held := [], [], [], {};
    }

    // remove(iterator)
    method RemoveAt(i: nat)
      requires i < |pool|
      modifies this`pool, this`destroyed
      ensures pool == old(pool)[..i] + old(pool)[i + 1..] && destroyed == old(destroyed) + [old(pool)[i].conn]
    {
      destroyed := destroyed + [pool[i].conn];
      pool := pool[..i] + pool[i + 1..];
    }

    // std::find_if over the rest of the list.
    method FindIf(from: nat, gone: Info -> bool) returns (i: nat)
      requires from <= |pool|
      ensures from <= i <= |pool| && (i < |pool| ==> gone(pool[i]))
      ensures forall j :: from <= j < i ==> !gone(pool[j])
    {
      i := from;
      while i < |pool| && !gone(pool[i])
        invariant from <= i <= |pool|
        invariant forall j :: from <= j < i ==> !gone(pool[j])
      {
        i := i + 1;
      }
    }

    method RemoveOldConnections(now: int, idle: nat)
      modifies this`pool, this`destroyed
      ensures View() == Pruned(old(View()), TooOld(now, idle))
    {
      hide Parted;
      var gone := TooOld(now, idle);
      ghost var l, d, j := pool, destroyed, 0;
      PartedStart(l, d, gone);
      var i := FindIf(0, gone);
      PartedPass(l, d, gone, pool, destroyed, 0, 0, i);
      j := i;
      while i < |pool|
        invariant i <= |pool| && (i < |pool| ==> gone(pool[i]))
        invariant 0 <= j <= |l| && Parted(l, d, gone, pool, destroyed, i, j)
        decreases |pool| - i
      {
        PartedErase(l, d, gone, pool, destroyed, i, j);
        RemoveAt(i);
        var n := FindIf(i, gone);
        PartedPass(l, d, gone, pool, destroyed, i, j + 1, n);
        j := j + 1 + n - i;
        i := n;
      }
      PartedEnd(l, d, gone, pool, destroyed, i, j);
    }

    method FindMru() returns (found: bool, conn: nat)
      modifies this`pool
      ensures found == (Mru(old(pool)) < |old(pool)|)
      ensures found ==> conn == old(pool)[Mru(old(pool))].conn
      ensures pool == if found then
          old(pool)[Mru(old(pool)) := old(pool)[Mru(old(pool))].(inUse := true)]
        else old(pool)
    {
      found, conn := false, 0;
      if |pool| == 0 { return; }
      var m, i := 0, 1;
      assert pool[..1][..0] == [];
      while i < |pool|
        invariant 1 <= i <= |pool| && m == MaxElement(pool[..i])
      {
        assert pool[..i + 1][..i] == pool[..i];
        if Less(pool[m], pool[i]) { m := i; }
        i := i + 1;
      }
      assert pool[..i] == pool;
      if !pool[m].inUse {
        found, conn := true, pool[m].conn;
        pool := pool[m := pool[m].(inUse := true)];
      }
    }

    method Grab(asked: int, idle: nat, now: int, made: nat) returns (conn: nat)
      modifies this
      ensures View() == Step(old(View()), Action.Grab(asked, idle, now, made))
      ensures conn == Result(old(View()), Action.Grab(asked, idle, now, made))
    {
      RemoveOldConnections(asked, idle);
      var found;
      found, conn := FindMru();
      if !found {
        pool := pool + [Info(made, now, true)];
        created := created + [made];
        conn := pool[|pool| - 1].conn;
      }
      held := held + {conn};
    }

    method Position(pc: nat) returns (i: nat)
      ensures i == Find(pool, pc)
    {
      i := 0;
      assert pool[0..] == pool;
      while i < |pool| && pool[i].conn != pc
        invariant i <= |pool| && Find(pool, pc) == i + Find(pool[i..], pc)
      {
        assert pool[i..][1..] == pool[i + 1..];
        i := i + 1;
      }
    }

    method Release(pc: nat, now: int)
      modifies this
      ensures View() == Step(old(View()), Action.Release(pc, now))
    {
      var i := Position(pc);
      if i < |pool| { pool := pool[i := Info(pool[i].conn, now, false)]; }
      held := held - {pc};
    }

    method Remove(pc: nat)
      modifies this
      ensures View() == Step(old(View()), Action.Remove(pc))
    {
      var i := Position(pc);
      if i < |pool| {
        RemoveAt(i);
        held := held - {pc};
      }
    }

    method Clear(all: bool)
      modifies this
      ensures View() == Step(old(View()), Action.Clear(all))
    {
      hide Parted;
      ghost var l, d, j := pool, destroyed, 0;
      var i := 0;
      PartedStart(l, d, Unused(all));
      while i < |pool|
        invariant i <= |pool| && 0 <= j <= |l| && Parted(l, d, Unused(all), pool, destroyed, i, j)
        invariant created == old(created) && held == old(held)
        decreases |pool| - i
      {
        if all || !pool[i].inUse {
          PartedErase(l, d, Unused(all), pool, destroyed, i, j);
          RemoveAt(i);
        } else {
          PartedPass(l, d, Unused(all), pool, destroyed, i, j, i + 1);
          i := i + 1;
        }
        j := j + 1;
      }
      PartedEnd(l, d, Unused(all), pool, destroyed, i, j);
      if all { held := {}; }
    }

    // The defective connection goes, then a grab.
    method Exchange(pc: nat, asked: int, idle: nat, now: int, made: nat) returns (conn: nat)
      modifies this
      ensures View() == Step(Step(old(View()), Action.Remove(pc)), Action.Grab(asked, idle, now, made))
      ensures conn == Result(Step(old(View()), Action.Remove(pc)), Action.Grab(asked, idle, now, made))
    {
      Remove(pc);
      conn := Grab(asked, idle, now, made);
    }
  }

  lemma KeepOne(l: seq<Info>, j: nat, gone: Info -> bool)
    requires j < |l|
    ensures Keep(l[..j + 1], gone) == Keep(l[..j], gone) + if gone(l[j]) then [] else [l[j]]
    ensures Gone(l[..j + 1], gone) == Gone(l[..j], gone) + if gone(l[j]) then [l[j].conn] else []
  {
    assert l[..j + 1][..j] == l[..j];
  }

  // Entries that stay.
  lemma {:induction false} KeepRange(l: seq<Info>, j: nat, k: nat, gone: Info -> bool)
    requires j <= k <= |l| && forall i :: j <= i < k ==> !gone(l[i])
    ensures Keep(l[..k], gone) == Keep(l[..j], gone) + l[j..k] && Gone(l[..k], gone) == Gone(l[..j], gone)
    decreases k
  {
    if j < k {
      KeepRange(l, j, k - 1, gone);
      KeepOne(l, k - 1, gone);
      assert l[j..k] == l[j..k - 1] + [l[k - 1]];
    }
  }

  // A removing loop at entry i of what is left of the list l, of which j entries were seen.
  ghost predicate Parted(
      l: seq<Info>, d: seq<nat>, gone: Info -> bool, pool: seq<Info>, destroyed: seq<nat>, i: nat, j: nat)
  {
    && i <= |pool| && j <= |l| && pool[i..] == l[j..]
    && pool[..i] == Keep(l[..j], gone) && destroyed == d + Gone(l[..j], gone)
  }

  lemma PartedStart(l: seq<Info>, d: seq<nat>, gone: Info -> bool)
    ensures Parted(l, d, gone, l, d, 0, 0)
  {
    assert l[..0] == [] && d + [] == d;
  }

  lemma PartedErase(
      l: seq<Info>, d: seq<nat>, gone: Info -> bool, pool: seq<Info>, destroyed: seq<nat>, i: nat, j: nat)
    requires Parted(l, d, gone, pool, destroyed, i, j) && i < |pool| && gone(pool[i])
    ensures j < |l| && Parted(l, d, gone, pool[..i] + pool[i + 1..], destroyed + [pool[i].conn], i, j + 1)
  {
    assert pool[i] == pool[i..][0] && l[j] == l[j..][0];
    KeepOne(l, j, gone);
    var p := pool[..i] + pool[i + 1..];
    assert p[i..] == pool[i..][1..] == l[j..][1..] == l[j + 1..] && p[..i] == pool[..i];
    assert d + Gone(l[..j], gone) + [pool[i].conn] == d + (Gone(l[..j], gone) + [pool[i].conn]);
  }

  lemma PartedPass(
      l: seq<Info>, d: seq<nat>, gone: Info -> bool, pool: seq<Info>, destroyed: seq<nat>, i: nat, j: nat, n: nat)
    requires Parted(l, d, gone, pool, destroyed, i, j) && i <= n <= |pool|
    requires forall k :: i <= k < n ==> !gone(pool[k])
    ensures j + n - i <= |l| && Parted(l, d, gone, pool, destroyed, n, j + n - i)
  {
    SameTail(pool, l, i, j, n);
    KeepRange(l, j, j + n - i, gone);
  }

  lemma SameTail(p: seq<Info>, l: seq<Info>, i: nat, j: nat, n: nat)
    requires i <= n <= |p| && j <= |l| && p[i..] == l[j..]
    ensures j + n - i <= |l| && p[n..] == l[j + n - i..] && p[..n] == p[..i] + l[j..j + n - i]
    ensures forall k :: j <= k < j + n - i ==> l[k] == p[k - j + i]
  {
    assert |p[i..]| == |l[j..]|;
    assert p[n..] == p[i..][n - i..] && l[j + n - i..] == l[j..][n - i..];
    assert p[i..n] == p[i..][..n - i] && l[j..j + n - i] == l[j..][..n - i];
    forall k | j <= k < j + n - i ensures l[k] == p[k - j + i] {
      assert l[j..][k - j] == p[i..][k - j];
    }
    assert p[..n] == p[..i] + p[i..n];
  }

  lemma PartedEnd(
      l: seq<Info>, d: seq<nat>, gone: Info -> bool, pool: seq<Info>, destroyed: seq<nat>, i: nat, j: nat)
    requires Parted(l, d, gone, pool, destroyed, i, j) && i == |pool|
    ensures pool == Keep(l, gone) && destroyed == d + Gone(l, gone)
  {
    assert pool[i..] == [] && l[..j] == l && pool[..i] == pool;
  }
}
