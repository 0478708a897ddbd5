/**
  RefCountedPointer as an object: a pointer to the counted object (a number here) and one to a
  counter on the heap.  Each operation is shown to be the operation of the same name on the books.
 */
module RefCountedPointer {
  import opened Options
  import opened RefCounted

  class Count {
    var n: nat

    constructor ()
      ensures n == 1
    {
      n := 1;
    }
  }

  class Destroyer {
    var destroyed: seq<nat>

    constructor ()
      ensures destroyed == []
    {
      destroyed := [];
    }

    method Destroy(o: nat)
      modifies this
      ensures destroyed == old(destroyed) + [o]
    {
      destroyed := destroyed + [o];
    }
  }

  // The heap's handles and counters, by number.
  ghost predicate Shows(w: World, handles: map<nat, Pointer>, counts: map<nat, Count>, d: Destroyer)
    reads handles.Values, counts.Values, d
  {
    && Numbered(w, handles, counts) && PointsAll(w, handles, counts) && CountsAll(w, counts)
    && d.destroyed == w.destroyed
  }

  ghost predicate Numbered(w: World, handles: map<nat, Pointer>, counts: map<nat, Count>) {
    && handles.Keys == w.handles.Keys && w.counters.Keys <= counts.Keys
    && (forall i, j :: i in handles && j in handles && handles[i] == handles[j] ==> i == j)
    && (forall j, k :: j in counts && k in counts && counts[j] == counts[k] ==> j == k)
  }

  ghost predicate PointsAll(w: World, handles: map<nat, Pointer>, counts: map<nat, Count>)
    requires handles.Keys == w.handles.Keys
    reads handles.Values
  {
    forall i :: i in handles ==> Points(w.handles[i], handles[i], counts)
  }

  ghost predicate CountsAll(w: World, counts: map<nat, Count>)
    requires w.counters.Keys <= counts.Keys
    reads counts.Values
  {
    forall k :: k in w.counters ==> counts[k].n == w.counters[k].n
  }

  ghost predicate Points(g: Handle, p: Pointer, counts: map<nat, Count>)
    reads p
  {
    Refers(g, p.counted, p.refs, counts)
  }

  ghost predicate Refers(g: Handle, counted: Option<nat>, refs: Count?, counts: map<nat, Count>) {
    && counted == g.counted
    && if g.refs.None? then refs == null else g.refs.value in counts && refs == counts[g.refs.value]
  }

  class Pointer {
    var counted: Option<nat>
    var refs: Count?

    constructor FromRaw(c: Option<nat>)
      ensures counted == c && (refs == null <==> c.None?)
      ensures refs != null ==> fresh(refs) && refs.n == 1
    {
      counted := c;
      refs := null;
      new;
      if counted.Some? {
        refs := new Count();
      }
    }

    constructor Copy(other: Pointer)
      requires other.counted.Some? ==> other.refs != null
      modifies other.refs
      ensures counted == other.counted && refs == (if counted.Some? then other.refs else null)
      ensures refs != null ==> refs.n == old(other.refs.n) + 1
    {
      counted := other.counted;
      refs := if other.counted.Some? then other.refs else null;
      new;
      if counted.Some? {
        refs.n := refs.n + 1;
      }
    }

    // The destructor.
    method Drop(
        d: Destroyer, ghost w: World, ghost h: nat,
        ghost handles: map<nat, Pointer>, ghost counts: map<nat, Count>)
      requires Shows(w, handles, counts, d) && AllFit(w) && Exact(w) && h in handles && handles[h] == this
      modifies refs, d
      ensures Shows(RefCounted.Drop(w, h), handles - {h}, counts, d)
    {
      hide Numbered, Holders, AllFit, Exact;
      DropShown(w, h, handles, counts, d);
      if refs != null {
        ghost var k := w.handles[h].refs.value;
        forall j | j in counts && j != k ensures counts[j] != refs { DistinctCounts(w, handles, counts, j, k); }
        refs.n := refs.n - 1;
        if refs.n == 0 {
          d.Destroy(counted.value);
        }
      }
    }

    method Swap(
        other: Pointer, ghost w: World, ghost h: nat, ghost g: nat,
        ghost handles: map<nat, Pointer>, ghost counts: map<nat, Count>, ghost d: Destroyer)
      requires Shows(w, handles, counts, d) && h in handles && handles[h] == this && g in handles && handles[g] == other
      modifies this, other
      ensures Shows(RefCounted.Swap(w, h, g), handles, counts, d)
      ensures counted == old(other.counted) && refs == old(other.refs)
      ensures other.counted == old(counted) && other.refs == old(refs)
    {
      hide Numbered, PointsAll;
      Keys(w, handles, counts, d);
      NumberedParts(w, RefCounted.Swap(w, h, g), handles, counts);
      ghost var fields := Fields(handles);
      FieldsRefer(w, handles, counts);
      counted, other.counted := other.counted, counted;
      refs, other.refs := other.refs, refs;
      forall i | i in handles
        ensures (handles[i].counted, handles[i].refs) == fields[h := fields[g]][g := fields[h]][i]
      {
        if i != h { Distinct(w, handles, counts, i, h); }
        if i != g { Distinct(w, handles, counts, i, g); }
      }
      SwapShown(w, h, g, handles, counts, fields);
      CountsSame(w, RefCounted.Swap(w, h, g), counts);
    }

    // The temporary of assign(T*); k numbers its counter.
    static method RawTemp(
        c: Option<nat>, ghost w: World, ghost t: nat, ghost k: nat,
        ghost handles: map<nat, Pointer>, ghost counts: map<nat, Count>, ghost d: Destroyer)
      returns (temp: Pointer, ghost countsAfter: map<nat, Count>)
      requires Shows(w, handles, counts, d) && t !in handles && k !in counts
      ensures fresh(temp) && temp.counted == c && (temp.refs == null <==> c.None?)
      ensures temp.refs != null ==> fresh(temp.refs)
      ensures Shows(RefCounted.FromRaw(w, t, c, k), handles[t := temp], countsAfter, d)
    {
      temp := new Pointer.FromRaw(c);
      countsAfter := if c.Some? then counts[k := temp.refs] else counts;
      forall i | i in handles ensures Points(w.handles[i], handles[i], countsAfter) {}
    }

    // The temporary of assign(const ThisType&).
    static method CopyTemp(
        other: Pointer, ghost w: World, ghost t: nat, ghost g: nat,
        ghost handles: map<nat, Pointer>, ghost counts: map<nat, Count>, ghost d: Destroyer)
      returns (temp: Pointer)
      requires Shows(w, handles, counts, d) && AllFit(w) && t !in handles && g in handles && handles[g] == other
      modifies other.refs
      ensures fresh(temp) && temp.counted == other.counted && temp.refs == other.refs
      ensures Shows(RefCounted.Copy(w, t, g), handles[t := temp], counts, d)
    {
      assert Fits(w, w.handles[g]) && Points(w.handles[g], other, counts);
      temp := new Pointer.Copy(other);
    }

    // assign(T*)
    method AssignRaw(
        c: Option<nat>, d: Destroyer, ghost w: World, ghost h: nat, ghost k: nat, ghost t: nat,
        ghost handles: map<nat, Pointer>, ghost counts: map<nat, Count>)
      returns (ghost countsAfter: map<nat, Count>)
      requires Shows(w, handles, counts, d) && AllFit(w) && Exact(w) && h in handles && handles[h] == this
      requires t !in handles && k !in counts
      modifies this, refs, d
      ensures counted == c && (refs == null <==> c.None?) && (refs != null ==> fresh(refs))
      ensures Shows(RefCounted.AssignRaw(w, h, c, k, t), handles, countsAfter, d)
    {
      hide Shows, AllFit, Exact, RefCounted.FromRaw, RefCounted.Swap, RefCounted.Drop;
      Keys(w, handles, counts, d);
      var temp;
      temp, countsAfter := RawTemp(c, w, t, k, handles, counts, d);
      RawExact(w, t, c, k);
      ghost var w1 := RefCounted.FromRaw(w, t, c, k);
      ghost var handles1 := handles[t := temp];
      FromRawHandles(w, t, c, k);
      temp.Swap(this, w1, t, h, handles1, countsAfter, d);
      SwapExact(w1, t, h);
      temp.Drop(d, RefCounted.Swap(w1, t, h), t, handles1, countsAfter);
      assert handles1 - {t} == handles;
    }

    // assign(const ThisType&)
    method Assign(
        other: Pointer, d: Destroyer, ghost w: World, ghost h: nat, ghost g: nat, ghost t: nat,
        ghost handles: map<nat, Pointer>, ghost counts: map<nat, Count>)
      requires Shows(w, handles, counts, d) && Inv(w) && h in handles && handles[h] == this
      requires g in handles && handles[g] == other && t !in handles
      modifies this, refs, other.refs, d
      ensures counted == old(other.counted) && refs == old(other.refs)
      ensures Shows(RefCounted.Assign(w, h, g, t), handles, counts, d)
    {
      hide Shows, AllFit, Exact, Inv, RefCounted.Copy, RefCounted.Swap, RefCounted.Drop;
      Keys(w, handles, counts, d);
      InvParts(w);
      var temp := CopyTemp(other, w, t, g, handles, counts, d);
      CopyKeeps(w, t, g);
      CopyHandles(w, t, g);
      InvParts(RefCounted.Copy(w, t, g));
      ghost var w1 := RefCounted.Copy(w, t, g);
      ghost var handles1 := handles[t := temp];
      temp.Swap(this, w1, t, h, handles1, counts, d);
      SwapExact(w1, t, h);
      temp.Drop(d, RefCounted.Swap(w1, t, h), t, handles1, counts);
      assert handles1 - {t} == handles;
    }
  }

  ghost function Fields(handles: map<nat, Pointer>): map<nat, (Option<nat>, Count?)>
    reads handles.Values
  {
    map i | i in handles :: (handles[i].counted, handles[i].refs)
  }

  ghost predicate ReferAll(w: World, fields: map<nat, (Option<nat>, Count?)>, counts: map<nat, Count>) {
    fields.Keys == w.handles.Keys
    && forall i :: i in fields ==> Refers(w.handles[i], fields[i].0, fields[i].1, counts)
  }

  lemma FieldsRefer(w: World, handles: map<nat, Pointer>, counts: map<nat, Count>)
    requires handles.Keys == w.handles.Keys && PointsAll(w, handles, counts)
    ensures ReferAll(w, Fields(handles), counts)
  {
    assert forall i :: i in handles ==> Points(w.handles[i], handles[i], counts);
  }

  lemma SwapShown(
      w: World, h: nat, g: nat, handles: map<nat, Pointer>, counts: map<nat, Count>,
      fields: map<nat, (Option<nat>, Count?)>)
    requires h in handles && g in handles && handles.Keys == w.handles.Keys && ReferAll(w, fields, counts)
    requires forall i :: i in handles ==>
      (handles[i].counted, handles[i].refs) == fields[h := fields[g]][g := fields[h]][i]
    ensures PointsAll(RefCounted.Swap(w, h, g), handles, counts)
  {
    var v := RefCounted.Swap(w, h, g);
    forall i | i in handles
      ensures Points(v.handles[i], handles[i], counts)
    {
      var j := if i == h then g else if i == g then h else i;
      assert Refers(w.handles[j], fields[j].0, fields[j].1, counts);
    }
  }

  lemma CountsSame(w: World, v: World, counts: map<nat, Count>)
    requires w.counters.Keys <= counts.Keys && CountsAll(w, counts) && v.counters == w.counters
    ensures CountsAll(v, counts)
  {
  }

  lemma NumberedParts(w: World, v: World, handles: map<nat, Pointer>, counts: map<nat, Count>)
    requires Numbered(w, handles, counts) && v.handles.Keys == w.handles.Keys && v.counters == w.counters
    ensures handles.Keys == w.handles.Keys && w.counters.Keys <= counts.Keys && Numbered(v, handles, counts)
  {
  }

  lemma Distinct(w: World, handles: map<nat, Pointer>, counts: map<nat, Count>, i: nat, j: nat)
    requires Numbered(w, handles, counts) && i in handles && j in handles && i != j
    ensures handles[i] != handles[j]
  {
  }

  lemma DistinctCounts(w: World, handles: map<nat, Pointer>, counts: map<nat, Count>, j: nat, k: nat)
    requires Numbered(w, handles, counts) && j in counts && k in counts && j != k
    ensures counts[j] != counts[k]
  {
  }

  lemma DropShown(w: World, h: nat, handles: map<nat, Pointer>, counts: map<nat, Count>, d: Destroyer)
    requires Shows(w, handles, counts, d) && AllFit(w) && Exact(w) && h in handles
    ensures h in w.handles && handles.Keys == w.handles.Keys && w.counters.Keys <= counts.Keys
    ensures Fits(w, w.handles[h]) && Points(w.handles[h], handles[h], counts)
    ensures w.handles[h].refs.Some? ==> w.counters[w.handles[h].refs.value].n > 0
    ensures Numbered(RefCounted.Drop(w, h), handles - {h}, counts)
  {
  }

  lemma Keys(w: World, handles: map<nat, Pointer>, counts: map<nat, Count>, d: Destroyer)
    requires Shows(w, handles, counts, d)
    ensures handles.Keys == w.handles.Keys && w.counters.Keys <= counts.Keys
  {
  }

  lemma InvParts(w: World)
    requires Inv(w)
    ensures AllFit(w) && Exact(w)
  {
  }
}
