/**
  Query::proc and Query::pprepare: filling a parsed template from a parameter list and the
  template's defaults.  Bound parameters (the defaults) are rewritten to their quoted form when
  first used.  `escape` is the driver's escaping of a string.
 */
module TemplateRender {
  import opened Options
  import opened TemplateParse

  // A SQLTypeAdapter.
  datatype Adapter = Adapter(data: string, isNull: bool, quotes: bool, escapes: bool, processed: bool)

  type Escape = string -> string

  // What a parameter with this option prints.
  function Shown(escape: Escape, option: char, v: Adapter): string {
    if v.isNull then "NULL"
    else if v.processed then v.data
    else if option == 'q' then
      var text := if v.escapes then escape(v.data) else v.data;
      if v.quotes then "'" + text + "'" else text
    else if option == 'Q' && v.quotes then "'" + v.data + "'"
    else v.data
  }

  // What is left in a bound list after the use.
  function Kept(escape: Escape, option: char, v: Adapter): Adapter {
    if v.isNull || v.processed then v
    else if option == 'q' || (option == 'Q' && v.quotes) then Adapter(Shown(escape, option, v), false, true, true, true)
    else v.(processed := true)
  }

  // ---- proc, element by element ----------------------------------------------------------

  datatype State = State(out: string, list: seq<Adapter>, defaults: seq<Adapter>, failed: bool)

  function Fill(escape: Escape, e: Element, bound: bool, s: State): State {
    var out := s.out + e.before;
    if s.failed then s
    else if e.num < 0 then s.(out := out)
    else if e.num < |s.list| then
      var v := s.list[e.num];
      s.(out := out + Shown(escape, e.option, v),
         list := if bound then s.list[e.num := Kept(escape, e.option, v)] else s.list)
    else if e.num < |s.defaults| then
      var v := s.defaults[e.num];
      s.(out := out + Shown(escape, e.option, v),
         defaults := s.defaults[e.num := Kept(escape, e.option, v)])
    else s.(out := out + " ERROR", failed := true)
  }

  // `bound` says whether the list is the defaults of some query.
  function Proc(escape: Escape, elems: seq<Element>, bound: bool, list: seq<Adapter>, defaults: seq<Adapter>)
    : (s: State)
    ensures |s.list| == |list| && |s.defaults| == |defaults|
  {
    if elems == [] then State("", list, defaults, false)
    else
      Fill(escape, elems[|elems| - 1], bound, Proc(escape, elems[..|elems| - 1], bound, list, defaults))
  }

  // ---- the substitution it stands for ------------------------------------------------------

  // The option a parameter is first used with.
  function First(elems: seq<Element>, n: int): Option<char> {
    if elems == [] then None
    else
      var f := First(elems[..|elems| - 1], n);
      var e := elems[|elems| - 1];
      if f.None? && e.num == n then Some(e.option) else f
  }

  function OptionOf(elems: seq<Element>, e: Element): char {
    var f := First(elems, e.num);
    if f.Some? then f.value else e.option
  }

  // One element's text: from the list if it is long enough, else from the defaults.  A bound
  // parameter keeps the option of its first use.
  function Piece(
      escape: Escape, elems: seq<Element>, bound: bool, list: seq<Adapter>, defaults: seq<Adapter>, e: Element): string
    requires e.num < |list| || e.num < |defaults|
  {
    e.before +
    if e.num < 0 then ""
    else if e.num < |list| then Shown(escape, if bound then OptionOf(elems, e) else e.option, list[e.num])
    else Shown(escape, OptionOf(elems, e), defaults[e.num])
  }

  // How many elements are filled before the first whose parameter is in neither.
  function Reach(elems: seq<Element>, list: seq<Adapter>, defaults: seq<Adapter>): (k: nat)
    ensures k <= |elems|
    ensures forall i :: 0 <= i < k ==> elems[i].num < |list| || elems[i].num < |defaults|
    ensures k < |elems| ==> elems[k].num >= |list| && elems[k].num >= |defaults|
  {
    if elems == [] then 0
    else
      var e, k := elems[|elems| - 1], Reach(elems[..|elems| - 1], list, defaults);
      if k == |elems| - 1 && (e.num < |list| || e.num < |defaults|) then k + 1 else k
  }

  // The first k pieces of a template.
  function Pieces(
      escape: Escape, elems: seq<Element>, k: nat, bound: bool, list: seq<Adapter>, defaults: seq<Adapter>): string
    requires k <= |elems| && forall i :: 0 <= i < k ==> elems[i].num < |list| || elems[i].num < |defaults|
  {
    if k == 0 then ""
    else
      Pieces(escape, elems, k - 1, bound, list, defaults) + Piece(escape, elems, bound, list, defaults, elems[k - 1])
  }

  function Substituted(
      escape: Escape, elems: seq<Element>, bound: bool, list: seq<Adapter>, defaults: seq<Adapter>): string
  {
    var k := Reach(elems, list, defaults);
    Pieces(escape, elems, k, bound, list, defaults) + if k < |elems| then elems[k].before + " ERROR" else ""
  }

  // Bound values after some elements: those used are rewritten with the option of their first use.
  function Rewritten(escape: Escape, elems: seq<Element>, values: seq<Adapter>, from: nat): (r: seq<Adapter>)
    ensures |r| == |values|
  {
    seq(|values|, i requires 0 <= i < |values| =>
      var f := First(elems, i); if i >= from && f.Some? then Kept(escape, f.value, values[i]) else values[i])
  }

  lemma {:induction false} FirstFirst(elems: seq<Element>, k: nat, n: int)
    requires k <= |elems| && First(elems[..k], n).Some?
    ensures First(elems, n) == First(elems[..k], n)
  {
    if k < |elems| {
      var init := elems[..|elems| - 1];
      assert init[..k] == elems[..k];
      FirstFirst(init, k, n);
    } else {
      assert elems[..k] == elems;
    }
  }

  // A value rewritten with an option shows as the value does with that option.
  lemma KeptShows(escape: Escape, option: char, other: char, v: Adapter)
    ensures Shown(escape, other, Kept(escape, option, v)) == Shown(escape, option, v)
    ensures Kept(escape, other, Kept(escape, option, v)) == Kept(escape, option, v)
  {
  }

  // One more use, seen from the values before any.
  lemma RewrittenOne(escape: Escape, elems: seq<Element>, values: seq<Adapter>, from: nat, e: Element)
    requires from <= e.num < |values|
    ensures var v := Rewritten(escape, elems, values, from)[e.num];
      && Shown(escape, e.option, v) == Shown(escape, OptionOf(elems + [e], e), values[e.num])
      && Rewritten(escape, elems, values, from)[e.num := Kept(escape, e.option, v)] ==
         Rewritten(escape, elems + [e], values, from)
  {
    hide Shown, Kept;
    assert (elems + [e])[..|elems|] == elems;
    var f := First(elems, e.num);
    if f.Some? { KeptShows(escape, f.value, e.option, values[e.num]); }
    var was := Rewritten(escape, elems, values, from);
    var r := was[e.num := Kept(escape, e.option, was[e.num])];
    forall i | 0 <= i < |values|
      ensures r[i] == Rewritten(escape, elems + [e], values, from)[i]
    {
    }
  }

  lemma RewrittenSkip(escape: Escape, elems: seq<Element>, values: seq<Adapter>, from: nat, e: Element)
    requires !(from <= e.num < |values|)
    ensures Rewritten(escape, elems + [e], values, from) == Rewritten(escape, elems, values, from)
  {
    assert (elems + [e])[..|elems|] == elems;
  }

  // The state after k elements, as the substitution has it.
  ghost function Midway(
      escape: Escape, all: seq<Element>, k: nat, bound: bool, list: seq<Adapter>, defaults: seq<Adapter>): State
    requires k <= Reach(all, list, defaults)
  {
    State(Pieces(escape, all, k, bound, list, defaults),
          if bound then Rewritten(escape, all[..k], list, 0) else list,
          Rewritten(escape, all[..k], defaults, |list|), false)
  }

  lemma MidwayNoParam(
      escape: Escape, all: seq<Element>, k: nat, bound: bool, list: seq<Adapter>, defaults: seq<Adapter>)
    requires 0 < k <= Reach(all, list, defaults) && all[k - 1].num < 0
    ensures Fill(escape, all[k - 1], bound, Midway(escape, all, k - 1, bound, list, defaults)) ==
      Midway(escape, all, k, bound, list, defaults)
  {
    hide Shown, Kept, Rewritten, Reach;
    assert all[..k] == all[..k - 1] + [all[k - 1]];
    RewrittenSkip(escape, all[..k - 1], list, 0, all[k - 1]);
    RewrittenSkip(escape, all[..k - 1], defaults, |list|, all[k - 1]);
    var before := Pieces(escape, all, k - 1, bound, list, defaults);
    assert before + (all[k - 1].before + "") == before + all[k - 1].before;
  }

  lemma MidwayList(
      escape: Escape, all: seq<Element>, k: nat, bound: bool, list: seq<Adapter>, defaults: seq<Adapter>)
    requires 0 < k <= Reach(all, list, defaults) && 0 <= all[k - 1].num < |list|
    ensures Fill(escape, all[k - 1], bound, Midway(escape, all, k - 1, bound, list, defaults)) ==
      Midway(escape, all, k, bound, list, defaults)
  {
    hide Shown, Kept, Rewritten, Reach, First;
    var e := all[k - 1];
    assert all[..k] == all[..k - 1] + [e];
    OptionSettled(all, k);
    RewrittenOne(escape, all[..k - 1], list, 0, e);
    RewrittenSkip(escape, all[..k - 1], defaults, |list|, e);
    var before := Pieces(escape, all, k - 1, bound, list, defaults);
    var shown := Shown(escape, if bound then OptionOf(all, e) else e.option, list[e.num]);
    assert before + (e.before + shown) == before + e.before + shown;
  }

  lemma MidwayDefault(
      escape: Escape, all: seq<Element>, k: nat, bound: bool, list: seq<Adapter>, defaults: seq<Adapter>)
    requires 0 < k <= Reach(all, list, defaults) && |list| <= all[k - 1].num
    ensures Fill(escape, all[k - 1], bound, Midway(escape, all, k - 1, bound, list, defaults)) ==
      Midway(escape, all, k, bound, list, defaults)
  {
    hide Shown, Kept, Rewritten, Reach, First;
    var e := all[k - 1];
    assert all[..k] == all[..k - 1] + [e];
    OptionSettled(all, k);
    RewrittenSkip(escape, all[..k - 1], list, 0, e);
    RewrittenOne(escape, all[..k - 1], defaults, |list|, e);
    var before := Pieces(escape, all, k - 1, bound, list, defaults);
    var shown := Shown(escape, OptionOf(all, e), defaults[e.num]);
    assert before + (e.before + shown) == before + e.before + shown;
  }

  lemma {:induction false} ProcMidway(
      escape: Escape, all: seq<Element>, k: nat, bound: bool, list: seq<Adapter>, defaults: seq<Adapter>)
    requires k <= Reach(all, list, defaults)
    ensures Proc(escape, all[..k], bound, list, defaults) == Midway(escape, all, k, bound, list, defaults)
  {
    hide Fill, Reach;
    if k == 0 {
      NoneRewritten(escape, list, 0);
      NoneRewritten(escape, defaults, |list|);
      assert all[..0] == [];
    } else {
      ProcMidway(escape, all, k - 1, bound, list, defaults);
      assert all[..k][..k - 1] == all[..k - 1];
      var num := all[k - 1].num;
      if num < 0 {
        MidwayNoParam(escape, all, k, bound, list, defaults);
      } else if num < |list| {
        MidwayList(escape, all, k, bound, list, defaults);
      } else {
        MidwayDefault(escape, all, k, bound, list, defaults);
      }
    }
  }

  lemma {:induction false} ProcStops(
      escape: Escape, all: seq<Element>, k: nat, n: nat, bound: bool, list: seq<Adapter>, defaults: seq<Adapter>)
    requires k == Reach(all, list, defaults) < n <= |all|
    ensures var m := Midway(escape, all, k, bound, list, defaults);
      Proc(escape, all[..n], bound, list, defaults) ==
      m.(out := m.out + (all[k].before + " ERROR"), failed := true)
  {
    assert all[..n][..n - 1] == all[..n - 1];
    if n == k + 1 {
      ProcMidway(escape, all, k, bound, list, defaults);
      var out := Pieces(escape, all, k, bound, list, defaults);
      assert out + (all[k].before + " ERROR") == out + all[k].before + " ERROR";
    } else {
      ProcStops(escape, all, k, n - 1, bound, list, defaults);
    }
  }

  // proc computes the substitution, throws exactly if some parameter is in neither list, and
  // leaves behind the used bound values rewritten with the option of their first use.
  lemma ProcSubstitutes(
      escape: Escape, elems: seq<Element>, bound: bool, list: seq<Adapter>, defaults: seq<Adapter>)
    ensures var s := Proc(escape, elems, bound, list, defaults); var k := Reach(elems, list, defaults);
      && s.out == Substituted(escape, elems, bound, list, defaults)
      && (s.failed <==> exists e <- elems :: e.num >= |list| && e.num >= |defaults|)
      && s.list == (if bound then Rewritten(escape, elems[..k], list, 0) else list)
      && s.defaults == Rewritten(escape, elems[..k], defaults, |list|)
  {
    hide Rewritten, Proc, Pieces;
    var k := Reach(elems, list, defaults);
    assert elems[..|elems|] == elems;
    if k == |elems| {
      ProcMidway(escape, elems, k, bound, list, defaults);
      var out := Pieces(escape, elems, k, bound, list, defaults);
      assert out + "" == out;
    } else {
      ProcStops(escape, elems, k, |elems|, bound, list, defaults);
      assert elems[k] in elems;
    }
  }

  lemma NoneRewritten(escape: Escape, values: seq<Adapter>, from: nat)
    ensures Rewritten(escape, [], values, from) == values
  {
  }

  lemma OptionSettled(all: seq<Element>, k: nat)
    requires 0 < k <= |all|
    ensures First(all[..k], all[k - 1].num).Some?
    ensures OptionOf(all[..k], all[k - 1]) == OptionOf(all, all[k - 1])
  {
    assert all[..k][..k - 1] == all[..k - 1];
    FirstFirst(all, k, all[k - 1].num);
  }

  // ---- rendering again ---------------------------------------------------------------------------

  // Values some of which have been rewritten by earlier renderings.
  ghost predicate Settled(escape: Escape, elems: seq<Element>, values: seq<Adapter>, now: seq<Adapter>) {
    && |values| == |now|
    && forall i :: 0 <= i < |now| ==>
         now[i] == values[i] || (First(elems, i).Some? && now[i] == Kept(escape, First(elems, i).value, values[i]))
  }

  lemma RewrittenSettles(escape: Escape, elems: seq<Element>, k: nat, values: seq<Adapter>, from: nat)
    requires k <= |elems|
    ensures Settled(escape, elems, values, Rewritten(escape, elems[..k], values, from))
  {
    forall i | 0 <= i < |values| && First(elems[..k], i).Some?
      ensures First(elems, i) == First(elems[..k], i)
    {
      FirstFirst(elems, k, i);
    }
  }

  lemma {:induction false} ReachLengths(
      elems: seq<Element>, list: seq<Adapter>, defaults: seq<Adapter>, list2: seq<Adapter>, defaults2: seq<Adapter>)
    requires forall e <- elems ::
      (e.num < |list| || e.num < |defaults|) == (e.num < |list2| || e.num < |defaults2|)
    ensures Reach(elems, list, defaults) == Reach(elems, list2, defaults2)
  {
    if elems != [] { ReachLengths(elems[..|elems| - 1], list, defaults, list2, defaults2); }
  }

  lemma {:induction false} SettledPieces(
      escape: Escape, elems: seq<Element>, k: nat, bound: bool,
      list: seq<Adapter>, defaults: seq<Adapter>, list2: seq<Adapter>, defaults2: seq<Adapter>)
    requires Settled(escape, elems, defaults, defaults2)
    requires if bound then Settled(escape, elems, list, list2) else list == list2
    requires k <= Reach(elems, list, defaults) == Reach(elems, list2, defaults2)
    ensures Pieces(escape, elems, k, bound, list2, defaults2) == Pieces(escape, elems, k, bound, list, defaults)
  {
    if k > 0 {
      SettledPieces(escape, elems, k - 1, bound, list, defaults, list2, defaults2);
      SettledPiece(escape, elems, bound, list, defaults, list2, defaults2, elems[k - 1]);
    }
  }

  lemma SettledPiece(
      escape: Escape, elems: seq<Element>, bound: bool,
      list: seq<Adapter>, defaults: seq<Adapter>, list2: seq<Adapter>, defaults2: seq<Adapter>, e: Element)
    requires Settled(escape, elems, defaults, defaults2)
    requires if bound then Settled(escape, elems, list, list2) else list == list2
    requires e.num < |list| || e.num < |defaults|
    ensures Piece(escape, elems, bound, list2, defaults2, e) == Piece(escape, elems, bound, list, defaults, e)
  {
    hide Shown, Kept, First;
    var f := First(elems, e.num);
    if 0 <= e.num && f.Some? {
      if e.num < |list| {
        KeptShows(escape, f.value, f.value, list[e.num]);
      } else {
        KeptShows(escape, f.value, f.value, defaults[e.num]);
      }
    }
  }

  lemma SettledSame(
      escape: Escape, elems: seq<Element>, bound: bool,
      list: seq<Adapter>, defaults: seq<Adapter>, list2: seq<Adapter>, defaults2: seq<Adapter>)
    requires Settled(escape, elems, defaults, defaults2)
    requires if bound then Settled(escape, elems, list, list2) else list == list2
    ensures var s, t := Proc(escape, elems, bound, list, defaults), Proc(escape, elems, bound, list2, defaults2);
      s.out == t.out && s.failed == t.failed
  {
    hide Proc, Settled, Pieces, Rewritten;
    SettledLengths(escape, elems, bound, list, defaults, list2, defaults2);
    var k := Reach(elems, list, defaults);
    ReachLengths(elems, list, defaults, list2, defaults2);
    SettledPieces(escape, elems, k, bound, list, defaults, list2, defaults2);
    ProcSubstitutes(escape, elems, bound, list, defaults);
    ProcSubstitutes(escape, elems, bound, list2, defaults2);
  }

  lemma SettledLengths(
      escape: Escape, elems: seq<Element>, bound: bool,
      list: seq<Adapter>, defaults: seq<Adapter>, list2: seq<Adapter>, defaults2: seq<Adapter>)
    requires Settled(escape, elems, defaults, defaults2)
    requires if bound then Settled(escape, elems, list, list2) else list == list2
    ensures |list| == |list2| && |defaults| == |defaults2|
  {
  }

  // A second rendering, of what the first left behind, gives the identical string.
  lemma SecondIsIdentical(
      escape: Escape, elems: seq<Element>, bound: bool, list: seq<Adapter>, defaults: seq<Adapter>)
    ensures var s := Proc(escape, elems, bound, list, defaults);
      var t := Proc(escape, elems, bound, s.list, s.defaults);
      t.out == s.out && t.failed == s.failed
  {
    hide Proc, Settled, Rewritten;
    var k := Reach(elems, list, defaults);
    ProcSubstitutes(escape, elems, bound, list, defaults);
    RewrittenSettles(escape, elems, k, list, 0);
    RewrittenSettles(escape, elems, k, defaults, |list|);
    var s := Proc(escape, elems, bound, list, defaults);
    SettledSame(escape, elems, bound, list, defaults, s.list, s.defaults);
  }

  // Renderings do not disturb each other: what an earlier one, with any list, did to the defaults
  // does not show in a later one with any other list.
  lemma EarlierDoesNotShow(
      escape: Escape, elems: seq<Element>, earlier: seq<Adapter>, list: seq<Adapter>, defaults: seq<Adapter>)
    ensures var left := Proc(escape, elems, false, earlier, defaults).defaults;
      var s, t := Proc(escape, elems, false, list, left), Proc(escape, elems, false, list, defaults);
      s.out == t.out && s.failed == t.failed
  {
    hide Proc, Settled, Rewritten;
    ProcSubstitutes(escape, elems, false, earlier, defaults);
    RewrittenSettles(escape, elems, Reach(elems, earlier, defaults), defaults, |earlier|);
    SettledSame(escape, elems, false, list, defaults, list, Proc(escape, elems, false, earlier, defaults).defaults);
  }

  // ---- copies --------------------------------------------------------------------------------

  // Copying or assigning an adapter clears its flag.
  function Copied(v: Adapter): Adapter { v.(processed := false) }

  function CopiedAll(values: seq<Adapter>): (r: seq<Adapter>)
    ensures |r| == |values| && forall i :: 0 <= i < |r| ==> r[i] == Copied(values[i])
  {
    seq(|values|, i requires 0 <= i < |values| => Copied(values[i]))
  }

  // SQLQueryParms::operator+: a copy of a list, completed with copies from another.
  function Composite(list: seq<Adapter>, other: seq<Adapter>): seq<Adapter> {
    if |other| <= |list| then CopiedAll(list) else CopiedAll(list + other[|list|..])
  }

  predicate Unrendered(values: seq<Adapter>) { forall i :: 0 <= i < |values| ==> !values[i].processed }

  // A copy of a value that was quoted on its first use is quoted, and escaped, once more.
  lemma CopyRequotes(escape: Escape, v: Adapter)
    requires !v.isNull && !v.processed && v.quotes
    ensures var kept, quoted := Kept(escape, 'q', v), Shown(escape, 'q', v);
      && Shown(escape, 'q', kept) == quoted
      && Shown(escape, 'q', Copied(kept)) == "'" + escape(quoted) + "'"
      && Shown(escape, 'Q', Copied(Kept(escape, 'Q', v))) == "'" + Shown(escape, 'Q', v) + "'"
  {
  }

  // ---- telling two renderings apart ------------------------------------------------------------

  lemma {:induction false} FirstIsUsed(elems: seq<Element>, n: int)
    ensures var f := First(elems, n);
      if f.None? then forall e <- elems :: e.num != n
      else exists i :: 0 <= i < |elems| && elems[i].num == n && elems[i].option == f.value
  {
    if elems != [] {
      FirstIsUsed(elems[..|elems| - 1], n);
      var e := elems[|elems| - 1];
      assert elems == elems[..|elems| - 1] + [e];
      if First(elems[..|elems| - 1], n).None? {
        assert forall x <- elems :: x in elems[..|elems| - 1] || x == e;
      } else {
        var i :| 0 <= i < |elems| - 1 && elems[..|elems| - 1][i].num == n
          && elems[..|elems| - 1][i].option == First(elems[..|elems| - 1], n).value;
        assert elems[i].num == n;
      }
    }
  }

  lemma {:induction false} PiecesGrow(
      escape: Escape, elems: seq<Element>, k: nat, m: nat, list: seq<Adapter>, defaults: seq<Adapter>)
    requires k <= m <= |elems| && forall i :: 0 <= i < m ==> elems[i].num < |list| || elems[i].num < |defaults|
    ensures Pieces(escape, elems, k, false, list, defaults) <= Pieces(escape, elems, m, false, list, defaults)
  {
    if k < m { PiecesGrow(escape, elems, k, m - 1, list, defaults); }
  }

  lemma {:induction false} PiecesAgree(
      escape: Escape, elems: seq<Element>, j: nat,
      list: seq<Adapter>, defaults: seq<Adapter>, list2: seq<Adapter>, defaults2: seq<Adapter>)
    requires j <= Reach(elems, list, defaults) && j <= Reach(elems, list2, defaults2)
    requires forall i :: 0 <= i < j ==>
      Piece(escape, elems, false, list, defaults, elems[i]) == Piece(escape, elems, false, list2, defaults2, elems[i])
    ensures Pieces(escape, elems, j, false, list, defaults) == Pieces(escape, elems, j, false, list2, defaults2)
  {
    hide Piece;
    if j > 0 { PiecesAgree(escape, elems, j - 1, list, defaults, list2, defaults2); }
  }

  predicate Given(e: Element, list: seq<Adapter>, defaults: seq<Adapter>) {
    e.num < |list| || e.num < |defaults|
  }

  // Renderings whose pieces all agree are equal ...
  lemma SamePieces(
      escape: Escape, elems: seq<Element>,
      list: seq<Adapter>, defaults: seq<Adapter>, list2: seq<Adapter>, defaults2: seq<Adapter>)
    requires forall e <- elems ::
      (e.num < |list| || e.num < |defaults|) == (e.num < |list2| || e.num < |defaults2|)
    requires forall i :: 0 <= i < |elems| && Given(elems[i], list, defaults) && Given(elems[i], list2, defaults2) ==>
      Piece(escape, elems, false, list, defaults, elems[i]) == Piece(escape, elems, false, list2, defaults2, elems[i])
    ensures Proc(escape, elems, false, list, defaults).out == Proc(escape, elems, false, list2, defaults2).out
  {
    hide Proc, Piece, Pieces, Rewritten;
    ReachLengths(elems, list, defaults, list2, defaults2);
    PiecesAgree(escape, elems, Reach(elems, list, defaults), list, defaults, list2, defaults2);
    ProcSubstitutes(escape, elems, false, list, defaults);
    ProcSubstitutes(escape, elems, false, list2, defaults2);
  }

  lemma Differ(before: string, s: string, t: string, at: nat, a: string, b: string)
    requires at < |s| && at < |t| && s[at] != t[at]
    requires before + s <= a && before + t <= b
    ensures a != b
  {
    assert (before + s)[|before| + at] != (before + t)[|before| + at];
  }

  predicate Provided(elems: seq<Element>, list: seq<Adapter>, defaults: seq<Adapter>) {
    forall i :: 0 <= i < |elems| ==> elems[i].num < |list| || elems[i].num < |defaults|
  }

  lemma ProvidedOut(escape: Escape, elems: seq<Element>, list: seq<Adapter>, defaults: seq<Adapter>)
    requires Provided(elems, list, defaults)
    ensures Reach(elems, list, defaults) == |elems|
    ensures Proc(escape, elems, false, list, defaults).out == Pieces(escape, elems, |elems|, false, list, defaults)
  {
    hide Proc, Rewritten;
    ProcSubstitutes(escape, elems, false, list, defaults);
  }

  // ... and those with a first piece that differs in some character are not.
  lemma TellApart(
      escape: Escape, elems: seq<Element>, j: nat, at: nat,
      list: seq<Adapter>, defaults: seq<Adapter>, list2: seq<Adapter>, defaults2: seq<Adapter>)
    requires Provided(elems, list, defaults) && Provided(elems, list2, defaults2) && j < |elems|
    requires forall i :: 0 <= i < j ==>
      Piece(escape, elems, false, list, defaults, elems[i]) == Piece(escape, elems, false, list2, defaults2, elems[i])
    requires var s := Piece(escape, elems, false, list, defaults, elems[j]);
      var t := Piece(escape, elems, false, list2, defaults2, elems[j]);
      at < |s| && at < |t| && s[at] != t[at]
    ensures Proc(escape, elems, false, list, defaults).out != Proc(escape, elems, false, list2, defaults2).out
  {
    hide Proc, Piece, Reach;
    ProvidedOut(escape, elems, list, defaults);
    ProvidedOut(escape, elems, list2, defaults2);
    PiecesAgree(escape, elems, j, list, defaults, list2, defaults2);
    PiecesGrow(escape, elems, j + 1, |elems|, list, defaults);
    PiecesGrow(escape, elems, j + 1, |elems|, list2, defaults2);
    var before := Pieces(escape, elems, j, false, list, defaults);
    Differ(before, Piece(escape, elems, false, list, defaults, elems[j]),
           Piece(escape, elems, false, list2, defaults2, elems[j]), at,
           Pieces(escape, elems, |elems|, false, list, defaults),
           Pieces(escape, elems, |elems|, false, list2, defaults2));
  }

  function Above(elems: seq<Element>): (size: nat)
    ensures forall e <- elems :: e.num < size
  {
    if elems == [] then 0
    else
      var m := Above(elems[..|elems| - 1]);
      var e := elems[|elems| - 1];
      assert elems == elems[..|elems| - 1] + [e];
      if e.num < m then m else e.num + 1
  }

  // ---- defaults and composite lists ----------------------------------------------------------------

  function Kind(option: char): char { if option == 'q' || option == 'Q' then option else ' ' }

  // Every parameter is used with one kind of option.
  ghost predicate Consistent(elems: seq<Element>) {
    forall i, j :: 0 <= i < |elems| && 0 <= j < |elems| && 0 <= elems[i].num == elems[j].num ==>
      Kind(elems[i].option) == Kind(elems[j].option)
  }

  // No parameter is used with option q or Q.
  ghost predicate Unquoted(elems: seq<Element>) {
    forall i :: 0 <= i < |elems| && 0 <= elems[i].num ==> Kind(elems[i].option) == ' '
  }

  // Falling back on the defaults prints what the composite list of operator+ prints: for all values, or
  // for all that were never rendered.
  ghost predicate DefaultsComplete(elems: seq<Element>, unseen: bool) {
    forall escape: Escape, list: seq<Adapter>, defaults: seq<Adapter> |
      unseen ==> Unrendered(list) && Unrendered(defaults) ::
      Proc(escape, elems, false, list, defaults).out ==
      Proc(escape, elems, false, Composite(list, defaults), []).out
  }

  lemma ShownByKind(escape: Escape, option: char, other: char, v: Adapter)
    ensures Kind(option) == Kind(other) ==> Shown(escape, option, v) == Shown(escape, other, v)
    ensures Kind(option) == ' ' ==> Shown(escape, option, v) == Shown(escape, option, Copied(v))
    ensures !v.processed ==> Copied(v) == v
  {
  }

  lemma OptionByKind(elems: seq<Element>, k: nat)
    requires k < |elems| && elems[k].num >= 0
    ensures Consistent(elems) ==> Kind(OptionOf(elems, elems[k])) == Kind(elems[k].option)
    ensures Unquoted(elems) ==> Kind(OptionOf(elems, elems[k])) == ' ' == Kind(elems[k].option)
  {
    FirstIsUsed(elems, elems[k].num);
    assert elems[k] in elems;
  }

  lemma CompletePiece(
      escape: Escape, elems: seq<Element>, list: seq<Adapter>, defaults: seq<Adapter>, k: nat)
    requires (Consistent(elems) && Unrendered(list) && Unrendered(defaults)) || Unquoted(elems)
    requires k < |elems| && (elems[k].num < |list| || elems[k].num < |defaults|)
    ensures elems[k].num < |Composite(list, defaults)|
    ensures Piece(escape, elems, false, list, defaults, elems[k]) ==
      Piece(escape, elems, false, Composite(list, defaults), [], elems[k])
  {
    hide Shown, First, Consistent, Unquoted;
    var e := elems[k];
    if 0 <= e.num {
      var v := if e.num < |list| then list[e.num] else defaults[e.num];
      OptionByKind(elems, k);
      assert Composite(list, defaults)[e.num] == Copied(v);
      ShownByKind(escape, OptionOf(elems, e), e.option, v);
      ShownByKind(escape, e.option, e.option, v);
    }
  }

  lemma Completes(elems: seq<Element>, unseen: bool)
    requires if unseen then Consistent(elems) else Unquoted(elems)
    ensures DefaultsComplete(elems, unseen)
  {
    hide Consistent, Unquoted, Proc, Piece;
    forall escape: Escape, list: seq<Adapter>, defaults: seq<Adapter> |
      unseen ==> Unrendered(list) && Unrendered(defaults)
      ensures Proc(escape, elems, false, list, defaults).out ==
        Proc(escape, elems, false, Composite(list, defaults), []).out
    {
      forall i | 0 <= i < |elems| && (elems[i].num < |list| || elems[i].num < |defaults|)
        ensures elems[i].num < |Composite(list, defaults)|
        ensures Piece(escape, elems, false, list, defaults, elems[i]) ==
          Piece(escape, elems, false, Composite(list, defaults), [], elems[i])
      {
        CompletePiece(escape, elems, list, defaults, i);
      }
      SamePieces(escape, elems, list, defaults, Composite(list, defaults), []);
    }
  }

  // Values that tell options apart: all are NULL but the one with number n.
  const PLAIN := Adapter("x", false, true, true, false)

  const SQL_NULL := Adapter("", true, false, false, false)

  const DOUBLING: Escape := (s: string) => s + s

  function Probe(n: nat, size: nat, v: Adapter): (r: seq<Adapter>)
    ensures |r| == size && forall i :: 0 <= i < size ==> r[i] == if i == n then v else SQL_NULL
  {
    seq(size, i => if i == n then v else SQL_NULL)
  }

  lemma ProbeShows(option: char, other: char) returns (at: nat)
    requires Kind(option) != Kind(other)
    ensures var s, t := Shown(DOUBLING, option, PLAIN), Shown(DOUBLING, other, PLAIN);
      at < |s| && at < |t| && s[at] != t[at]
  {
    assert DOUBLING("x") == ['x', 'x'];
    assert Shown(DOUBLING, 'q', PLAIN) == ['\'', 'x', 'x', '\''];
    assert Shown(DOUBLING, 'Q', PLAIN) == ['\'', 'x', '\''];
    at := if Kind(option) == ' ' || Kind(other) == ' ' then 0 else 2;
  }

  // The option a default seems to be used with: none once it was rendered.
  function Seeming(elems: seq<Element>, e: Element, unseen: bool): char {
    if unseen then OptionOf(elems, e) else ' '
  }

  predicate Mismatch(elems: seq<Element>, k: nat, unseen: bool)
    requires k < |elems|
  {
    Kind(Seeming(elems, elems[k], unseen)) != Kind(elems[k].option)
  }

  lemma {:induction false} FirstMismatch(elems: seq<Element>, n: nat, j: nat, unseen: bool) returns (k: nat)
    requires j < |elems| && elems[j].num == n && Mismatch(elems, j, unseen)
    ensures k < |elems| && elems[k].num == n && Mismatch(elems, k, unseen)
    ensures forall i :: 0 <= i < k && elems[i].num == n ==> !Mismatch(elems, i, unseen)
  {
    k := j;
    if i :| 0 <= i < j && elems[i].num == n && Mismatch(elems, i, unseen) {
      k := FirstMismatch(elems, n, i, unseen);
    }
  }

  // The probe read through the defaults and as a list of its own: element i with number n.
  lemma ProbePiece(elems: seq<Element>, i: nat, n: nat, size: nat, unseen: bool)
    requires i < |elems| && elems[i].num < size && n < size
    ensures var d, e := Probe(n, size, PLAIN.(processed := !unseen)), elems[i];
      var s := Piece(DOUBLING, elems, false, [], d, e);
      var t := Piece(DOUBLING, elems, false, Probe(n, size, PLAIN), [], e);
      && (e.num != n ==> s == t)
      && (e.num == n ==>
            s == e.before + Shown(DOUBLING, Seeming(elems, e, unseen), PLAIN)
            && t == e.before + Shown(DOUBLING, e.option, PLAIN))
  {
    hide First;
  }

  lemma ProbeTells(elems: seq<Element>, j: nat, n: nat, size: nat, unseen: bool)
    requires j < |elems| && elems[j].num == n < size && Mismatch(elems, j, unseen)
    requires forall i :: 0 <= i < |elems| ==> elems[i].num < size
    requires forall i :: 0 <= i < j && elems[i].num == n ==> !Mismatch(elems, i, unseen)
    ensures var d := Probe(n, size, PLAIN.(processed := !unseen));
      Proc(DOUBLING, elems, false, [], d).out != Proc(DOUBLING, elems, false, Probe(n, size, PLAIN), []).out
  {
    hide Proc, First, Shown, Reach, Piece;
    var d, e := Probe(n, size, PLAIN.(processed := !unseen)), elems[j];
    var at := ProbeShows(Seeming(elems, e, unseen), e.option);
    forall i | 0 <= i < j
      ensures Piece(DOUBLING, elems, false, [], d, elems[i]) ==
        Piece(DOUBLING, elems, false, Probe(n, size, PLAIN), [], elems[i])
    {
      ProbePiece(elems, i, n, size, unseen);
      ShownByKind(DOUBLING, Seeming(elems, elems[i], unseen), elems[i].option, PLAIN);
    }
    ProbePiece(elems, j, n, size, unseen);
    TellApart(DOUBLING, elems, j, |e.before| + at, [], d, Probe(n, size, PLAIN), []);
  }

  lemma NotComplete(elems: seq<Element>, m: nat, unseen: bool)
    requires m < |elems| && elems[m].num >= 0 && Mismatch(elems, m, unseen)
    ensures !DefaultsComplete(elems, unseen)
  {
    hide Proc, Mismatch;
    var n, size := elems[m].num, Above(elems);
    var d := Probe(n, size, PLAIN.(processed := !unseen));
    assert forall i :: 0 <= i < |elems| ==> elems[i] in elems;
    var k := FirstMismatch(elems, n, m, unseen);
    ProbeTells(elems, k, n, size, unseen);
    assert Composite([], d) == Probe(n, size, PLAIN);
  }

  // Falling back on the defaults is the same as substituting the composite list: over values never
  // rendered exactly if no parameter is used with two kinds of option, over all values exactly if none
  // is used with option q or Q.
  lemma CompleteIff(elems: seq<Element>)
    ensures DefaultsComplete(elems, true) <==> Consistent(elems)
    ensures DefaultsComplete(elems, false) <==> Unquoted(elems)
  {
    hide DefaultsComplete;
    if Consistent(elems) {
      Completes(elems, true);
    } else {
      var i, j :| 0 <= i < |elems| && 0 <= j < |elems| && 0 <= elems[i].num == elems[j].num
        && Kind(elems[i].option) != Kind(elems[j].option);
      FirstIsUsed(elems, elems[i].num);
      assert elems[i] in elems;
      assert OptionOf(elems, elems[i]) == OptionOf(elems, elems[j]);
      NotComplete(elems, if Mismatch(elems, i, true) then i else j, true);
    }
    if Unquoted(elems) {
      Completes(elems, false);
    } else {
      var i :| 0 <= i < |elems| && 0 <= elems[i].num && Kind(elems[i].option) != ' ';
      NotComplete(elems, i, false);
    }
  }

  const UNESCAPED: Escape := (s: string) => s

  // One quoted parameter, a default rendered once: it prints 'x', and quoted twice in the composite.
  lemma CompositeRequotes()
    ensures var elems := [Element("", 'q', 0), Element("", ' ', -1)];
      var left := Proc(UNESCAPED, elems, false, [], [PLAIN]).defaults;
      && Proc(UNESCAPED, elems, false, [], left).out == "'x'"
      && Proc(UNESCAPED, elems, false, Composite([], left), []).out == "''x''"
  {
    var e, end := Element("", 'q', 0), Element("", ' ', -1);
    TwoElements(UNESCAPED, e, end, [], [PLAIN]);
    var quoted := Adapter("'x'", false, true, true, true);
    assert UNESCAPED("x") == "x" && UNESCAPED("'x'") == "'x'";
    assert "'" + "x" + "'" == "'x'" && "'" + "'x'" + "'" == "''x''";
    assert Kept(UNESCAPED, 'q', PLAIN) == quoted && [PLAIN][0 := quoted] == [quoted];
    TwoElements(UNESCAPED, e, end, [], [quoted]);
    assert Composite([], [quoted]) == [Copied(quoted)];
    TwoElements(UNESCAPED, e, end, [Copied(quoted)], []);
  }

  lemma TwoElements(escape: Escape, e: Element, end: Element, list: seq<Adapter>, defaults: seq<Adapter>)
    requires e.before == end.before == "" && e.num == 0 && end.num < 0 && (list != [] || defaults != [])
    ensures var v := if list != [] then list[0] else defaults[0];
      var s := Proc(escape, [e, end], false, list, defaults);
      && s.out == Shown(escape, e.option, v)
      && (list == [] ==> s.defaults == defaults[0 := Kept(escape, e.option, v)])
  {
    hide Shown, Kept;
    assert [e, end][..1] == [e] && [e][..0] == [];
    assert Proc(escape, [e], false, list, defaults) == Fill(escape, e, false, State("", list, defaults, false));
    var v := if list != [] then list[0] else defaults[0];
    assert "" + "" + Shown(escape, e.option, v) + "" == Shown(escape, e.option, v);
  }

  // ---- defaults that move -----------------------------------------------------------------------

  // Between two renderings the defaults are copied, as a list that grows out of its memory is.
  ghost predicate CopyUnnoticed(elems: seq<Element>) {
    forall escape: Escape, list: seq<Adapter>, defaults: seq<Adapter> ::
      var left := Proc(escape, elems, false, list, defaults).defaults;
      Proc(escape, elems, false, list, CopiedAll(left)).out == Proc(escape, elems, false, list, defaults).out
  }

  // No parameter is quoted where it is first used.
  ghost predicate PlainFirst(elems: seq<Element>) {
    forall k :: 0 <= k < |elems| && elems[k].num >= 0 ==> Kind(OptionOf(elems, elems[k])) == ' '
  }

  lemma PlainUnnoticed(elems: seq<Element>)
    requires PlainFirst(elems)
    ensures CopyUnnoticed(elems)
  {
    hide Proc, Piece;
    forall escape: Escape, list: seq<Adapter>, defaults: seq<Adapter>
      ensures var left := Proc(escape, elems, false, list, defaults).defaults;
        Proc(escape, elems, false, list, CopiedAll(left)).out == Proc(escape, elems, false, list, defaults).out
    {
      var left := Proc(escape, elems, false, list, defaults).defaults;
      EarlierDoesNotShow(escape, elems, list, list, defaults);
      forall i | 0 <= i < |elems| && Given(elems[i], list, left)
        ensures Piece(escape, elems, false, list, CopiedAll(left), elems[i]) ==
          Piece(escape, elems, false, list, left, elems[i])
      {
        PlainPiece(escape, elems, list, left, i);
      }
      SamePieces(escape, elems, list, CopiedAll(left), list, left);
    }
  }

  lemma PlainPiece(escape: Escape, elems: seq<Element>, list: seq<Adapter>, left: seq<Adapter>, i: nat)
    requires PlainFirst(elems) && i < |elems| && Given(elems[i], list, left)
    ensures Piece(escape, elems, false, list, CopiedAll(left), elems[i]) ==
      Piece(escape, elems, false, list, left, elems[i])
  {
    hide Shown, First;
    var e := elems[i];
    if |list| <= e.num { ShownByKind(escape, OptionOf(elems, e), OptionOf(elems, e), left[e.num]); }
  }

  lemma {:induction false} FirstUse(elems: seq<Element>, k: nat) returns (j: nat)
    requires k < |elems|
    ensures j <= k && elems[j].num == elems[k].num && forall i :: 0 <= i < j ==> elems[i].num != elems[k].num
    decreases k
  {
    j := k;
    if i :| 0 <= i < k && elems[i].num == elems[k].num {
      j := FirstUse(elems, i);
    }
  }

  // What is left of the probe, and its copy: they differ in the second character.
  lemma LeftShows(option: char)
    requires Kind(option) != ' '
    ensures var left := Kept(DOUBLING, option, PLAIN);
      var s, t := Shown(DOUBLING, option, Copied(left)), Shown(DOUBLING, option, PLAIN);
      |s| > 1 && |t| > 1 && s[1] != t[1]
  {
    assert DOUBLING("x") == ['x', 'x'];
    assert Shown(DOUBLING, 'q', PLAIN) == ['\'', 'x', 'x', '\''];
    assert Shown(DOUBLING, 'Q', PLAIN) == ['\'', 'x', '\''];
    var text := Shown(DOUBLING, option, PLAIN);
    assert DOUBLING(text) == text + text;
    assert Shown(DOUBLING, option, Copied(Kept(DOUBLING, option, PLAIN)))[1] == '\'';
  }

  lemma QuotedNoticed(elems: seq<Element>, k: nat)
    requires k < |elems| && elems[k].num >= 0 && Kind(OptionOf(elems, elems[k])) != ' '
    ensures !CopyUnnoticed(elems)
  {
    hide Proc, Piece, Shown, Kept, Rewritten;
    var n, size, option := elems[k].num, Above(elems), OptionOf(elems, elems[k]);
    assert forall i :: 0 <= i < |elems| ==> elems[i] in elems;
    var d := Probe(n, size, PLAIN);
    var left := Proc(DOUBLING, elems, false, [], d).defaults;
    LeftOfProbe(elems, k, n, size);
    var j := FirstUse(elems, k);
    forall i | 0 <= i < j
      ensures Piece(DOUBLING, elems, false, [], CopiedAll(left), elems[i]) ==
        Piece(DOUBLING, elems, false, [], d, elems[i])
    {
      NullPiece(elems, CopiedAll(left), d, elems[i]);
    }
    FirstIsUsed(elems, n);
    assert elems[k] in elems && OptionOf(elems, elems[j]) == option;
    LeftShows(option);
    DefaultPiece(elems, CopiedAll(left), elems[j]);
    DefaultPiece(elems, d, elems[j]);
    TellApart(DOUBLING, elems, j, |elems[j].before| + 1, [], CopiedAll(left), [], d);
  }

  lemma DefaultPiece(elems: seq<Element>, d: seq<Adapter>, e: Element)
    requires 0 <= e.num < |d|
    ensures Piece(DOUBLING, elems, false, [], d, e) == e.before + Shown(DOUBLING, OptionOf(elems, e), d[e.num])
  {
  }

  lemma NullPiece(elems: seq<Element>, d: seq<Adapter>, d2: seq<Adapter>, e: Element)
    requires e.num < |d| == |d2| && (e.num >= 0 ==> d[e.num].isNull && d2[e.num].isNull)
    ensures Piece(DOUBLING, elems, false, [], d, e) == Piece(DOUBLING, elems, false, [], d2, e)
  {
  }

  lemma LeftOfProbe(elems: seq<Element>, k: nat, n: nat, size: nat)
    requires k < |elems| && elems[k].num == n && forall i :: 0 <= i < |elems| ==> elems[i].num < size
    ensures var left := Proc(DOUBLING, elems, false, [], Probe(n, size, PLAIN)).defaults;
      && |left| == size && left[n] == Kept(DOUBLING, OptionOf(elems, elems[k]), PLAIN)
      && forall i :: 0 <= i < size && i != n ==> left[i] == SQL_NULL
  {
    hide Proc, Shown;
    var d := Probe(n, size, PLAIN);
    ProcSubstitutes(DOUBLING, elems, false, [], d);
    ProvidedOut(DOUBLING, elems, [], d);
    assert elems[..|elems|] == elems;
    FirstIsUsed(elems, n);
    assert elems[k] in elems;
  }

  // Copying the defaults between two renderings of a template goes unnoticed, whatever the values,
  // exactly if no parameter is quoted where it is first used.
  lemma CopyIff(elems: seq<Element>)
    ensures CopyUnnoticed(elems) <==> PlainFirst(elems)
  {
    if PlainFirst(elems) {
      PlainUnnoticed(elems);
    } else {
      var k :| 0 <= k < |elems| && elems[k].num >= 0 && Kind(OptionOf(elems, elems[k])) != ' ';
      QuotedNoticed(elems, k);
    }
  }
}
