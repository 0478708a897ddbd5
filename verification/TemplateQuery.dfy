/**
  The template query object: its text is parsed once into elements, then filled from parameter
  lists, with the query's own defaults behind them.
 */
module TemplateQuery {
  import opened TemplateParse
  import opened TemplateRender

  const EMPTY := Adapter("", false, true, true, false)

  // The items of a vector once it has room for `size`: copied if it had to move.
  function Moved(items: seq<Adapter>, capacity: nat, size: nat): (r: seq<Adapter>)
    ensures |r| == |items|
  {
    if size <= capacity then items else CopiedAll(items)
  }

  // SQLQueryParms: a vector, bound when it belongs to a query.
  class SQLQueryParms {
    const bound: bool
    var items: seq<Adapter>
    var capacity: nat

    constructor (bound: bool)
      ensures this.bound == bound && items == [] && capacity == 0
    {
      this.bound := bound;
      items, capacity := [], 0;
    }

    method Clear()
      modifies this`items
      ensures items == []
    {
      items := [];
    }

    // The library allocates for `size` items or more, as it likes, and copies those it has.
    method Reserve(size: nat, room: nat)
      modifies this
      ensures items == Moved(old(items), old(capacity), size)
      ensures size <= capacity && (size <= old(capacity) ==> capacity == old(capacity))
    {
      if size > capacity {
        items := CopiedAll(items);
        capacity := if room < size then size else room;
      }
    }

    // operator<<: push_back of a copy.
    method Append(v: Adapter, room: nat)
      modifies this
      ensures items == Moved(old(items), old(capacity), |old(items)| + 1) + [Copied(v)]
      ensures |items| <= capacity
    {
      Reserve(|items| + 1, room);
      items := items + [Copied(v)];
    }

    // operator[]: the list grows to hold the index.
    method At(n: nat, room: nat) returns (v: Adapter)
      modifies this
      ensures n < |items| && v == items[n]
      ensures n < |old(items)| ==> items == old(items)
      ensures n >= |old(items)| ==>
        items == Moved(old(items), old(capacity), n + 1) + seq(n + 1 - |old(items)|, _ => EMPTY)
    {
      if n >= |items| {
        Reserve(n + 1, room);
        items := items + seq(n + 1 - |items|, _ => EMPTY);
      }
      v := items[n];
    }

    // operator+: every value of the sum is a copy.
    method Plus(other: SQLQueryParms, room: nat) returns (sum: SQLQueryParms)
      ensures fresh(sum) && sum.bound == bound && sum.items == Composite(items, other.items)
      ensures |sum.items| == if |items| < |other.items| then |other.items| else |items|
      ensures forall i :: 0 <= i < |sum.items| ==>
        sum.items[i] == Copied(if i < |items| then items[i] else other.items[i])
    {
      sum := new SQLQueryParms(bound);
      sum.Reserve(|items|, 0);
      sum.items := CopiedAll(items);
      if |other.items| <= |items| { return; }
      var i := |items|;
      while i < |other.items|
        invariant |items| <= i <= |other.items|
        invariant sum.items == CopiedAll(items + other.items[|items|..i])
      {
        ghost var was := items + other.items[|items|..i];
        assert other.items[|items|..i + 1] == other.items[|items|..i] + [other.items[i]];
        assert CopiedAll(CopiedAll(was)) == CopiedAll(was);
        assert CopiedAll(items + other.items[|items|..i + 1]) == CopiedAll(was) + [Copied(other.items[i])];
        sum.Append(other.items[i], room);
        i := i + 1;
      }
      assert other.items[|items|..i] == other.items[|items|..];
    }
  }

  class Query {
    const escape: Escape
    const defaults: SQLQueryParms
    var buffer: string
    var elems: seq<Element>
    var names: seq<string>
    var nums: map<string, int>

    ghost predicate Valid() { defaults.bound }

    constructor (escape: Escape, text: string)
      ensures Valid() && fresh(defaults) && defaults.items == []
      ensures buffer == text && elems == [] && names == [] && nums == map[] && this.escape == escape
    {
      this.escape := escape;
      defaults := new SQLQueryParms(true);
      buffer, elems, names, nums := text, [], [], map[];
    }

    // pprepare(): the text of a parameter that is not NULL; with `replace` it takes the parameter's place.
    method PPrepare(option: char, c: SQLQueryParms, n: nat, replace: bool) returns (text: string)
      requires n < |c.items| && !c.items[n].isNull
      modifies c`items
      ensures var v, was := old(c.items[n]), old(c.items);
        if v.processed then text == v.data && c.items == was
        else if option == 'q' || (option == 'Q' && v.quotes) then
          var quote := if v.quotes then "'" else "";
          && text == quote + (if option == 'q' && v.escapes then escape(v.data) else v.data) + quote
          && c.items == if replace then was[n := Adapter(text, false, true, true, true)] else was
        else text == v.data && c.items == if replace then was[n := v.(processed := true)] else was
      ensures text == Shown(escape, option, old(c.items[n]))
      ensures c.items == old(c.items)[n := if replace then Kept(escape, option, old(c.items[n])) else old(c.items[n])]
    {
      var v := c.items[n];
      if v.processed {
        return v.data;
      }
      if option == 'q' {
        var temp := if v.quotes then "'" else "";
        temp := temp + if v.escapes then escape(v.data) else v.data;
        if v.quotes { temp := temp + "'"; }
        if replace { c.items := c.items[n := Adapter(temp, false, true, true, true)]; }
        return temp;
      } else if option == 'Q' && v.quotes {
        var temp := "'" + v.data + "'";
        if replace { c.items := c.items[n := Adapter(temp, false, true, true, true)]; }
        return temp;
      } else {
        if replace { c.items := c.items[n := v.(processed := true)]; }
        return v.data;
      }
    }

    // proc(): the list may be the defaults themselves; thrown stands for BadParamCount.
    method Proc(p: SQLQueryParms) returns (thrown: bool)
      requires Valid()
      modifies this`buffer, p`items, defaults`items
      ensures var s := TemplateRender.Proc(
                escape, elems, p.bound, if p == defaults then [] else old(p.items), old(defaults.items));
        && buffer == s.out && thrown == s.failed && defaults.items == s.defaults
        && (p != defaults ==> p.items == s.list)
    {
      ghost var list, initial := if p == defaults then [] else p.items, defaults.items;
      buffer := "";
      var i := 0;
      while i < |elems|
        invariant i <= |elems|
        invariant TemplateRender.Proc(escape, elems[..i], p.bound, list, initial) ==
          State(buffer, if p == defaults then list else p.items, defaults.items, false)
      {
        assert elems[..i + 1][..i] == elems[..i];
        thrown := One(elems[i], p);
        i := i + 1;
        if thrown {
          FailStays(escape, elems, i, p.bound, list, initial);
          return;
        }
      }
      assert elems[..i] == elems;
      thrown := false;
    }

    // One element.
    method One(e: Element, p: SQLQueryParms) returns (thrown: bool)
      requires Valid()
      modifies this`buffer, p`items, defaults`items
      ensures thrown <==> e.num >= 0 && e.num >= |old(p.items)| && e.num >= |old(defaults.items)|
      ensures e.num < 0 ==> buffer == old(buffer) + e.before
      ensures thrown ==> buffer == old(buffer) + e.before + " ERROR"
      ensures e.num >= 0 && !thrown ==>
        var v := if e.num < |old(p.items)| then old(p.items)[e.num] else old(defaults.items)[e.num];
        && (v.isNull ==> buffer == old(buffer) + e.before + "NULL")
        && (!v.isNull && (v.processed || e.option !in ['q', 'Q'] || (e.option == 'Q' && !v.quotes)) ==>
              buffer == old(buffer) + e.before + v.data)
      ensures State(buffer, if p == defaults then [] else p.items, defaults.items, thrown) ==
        Fill(escape, e, p.bound,
             State(old(buffer), if p == defaults then [] else old(p.items), old(defaults.items), false))
    {
      thrown := false;
      buffer := buffer + e.before;
      if e.num >= 0 {
        var c: SQLQueryParms;
        if e.num < |p.items| {
          c := p;
        } else if e.num < |defaults.items| {
          c := defaults;
        } else {
          buffer := buffer + " ERROR";
          return true;
        }
        if c.items[e.num].isNull {
          buffer := buffer + "NULL";
        } else {
          var text := PPrepare(e.option, c, e.num, c.bound);
          buffer := buffer + text;
        }
      }
    }

    // str(p)
    method Str(p: SQLQueryParms) returns (text: string, thrown: bool)
      requires Valid()
      modifies this`buffer, p`items, defaults`items
      ensures elems == [] ==> text == old(buffer) && !thrown
      ensures elems != [] ==>
        var s := TemplateRender.Proc(
          escape, elems, p.bound, if p == defaults then [] else old(p.items), old(defaults.items));
        thrown == s.failed && (!thrown ==> text == s.out)
    {
      thrown := false;
      if |elems| != 0 {
        thrown := Proc(p);
      }
      text := if thrown then "" else buffer;
    }

    // Query::parse, false where the C++ function writes outside parsed_names_.
    method Parse() returns (defined: bool)
      modifies this`elems, this`names, this`nums
      ensures var r := Scan(buffer, "", Template(old(elems), old(names), old(nums)));
        defined == r.Template? && (defined ==> Template(elems, names, nums) == r)
      ensures defined <==> forall p <- Read(buffer, "").0 :: !OutOfBounds(p)
    {
      UndefinedIff(buffer, "", Template(elems, names, nums));
      hide Scan, Read, OutOfBounds;
      defined := ParseText(buffer);
    }

    // Its loop over the text.
    method ParseText(s: string) returns (defined: bool)
      modifies this`elems, this`names, this`nums
      ensures var r := Scan(s, "", Template(old(elems), old(names), old(nums)));
        defined == r.Template? && (defined ==> Template(elems, names, nums) == r)
    {
      hide Scan, ReadHole, Save, SetName;
      ghost var r := Scan(s, "", Template(elems, names, nums));
      var i, str := 0, "";
      assert s[0..] == s;
      while i < |s| && s[i] != NUL
        invariant i <= |s| && r == Scan(s[i..], str, Template(elems, names, nums))
      {
        ghost var q := Template(elems, names, nums);
        if s[i] != '%' {
          ScanPlain(s, i, str, q);
          str := str + [s[i]];
          i := i + 1;
        } else if i + 1 < |s| && s[i + 1] == '%' {
          ScanDoubled(s, i, str, q);
          str := str + "%";
          i := i + 2;
        } else if i + 1 < |s| && IsDigit(s[i + 1]) {
          ScanNumbered(s, i, str, q);
          defined, i := ParseParam(s, i + 1, str);
          if !defined {
            UndefinedStays(s[i..], "");
            return;
          }
          str := "";
        } else {
          ScanPercent(s, i, str, q);
          str := str + "%";
          i := i + 1;
        }
      }
      ScanEnd(s, i, str, Template(elems, names, nums));
      SaveParts(Template(elems, names, nums), str, Hole(-1, ' ', false, "", ""));
      elems := elems + [Element(str, ' ', -1)];
      return true;
    }

    // A parameter, saved with the text before it; false where the write is out of bounds.
    method ParseParam(s: string, start: nat, str: string) returns (defined: bool, i: nat)
      requires start < |s| && IsDigit(s[start])
      modifies this`elems, this`names, this`nums
      ensures start < i <= |s| && ReadHole(s[start..]).rest == s[i..]
      ensures var q := Save(Template(old(elems), old(names), old(nums)), str, ReadHole(s[start..]));
        defined == q.Template? && (defined ==> Template(elems, names, nums) == q)
    {
      hide ReadHole, Save, SetName;
      var num, option, named, name;
      num, option, named, name, i := ParseHole(s, start);
      SaveParts(Template(elems, names, nums), str, Hole(num, option, named, name, s[i..]));
      if named && num < 0 {
        return false, i;
      }
      if named {
        names := SetName(names, num, name);
        nums := nums[name := num];
      }
      elems := elems + [Element(str, option, num)];
      defined := true;
    }

    // The number, option and name behind a percent sign.
    static method ParseHole(s: string, start: nat)
      returns (num: int, option: char, named: bool, name: string, i: nat)
      requires start < |s| && IsDigit(s[start])
      ensures start < i <= |s| && Hole(num, option, named, name, s[i..]) == ReadHole(s[start..])
    {
      hide Value, SignedChar, NameLength;
      var d := 1;
      if start + 1 < |s| && IsDigit(s[start + 1]) {
        d := if start + 2 < |s| && IsDigit(s[start + 2]) then 3 else 2;
      }
      i := start + d;
      DigitsAt(s, start, d);
      num := SignedChar(Value(s[start..i]));
      option, named, name, i := ParseOption(num, s, i);
    }

    static method ParseOption(ghost num: int, s: string, start: nat)
      returns (option: char, named: bool, name: string, i: nat)
      requires start <= |s|
      ensures start <= i <= |s| && Hole(num, option, named, name, s[i..]) == ReadOption(num, s[start..])
    {
      hide ReadOption, ReadName;
      option, i := ' ', start;
      if i < |s| && (s[i] == 'q' || s[i] == 'Q') {
        option := s[i];
        i := i + 1;
      }
      OptionAt(num, s, start);
      named, name, i := ParseNamed(num, option, s, i);
    }

    static method ParseNamed(ghost num: int, ghost option: char, s: string, start: nat)
      returns (named: bool, name: string, i: nat)
      requires start <= |s|
      ensures start <= i <= |s| && Hole(num, option, named, name, s[i..]) == ReadName(num, option, s[start..])
    {
      hide NameLength, ReadName, IsNameChar;
      named, name, i := false, "", start;
      NameAt(num, option, s, start);
      if i < |s| && s[i] == ':' {
        named := true;
        name, i := ParseName(s, i + 1);
        if i < |s| && s[i] == ':' { i := i + 1; }
      }
    }

    static method ParseName(s: string, start: nat) returns (name: string, i: nat)
      requires start <= |s|
      ensures i == start + NameLength(s[start..]) && i <= |s| && name == s[start..i]
    {
      hide NameLength;
      name, i := "", start;
      while i < |s| && IsNameChar(s[i])
        invariant start <= i <= |s| && name == s[start..i]
        invariant i - start + NameLength(s[i..]) == NameLength(s[start..])
      {
        NameLengthAt(s, i);
        name := name + [s[i]];
        i := i + 1;
      }
      NameLengthAt(s, i);
    }
  }

  lemma NameLengthAt(s: string, i: nat)
    requires i <= |s|
    ensures NameLength(s[i..]) == if i < |s| && IsNameChar(s[i]) then 1 + NameLength(s[i + 1..]) else 0
  {
    if i < |s| { assert s[i..][1..] == s[i + 1..]; }
  }

  lemma OptionAt(num: int, s: string, i: nat)
    requires i <= |s|
    ensures ReadOption(num, s[i..]) ==
      if i < |s| && (s[i] == 'q' || s[i] == 'Q') then ReadName(num, s[i], s[i + 1..]) else ReadName(num, ' ', s[i..])
  {
    hide ReadName;
    if i < |s| { assert s[i..][1..] == s[i + 1..]; }
  }

  lemma NameAt(num: int, option: char, s: string, i: nat)
    requires i <= |s|
    ensures ReadName(num, option, s[i..]) ==
      if i < |s| && s[i] == ':' then
        var j := i + 1 + NameLength(s[i + 1..]);
        Hole(num, option, true, s[i + 1..j], if j < |s| && s[j] == ':' then s[j + 1..] else s[j..])
      else Hole(num, option, false, "", s[i..])
  {
    hide NameLength;
    if i < |s| && s[i] == ':' {
      var t := s[i + 1..];
      var k := NameLength(t);
      assert s[i..][1..] == t;
      assert t[..k] == s[i + 1..i + 1 + k] && t[k..] == s[i + 1 + k..];
      if i + 1 + k < |s| { assert s[i + 1 + k..][1..] == s[i + 2 + k..]; }
    }
  }

  lemma DigitsAt(s: string, start: nat, d: nat)
    requires start < |s| && IsDigit(s[start]) && 1 <= d <= 3
    requires d >= 2 <==> start + 1 < |s| && IsDigit(s[start + 1])
    requires d == 3 <==> start + 1 < |s| && IsDigit(s[start + 1]) && start + 2 < |s| && IsDigit(s[start + 2])
    ensures d == DigitCount(s[start..])
    ensures s[start..][..d] == s[start..start + d] && s[start..][d..] == s[start + d..]
  {
    var t := s[start..];
    assert start + 1 < |s| ==> t[1..][0] == s[start + 1];
    assert start + 2 < |s| ==> t[2..][0] == s[start + 2];
  }

  lemma SaveParts(q: Template, before: string, h: Hole)
    requires q.Template?
    ensures Save(q, before, h) ==
      if !h.named then q.(elems := q.elems + [Element(before, h.option, h.num)])
      else if h.num < 0 then Undefined
      else Template(q.elems + [Element(before, h.option, h.num)], SetName(q.names, h.num, h.name),
                    q.nums[h.name := h.num])
  {
    hide SetName;
  }

  // The scanner at position i.
  lemma ScanEnd(s: string, i: nat, str: string, q: Template)
    requires i <= |s| && (i == |s| || s[i] == NUL)
    ensures Scan(s[i..], str, q) == Save(q, str, Hole(-1, ' ', false, "", ""))
  {
    hide ReadHole, Save;
  }

  lemma ScanPlain(s: string, i: nat, str: string, q: Template)
    requires i < |s| && s[i] != NUL && s[i] != '%'
    ensures Scan(s[i..], str, q) == Scan(s[i + 1..], str + [s[i]], q)
  {
    hide ReadHole, Save;
    assert s[i..][1..] == s[i + 1..];
  }

  lemma ScanDoubled(s: string, i: nat, str: string, q: Template)
    requires i + 1 < |s| && s[i] == s[i + 1] == '%'
    ensures Scan(s[i..], str, q) == Scan(s[i + 2..], str + "%", q)
  {
    hide ReadHole, Save;
    assert s[i..][1..] == s[i + 1..] && s[i..][2..] == s[i + 2..];
  }

  lemma ScanNumbered(s: string, i: nat, str: string, q: Template)
    requires i + 1 < |s| && s[i] == '%' && IsDigit(s[i + 1])
    ensures Scan(s[i..], str, q) == Scan(ReadHole(s[i + 1..]).rest, "", Save(q, str, ReadHole(s[i + 1..])))
  {
    hide ReadHole, Save;
    assert s[i..][1..] == s[i + 1..];
  }

  lemma ScanPercent(s: string, i: nat, str: string, q: Template)
    requires i < |s| && s[i] == '%' && (i + 1 < |s| ==> s[i + 1] != '%' && !IsDigit(s[i + 1]))
    ensures Scan(s[i..], str, q) == Scan(s[i + 1..], str + "%", q)
  {
    hide ReadHole, Save;
    assert s[i..][1..] == s[i + 1..];
  }

  lemma {:induction false} FailStays(
      escape: Escape, elems: seq<Element>, k: nat, bound: bool, list: seq<Adapter>, defaults: seq<Adapter>)
    requires k <= |elems| && TemplateRender.Proc(escape, elems[..k], bound, list, defaults).failed
    ensures TemplateRender.Proc(escape, elems, bound, list, defaults) ==
      TemplateRender.Proc(escape, elems[..k], bound, list, defaults)
  {
    if k < |elems| {
      assert elems[..|elems| - 1][..k] == elems[..k];
      FailStays(escape, elems[..|elems| - 1], k, bound, list, defaults);
    } else {
      assert elems[..k] == elems;
    }
  }
}
