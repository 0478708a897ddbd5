/**
  Query::parse: the scanner that cuts a template query into literals and parameters, and the
  printed form it undoes.
 */
module TemplateParse {
  import opened Options

  datatype Element = Element(before: string, option: char, num: int)

  // parse_elems_, parsed_names_ and parsed_nums_; a negative number with a name writes out of bounds.
  datatype Template =
    | Template(elems: seq<Element>, names: seq<string>, nums: map<string, int>)
    | Undefined

  const NUL: char := '\0'

  predicate IsDigit(c: char) { '0' <= c <= '9' }

  predicate IsNameChar(c: char) { IsDigit(c) || 'a' <= c <= 'z' || 'A' <= c <= 'Z' || c == '_' }

  // *s in a NUL-terminated text.
  function Peek(t: string): char { if t == "" then NUL else t[0] }

  // ---- the text of one parameter, behind its percent sign ------------------------------

  datatype Hole = Hole(num: int, option: char, named: bool, name: string, rest: string)

  function DigitCount(t: string): (d: nat)
    requires IsDigit(Peek(t))
    ensures 1 <= d <= 3 && d <= |t| && forall i :: 0 <= i < d ==> IsDigit(t[i])
  {
    if !IsDigit(Peek(t[1..])) then 1 else if !IsDigit(Peek(t[2..])) then 2 else 3
  }

  function DigitValue(c: char): nat
    requires IsDigit(c)
  {
    c as int - '0' as int
  }

  function Value(digits: string): nat
    requires forall c <- digits :: IsDigit(c)
  {
    if digits == "" then 0
    else Value(digits[..|digits| - 1]) * 10 + DigitValue(digits[|digits| - 1])
  }

  // The value is kept in a signed char.
  function SignedChar(v: nat): int { (v + 128) % 256 - 128 }

  // The length of the name at the start of t.
  function NameLength(t: string): (k: nat)
    ensures k <= |t| && forall i :: 0 <= i < k ==> IsNameChar(t[i])
    ensures !IsNameChar(Peek(t[k..]))
  {
    if !IsNameChar(Peek(t)) then 0 else 1 + NameLength(t[1..])
  }

  function SkipColon(t: string): string { if Peek(t) == ':' then t[1..] else t }

  function ReadName(num: int, option: char, t: string): (h: Hole)
    ensures |h.rest| <= |t|
  {
    if Peek(t) == ':' then
      var k := NameLength(t[1..]);
      Hole(num, option, true, t[1..][..k], SkipColon(t[1..][k..]))
    else Hole(num, option, false, "", t)
  }

  function ReadOption(num: int, t: string): (h: Hole)
    ensures |h.rest| <= |t|
  {
    if Peek(t) == 'q' || Peek(t) == 'Q' then ReadName(num, t[0], t[1..]) else ReadName(num, ' ', t)
  }

  function ReadHole(t: string): (h: Hole)
    requires IsDigit(Peek(t))
    ensures |h.rest| < |t|
  {
    var d := DigitCount(t);
    ReadOption(SignedChar(Value(t[..d])), t[d..])
  }

  // ---- the scanner -------------------------------------------------------------------------

  // There are never more than 128 names, so Query::parse may cast their number to short.
  function SetName(names: seq<string>, num: nat, name: string): seq<string> {
    var names := if num >= |names| then names + seq(num + 1 - |names|, i => "") else names;
    names[num := name]
  }

  // Save a parameter with the text before it.
  function Save(q: Template, before: string, h: Hole): Template {
    if q.Undefined? || (h.named && h.num < 0) then Undefined
    else
      Template(q.elems + [Element(before, h.option, h.num)],
               if h.named then SetName(q.names, h.num, h.name) else q.names,
               if h.named then q.nums[h.name := h.num] else q.nums)
  }

  function Scan(t: string, before: string, q: Template): Template
    decreases |t|
  {
    if Peek(t) == NUL then Save(q, before, Hole(-1, ' ', false, "", ""))
    else if t[0] != '%' then Scan(t[1..], before + [t[0]], q)
    else if Peek(t[1..]) == '%' then Scan(t[2..], before + "%", q)
    else if IsDigit(Peek(t[1..])) then
      var h := ReadHole(t[1..]);
      Scan(h.rest, "", Save(q, before, h))
    else Scan(t[1..], before + "%", q)
  }

  // ---- printing ------------------------------------------------------------------------------

  // A parameter number is written with one to three digits, zeros in front included.
  datatype Param = Param(before: string, option: char, num: nat, width: nat, name: Option<string>)

  function Doubled(lit: string): string {
    if lit == "" then ""
    else (if lit[0] == '%' then "%%" else [lit[0]]) + Doubled(lit[1..])
  }

  function Digit(v: nat): char
    requires v < 10
  {
    ('0' as int + v) as char
  }

  // The last `width` decimal digits.
  function Digits(num: nat, width: nat): (s: string)
    ensures |s| == width
  {
    if width == 0 then "" else Digits(num / 10, width - 1) + [Digit(num % 10)]
  }

  function Pow10(n: nat): nat { if n == 0 then 1 else 10 * Pow10(n - 1) }

  function PrintName(name: Option<string>): string { if name.Some? then ":" + name.value + ":" else "" }

  function PrintHole(p: Param): string {
    "%" + Digits(p.num, p.width) + PrintOption(p.option) + PrintName(p.name)
  }

  function Print(ps: seq<Param>, tail: string): string {
    if ps == [] then Doubled(tail)
    else Doubled(ps[0].before) + PrintHole(ps[0]) + Print(ps[1..], tail)
  }

  predicate Printable(p: Param) {
    && 1 <= p.width <= 3 && p.num < Pow10(p.width) && p.option in [' ', 'q', 'Q'] && NUL !in p.before
    && (p.name.Some? ==> forall c <- p.name.value :: IsNameChar(c))
  }

  // What the parser is to make of a list.
  function Build(ps: seq<Param>, tail: string, q: Template): Template {
    if ps == [] then Save(q, tail, Hole(-1, ' ', false, "", ""))
    else Build(ps[1..], tail, Save(q, ps[0].before, HoleOf(ps[0], "")))
  }

  function HoleOf(p: Param, rest: string): Hole {
    Hole(p.num, p.option, p.name.Some?, if p.name.Some? then p.name.value else "", rest)
  }

  // The literal behind a parameter.
  function NextLiteral(ps: seq<Param>, tail: string): string { if ps == [] then tail else ps[0].before }

  // Less than three digits with nothing behind them take in a digit.
  predicate TakesDigit(p: Param, next: string) {
    p.width < 3 && p.option == ' ' && p.name.None? && IsDigit(Peek(next))
  }

  // A parameter without a name takes in a colon behind it, one without an option a q or Q.
  predicate Absorbs(p: Param, next: string) {
    || TakesDigit(p, next)
    || (p.name.None?
        && (Peek(next) == ':' || (p.option == ' ' && (Peek(next) == 'q' || Peek(next) == 'Q'))))
  }

  // A number above 127 does not fit the signed char.
  predicate Lost(p: Param, next: string) { p.num > 127 || Absorbs(p, next) }

  predicate Faithful(ps: seq<Param>, tail: string) {
    ps == [] || (!Lost(ps[0], NextLiteral(ps[1..], tail)) && Faithful(ps[1..], tail))
  }

  // ---- parsing undoes printing -------------------------------------------------------------------

  lemma DoubledPlain(lit: string, more: string)
    requires lit != "" && lit[0] != '%'
    ensures var t := Doubled(lit) + more; Peek(t) == lit[0] && t[1..] == Doubled(lit[1..]) + more
  {
    assert Doubled(lit) + more == [lit[0]] + (Doubled(lit[1..]) + more);
  }

  lemma DoubledPercent(lit: string, more: string)
    requires lit != "" && lit[0] == '%'
    ensures var t := Doubled(lit) + more;
      |t| >= 2 && t[0] == t[1] == '%' && Peek(t[1..]) == '%' && t[2..] == Doubled(lit[1..]) + more
  {
    assert Doubled(lit) + more == "%%" + (Doubled(lit[1..]) + more);
  }

  lemma {:induction false} ScanLiteral(lit: string, more: string, before: string, q: Template)
    requires NUL !in lit
    ensures Scan(Doubled(lit) + more, before, q) == Scan(more, before + lit, q)
    decreases |lit|
  {
    if lit == "" {
      assert Doubled(lit) + more == more && before + lit == before;
    } else {
      ScanLiteral(lit[1..], more, before + [lit[0]], q);
      assert before + [lit[0]] + lit[1..] == before + lit;
      hide Doubled, ReadHole, Save;
      if lit[0] == '%' {
        DoubledPercent(lit, more);
        assert before + [lit[0]] == before + "%";
      } else {
        DoubledPlain(lit, more);
      }
    }
  }

  lemma {:induction false} DigitsAreDigits(num: nat, width: nat)
    ensures forall c <- Digits(num, width) :: IsDigit(c)
  {
    if width > 0 { DigitsAreDigits(num / 10, width - 1); }
  }

  // Decimal notation of any width is read as the number.
  lemma {:induction false} DigitsValue(num: nat, width: nat)
    requires num < Pow10(width)
    ensures forall c <- Digits(num, width) :: IsDigit(c)
    ensures Value(Digits(num, width)) == num
  {
    DigitsAreDigits(num, width);
    if width > 0 {
      var ds := Digits(num, width);
      DigitsValue(num / 10, width - 1);
      assert ds[..width - 1] == Digits(num / 10, width - 1);
    }
  }

  // One, two and three digits, as they are written.
  lemma DecimalNotation(a: nat, b: nat, c: nat)
    requires a < 10 && b < 10 && c < 10
    ensures var x, y, z := Digit(a), Digit(b), Digit(c);
      && IsDigit(x) && IsDigit(y) && IsDigit(z)
      && Value([x]) == a && Value([x, y]) == 10 * a + b && Value([x, y, z]) == 100 * a + 10 * b + c
  {
    var x, y, z := Digit(a), Digit(b), Digit(c);
    assert [x][..0] == "" && [x, y][..1] == [x] && [x, y, z][..2] == [x, y];
  }

  lemma {:induction false} NameStops(name: string, t: string)
    requires forall c <- name :: IsNameChar(c)
    requires !IsNameChar(Peek(t))
    ensures NameLength(name + t) == |name|
  {
    if name == "" {
      assert name + t == t;
    } else {
      assert (name + t)[1..] == name[1..] + t;
      NameStops(name[1..], t);
    }
  }

  lemma ReadPrintedName(num: int, option: char, name: string, more: string)
    requires forall c <- name :: IsNameChar(c)
    ensures ReadName(num, option, PrintName(Some(name)) + more) == Hole(num, option, true, name, more)
  {
    var t := PrintName(Some(name)) + more;
    var behind := ":" + more;
    assert t == ":" + (name + behind);
    assert t[1..] == name + behind;
    NameStops(name, behind);
    assert (name + behind)[..|name|] == name && (name + behind)[|name|..] == behind;
    assert behind[1..] == more;
  }

  lemma ReadPrintedDigits(num: nat, width: nat, more: string)
    requires 1 <= width <= 3 && num < Pow10(width) && (width < 3 ==> !IsDigit(Peek(more)))
    ensures var t := Digits(num, width) + more;
      IsDigit(Peek(t)) && DigitCount(t) == width && t[width..] == more && Value(t[..width]) == num
  {
    hide Digits;
    var ds := Digits(num, width);
    var t := ds + more;
    DigitsValue(num, width);
    assert t[..width] == ds && t[width..] == more;
    assert forall i :: 0 <= i < width ==> t[i] == ds[i] && ds[i] in ds;
    assert width > 1 ==> t[1..][0] == ds[1];
    assert width > 2 ==> t[2..][0] == ds[2];
  }

  function PrintOption(option: char): string { if option == ' ' then "" else [option] }

  // Reading back the printed parameter: exact, unless what follows is absorbed.
  lemma ReadPrintedOption(p: Param, num: int, more: string)
    requires Printable(p)
    ensures var h := ReadOption(num, PrintOption(p.option) + (PrintName(p.name) + more));
      if p.option == ' ' && p.name.None? && (Peek(more) == 'q' || Peek(more) == 'Q') then h.option != ' '
      else if p.name.None? then h == ReadName(num, p.option, more)
      else h == HoleOf(p, more).(num := num)
  {
    hide NameLength;
    var t := PrintName(p.name) + more;
    assert p.name.None? ==> t == more;
    var o := PrintOption(p.option) + t;
    if p.option == ' ' { assert o == t; } else { assert o[1..] == t; }
    if p.name.Some? { ReadPrintedName(num, p.option, p.name.value, more); }
  }

  lemma HoleDigit(p: Param, more: string)
    requires Printable(p)
    ensures IsDigit(Peek(PrintHole(p)[1..] + more))
  {
    hide Digits;
    var ds := Digits(p.num, p.width);
    DigitsAreDigits(p.num, p.width);
    assert ds[0] in ds && Peek(PrintHole(p)[1..] + more) == ds[0];
  }

  // What stands behind the digits of a parameter.
  lemma PeekBehind(p: Param, more: string)
    requires p.option in [' ', 'q', 'Q']
    ensures var c := Peek(PrintOption(p.option) + (PrintName(p.name) + more));
      IsDigit(c) <==> p.option == ' ' && p.name.None? && IsDigit(Peek(more))
  {
    var t := PrintName(p.name) + more;
    assert p.name.None? ==> t == more;
    assert p.option == ' ' ==> PrintOption(p.option) + t == t;
  }

  lemma ReadPrinted(p: Param, more: string)
    requires Printable(p) && !TakesDigit(p, more)
    ensures var t := PrintHole(p)[1..] + more;
      IsDigit(Peek(t)) &&
      ReadHole(t) == ReadOption(SignedChar(p.num), PrintOption(p.option) + (PrintName(p.name) + more))
  {
    PeekBehind(p, more);
    hide Value, SignedChar, DigitCount, Digits, ReadOption, Pow10;
    var behind := PrintOption(p.option) + (PrintName(p.name) + more);
    assert PrintHole(p)[1..] + more == Digits(p.num, p.width) + behind;
    ReadPrintedDigits(p.num, p.width, behind);
  }

  predicate AllPrintable(ps: seq<Param>, tail: string) {
    (forall i :: 0 <= i < |ps| ==> Printable(ps[i])) && NUL !in tail
  }

  lemma PeekPrinted(ps: seq<Param>, tail: string)
    ensures var next := NextLiteral(ps, tail); var c := Peek(Print(ps, tail));
      if next == "" then c == (if ps == [] then NUL else '%') else c == next[0]
  {
  }

  lemma ScanHole(t: string, before: string, q: Template)
    requires t != "" && t[0] == '%' && IsDigit(Peek(t[1..]))
    ensures Scan(t, before, q) == Scan(ReadHole(t[1..]).rest, "", Save(q, before, ReadHole(t[1..])))
  {
    hide ReadHole, Save;
  }

  lemma PrintSplit(ps: seq<Param>, tail: string)
    requires ps != []
    ensures var hole, more := PrintHole(ps[0]), Print(ps[1..], tail);
      && Print(ps, tail) == Doubled(ps[0].before) + (hole + more)
      && hole != "" && hole[0] == '%' && (hole + more)[1..] == hole[1..] + more
  {
    hide Digits, PrintName, PrintOption, Doubled;
  }

  // One printed parameter, in front of more printed text.
  lemma ScanParam(ps: seq<Param>, tail: string, q: Template)
    requires AllPrintable(ps, tail) && ps != []
    ensures var t := PrintHole(ps[0])[1..] + Print(ps[1..], tail);
      && IsDigit(Peek(t))
      && Scan(Print(ps, tail), "", q) == Scan(ReadHole(t).rest, "", Save(q, ps[0].before, ReadHole(t)))
  {
    hide ReadHole, PrintHole, Scan, Doubled, Save, Print;
    var p, more := ps[0], Print(ps[1..], tail);
    var t := PrintHole(p) + more;
    PrintSplit(ps, tail);
    ScanLiteral(p.before, t, "", q);
    assert "" + p.before == p.before;
    HoleDigit(p, more);
    assert t[1..] == PrintHole(p)[1..] + more;
    ScanHole(t, p.before, q);
  }

  // What was saved stays.
  lemma {:induction false} ScanKeeps(t: string, before: string, q: Template)
    ensures var r := Scan(t, before, q);
      r.Template? ==> q.Template? && |q.elems| < |r.elems| && q.elems == r.elems[..|q.elems|]
    decreases |t|
  {
    if Peek(t) == NUL {
    } else if t[0] != '%' {
      ScanKeeps(t[1..], before + [t[0]], q);
    } else if Peek(t[1..]) == '%' {
      ScanKeeps(t[2..], before + "%", q);
    } else if IsDigit(Peek(t[1..])) {
      var h := ReadHole(t[1..]);
      var q1 := Save(q, before, h);
      ScanKeeps(h.rest, "", q1);
      var r := Scan(h.rest, "", q1);
      if r.Template? { assert r.elems[..|q1.elems|][..|q.elems|] == r.elems[..|q.elems|]; }
    } else {
      ScanKeeps(t[1..], before + "%", q);
    }
  }

  lemma {:induction false} BuildKeeps(ps: seq<Param>, tail: string, q: Template)
    requires q.Template?
    ensures var r := Build(ps, tail, q);
      r.Template? && |q.elems| < |r.elems| && q.elems == r.elems[..|q.elems|]
      && r.elems[|q.elems|].before == NextLiteral(ps, tail)
  {
    if ps != [] {
      var q1 := Save(q, ps[0].before, HoleOf(ps[0], ""));
      BuildKeeps(ps[1..], tail, q1);
      var r := Build(ps[1..], tail, q1);
      assert r.elems[..|q1.elems|][..|q.elems|] == r.elems[..|q.elems|];
      assert r.elems[|q.elems|] == r.elems[..|q1.elems|][|q.elems|];
    }
  }

  // In front of a parameter or the end the literal read so far is saved.
  lemma ScanSaves(t: string, before: string, q: Template)
    requires t == "" || (t[0] == '%' && IsDigit(Peek(t[1..])))
    ensures var r := Scan(t, before, q);
      r.Template? ==> q.Template? && |q.elems| < |r.elems| && r.elems[|q.elems|].before == before
  {
    if t != "" {
      var h := ReadHole(t[1..]);
      var q1 := Save(q, before, h);
      ScanKeeps(h.rest, "", q1);
      var r := Scan(h.rest, "", q1);
      if r.Template? { assert r.elems[|q.elems|] == r.elems[..|q1.elems|][|q.elems|]; }
    }
  }

  lemma {:induction false} NameInLiteral(lit: string, more: string) returns (k: nat)
    requires NUL !in lit && !IsNameChar(Peek(more))
    ensures var t := Doubled(lit) + more;
      k == NameLength(t) && k <= |lit| && t[k..] == Doubled(lit[k..]) + more
    decreases |lit|
  {
    var t := Doubled(lit) + more;
    if lit == "" || !IsNameChar(lit[0]) {
      k := 0;
      assert lit == "" ==> t == more;
      assert t[0..] == t;
    } else {
      assert t == [lit[0]] + (Doubled(lit[1..]) + more);
      assert t[1..] == Doubled(lit[1..]) + more;
      k := NameInLiteral(lit[1..], more);
      k := k + 1;
    }
  }

  lemma ColonInLiteral(lit: string, more: string) returns (left: string)
    requires Peek(more) != ':'
    ensures SkipColon(Doubled(lit) + more) == Doubled(left) + more
    ensures |left| <= |lit| && (NUL !in lit ==> NUL !in left)
  {
    left := lit;
    if lit == "" {
      assert Doubled(lit) + more == more;
    } else if lit[0] == '%' {
      assert Peek(Doubled(lit) + more) == '%';
    } else {
      DoubledPlain(lit, more);
      if lit[0] == ':' { left := lit[1..]; }
    }
  }

  // A colon behind a parameter without a name is lost, with the name characters after it.
  lemma ColonLost(num: int, option: char, lit: string, more: string) returns (left: string)
    requires NUL !in lit && Peek(lit) == ':' && !IsNameChar(Peek(more)) && Peek(more) != ':'
    ensures |left| < |lit| && NUL !in left
    ensures ReadName(num, option, Doubled(lit) + more).rest == Doubled(left) + more
  {
    hide Doubled, NameLength, SkipColon;
    DoubledPlain(lit, more);
    var k := NameInLiteral(lit[1..], more);
    left := ColonInLiteral(lit[1..][k..], more);
  }

  // The text behind the next literal.
  function Behind(ps: seq<Param>, tail: string): string {
    if ps == [] then "" else PrintHole(ps[0]) + Print(ps[1..], tail)
  }

  lemma BehindStarts(ps: seq<Param>, tail: string)
    requires AllPrintable(ps, tail)
    ensures var more := Behind(ps, tail);
      && Print(ps, tail) == Doubled(NextLiteral(ps, tail)) + more
      && (more == "" || (more[0] == '%' && IsDigit(Peek(more[1..]))))
  {
    hide ReadHole, ReadOption, Digits, Doubled, PrintName, PrintOption;
    if ps == [] {
      assert Doubled(tail) + "" == Doubled(tail);
    } else {
      var more := Print(ps[1..], tail);
      HoleStarts(ps[0], more);
      assert Doubled(ps[0].before) + PrintHole(ps[0]) + more == Doubled(ps[0].before) + (PrintHole(ps[0]) + more);
    }
  }

  lemma HoleStarts(p: Param, more: string)
    requires Printable(p)
    ensures var t := PrintHole(p) + more; t != "" && t[0] == '%' && IsDigit(Peek(t[1..]))
  {
    hide ReadHole, ReadOption, Digits, PrintName, PrintOption;
    HoleDigit(p, more);
    assert (PrintHole(p) + more)[1..] == PrintHole(p)[1..] + more;
  }

  // What is left of a literal is saved, and is not the literal.
  lemma LiteralCut(ps: seq<Param>, tail: string, left: string, q: Template)
    requires AllPrintable(ps, tail) && NUL !in left && |left| < |NextLiteral(ps, tail)|
    ensures var r := Scan(Doubled(left) + Behind(ps, tail), "", q);
      r.Template? ==>
        q.Template? && |q.elems| < |r.elems| && r.elems[|q.elems|].before != NextLiteral(ps, tail)
  {
    hide Print, Behind, Scan, Doubled;
    BehindStarts(ps, tail);
    ScanLiteral(left, Behind(ps, tail), "", q);
    assert "" + left == left;
    ScanSaves(Behind(ps, tail), left, q);
  }

  lemma AbsorbedColon(ps: seq<Param>, tail: string, num: int, option: char) returns (left: string)
    requires AllPrintable(ps, tail) && Peek(NextLiteral(ps, tail)) == ':'
    ensures NUL !in left && |left| < |NextLiteral(ps, tail)|
    ensures ReadName(num, option, Print(ps, tail)).rest == Doubled(left) + Behind(ps, tail)
  {
    hide Print, Behind, ReadName, Doubled;
    BehindStarts(ps, tail);
    left := ColonLost(num, option, NextLiteral(ps, tail), Behind(ps, tail));
  }

  // What a parameter without a name reads behind its digits it takes from the literal there.
  lemma OptionInLiteral(num: int, lit: string, more: string) returns (left: string)
    requires NUL !in lit && (more == "" || more[0] == '%')
    ensures NUL !in left && |left| <= |lit|
    ensures ReadOption(num, Doubled(lit) + more).rest == Doubled(left) + more
  {
    var option, behind := ' ', lit;
    assert lit == "" ==> Doubled(lit) + more == more;
    if lit != "" && lit[0] != '%' { DoubledPlain(lit, more); }
    if Peek(lit) == 'q' || Peek(lit) == 'Q' { option, behind := lit[0], lit[1..]; }
    hide ReadName;
    assert ReadOption(num, Doubled(lit) + more) == ReadName(num, option, Doubled(behind) + more);
    left := NameReadInLiteral(num, option, behind, more);
  }

  lemma NameReadInLiteral(num: int, option: char, lit: string, more: string) returns (left: string)
    requires NUL !in lit && (more == "" || more[0] == '%')
    ensures NUL !in left && |left| <= |lit|
    ensures ReadName(num, option, Doubled(lit) + more).rest == Doubled(left) + more
  {
    if Peek(lit) == ':' {
      left := ColonLost(num, option, lit, more);
    } else {
      left := lit;
      assert lit == "" ==> Doubled(lit) + more == more;
      if lit != "" && lit[0] != '%' { DoubledPlain(lit, more); }
    }
  }

  // Digits at the start of the printed text are digits of the literal.
  lemma {:induction false} DigitsInLiteral(lit: string, more: string, k: nat)
    requires more == "" || more[0] == '%'
    requires var t := Doubled(lit) + more; k <= |t| && forall i :: 0 <= i < k ==> IsDigit(t[i])
    ensures k <= |lit| && (Doubled(lit) + more)[k..] == Doubled(lit[k..]) + more
  {
    var t := Doubled(lit) + more;
    if k > 0 {
      assert lit == "" ==> t == more;
      assert t[0] != '%';
      DoubledPlain(lit, more);
      forall i | 0 <= i < k - 1 ensures IsDigit((Doubled(lit[1..]) + more)[i]) { assert t[1..][i] == t[i + 1]; }
      DigitsInLiteral(lit[1..], more, k - 1);
      assert t[k..] == t[1..][k - 1..];
    }
  }

  // A number of less than three digits reads on into the literal behind it.
  lemma AbsorbedDigit(p: Param, ps: seq<Param>, tail: string) returns (left: string)
    requires Printable(p) && AllPrintable(ps, tail) && TakesDigit(p, NextLiteral(ps, tail))
    ensures NUL !in left && |left| < |NextLiteral(ps, tail)|
    ensures var t := PrintHole(p)[1..] + Print(ps, tail);
      IsDigit(Peek(t)) && ReadHole(t).rest == Doubled(left) + Behind(ps, tail)
  {
    var lit, more := NextLiteral(ps, tail), Behind(ps, tail);
    var ds, w := Digits(p.num, p.width), p.width;
    var t := PrintHole(p)[1..] + Print(ps, tail);
    BehindStarts(ps, tail);
    HoleDigit(p, Print(ps, tail));
    DigitsAreDigits(p.num, w);
    PeekPrinted(ps, tail);
    hide Print, Behind, Digits, ReadOption, Doubled, Value, SignedChar, AllPrintable, PrintName, PrintOption;
    var u := Doubled(lit) + more;
    assert t == ds + u;
    hide DigitCount;
    var d := ReadsOn(ds, u);
    DigitsInLiteral(lit, more, d - w);
    left := OptionInLiteral(SignedChar(Value(t[..d])), lit[d - w..], more);
  }

  // Digits followed by a digit are read past their end.
  lemma ReadsOn(ds: string, u: string) returns (d: nat)
    requires 1 <= |ds| < 3 && (forall c <- ds :: IsDigit(c)) && IsDigit(Peek(u))
    ensures var t := ds + u;
      IsDigit(Peek(t)) && |ds| < d == DigitCount(t) && d - |ds| <= |u| && t[d..] == u[d - |ds|..]
    ensures forall i :: 0 <= i < d - |ds| ==> IsDigit(u[i])
  {
    var t, w := ds + u, |ds|;
    assert forall i :: 0 <= i < w ==> t[i] == ds[i] && ds[i] in ds;
    assert t[w] == u[0];
    LongerCount(t, w);
    d := DigitCount(t);
    forall i | 0 <= i < d - w ensures IsDigit(u[i]) { assert t[w + i] == u[i]; }
  }

  lemma LongerCount(t: string, w: nat)
    requires 1 <= w < 3 && w < |t| && forall i :: 0 <= i <= w ==> IsDigit(t[i])
    ensures DigitCount(t) > w
  {
    assert t[1..][0] == t[1];
    if w == 2 { assert t[2..][0] == t[2]; }
  }

  // The text behind a parameter that takes some of it in.
  lemma LostRest(p: Param, ps: seq<Param>, tail: string) returns (left: string)
    requires Printable(p) && AllPrintable(ps, tail) && Absorbs(p, NextLiteral(ps, tail))
    ensures var t := PrintHole(p)[1..] + Print(ps, tail); IsDigit(Peek(t)) && var h := ReadHole(t);
      (h.option == p.option ==>
         NUL !in left && |left| < |NextLiteral(ps, tail)| && h.rest == Doubled(left) + Behind(ps, tail))
  {
    hide ReadOption, ReadHole, Print, Behind;
    PeekPrinted(ps, tail);
    if TakesDigit(p, NextLiteral(ps, tail)) {
      left := AbsorbedDigit(p, ps, tail);
    } else {
      ReadPrinted(p, Print(ps, tail));
      ReadPrintedOption(p, SignedChar(p.num), Print(ps, tail));
      left := "";
      if Peek(NextLiteral(ps, tail)) == ':' { left := AbsorbedColon(ps, tail, SignedChar(p.num), p.option); }
    }
  }

  // Nothing taken in: the number alone is wrong.
  lemma LostNumber(p: Param, ps: seq<Param>, tail: string)
    requires Printable(p) && AllPrintable(ps, tail) && !Absorbs(p, NextLiteral(ps, tail)) && p.num > 127
    ensures var t := PrintHole(p)[1..] + Print(ps, tail); IsDigit(Peek(t)) && ReadHole(t).num != p.num
  {
    hide ReadOption, ReadHole, Print;
    PeekPrinted(ps, tail);
    ReadPrinted(p, Print(ps, tail));
    ReadPrintedOption(p, SignedChar(p.num), Print(ps, tail));
  }

  lemma LostParam(ps: seq<Param>, tail: string, q: Template)
    requires AllPrintable(ps, tail) && ps != [] && q.Template? && Lost(ps[0], NextLiteral(ps[1..], tail))
    ensures Scan(Print(ps, tail), "", q) != Build(ps, tail, q)
  {
    hide ReadHole, ReadOption, Print, Scan, Behind;
    var p, more := ps[0], Print(ps[1..], tail);
    var t := PrintHole(p)[1..] + more;
    ScanParam(ps, tail, q);
    var h := ReadHole(t);
    var q1 := Save(q, p.before, h);
    var r := Scan(h.rest, "", q1);
    ScanKeeps(h.rest, "", q1);
    var s1 := Save(q, p.before, HoleOf(p, ""));
    BuildKeeps(ps[1..], tail, s1);
    var s := Build(ps[1..], tail, s1);
    if r == s {
      assert r.elems[|q.elems|] == r.elems[..|q1.elems|][|q.elems|];
      assert s.elems[|q.elems|] == s.elems[..|s1.elems|][|q.elems|];
      assert h.option == p.option && h.num == p.num;
      if Absorbs(p, NextLiteral(ps[1..], tail)) {
        var left := LostRest(p, ps[1..], tail);
        LiteralCut(ps[1..], tail, left, q1);
        assert false;
      } else {
        LostNumber(p, ps[1..], tail);
        assert false;
      }
    }
  }

  // Parsing a printed list gives the list back exactly when every number fits and no parameter
  // absorbs what follows it.
  lemma {:induction false} ParseUndoesPrint(ps: seq<Param>, tail: string, q: Template)
    requires AllPrintable(ps, tail) && q.Template?
    ensures Scan(Print(ps, tail), "", q) == Build(ps, tail, q) <==> Faithful(ps, tail)
  {
    if ps == [] {
      TailParses(tail, q);
    } else if Lost(ps[0], NextLiteral(ps[1..], tail)) {
      LostParam(ps, tail, q);
    } else {
      hide Printable, Scan, Print, Build, Save;
      NotLost(ps, tail, q);
      ParseUndoesPrint(ps[1..], tail, Save(q, ps[0].before, HoleOf(ps[0], "")));
    }
  }

  lemma NotLost(ps: seq<Param>, tail: string, q: Template)
    requires AllPrintable(ps, tail) && ps != [] && q.Template? && !Lost(ps[0], NextLiteral(ps[1..], tail))
    ensures var r := Save(q, ps[0].before, HoleOf(ps[0], ""));
      && r.Template? && Build(ps, tail, q) == Build(ps[1..], tail, r)
      && Scan(Print(ps, tail), "", q) == Scan(Print(ps[1..], tail), "", r)
  {
    hide Printable, Scan, Print;
    Exact(ps, tail, q);
    assert SignedChar(ps[0].num) == ps[0].num;
  }

  lemma TailParses(tail: string, q: Template)
    requires NUL !in tail
    ensures Scan(Doubled(tail), "", q) == Save(q, tail, Hole(-1, ' ', false, "", ""))
  {
    hide ReadHole;
    assert Doubled(tail) + "" == Doubled(tail) && "" + tail == tail;
    ScanLiteral(tail, "", "", q);
  }

  lemma Exact(ps: seq<Param>, tail: string, q: Template)
    requires AllPrintable(ps, tail) && ps != [] && !Absorbs(ps[0], NextLiteral(ps[1..], tail))
    ensures Scan(Print(ps, tail), "", q) ==
      Scan(Print(ps[1..], tail), "", Save(q, ps[0].before, HoleOf(ps[0], "").(num := SignedChar(ps[0].num))))
  {
    hide ReadHole, ReadOption, Print, Scan;
    var p, more := ps[0], Print(ps[1..], tail);
    PeekPrinted(ps[1..], tail);
    ScanParam(ps, tail, q);
    ReadPrinted(p, more);
    ReadPrintedOption(p, SignedChar(p.num), more);
  }

  // A text whose percent signs are doubled is one literal.
  lemma LiteralParses(lit: string, q: Template)
    requires NUL !in lit && q.Template?
    ensures Scan(Doubled(lit), "", q) == q.(elems := q.elems + [Element(lit, ' ', -1)])
  {
    ParseUndoesPrint([], lit, q);
  }

  // ---- the normal form of a template ---------------------------------------------------------------

  // A text as a parameter list: the numbers as written, the literals as read.
  function Read(t: string, before: string): (seq<Param>, string)
    decreases |t|
  {
    if Peek(t) == NUL then ([], before)
    else if t[0] != '%' then Read(t[1..], before + [t[0]])
    else if Peek(t[1..]) == '%' then Read(t[2..], before + "%")
    else if IsDigit(Peek(t[1..])) then
      var (ps, tail) := Read(ReadHole(t[1..]).rest, "");
      ([ParamOf(t[1..], before)] + ps, tail)
    else Read(t[1..], before + "%")
  }

  function ParamOf(t: string, before: string): Param
    requires IsDigit(Peek(t))
  {
    var h := ReadHole(t);
    Param(before, h.option, Value(t[..DigitCount(t)]), 3, if h.named then Some(h.name) else None)
  }

  lemma {:induction false} ValueBelow(digits: string, bound: nat)
    requires forall c <- digits :: IsDigit(c)
    requires bound == if |digits| == 0 then 1 else if |digits| == 1 then 10 else if |digits| == 2 then 100 else 1000
    requires |digits| <= 3
    ensures Value(digits) < bound
  {
    if digits != "" {
      var last := digits[|digits| - 1];
      assert last in digits && DigitValue(last) <= 9;
      ValueBelow(digits[..|digits| - 1], bound / 10);
    }
  }

  // What a parameter leaves unread it does not absorb.
  lemma ParamReads(t: string, before: string)
    requires IsDigit(Peek(t)) && NUL !in before
    ensures var h, p := ReadHole(t), ParamOf(t, before);
      && Printable(p) && !Absorbs(p, h.rest)
      && h == HoleOf(p, h.rest).(num := SignedChar(p.num))
  {
    var d := DigitCount(t);
    ValueBelow(t[..d], if d == 1 then 10 else if d == 2 then 100 else 1000);
    hide Value, SignedChar, DigitCount;
    OptionReads(SignedChar(Value(t[..d])), t[d..]);
  }

  lemma OptionReads(num: int, t: string)
    ensures var h := ReadOption(num, t);
      && h.num == num && h.option in [' ', 'q', 'Q'] && (forall c <- h.name :: IsNameChar(c))
      && (!h.named ==> h.name == "" && Peek(h.rest) != ':'
                       && (h.option == ' ' ==> Peek(h.rest) != 'q' && Peek(h.rest) != 'Q'))
  {
  }

  // Every text means what its normal form means: percent signs doubled, three digits, names closed.
  lemma {:induction false} NormalForm(t: string, before: string, q: Template)
    requires NUL !in before
    ensures var (ps, tail) := Read(t, before);
      && AllPrintable(ps, tail)
      && Scan(Print(ps, tail), "", q) == Scan(t, before, q)
      && before <= NextLiteral(ps, tail)
      && (|before| < |NextLiteral(ps, tail)| ==> NextLiteral(ps, tail)[|before|] == Peek(t))
    decreases |t|
  {
    if Peek(t) == NUL {
      assert Doubled(before) + "" == Doubled(before) && "" + before == before;
      ScanLiteral(before, "", "", q);
    } else if t[0] != '%' {
      NormalForm(t[1..], before + [t[0]], q);
    } else if Peek(t[1..]) == '%' {
      NormalForm(t[2..], before + "%", q);
    } else if IsDigit(Peek(t[1..])) {
      NormalHole(t, before, q);
    } else {
      NormalForm(t[1..], before + "%", q);
    }
  }

  lemma {:induction false} NormalHole(t: string, before: string, q: Template)
    requires NUL !in before && |t| > 1 && t[0] == '%' && IsDigit(t[1])
    ensures var (ps, tail) := Read(t, before);
      && AllPrintable(ps, tail) && NextLiteral(ps, tail) == before
      && Scan(Print(ps, tail), "", q) == Scan(t, before, q)
    decreases |t|, 0
  {
    var h, p := ReadHole(t[1..]), ParamOf(t[1..], before);
    ParamReads(t[1..], before);
    var q1 := Save(q, before, h);
    NormalForm(h.rest, "", q1);
    var (ps, tail) := Read(h.rest, "");
    hide ReadHole, ParamOf, Print, SignedChar, Printable;
    assert ([p] + ps)[1..] == ps;
    Exact([p] + ps, tail, q);
  }

  // ---- names with numbers that turn negative ---------------------------------------------------------

  // A named parameter whose number the signed char makes negative: parsed_names_ is written far out of
  // bounds.
  predicate OutOfBounds(p: Param) { p.name.Some? && p.num % 256 >= 128 }

  // The cast is a signed 8-bit value congruent to the number.
  lemma SignedCharWraps(v: nat)
    ensures -128 <= SignedChar(v) < 128 && (v - SignedChar(v)) % 256 == 0
  {
    assert v - SignedChar(v) == (v + 128) / 256 * 256;
  }

  lemma NegativeChar(v: nat)
    ensures SignedChar(v) < 0 <==> v % 256 >= 128
  {
    var q, k := v / 256, v % 256;
    assert v + 128 == q * 256 + (k + 128);
    if k >= 128 { assert v + 128 == (q + 1) * 256 + (k - 128); }
  }

  lemma {:induction false} UndefinedStays(t: string, before: string)
    ensures Scan(t, before, Undefined) == Undefined
  {
    ScanKeeps(t, before, Undefined);
  }

  // Parsing a text goes out of bounds exactly if it names such a parameter somewhere.
  lemma {:induction false} UndefinedIff(t: string, before: string, q: Template)
    requires q.Template?
    ensures Scan(t, before, q).Undefined? <==> exists p <- Read(t, before).0 :: OutOfBounds(p)
    decreases |t|
  {
    if Peek(t) == NUL {
    } else if t[0] != '%' {
      UndefinedIff(t[1..], before + [t[0]], q);
    } else if Peek(t[1..]) == '%' {
      UndefinedIff(t[2..], before + "%", q);
    } else if IsDigit(Peek(t[1..])) {
      UndefinedHole(t, before, q);
    } else {
      UndefinedIff(t[1..], before + "%", q);
    }
  }

  lemma {:induction false} UndefinedHole(t: string, before: string, q: Template)
    requires q.Template? && |t| > 1 && t[0] == '%' && IsDigit(t[1])
    ensures Scan(t, before, q).Undefined? <==> exists p <- Read(t, before).0 :: OutOfBounds(p)
    decreases |t|, 0
  {
    var h, p := ReadHole(t[1..]), ParamOf(t[1..], before);
    ParamReads(t[1..], "");
    NegativeChar(p.num);
    var q1 := Save(q, before, h);
    var ps := Read(h.rest, "").0;
    hide ReadHole, SignedChar;
    assert Read(t, before).0 == [p] + ps;
    assert h.named <==> p.name.Some?;
    if OutOfBounds(p) {
      UndefinedStays(h.rest, "");
      assert p in [p] + ps;
    } else {
      UndefinedIff(h.rest, "", q1);
      assert forall r :: r in [p] + ps <==> r == p || r in ps;
    }
  }

  // The shortest such text.
  lemma NamedBeyond127(q: Template)
    requires q.Template?
    ensures Scan("%128:", "", q) == Undefined
  {
    var t := "%128:";
    assert t[1..] == "128:" && t[1..][..3] == "128" && t[1..][3..] == ":";
    assert DigitCount(t[1..]) == 3;
    assert Digits(1, 1) == "1" by { assert Digits(0, 0) == ""; }
    assert Digits(12, 2) == "12" && Digits(128, 3) == "128" && Pow10(3) == 1000;
    DigitsValue(128, 3);
    assert ReadOption(-128, ":") == Hole(-128, ' ', true, "", "");
  }

  // ---- names ------------------------------------------------------------------------------------------

  predicate Names(p: Param, n: int) { p.name.Some? && SignedChar(p.num) == n }

  // The last name given to a number, and the last number given to a name.
  function LastName(ps: seq<Param>, n: int): Option<string> {
    if ps == [] then None
    else
      var l := LastName(ps[1..], n);
      if l.Some? then l else if Names(ps[0], n) then ps[0].name else None
  }

  function LastNumber(ps: seq<Param>, name: string): Option<int> {
    if ps == [] then None
    else
      var l := LastNumber(ps[1..], name);
      if l.Some? then l else if ps[0].name == Some(name) then Some(SignedChar(ps[0].num)) else None
  }

  // From q to r the numbers in ps took their last names, and the names their last numbers.
  ghost predicate Renamed(ps: seq<Param>, q: Template, r: Template)
    requires q.Template? && r.Template?
  {
    && |q.names| <= |r.names|
    && (forall n: nat :: LastName(ps, n).Some? ==> n < |r.names| && r.names[n] == LastName(ps, n).value)
    && (forall n :: 0 <= n < |r.names| && LastName(ps, n).None? ==>
          r.names[n] == if n < |q.names| then q.names[n] else "")
    && (|r.names| > |q.names| ==> LastName(ps, |r.names| - 1).Some?)
    && (forall name :: name in r.nums <==> name in q.nums || LastNumber(ps, name).Some?)
    && (forall name :: name in r.nums ==>
          r.nums[name] == if LastNumber(ps, name).Some? then LastNumber(ps, name).value else q.nums[name])
  }

  lemma RenamedOne(p: Param, ps: seq<Param>, q: Template, q1: Template, r: Template)
    requires q.Template? && q1.Template? && r.Template? && Renamed(ps, q1, r)
    requires p.name.Some? ==> SignedChar(p.num) >= 0
    requires q1.names == if p.name.Some? then SetName(q.names, SignedChar(p.num), p.name.value) else q.names
    requires q1.nums == if p.name.Some? then q.nums[p.name.value := SignedChar(p.num)] else q.nums
    ensures Renamed([p] + ps, q, r)
  {
    hide SignedChar;
    assert ([p] + ps)[1..] == ps;
    forall n: int
      ensures LastName([p] + ps, n) ==
        if LastName(ps, n).Some? then LastName(ps, n) else if Names(p, n) then p.name else None
    {
    }
    forall name: string
      ensures LastNumber([p] + ps, name) ==
        if LastNumber(ps, name).Some? then LastNumber(ps, name)
        else if p.name == Some(name) then Some(SignedChar(p.num)) else None
    {
    }
  }

  // What parsing makes of the names in a text.
  lemma {:induction false} NamesRead(t: string, before: string, q: Template)
    requires q.Template? && Scan(t, before, q).Template?
    ensures Renamed(Read(t, before).0, q, Scan(t, before, q))
    decreases |t|
  {
    hide Renamed;
    if Peek(t) == NUL {
      NothingRenamed(q, Scan(t, before, q));
    } else if t[0] != '%' {
      NamesRead(t[1..], before + [t[0]], q);
    } else if Peek(t[1..]) == '%' {
      NamesRead(t[2..], before + "%", q);
    } else if IsDigit(Peek(t[1..])) {
      var h, p := ReadHole(t[1..]), ParamOf(t[1..], before);
      ParamReads(t[1..], "");
      hide ReadHole, SignedChar;
      var q1 := Save(q, before, h);
      if q1.Undefined? { UndefinedStays(h.rest, ""); }
      NamesRead(h.rest, "", q1);
      RenamedOne(p, Read(h.rest, "").0, q, q1, Scan(h.rest, "", q1));
    } else {
      NamesRead(t[1..], before + "%", q);
    }
  }

  lemma NothingRenamed(q: Template, r: Template)
    requires q.Template? && r.Template? && r.names == q.names && r.nums == q.nums
    ensures Renamed([], q, r)
  {
  }

  // ---- loose writing ------------------------------------------------------------------------------------

  // A name needs no colon behind it where it cannot go on.
  lemma UnclosedName(num: int, option: char, name: string, more: string)
    requires forall c <- name :: IsNameChar(c)
    requires !IsNameChar(Peek(more)) && Peek(more) != ':'
    ensures ReadName(num, option, ":" + name + more) == Hole(num, option, true, name, more)
  {
    var t := ":" + name + more;
    assert t == ":" + (name + more);
    assert t[1..] == name + more;
    NameStops(name, more);
    assert (name + more)[..|name|] == name && (name + more)[|name|..] == more;
  }

  // A percent sign that starts no parameter stands for itself.
  lemma LonePercent(more: string, before: string, q: Template)
    requires Peek(more) != '%' && !IsDigit(Peek(more))
    ensures Scan("%" + more, before, q) == Scan(more, before + "%", q)
  {
    assert ("%" + more)[1..] == more;
  }
}
