/**
  Reading back the statements a batched insert sends: the text carries the verb, the table and field
  list of its first row, and the value lists of all its rows in order.
 */
module StatementText {
  import opened Options
  import opened BatchInsert
  import InsertPolicy

  datatype Insert = Insert(verb: string, table: string, fieldList: string, valueLists: seq<string>)

  // ---- a reader of SQL text that knows nothing of the writer -----------------------------

  // The position of the first c, or the length.
  function IndexOf(c: char, s: string): (i: nat)
    ensures i <= |s| && (i < |s| ==> s[i] == c) && c !in s[..i]
  {
    if s == "" || s[0] == c then 0 else 1 + IndexOf(c, s[1..])
  }

  // Lists in parentheses, with commas between.
  function ReadLists(s: string): Option<seq<string>>
    decreases |s|
  {
    if s == "" || s[0] != '(' then None
    else
      var t := s[1..];
      var i := IndexOf(')', t);
      if i == |t| then None
      else if t[i + 1..] == "" then Some([t[..i]])
      else if t[i + 1] != ',' then None
      else
        match ReadLists(t[i + 2..])
        case None => None
        case Some(more) => Some([t[..i]] + more)
  }

  // What follows `word` up to the first `end`, and what follows that.
  function Between(word: string, end: char, s: string): Option<(string, string)> {
    if !(word <= s) then None
    else
      var t := s[|word|..];
      var i := IndexOf(end, t);
      if i == |t| then None else Some((t[..i], t[i + 1..]))
  }

  // verb INTO `table` (fields) VALUES (values),(values)...
  function ReadInsert(s: string): Option<Insert> {
    var i := IndexOf('`', s);
    if i < 6 || i == |s| || s[i - 6..i] != " INTO " then None
    else
      match Between("`", '`', s[i..])
      case None => None
      case Some((table, behind)) =>
        match Between(" (", ')', behind)
        case None => None
        case Some((fields, rest)) =>
          if !(" VALUES " <= rest) then None
          else
            match ReadLists(rest[8..])
            case None => None
            case Some(values) => Some(Insert(s[..i - 6], table, fields, values))
  }

  // ---- what is written is read back ------------------------------------------------------------

  predicate CleanRow(r: Row) { '`' !in r.table && ')' !in r.fieldList && ')' !in r.valueList }

  predicate Clean(verb: string, rows: seq<Row>) { '`' !in verb && forall r <- rows :: CleanRow(r) }

  function ValueLists(rows: seq<Row>): (v: seq<string>)
    ensures |v| == |rows|
  {
    seq(|rows|, i requires 0 <= i < |rows| => rows[i].valueList)
  }

  lemma {:induction false} IndexBehind(c: char, a: string, b: string)
    requires c !in a
    ensures IndexOf(c, a + [c] + b) == |a|
    ensures (a + [c] + b)[..|a|] == a && (a + [c] + b)[|a| + 1..] == b
  {
    if a != "" {
      assert (a + [c] + b)[1..] == a[1..] + [c] + b;
      IndexBehind(c, a[1..], b);
    }
  }

  lemma BetweenBehind(word: string, end: char, a: string, b: string)
    requires end !in a
    ensures Between(word, end, word + (a + [end] + b)) == Some((a, b))
  {
    assert (word + (a + [end] + b))[|word|..] == a + [end] + b;
    IndexBehind(end, a, b);
  }

  // The value lists as text, from the first on.
  function Lists(rows: seq<Row>): string
    requires rows != []
  {
    "(" + (rows[0].valueList + ")" + if |rows| == 1 then "" else "," + Lists(rows[1..]))
  }

  lemma {:induction false} ListsMore(rows: seq<Row>, r: Row)
    requires rows != []
    ensures Lists(rows + [r]) == Lists(rows) + Next(r)
  {
    if |rows| == 1 {
      assert (rows + [r])[1..] == [r];
    } else {
      assert (rows + [r])[1..] == rows[1..] + [r];
      ListsMore(rows[1..], r);
    }
  }

  // The first list, and those behind a comma.
  lemma FirstRead(v: string, more: string)
    requires ')' !in v
    ensures ReadLists("(" + (v + ")")) == Some([v])
    ensures var rest := ReadLists(more);
      ReadLists("(" + (v + ")" + ("," + more))) == if rest.None? then None else Some([v] + rest.value)
  {
    hide IndexOf;
    IndexBehind(')', v, "");
    IndexBehind(')', v, "," + more);
    assert v + [')'] + "" == v + ")";
    var t := v + ")" + ("," + more);
    assert t == v + [')'] + ("," + more);
    assert t[|v| + 2..] == t[|v| + 1..][1..] == more;
    assert ("(" + t)[1..] == t && ("(" + (v + ")"))[1..] == v + ")";
  }

  lemma {:induction false} ListsRead(rows: seq<Row>)
    requires rows != [] && forall r <- rows :: CleanRow(r)
    ensures ReadLists(Lists(rows)) == Some(ValueLists(rows))
  {
    hide ReadLists;
    var v := rows[0].valueList;
    assert CleanRow(rows[0]);
    if |rows| == 1 {
      FirstRead(v, "");
      assert v + ")" + "" == v + ")";
      assert ValueLists(rows) == [v];
    } else {
      ListsRead(rows[1..]);
      FirstRead(v, Lists(rows[1..]));
      assert v + (")" + ("," + Lists(rows[1..]))) == v + ")" + ("," + Lists(rows[1..]));
      assert ValueLists(rows) == [v] + ValueLists(rows[1..]);
    }
  }

  function Head(verb: string, r: Row): string {
    verb + " INTO " + ("`" + (r.table + "`" + (" (" + (r.fieldList + ")" + " VALUES "))))
  }

  lemma {:induction false} TextIs(verb: string, rows: seq<Row>)
    requires rows != []
    ensures Text(verb, rows) == Head(verb, rows[0]) + Lists(rows)
  {
    var r := rows[0];
    if |rows| == 1 {
      assert Head(verb, r) + ("(" + (r.valueList + ")" + "")) == First(verb, r);
    } else {
      var n := |rows| - 1;
      TextIs(verb, rows[..n]);
      ListsMore(rows[..n], rows[n]);
      assert rows[..n] + [rows[n]] == rows;
    }
  }

  lemma HeadReads(verb: string, r: Row, values: string)
    requires '`' !in verb && CleanRow(r)
    ensures var lists := ReadLists(values);
      ReadInsert(Head(verb, r) + values) ==
        if lists.None? then None else Some(Insert(verb, r.table, r.fieldList, lists.value))
  {
    hide IndexOf, ReadLists, Between;
    var tail := " VALUES " + values;
    var behind := " (" + (r.fieldList + [')'] + tail);
    var head := verb + " INTO ";
    var s := Head(verb, r) + values;
    assert s == head + ['`'] + (r.table + ['`'] + behind);
    IndexBehind('`', head, r.table + ['`'] + behind);
    assert s[|head|..] == "`" + (r.table + ['`'] + behind);
    BetweenBehind("`", '`', r.table, behind);
    BetweenBehind(" (", ')', r.fieldList, tail);
    assert tail[8..] == values && s[..|head| - 6] == verb && s[|head| - 6..|head|] == " INTO ";
  }

  // For parts that hold no delimiter of their own the text of a batch reads back as the batch.
  lemma TextReads(verb: string, rows: seq<Row>)
    requires rows != [] && Clean(verb, rows)
    ensures ReadInsert(Text(verb, rows)) ==
      Some(Insert(verb, rows[0].table, rows[0].fieldList, ValueLists(rows)))
  {
    hide ReadInsert, Text, Head, Lists;
    TextIs(verb, rows);
    ListsRead(rows);
    HeadReads(verb, rows[0], Lists(rows));
  }

  // Every statement of every run, under any policy and any replies.
  lemma SentReads<S(!new)>(c: Config<S>, rows: seq<Row>, policy: S, start: seq<Event>)
    requires Clean(c.verb, rows)
    ensures var log := Run(c, rows, policy, start).log;
      forall i :: |start| <= i < |log| && log[i].Statement? ==>
        var sent := log[i].rows;
        && sent != []
        && ReadInsert(log[i].text) == Some(Insert(c.verb, sent[0].table, sent[0].fieldList, ValueLists(sent)))
  {
    hide Run, Text, ReadInsert;
    var good := (b: seq<Row>) => b != [] && Clean(c.verb, b);
    InsertPolicy.GoodRun(c, good, rows, policy, start);
    var log := Run(c, rows, policy, start).log;
    forall i | |start| <= i < |log| && log[i].Statement?
      ensures var sent := log[i].rows;
        && sent != []
        && ReadInsert(log[i].text) == Some(Insert(c.verb, sent[0].table, sent[0].fieldList, ValueLists(sent)))
    {
      assert good(log[i].rows);
      TextReads(c.verb, log[i].rows);
    }
  }
}
