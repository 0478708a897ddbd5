/**
  The three insert policies and what each makes of the statements a batched insert sends.
 */
module InsertPolicy {
  import opened BatchInsert

  // ---- the three policies --------------------------------------------------------------------

  const UINT_MOD: nat := 0x1_0000_0000

  // The counter is an unsigned int.
  function RowCount(max: nat): CanAdd<nat> {
    (cur: nat, size: int, row: Row) =>
      var next := (cur + 1) % UINT_MOD;
      if next > max then (false, 0) else (true, next)
  }

  function SizeThreshold(limit: int): CanAdd<()> {
    (state: (), size: int, row: Row) => (size < limit, ())
  }

  function MaxPacket(limit: int): CanAdd<()> {
    (state: (), size: int, row: Row) => (size < limit && limit - size >= CastInt(|Next(row)|), ())
  }

  // ---- what a policy that looks at the text keeps true of every statement ---------------------

  // Adding a row the policy lets through makes a good batch of a good or empty one.
  ghost predicate Keeps<S(!new)>(c: Config<S>, good: seq<Row> -> bool, rows: seq<Row>) {
    forall s: S, b: seq<Row>, r: Row ::
      (b == [] || good(b)) && r in rows && c.canAdd(s, CastInt(|Text(c.verb, b)|), r).0 ==> good(b + [r])
  }

  ghost predicate AllGood(verb: string, good: seq<Row> -> bool, log: seq<Event>, n: nat) {
    forall i :: n <= i < |log| && log[i].Statement? ==> good(log[i].rows) && log[i].text == Text(verb, log[i].rows)
  }

  lemma GoodRow<S(!new)>(c: Config<S>, good: seq<Row> -> bool, rows: seq<Row>, n: nat, p: Progress<S>, row: Row)
    requires Keeps(c, good, rows) && row in rows && n <= |p.log|
    requires AllGood(c.verb, good, p.log, n) && (p.batch == [] || good(p.batch))
    ensures var q := OneRow(c, p, row);
      n <= |q.log| && AllGood(c.verb, good, q.log, n) && (q.batch == [] || good(q.batch))
  {
    hide CastInt;
    assert CastInt(|Text(c.verb, [])|) == 0 by { ZeroCast(); }
    assert [] + [row] == [row];
  }

  lemma ZeroCast()
    ensures CastInt(0) == 0
  {
  }

  lemma {:induction false} GoodRows<S(!new)>(
      c: Config<S>, good: seq<Row> -> bool, all: seq<Row>, policy: S, start: seq<Event>, rows: seq<Row>)
    requires Keeps(c, good, all) && forall r <- rows :: r in all
    ensures var q := AllRows(c, Progress(Going, policy, [], start), rows);
      |start| <= |q.log| && AllGood(c.verb, good, q.log, |start|) && (q.batch == [] || good(q.batch))
    decreases |rows|
  {
    if rows != [] {
      var n := |rows| - 1;
      GoodRows(c, good, all, policy, start, rows[..n]);
      var q := AllRows(c, Progress(Going, policy, [], start), rows[..n]);
      if q.status == Going { GoodRow(c, good, all, |start|, q, rows[n]); }
    }
  }

  lemma GoodStatements<S(!new)>(
      c: Config<S>, good: seq<Row> -> bool, rows: seq<Row>, policy: S, start: seq<Event>)
    requires Keeps(c, good, rows)
    ensures var p := Statementwise(c, rows, policy, start);
      |start| <= |p.log| && AllGood(c.verb, good, p.log, |start|)
  {
    GoodRows(c, good, rows, policy, start, rows);
  }

  lemma GoodMore(verb: string, good: seq<Row> -> bool, log: seq<Event>, log2: seq<Event>, m: nat, n: nat)
    requires m <= n <= |log| <= |log2| && log2[..|log|] == log && AllGood(verb, good, log, n)
    requires forall i :: m <= i < n || |log| <= i < |log2| ==> !log2[i].Statement?
    ensures AllGood(verb, good, log2, m)
  {
    forall i | m <= i < |log2| && log2[i].Statement?
      ensures good(log2[i].rows) && log2[i].text == Text(verb, log2[i].rows)
    {
      assert log2[i] == log2[..|log|][i];
    }
  }

  // Whatever the replies, every statement sent is good.
  lemma GoodRun<S(!new)>(c: Config<S>, good: seq<Row> -> bool, rows: seq<Row>, policy: S, start: seq<Event>)
    requires Keeps(c, good, rows)
    ensures AllGood(c.verb, good, Run(c, rows, policy, start).log, |start|)
  {
    hide Keeps, AllGood, Close, Sent, Stored, AllRows;
    if rows != [] {
      var log1 := if c.transaction then start + [Begin(c.replies(|start|))] else start;
      if c.transaction && !c.replies(|start|) && c.connThrows {
        GoodMore(c.verb, good, start, log1, |start|, |start|) by { NoneBad(c.verb, good, start); }
      } else {
        GoodStatements(c, good, rows, policy, log1);
        var p := Statementwise(c, rows, policy, log1);
        TracksStatements(c, log1, policy, rows);
        CloseAdds(c, p.status, p.log, |log1|);
        var log2 := Close(c, p.status, p.log).0;
        assert c.transaction ==> log2[|start|] == log1[|start|];
        GoodMore(c.verb, good, p.log, log2, |start|, |log1|);
      }
    } else { NoneBad(c.verb, good, start); }
  }

  lemma NoneBad(verb: string, good: seq<Row> -> bool, log: seq<Event>)
    ensures AllGood(verb, good, log, |log|)
  {
  }

  lemma TextGrows(verb: string, b: seq<Row>, r: Row)
    ensures Text(verb, b + [r]) == if b == [] then First(verb, r) else Text(verb, b) + Next(r)
  {
    assert (b + [r])[..|b|] == b;
  }

  const INT_LIMIT: nat := 0x8000_0000

  function Init(rows: seq<Row>): seq<Row>
    requires rows != []
  {
    rows[..|rows| - 1]
  }

  // Max-packet, for any rows: a statement of two rows or more is at most `limit` long exactly if
  // neither its last row nor the text before it reaches 2^31 characters, where the casts go wrong.
  lemma MaxPacketExact(c: Config<()>, limit: int, rows: seq<Row>, start: seq<Event>)
    requires c.canAdd == MaxPacket(limit) && limit < INT_LIMIT
    ensures var log := Run(c, rows, (), start).log;
      forall i :: |start| <= i < |log| && log[i].Statement? && |log[i].rows| >= 2 ==>
        var sent := log[i].rows;
        (|log[i].text| <= limit <==>
           |Text(c.verb, Init(sent))| < INT_LIMIT && |Next(sent[|sent| - 1])| < INT_LIMIT)
  {
    hide Keeps, MaxPacket, CastInt, Text, Run, Next;
    var good := (b: seq<Row>) => LetThrough(c.verb, limit, b);
    PacketKeeps(c, limit, rows);
    GoodRun(c, good, rows, (), start);
    var log := Run(c, rows, (), start).log;
    forall i | |start| <= i < |log| && log[i].Statement? && |log[i].rows| >= 2
      ensures var sent := log[i].rows;
        (|log[i].text| <= limit <==>
           |Text(c.verb, Init(sent))| < INT_LIMIT && |Next(sent[|sent| - 1])| < INT_LIMIT)
    {
      assert good(log[i].rows);
      PacketPair(c.verb, limit, log[i].rows);
    }
  }

  // The policy let the last row through behind the others.
  predicate LetThrough(verb: string, limit: int, b: seq<Row>) {
    |b| >= 2 ==> MaxPacket(limit)((), CastInt(|Text(verb, Init(b))|), b[|b| - 1]).0
  }

  lemma PacketKeeps(c: Config<()>, limit: int, rows: seq<Row>)
    requires c.canAdd == MaxPacket(limit)
    ensures Keeps(c, (b: seq<Row>) => LetThrough(c.verb, limit, b), rows)
  {
    hide CastInt, Text;
    forall s: (), b: seq<Row>, r: Row
      | r in rows && c.canAdd(s, CastInt(|Text(c.verb, b)|), r).0
      ensures LetThrough(c.verb, limit, b + [r])
    {
      assert Init(b + [r]) == b;
    }
  }

  lemma PacketPair(verb: string, limit: int, b: seq<Row>)
    requires |b| >= 2 && limit < INT_LIMIT
    requires MaxPacket(limit)((), CastInt(|Text(verb, Init(b))|), b[|b| - 1]).0
    ensures |Text(verb, b)| <= limit <==> |Text(verb, Init(b))| < INT_LIMIT && |Next(b[|b| - 1])| < INT_LIMIT
  {
    var t, n := |Text(verb, Init(b))|, |Next(b[|b| - 1])|;
    assert |Text(verb, b)| == t + n;
    hide Text;
    if t < INT_LIMIT { CastSmall(t); }
    if n < INT_LIMIT { CastSmall(n); }
  }

  // Rows whose own statement is below 2^31 characters keep the bound.
  lemma MaxPacketBound(c: Config<()>, limit: int, rows: seq<Row>, start: seq<Event>)
    requires c.canAdd == MaxPacket(limit) && limit < INT_LIMIT
    requires forall r <- rows :: |First(c.verb, r)| < INT_LIMIT
    ensures var log := Run(c, rows, (), start).log;
      forall i :: |start| <= i < |log| && log[i].Statement? && |log[i].rows| >= 2 ==> |log[i].text| <= limit
  {
    var good := (b: seq<Row>) => |Text(c.verb, b)| <= limit || (|b| == 1 && |Text(c.verb, b)| < INT_LIMIT);
    forall s: (), b: seq<Row>, r: Row
      | (b == [] || good(b)) && r in rows && c.canAdd(s, CastInt(|Text(c.verb, b)|), r).0
      ensures good(b + [r])
    {
      TextGrows(c.verb, b, r);
      CastSmall(|Text(c.verb, b)|);
      CastSmall(|Next(r)|);
    }
    GoodRun(c, good, rows, (), start);
  }

  // What the cast makes of a row: its length counts modulo 2^32, and from 2^31 on it always fits.
  lemma MaxPacketAnswer(limit: int, size: nat, row: Row)
    ensures var k := |Next(row)| % UINT_MOD;
      MaxPacket(limit)((), size, row).0 <==> size < limit && (k >= INT_LIMIT || size + k <= limit)
  {
    CastMod(|Next(row)|);
  }

  lemma CastMod(n: nat)
    ensures CastInt(n) == if n % UINT_MOD < INT_LIMIT then n % UINT_MOD else n % UINT_MOD - UINT_MOD
  {
    var q, k := n / UINT_MOD, n % UINT_MOD;
    assert n == q * UINT_MOD + k;
    if k < INT_LIMIT {
      assert n + INT_LIMIT == q * UINT_MOD + (k + INT_LIMIT);
    } else {
      assert n + INT_LIMIT == (q + 1) * UINT_MOD + (k - INT_LIMIT);
    }
  }

  // The bound fails on two rows, the first of which is let through, exactly if the casts let the second
  // through as well and one of the two parts reaches 2^31 characters.
  lemma MaxPacketPair(c: Config<()>, limit: int, a: Row, b: Row, start: seq<Event>)
    requires c.canAdd == MaxPacket(limit) && limit < INT_LIMIT && MaxPacket(limit)((), 0, a).0
    ensures var log := Statementwise(c, [a, b], (), start).log;
      (exists i :: |start| <= i < |log| && OverLimit(log[i], limit)) <==>
        MaxPacket(limit)((), CastInt(|First(c.verb, a)|), b).0
        && (|First(c.verb, a)| >= INT_LIMIT || |Next(b)| >= INT_LIMIT)
  {
    FirstRow(c, limit, a, b, start);
    if MaxPacket(limit)((), CastInt(|First(c.verb, a)|), b).0 {
      Together(c, limit, a, b, start);
      PacketPair(c.verb, limit, [a, b]);
      assert Init([a, b]) == [a];
      hide Text, CastInt, Statementwise;
      var log := Statementwise(c, [a, b], (), start).log;
      assert OverLimit(log[|start|], limit) <==> |Text(c.verb, [a, b])| > limit;
    } else {
      Apart(c, limit, a, b, start);
    }
  }

  lemma FirstRow(c: Config<()>, limit: int, a: Row, b: Row, start: seq<Event>)
    requires c.canAdd == MaxPacket(limit) && MaxPacket(limit)((), 0, a).0
    ensures AllRows(c, Progress(Going, (), [], start), [a, b]) == OneRow(c, Progress(Going, (), [a], start), b)
  {
    hide CastInt;
    assert [] + [a] == [a];
    ZeroCast();
    TwoRows(c, Progress(Going, (), [], start), a, b);
  }

  lemma Together(c: Config<()>, limit: int, a: Row, b: Row, start: seq<Event>)
    requires c.canAdd == MaxPacket(limit) && MaxPacket(limit)((), 0, a).0
    requires MaxPacket(limit)((), CastInt(|First(c.verb, a)|), b).0
    ensures Statementwise(c, [a, b], (), start).log ==
      start + [Statement([a, b], Text(c.verb, [a, b]), c.replies(|start|))]
  {
    FirstRow(c, limit, a, b, start);
    hide CastInt, MaxPacket;
    assert Text(c.verb, [a]) == First(c.verb, a) && [a] + [b] == [a, b];
    hide Text;
    assert OneRow(c, Progress(Going, (), [a], start), b) == Progress(Going, (), [a, b], start);
  }

  lemma Apart(c: Config<()>, limit: int, a: Row, b: Row, start: seq<Event>)
    requires c.canAdd == MaxPacket(limit) && MaxPacket(limit)((), 0, a).0
    requires !MaxPacket(limit)((), CastInt(|First(c.verb, a)|), b).0
    ensures var log := Statementwise(c, [a, b], (), start).log;
      forall i :: |start| <= i < |log| ==> !OverLimit(log[i], limit)
  {
    FirstRow(c, limit, a, b, start);
    hide CastInt, MaxPacket, AllRows;
    assert Text(c.verb, [a]) == First(c.verb, a);
    hide Text;
  }

  predicate OverLimit(e: Event, limit: int) { e.Statement? && |e.rows| >= 2 && |e.text| > limit }

  // So it fails for any row behind one that fits whose length modulo 2^32 is 2^31 or more.
  lemma MaxPacketOverrun(c: Config<()>, limit: int, a: Row, b: Row, start: seq<Event>)
    requires c.canAdd == MaxPacket(limit) && limit < INT_LIMIT
    requires |First(c.verb, a)| < limit && |Next(b)| % UINT_MOD >= INT_LIMIT
    ensures var log := Statementwise(c, [a, b], (), start).log;
      exists i :: |start| <= i < |log| && OverLimit(log[i], limit)
  {
    var size := |First(c.verb, a)|;
    assert |Next(a)| <= size && |Next(b)| >= |Next(b)| % UINT_MOD;
    CastSmall(size);
    MaxPacketAnswer(limit, 0, a);
    MaxPacketAnswer(limit, size, b);
    MaxPacketPair(c, limit, a, b, start);
  }

  // Threshold, for any rows: a statement without its last row is shorter than `limit` exactly if it
  // is shorter than 2^31 characters.
  lemma SizeThresholdExact(c: Config<()>, limit: int, rows: seq<Row>, start: seq<Event>)
    requires c.canAdd == SizeThreshold(limit) && limit < INT_LIMIT
    ensures var log := Run(c, rows, (), start).log;
      forall i :: |start| <= i < |log| && log[i].Statement? ==>
        log[i].rows != [] &&
        (|Text(c.verb, Init(log[i].rows))| < limit <==> |Text(c.verb, Init(log[i].rows))| < INT_LIMIT)
  {
    var good := (b: seq<Row>) => b != [] && CastInt(|Text(c.verb, Init(b))|) < limit;
    forall s: (), b: seq<Row>, r: Row
      | (b == [] || good(b)) && r in rows && c.canAdd(s, CastInt(|Text(c.verb, b)|), r).0
      ensures good(b + [r])
    {
      assert Init(b + [r]) == b;
    }
    GoodRun(c, good, rows, (), start);
    var log := Run(c, rows, (), start).log;
    forall i | |start| <= i < |log| && log[i].Statement?
      ensures log[i].rows != [] &&
        (|Text(c.verb, Init(log[i].rows))| < limit <==> |Text(c.verb, Init(log[i].rows))| < INT_LIMIT)
    {
      assert good(log[i].rows);
      var t := |Text(c.verb, Init(log[i].rows))|;
      if t < INT_LIMIT { CastSmall(t); }
    }
  }

  // Rows that keep every text below 2^31 characters keep the bound.
  lemma SizeThresholdBound(c: Config<()>, limit: int, rows: seq<Row>, start: seq<Event>)
    requires c.canAdd == SizeThreshold(limit) && limit < INT_LIMIT
    requires forall r <- rows :: |First(c.verb, r)| < INT_LIMIT && limit + |Next(r)| <= INT_LIMIT
    ensures var log := Run(c, rows, (), start).log;
      forall i :: |start| <= i < |log| && log[i].Statement? ==>
        log[i].rows != [] && |Text(c.verb, Init(log[i].rows))| < limit
  {
    var good := (b: seq<Row>) =>
      b != [] && |Text(c.verb, b)| < INT_LIMIT && |Text(c.verb, Init(b))| < limit;
    forall s: (), b: seq<Row>, r: Row
      | (b == [] || good(b)) && r in rows && c.canAdd(s, CastInt(|Text(c.verb, b)|), r).0
      ensures good(b + [r])
    {
      TextGrows(c.verb, b, r);
      CastSmall(|Text(c.verb, b)|);
      assert Init(b + [r]) == b;
    }
    GoodRun(c, good, rows, (), start);
  }

  lemma CastSmall(n: nat)
    requires n < INT_LIMIT
    ensures CastInt(n) == n
  {
  }

  // ---- where statements are cut ------------------------------------------------------------------

  // The policy, in some state, refuses the row behind the text.
  ghost predicate RefusesBehind<S(!new)>(c: Config<S>, text: string, r: Row) {
    exists s: S :: !c.canAdd(s, CastInt(|text|), r).0
  }

  // Of two statements in a row the first was cut because its policy refused the first row of the second.
  ghost predicate CutWell<S(!new)>(c: Config<S>, log: seq<Event>, n: nat) {
    forall i :: n <= i < |log| - 1 && log[i].Statement? && log[i + 1].Statement? ==>
      log[i + 1].rows != [] && RefusesBehind(c, log[i].text, log[i + 1].rows[0])
  }

  // The same of the statement last sent and the rows in the buffer.
  ghost predicate CutSoFar<S(!new)>(c: Config<S>, p: Progress<S>, n: nat) {
    && n <= |p.log| && CutWell(c, p.log, n)
    && (p.status == Going && p.batch == [] ==> |p.log| == n)
    && (p.status == Going && p.batch != [] && |p.log| > n ==>
          p.log[|p.log| - 1].Statement? && RefusesBehind(c, p.log[|p.log| - 1].text, p.batch[0]))
  }

  lemma CutExec<S(!new)>(c: Config<S>, p: Progress<S>, n: nat)
    requires CutSoFar(c, p, n) && p.status == Going && p.batch != []
    ensures var q := Exec(c, p);
      n < |q.log| && CutWell(c, q.log, n) && q.log[|q.log| - 1].Statement?
      && q.log[|q.log| - 1].text == Text(c.verb, p.batch)
  {
    hide Text, CastInt, RefusesBehind;
  }

  lemma CutRow<S(!new)>(c: Config<S>, p: Progress<S>, n: nat, row: Row)
    requires CutSoFar(c, p, n) && p.status == Going
    ensures CutSoFar(c, OneRow(c, p, row), n)
  {
    hide Text, CastInt, CutWell;
    var (fits, policy) := c.canAdd(p.policy, CastInt(|Text(c.verb, p.batch)|), row);
    if !fits && p.batch != [] {
      CutExec(c, p, n);
      CutExec(c, p.(policy := policy), n);
      assert RefusesBehind(c, Text(c.verb, p.batch), row);
    }
  }

  lemma {:induction false} CutRows<S(!new)>(c: Config<S>, policy: S, start: seq<Event>, rows: seq<Row>)
    ensures CutSoFar(c, AllRows(c, Progress(Going, policy, [], start), rows), |start|)
    decreases |rows|
  {
    hide OneRow, CutSoFar;
    if rows != [] {
      var n := |rows| - 1;
      CutRows(c, policy, start, rows[..n]);
      var q := AllRows(c, Progress(Going, policy, [], start), rows[..n]);
      if q.status == Going { CutRow(c, q, |start|, rows[n]); }
    } else {
      CutStart(c, policy, start);
    }
  }

  lemma CutStart<S(!new)>(c: Config<S>, policy: S, start: seq<Event>)
    ensures CutSoFar(c, Progress(Going, policy, [], start), |start|)
  {
  }

  // Under any policy, of two statements sent in a row the first is cut only where the policy refused
  // the row that begins the second.
  lemma CutByRefusal<S(!new)>(c: Config<S>, rows: seq<Row>, policy: S, start: seq<Event>)
    ensures CutWell(c, Run(c, rows, policy, start).log, |start|)
  {
    hide CutWell, AllRows, Sent, Stored, Text, CastInt;
    if rows != [] {
      var log1 := if c.transaction then start + [Begin(c.replies(|start|))] else start;
      CutRows(c, policy, log1, rows);
      var q := AllRows(c, Progress(Going, policy, [], log1), rows);
      if q.status == Going && q.batch != [] { CutExec(c, q, |log1|); }
      var p := Statementwise(c, rows, policy, log1);
      CloseAdds(c, p.status, p.log, |log1|);
      TracksStatements(c, log1, policy, rows);
      if c.transaction && !c.replies(|start|) && c.connThrows {
        NothingCut(c, log1, |start|);
      } else {
        CutMore(c, p.log, Close(c, p.status, p.log).0, |start|, |log1|);
      }
    } else {
      NothingCut(c, start, |start|);
    }
  }

  lemma NothingCut<S(!new)>(c: Config<S>, log: seq<Event>, n: nat)
    requires |log| <= n + 1
    ensures CutWell(c, log, n)
  {
  }

  lemma CutMore<S(!new)>(c: Config<S>, log: seq<Event>, log2: seq<Event>, m: nat, n: nat)
    requires m <= n <= |log| && log <= log2 && CutWell(c, log, n)
    requires forall i :: m <= i < n || |log| <= i < |log2| ==> !log2[i].Statement?
    ensures CutWell(c, log2, m)
  {
    hide RefusesBehind;
    forall i | m <= i < |log2| - 1 && log2[i].Statement? && log2[i + 1].Statement?
      ensures log2[i + 1].rows != [] && RefusesBehind(c, log2[i].text, log2[i + 1].rows[0])
    {
      assert log2[i] == log[i] && log2[i + 1] == log[i + 1];
    }
  }

  // The threshold policy cuts a statement only where its length, as the cast sees it, reached the limit.
  lemma SizeThresholdCuts(c: Config<()>, limit: int, rows: seq<Row>, start: seq<Event>)
    requires c.canAdd == SizeThreshold(limit)
    ensures var log := Run(c, rows, (), start).log;
      forall i :: |start| <= i < |log| - 1 && log[i].Statement? && log[i + 1].Statement? ==>
        CastInt(|log[i].text|) >= limit
  {
    hide CastInt, Run;
    CutByRefusal(c, rows, (), start);
    var log := Run(c, rows, (), start).log;
    forall i | |start| <= i < |log| - 1 && log[i].Statement? && log[i + 1].Statement?
      ensures CastInt(|log[i].text|) >= limit
    {
      assert RefusesBehind(c, log[i].text, log[i + 1].rows[0]);
    }
  }

  // The max-packet policy cuts only where the next row would not fit, as the casts see it.
  lemma MaxPacketCuts(c: Config<()>, limit: int, rows: seq<Row>, start: seq<Event>)
    requires c.canAdd == MaxPacket(limit)
    ensures var log := Run(c, rows, (), start).log;
      forall i :: |start| <= i < |log| - 1 && log[i].Statement? && log[i + 1].Statement? ==>
        var size := CastInt(|log[i].text|);
        size >= limit || (log[i + 1].rows != [] && size + CastInt(|Next(log[i + 1].rows[0])|) > limit)
  {
    hide CastInt, Run, Next;
    CutByRefusal(c, rows, (), start);
    var log := Run(c, rows, (), start).log;
    forall i | |start| <= i < |log| - 1 && log[i].Statement? && log[i + 1].Statement?
      ensures var size := CastInt(|log[i].text|);
        size >= limit || (log[i + 1].rows != [] && size + CastInt(|Next(log[i + 1].rows[0])|) > limit)
    {
      assert RefusesBehind(c, log[i].text, log[i + 1].rows[0]);
    }
  }

  // ---- batches under the row-count policy ------------------------------------------------------

  // The number of rows of each statement sent from position n of the log on.
  function Batches(log: seq<Event>, n: nat): seq<nat>
    decreases |log|
  {
    if |log| <= n then []
    else
      var e := log[|log| - 1];
      Batches(log[..|log| - 1], n) + if e.Statement? then [|e.rows|] else []
  }

  lemma BatchesOne(log: seq<Event>, n: nat, e: Event)
    requires n <= |log|
    ensures Batches(log + [e], n) == Batches(log, n) + if e.Statement? then [|e.rows|] else []
  {
    assert (log + [e])[..|log|] == log;
  }

  // Commands that are no statements do not matter.
  lemma {:induction false} BatchesSame(log: seq<Event>, m: nat, n: nat, k: nat)
    requires m <= n <= k <= |log|
    requires forall i :: m <= i < n || k <= i < |log| ==> !log[i].Statement?
    ensures Batches(log, m) == Batches(log[..k], n) && Sent(log, m) == Sent(log[..k], n)
    decreases |log|
  {
    var last := |log| - 1;
    if k < |log| {
      assert log[..last][..k] == log[..k];
      BatchesSame(log[..last], m, n, k);
    } else {
      assert log[..k] == log;
      if n < k {
        BatchesSame(log[..last], m, n, last);
        assert log[..last][..last] == log[..last];
      } else if m < k {
        BatchesSame(log[..last], m, last, last);
        assert log[..last][..last] == log[..last];
      }
    }
  }

  // The first statement lacks the `shift` rows the policy had counted before.
  function Size(i: nat, k: nat, shift: nat): int { if i == 0 then k - shift else k }

  ghost predicate Full(sizes: seq<nat>, k: nat, shift: nat) {
    forall i :: 0 <= i < |sizes| ==> sizes[i] == Size(i, k, shift)
  }

  // Before the last exec: full statements only, and the policy has counted the buffered rows.
  ghost predicate Counted(k: nat, cur: nat, shift: nat, n: nat, p: Progress<nat>, rows: seq<Row>) {
    && n <= |p.log|
    && var sizes := Batches(p.log, n);
    && Full(sizes, k, shift)
    && (sizes != [] ==> |Sent(p.log, n)| + shift == |sizes| * k)
    && (sizes == [] ==> Sent(p.log, n) == [])
    && (p.status == Going ==>
          && (rows == [] ==> p.policy == cur && p.batch == [] && sizes == [])
          && (rows != [] ==> p.batch != [] && p.policy == |p.batch| + if sizes == [] then shift else 0)
          && p.policy <= k)
  }

  lemma CountedExec(c: Config<nat>, k: nat, shift: nat, n: nat, p: Progress<nat>)
    requires n <= |p.log| && Full(Batches(p.log, n), k, shift)
    requires Batches(p.log, n) != [] ==> |Sent(p.log, n)| + shift == |Batches(p.log, n)| * k
    requires Batches(p.log, n) == [] ==> Sent(p.log, n) == []
    requires shift <= k && |p.batch| <= Size(|Batches(p.log, n)|, k, shift)
    ensures var q := Exec(c, p); var sizes := Batches(p.log, n);
      && n <= |q.log| && Batches(q.log, n) == sizes + [|p.batch|]
      && |Sent(q.log, n)| + shift == |sizes| * k + |p.batch| + (if sizes == [] then shift else 0)
  {
    var e := Exec(c, p).log[|p.log|];
    BatchesOne(p.log, n, e);
    SentOne(p.log, n, e);
  }

  // One row under this policy: it joins the batch, or the full batch is sent and it starts the next.
  lemma RowCountRow(c: Config<nat>, k: nat, p: Progress<nat>, row: Row)
    requires c.canAdd == RowCount(k) && 1 <= k < UINT_MOD - 1 && p.policy <= k && p.status == Going
    ensures OneRow(c, p, row) ==
      if p.policy < k then p.(policy := p.policy + 1, batch := p.batch + [row])
      else
        var q := if p.batch != [] then Exec(c, p.(policy := 0)) else p.(policy := 0);
        if q.status != Going then q else q.(policy := 1, batch := [row])
  {
    hide Text, CastInt, Exec;
    var p0 := p.(policy := 0);
    assert Exec(c, p0).policy == 0 by { ExecPolicy(c, p0); }
  }

  lemma ExecPolicy(c: Config<nat>, p: Progress<nat>)
    ensures Exec(c, p).policy == p.policy
  {
  }

  lemma CountedRow(
      c: Config<nat>, k: nat, cur: nat, shift: nat, n: nat, p: Progress<nat>, rows: seq<Row>, row: Row)
    requires c.canAdd == RowCount(k) && 1 <= k < UINT_MOD - 1
    requires shift < k && cur <= k && (shift == cur || (cur == k && shift == 0))
    requires Counted(k, cur, shift, n, p, rows) && p.status == Going
    ensures Counted(k, cur, shift, n, OneRow(c, p, row), rows + [row])
  {
    hide Text, CastInt, OneRow, Batches, Sent;
    RowCountRow(c, k, p, row);
    if p.policy == k && p.batch != [] { CountedFull(c, k, cur, shift, n, p, rows); }
  }

  // Sending a full batch.
  lemma CountedFull(c: Config<nat>, k: nat, cur: nat, shift: nat, n: nat, p: Progress<nat>, rows: seq<Row>)
    requires Counted(k, cur, shift, n, p, rows) && p.status == Going && rows != [] && p.policy == k && shift < k
    ensures var q := Exec(c, p.(policy := 0)); var sizes := Batches(q.log, n);
      && n <= |q.log| && sizes != [] && Full(sizes, k, shift)
      && |Sent(q.log, n)| + shift == |sizes| * k
  {
    hide Text, Batches, Sent;
    var sizes := Batches(p.log, n);
    CountedExec(c, k, shift, n, p.(policy := 0));
    assert (|sizes| + 1) * k == |sizes| * k + k;
  }

  lemma {:induction false} CountedRows(
      c: Config<nat>, k: nat, cur: nat, shift: nat, start: seq<Event>, rows: seq<Row>)
    requires c.canAdd == RowCount(k) && 1 <= k < UINT_MOD - 1
    requires shift < k && cur <= k && (shift == cur || (cur == k && shift == 0))
    ensures Counted(k, cur, shift, |start|, AllRows(c, Progress(Going, cur, [], start), rows), rows)
    decreases |rows|
  {
    if rows != [] {
      var n := |rows| - 1;
      CountedRows(c, k, cur, shift, start, rows[..n]);
      var q := AllRows(c, Progress(Going, cur, [], start), rows[..n]);
      assert rows == rows[..n] + [rows[n]];
      if q.status == Going { CountedRow(c, k, cur, shift, |start|, q, rows[..n], rows[n]); }
    }
  }

  // Every statement but the last is full, the last has at least one row; so the number of statements
  // is that of the rows sent divided by k, rounded up.
  ghost predicate EvenlyCut(sizes: seq<nat>, k: nat, shift: nat, sent: nat) {
    && (forall i :: 0 <= i < |sizes| - 1 ==> sizes[i] == Size(i, k, shift))
    && (sizes != [] ==> 1 <= sizes[|sizes| - 1] <= Size(|sizes| - 1, k, shift))
    && if sent == 0 then sizes == [] else (|sizes| - 1) * k < sent + shift <= |sizes| * k
  }

  lemma CutOfFull(sizes: seq<nat>, k: nat, shift: nat, sent: nat)
    requires shift < k && Full(sizes, k, shift)
    requires if sizes == [] then sent == 0 else sent + shift == |sizes| * k && sent > 0
    ensures EvenlyCut(sizes, k, shift, sent)
  {
    if sizes != [] { assert (|sizes| - 1) * k + k == |sizes| * k; }
  }

  lemma CutOfLast(sizes: seq<nat>, last: nat, k: nat, shift: nat, sent: nat)
    requires shift < k && Full(sizes, k, shift) && 1 <= last <= Size(|sizes|, k, shift)
    requires sent + shift == |sizes| * k + last + if sizes == [] then shift else 0
    ensures EvenlyCut(sizes + [last], k, shift, sent)
  {
    assert (|sizes| + 1) * k == |sizes| * k + k;
  }

  lemma CutStatements(c: Config<nat>, k: nat, cur: nat, shift: nat, start: seq<Event>, rows: seq<Row>)
    requires c.canAdd == RowCount(k) && 1 <= k < UINT_MOD - 1
    requires shift < k && cur <= k && (shift == cur || (cur == k && shift == 0))
    ensures var p := Statementwise(c, rows, cur, start); var n := |start|;
      n <= |p.log| && EvenlyCut(Batches(p.log, n), k, shift, |Sent(p.log, n)|)
  {
    hide AllRows, Batches, Sent, EvenlyCut, Exec;
    CountedRows(c, k, cur, shift, start, rows);
    var n := |start|;
    var q := AllRows(c, Progress(Going, cur, [], start), rows);
    var sizes := Batches(q.log, n);
    if q.status == Going && q.batch != [] {
      CountedExec(c, k, shift, n, q);
      CutOfLast(sizes, |q.batch|, k, shift, |Sent(Exec(c, q).log, n)|);
    } else {
      if sizes != [] { Positive(|sizes|, k, shift, |Sent(q.log, n)|); }
      CutOfFull(sizes, k, shift, |Sent(q.log, n)|);
    }
  }

  lemma Positive(m: nat, k: nat, shift: nat, sent: nat)
    requires m > 0 && shift < k && sent + shift == m * k
    ensures sent > 0
  {
    assert m * k == (m - 1) * k + k;
  }

  lemma SameAround(log: seq<Event>, log2: seq<Event>, m: nat, n: nat)
    requires m <= n <= |log| <= |log2| && log == log2[..|log|]
    requires forall i :: m <= i < n ==> !log[i].Statement?
    requires forall i :: |log| <= i < |log2| ==> !log2[i].Statement?
    ensures Batches(log2, m) == Batches(log, n) && Sent(log2, m) == Sent(log, n)
  {
    assert forall i :: m <= i < n ==> log2[i] == log2[..|log|][i];
    BatchesSame(log2, m, n, |log|);
  }

  lemma ClosedBatches(
      c: Config<nat>, k: nat, cur: nat, shift: nat, rows: seq<Row>, log1: seq<Event>, n: nat)
    requires c.canAdd == RowCount(k) && 1 <= k < UINT_MOD - 1
    requires shift < k && cur <= k && (shift == cur || (cur == k && shift == 0))
    requires n <= |log1| && forall i :: n <= i < |log1| ==> !log1[i].Statement?
    ensures var p := Statementwise(c, rows, cur, log1); var log2 := Close(c, p.status, p.log).0;
      n <= |log2| && EvenlyCut(Batches(log2, n), k, shift, |Sent(log2, n)|)
  {
    hide EvenlyCut, Statements, Close, Batches, Sent, Stored, Statementwise;
    CutStatements(c, k, cur, shift, log1, rows);
    TracksStatements(c, log1, cur, rows);
    var p := Statementwise(c, rows, cur, log1);
    CloseAdds(c, p.status, p.log, |log1|);
    assert forall i :: n <= i < |log1| ==> p.log[i] == log1[i];
    SameAround(p.log, Close(c, p.status, p.log).0, n, |log1|);
  }

  // A run under the row-count policy with any maximum k from 1 on: all statements but the last have
  // exactly k rows (the first fewer by what an earlier run left in the counter), whatever the server
  // replies, exactly if the counter does not come round, which takes the largest unsigned int for k.
  lemma RowCountBatches(c: Config<nat>, k: nat, cur: nat, rows: seq<Row>, start: seq<Event>)
    requires c.canAdd == RowCount(k) && 1 <= k < UINT_MOD && cur <= k
    ensures var log := Run(c, rows, cur, start).log; var n := |start|;
      && n <= |log|
      && (EvenlyCut(Batches(log, n), k, cur % k, |Sent(log, n)|) <==>
            k < UINT_MOD - 1 || |Sent(log, n)| + cur % k <= k)
      && (k == UINT_MOD - 1 ==> |Batches(log, n)| <= 1)
  {
    hide EvenlyCut, Statements, Close, Batches, Sent, Statementwise;
    var n := |start|;
    var shift := cur % k;
    ShiftIs(cur, k);
    var begin := Begin(c.replies(n));
    NoBatches(start, k, shift);
    BatchesOne(start, n, begin);
    SentOne(start, n, begin);
    var log1 := if c.transaction then start + [begin] else start;
    if k < UINT_MOD - 1 {
      ClosedBatches(c, k, cur, shift, rows, log1, n);
    } else if rows != [] {
      Uncut(c, cur, shift, rows, log1, n);
    }
  }

  lemma ShiftIs(cur: nat, k: nat)
    requires cur <= k && k > 0
    ensures cur % k == if cur == k then 0 else cur
  {
  }

  // The largest maximum: no row is refused, and all of them make one statement.
  lemma {:induction false} NeverRefused(c: Config<nat>, cur: nat, log: seq<Event>, rows: seq<Row>)
    requires c.canAdd == RowCount(UINT_MOD - 1) && cur < UINT_MOD
    ensures var p := AllRows(c, Progress(Going, cur, [], log), rows);
      p.status == Going && p.policy < UINT_MOD && p.batch == rows && p.log == log
    decreases |rows|
  {
    hide Text, CastInt;
    if rows != [] {
      var n := |rows| - 1;
      NeverRefused(c, cur, log, rows[..n]);
      assert rows == rows[..n] + [rows[n]];
    }
  }

  lemma Uncut(c: Config<nat>, cur: nat, shift: nat, rows: seq<Row>, log1: seq<Event>, n: nat)
    requires c.canAdd == RowCount(UINT_MOD - 1) && cur < UINT_MOD && shift < UINT_MOD - 1 && rows != []
    requires n <= |log1| && forall i :: n <= i < |log1| ==> !log1[i].Statement?
    ensures var p := Statementwise(c, rows, cur, log1); var log2 := Close(c, p.status, p.log).0;
      && n <= |log2| && |Batches(log2, n)| == 1
      && (EvenlyCut(Batches(log2, n), UINT_MOD - 1, shift, |Sent(log2, n)|) <==>
            |Sent(log2, n)| + shift <= UINT_MOD - 1)
  {
    hide Statements, Close, Batches, Sent, Stored, AllRows;
    NeverRefused(c, cur, log1, rows);
    var p := Statementwise(c, rows, cur, log1);
    var e := p.log[|log1|];
    assert p.log == log1 + [e] && e.Statement? && e.rows == rows;
    NoBatches(log1, UINT_MOD - 1, shift);
    BatchesOne(log1, |log1|, e);
    SentOne(log1, |log1|, e);
    assert [] + [|rows|] == [|rows|] && [] + rows == rows;
    CloseAdds(c, p.status, p.log, |log1|);
    SameAround(p.log, Close(c, p.status, p.log).0, n, |log1|);
  }

  lemma NoBatches(log: seq<Event>, k: nat, shift: nat)
    requires k > 0
    ensures Batches(log, |log|) == [] && Sent(log, |log|) == [] && EvenlyCut([], k, shift, 0)
  {
  }

  // A maximum of 0 lets nothing through.
  lemma RowCountZero(c: Config<nat>, rows: seq<Row>, start: seq<Event>)
    requires c.canAdd == RowCount(0) && rows != []
    ensures var o := Run(c, rows, 0, start);
      && (forall i :: |start| <= i < |o.log| ==> !o.log[i].Statement? && !o.log[i].Commit?)
      && (c.queryThrows && (!c.transaction || c.replies(|start|) || !c.connThrows) ==> o.thrown)
  {
    var log1 := if c.transaction then start + [Begin(c.replies(|start|))] else start;
    ZeroRefuses(c, Progress(Going, 0, [], log1), rows);
    CloseAdds(c, FailOrThrow(c), log1, |log1|);
  }

  lemma {:induction false} ZeroRefuses(c: Config<nat>, p: Progress<nat>, rows: seq<Row>)
    requires c.canAdd == RowCount(0) && rows != [] && p.status == Going && p.policy == 0 && p.batch == []
    ensures AllRows(c, p, rows) == p.(status := FailOrThrow(c))
    decreases |rows|
  {
    hide Text, CastInt;
    if |rows| == 1 {
      assert rows[..0] == [];
    } else {
      ZeroRefuses(c, p, rows[..|rows| - 1]);
    }
  }

  // The counter comes round to 0 before it passes the largest unsigned int.
  lemma RowCountRefuses(k: nat, row: Row)
    requires k < UINT_MOD
    ensures (exists cur: nat :: cur < UINT_MOD && !RowCount(k)(cur, 0, row).0) <==> k < UINT_MOD - 1
  {
    if k < UINT_MOD - 1 { assert !RowCount(k)(k, 0, row).0; }
  }

  lemma TwoRows<S>(c: Config<S>, p: Progress<S>, a: Row, b: Row)
    requires p.status == Going
    ensures AllRows(c, p, [a, b]) ==
      var q := OneRow(c, p, a); if q.status == Going then OneRow(c, q, b) else q
  {
    hide OneRow;
    assert [a, b][..1] == [a] && [a][..0] == [];
    assert AllRows(c, p, [a]) == OneRow(c, p, a);
  }
}
