/**
  Query::insertfrom and Query::replacefrom: rows are written into statements as
  an insert policy allows, inside an access controller that is a Transaction or
  nothing.  `replies` is the server: whether the k-th command it is sent succeeds.
 */
module BatchInsert {

  datatype Row = Row(table: string, fieldList: string, valueList: string)

  // What was sent and how it went; a statement also records the rows it was built from.
  datatype Event =
    | Begin(ok: bool)
    | Statement(rows: seq<Row>, text: string, ok: bool)
    | Commit(ok: bool)
    | Rollback(ok: bool)

  // ---- statement text --------------------------------------------------------------

  function First(verb: string, r: Row): string {
    verb + " INTO `" + r.table + "` (" + r.fieldList + ") VALUES (" + r.valueList + ")"
  }

  function Next(r: Row): string { ",(" + r.valueList + ")" }

  function Text(verb: string, rows: seq<Row>): string {
    if rows == [] then ""
    else if |rows| == 1 then First(verb, rows[0])
    else Text(verb, rows[..|rows| - 1]) + Next(rows[|rows| - 1])
  }

  // int(tellp()): a 32-bit signed cast.
  function CastInt(n: nat): int {
    (n + 0x8000_0000) % 0x1_0000_0000 - 0x8000_0000
  }

  // ---- the run, as a function of policy, rows and replies -----------------------------

  // A policy of any kind: its state, the statement length and the row give an answer and a new state.
  type CanAdd<!S> = (S, int, Row) -> (bool, S)

  datatype Config<!S> = Config(
    verb: string, canAdd: CanAdd<S>, transaction: bool, queryThrows: bool, connThrows: bool, replies: nat -> bool)

  datatype Status = Going | Failed | Threw

  // Between two rows: the policy, the rows in the query buffer, and what was sent.
  datatype Progress<S> = Progress(status: Status, policy: S, batch: seq<Row>, log: seq<Event>)

  function FailOrThrow<S>(c: Config<S>): Status { if c.queryThrows then Threw else Failed }

  // exec(): send the buffer; on success it is reset.
  function Exec<S>(c: Config<S>, p: Progress<S>): Progress<S> {
    var ok := c.replies(|p.log|);
    Progress(if ok then p.status else FailOrThrow(c), p.policy, if ok then [] else p.batch,
             p.log + [Statement(p.batch, Text(c.verb, p.batch), ok)])
  }

  function OneRow<S>(c: Config<S>, p: Progress<S>, row: Row): Progress<S> {
    var (fits, policy) := c.canAdd(p.policy, CastInt(|Text(c.verb, p.batch)|), row);
    var p := p.(policy := policy);
    if fits then p.(batch := p.batch + [row])
    else
      var q := if p.batch != [] then Exec(c, p) else p;
      if q.status != Going then q
      else
        var (alone, policy2) := c.canAdd(q.policy, 0, row);
        if alone then q.(policy := policy2, batch := [row])
        else q.(policy := policy2, status := FailOrThrow(c))
  }

  function AllRows<S>(c: Config<S>, p: Progress<S>, rows: seq<Row>): Progress<S> {
    if rows == [] then p
    else
      var q := AllRows(c, p, rows[..|rows| - 1]);
      if q.status == Going then OneRow(c, q, rows[|rows| - 1]) else q
  }

  // The last, possibly incomplete statement.
  function LastExec<S>(c: Config<S>, p: Progress<S>): Progress<S> {
    if p.status == Going && p.batch != [] then Exec(c, p) else p
  }

  // Transaction::commit and ::rollback with the destructor behind them.
  function Close<S>(c: Config<S>, status: Status, log: seq<Event>): (seq<Event>, bool) {
    if !c.transaction then (log, status == Threw)
    else
      var ok := c.replies(|log|);
      var log1 := log + [if status == Going then Commit(ok) else Rollback(ok)];
      if status == Threw then (log1, true)
      else if ok || !c.connThrows then (log1, false)
      else (log1 + [Rollback(c.replies(|log1|))], true)
  }

  datatype Outcome<S> = Outcome(log: seq<Event>, policy: S, thrown: bool)

  function Run<S>(c: Config<S>, rows: seq<Row>, policy: S, log: seq<Event>): Outcome<S> {
    if rows == [] then Outcome(log, policy, false)
    else
      var ok := c.replies(|log|);
      var log1 := if c.transaction then log + [Begin(ok)] else log;
      if c.transaction && !ok && c.connThrows then Outcome(log1, policy, true)
      else
        var p := Statementwise(c, rows, policy, log1);
        var (log2, thrown) := Close(c, p.status, p.log);
        Outcome(log2, p.policy, thrown)
  }

  // ---- the rows sent ---------------------------------------------------------------------

  // The rows of the statements sent from position n of the log on; and of those that succeeded.
  function Sent(log: seq<Event>, n: nat): seq<Row> {
    if |log| <= n then []
    else Sent(log[..|log| - 1], n) + (var e := log[|log| - 1]; if e.Statement? then e.rows else [])
  }

  function Stored(log: seq<Event>, n: nat): seq<Row> {
    if |log| <= n then []
    else Stored(log[..|log| - 1], n) + (var e := log[|log| - 1]; if e.Statement? && e.ok then e.rows else [])
  }

  lemma SentOne(log: seq<Event>, n: nat, e: Event)
    requires n <= |log|
    ensures Sent(log + [e], n) == Sent(log, n) + if e.Statement? then e.rows else []
    ensures Stored(log + [e], n) == Stored(log, n) + if e.Statement? && e.ok then e.rows else []
  {
    assert (log + [e])[..|log|] == log;
  }

  // A command before position n + 1 that is no statement may be counted in or not.
  lemma {:induction false} SentSkip(log: seq<Event>, n: nat)
    requires n < |log| && !log[n].Statement?
    ensures Sent(log, n) == Sent(log, n + 1) && Stored(log, n) == Stored(log, n + 1)
  {
    if |log| > n + 1 { SentSkip(log[..|log| - 1], n); }
  }

  ghost predicate Statements(log: seq<Event>, n: nat) {
    forall i :: n <= i < |log| ==> log[i].Statement? && log[i].rows != []
  }

  // While the loop goes on, what was sent succeeded and together with the buffer makes up the rows
  // so far; afterwards what was sent is a prefix of them, and not all were stored.
  ghost predicate Tracks<S>(c: Config<S>, start: seq<Event>, p: Progress<S>, rows: seq<Row>) {
    var n := |start|;
    && start <= p.log && Statements(p.log, n)
    && (p.status == Going ==> Sent(p.log, n) == Stored(p.log, n) && Sent(p.log, n) + p.batch == rows)
    && (p.status != Going ==> Sent(p.log, n) <= rows && Stored(p.log, n) <= rows && Stored(p.log, n) != rows)
  }

  lemma TracksExec<S>(c: Config<S>, start: seq<Event>, p: Progress<S>, rows: seq<Row>)
    requires Tracks(c, start, p, rows) && p.status == Going && p.batch != []
    ensures var q := Exec(c, p);
      Tracks(c, start, q, rows) && (q.status == Going ==> q.batch == [])
  {
    var q := Exec(c, p);
    SentOne(p.log, |start|, q.log[|p.log|]);
  }

  lemma TracksRow<S>(c: Config<S>, start: seq<Event>, p: Progress<S>, rows: seq<Row>, row: Row)
    requires Tracks(c, start, p, rows) && p.status == Going
    ensures Tracks(c, start, OneRow(c, p, row), rows + [row])
  {
    hide Text, CastInt, Sent, Stored, Exec;
    var (fits, policy) := c.canAdd(p.policy, CastInt(|Text(c.verb, p.batch)|), row);
    var p1 := p.(policy := policy);
    if fits {
      assert Sent(p.log, |start|) + (p.batch + [row]) == rows + [row];
    } else {
      var q := if p1.batch != [] then Exec(c, p1) else p1;
      if p1.batch != [] { TracksExec(c, start, p1, rows); }
      assert rows <= rows + [row];
      if q.status == Going { assert Sent(q.log, |start|) == rows; }
    }
  }

  lemma {:induction false} TracksAll<S>(c: Config<S>, start: seq<Event>, policy: S, rows: seq<Row>)
    ensures Tracks(c, start, AllRows(c, Progress(Going, policy, [], start), rows), rows)
  {
    if rows != [] {
      var n := |rows| - 1;
      TracksAll(c, start, policy, rows[..n]);
      var q := AllRows(c, Progress(Going, policy, [], start), rows[..n]);
      assert rows == rows[..n] + [rows[n]];
      if q.status == Going { TracksRow(c, start, q, rows[..n], rows[n]); }
    }
  }

  // All statements of a call: the loop and the last exec.
  function Statementwise<S>(c: Config<S>, rows: seq<Row>, policy: S, log: seq<Event>): Progress<S> {
    LastExec(c, AllRows(c, Progress(Going, policy, [], log), rows))
  }

  lemma TracksStatements<S>(c: Config<S>, start: seq<Event>, policy: S, rows: seq<Row>)
    ensures var p := Statementwise(c, rows, policy, start);
      Tracks(c, start, p, rows) && (p.status == Going ==> Stored(p.log, |start|) == rows)
  {
    TracksAll(c, start, policy, rows);
    var q := AllRows(c, Progress(Going, policy, [], start), rows);
    if q.status == Going && q.batch != [] { TracksExec(c, start, q, rows); }
  }

  lemma {:induction false} StatusOfRows<S>(c: Config<S>, p: Progress<S>, rows: seq<Row>)
    requires p.status == Going
    ensures var q := AllRows(c, p, rows); q.status == Going || q.status == FailOrThrow(c)
    decreases |rows|
  {
    hide Text, CastInt;
    if rows != [] { StatusOfRows(c, p, rows[..|rows| - 1]); }
  }

  lemma StatusIs<S>(c: Config<S>, rows: seq<Row>, policy: S, log: seq<Event>)
    ensures var q := Statementwise(c, rows, policy, log); q.status == Going || q.status == FailOrThrow(c)
  {
    StatusOfRows(c, Progress(Going, policy, [], log), rows);
  }

  // The commands behind the statements: none, or COMMIT or ROLLBACK and perhaps one more ROLLBACK.
  lemma CloseAdds<S>(c: Config<S>, status: Status, log: seq<Event>, n: nat)
    requires n <= |log|
    ensures var log2 := Close(c, status, log).0;
      && log <= log2 && Sent(log2, n) == Sent(log, n) && Stored(log2, n) == Stored(log, n)
      && (forall i :: |log| <= i < |log2| ==> log2[i].Commit? || log2[i].Rollback?)
      && (forall i :: |log| <= i < |log2| && log2[i].Commit? ==> status == Going && i == |log|)
  {
    hide Sent, Stored;
    if c.transaction {
      var ok := c.replies(|log|);
      var e := if status == Going then Commit(ok) else Rollback(ok);
      var e2 := Rollback(c.replies(|log + [e]|));
      SentOne(log, n, e);
      SentOne(log + [e], n, e2);
      assert Sent(log + [e], n) == Sent(log, n) && Sent(log + [e] + [e2], n) == Sent(log, n);
      assert Stored(log + [e], n) == Stored(log, n) && Stored(log + [e] + [e2], n) == Stored(log, n);
    }
  }

  // ---- prefix and COMMIT -----------------------------------------------------------------

  ghost predicate Commits(log: seq<Event>, n: nat) {
    exists i :: n <= i < |log| && log[i].Commit?
  }

  // Under any policy and any replies the rows sent are a prefix of the input, in order, each once;
  // COMMIT is sent exactly if all of them were stored, in a transaction that was not given up.
  lemma SentIsPrefix<S>(c: Config<S>, rows: seq<Row>, policy: S, start: seq<Event>)
    ensures var o := Run(c, rows, policy, start);
      && start <= o.log
      && Sent(o.log, |start|) <= rows && Stored(o.log, |start|) <= rows
      && (Commits(o.log, |start|) <==>
            rows != [] && c.transaction && (c.replies(|start|) || !c.connThrows) && Stored(o.log, |start|) == rows)
      && (!c.transaction ==> forall i :: |start| <= i < |o.log| ==> o.log[i].Statement?)
  {
    if rows != [] {
      var log1 := if c.transaction then start + [Begin(c.replies(|start|))] else start;
      TracksStatements(c, log1, policy, rows);
      ClosedIsPrefix(c, rows, start, Statementwise(c, rows, policy, log1));
      if c.transaction { SentSkip(log1, |start|); }
    }
  }

  lemma ClosedIsPrefix<S>(c: Config<S>, rows: seq<Row>, start: seq<Event>, p: Progress<S>)
    requires var log1 := if c.transaction then start + [Begin(c.replies(|start|))] else start;
      Tracks(c, log1, p, rows) && (p.status == Going ==> Stored(p.log, |log1|) == rows)
    ensures var log2 := Close(c, p.status, p.log).0;
      && start <= log2
      && Sent(log2, |start|) <= rows && Stored(log2, |start|) <= rows
      && (Commits(log2, |start|) <==> c.transaction && Stored(log2, |start|) == rows)
      && (!c.transaction ==> forall i :: |start| <= i < |log2| ==> log2[i].Statement?)
  {
    hide Sent, Stored;
    var log1 := if c.transaction then start + [Begin(c.replies(|start|))] else start;
    CloseAdds(c, p.status, p.log, |log1|);
    var log2 := Close(c, p.status, p.log).0;
    if c.transaction {
      assert log2[|start|] == log1[|start|];
      SentSkip(log2, |start|);
      assert log2[|p.log|].Commit? <==> p.status == Going;
    }
    assert forall i :: |log1| <= i < |p.log| ==> log2[i] == p.log[i];
  }

  // A call throws exactly if START TRANSACTION, COMMIT or ROLLBACK fails on a connection that throws, or
  // a row is not stored and the query throws.
  lemma ThrowsIff<S>(c: Config<S>, rows: seq<Row>, policy: S, start: seq<Event>)
    requires rows != []
    ensures var o := Run(c, rows, policy, start);
      o.thrown <==>
        || (c.connThrows && exists i :: |start| <= i < |o.log| && !o.log[i].Statement? && !o.log[i].ok)
        || (c.queryThrows && Stored(o.log, |start|) != rows)
  {
    hide Sent, Stored, Statementwise, Commits;
    SentIsPrefix(c, rows, policy, start);
    var begin := Begin(c.replies(|start|));
    var log1 := if c.transaction then start + [begin] else start;
    TracksStatements(c, log1, policy, rows);
    var p := Statementwise(c, rows, policy, log1);
    StatusIs(c, rows, policy, log1);
    CloseAdds(c, p.status, p.log, |log1|);
    var o := Run(c, rows, policy, start);
    if c.transaction {
      assert (start + [begin])[|start|] == begin;
      if c.replies(|start|) || !c.connThrows {
        assert o.log[|start|] == begin;
        SentSkip(o.log, |start|);
        assert o.log[|p.log|] == if p.status == Going then Commit(c.replies(|p.log|)) else Rollback(c.replies(|p.log|));
      }
    }
  }

  // A transaction opens with START TRANSACTION and, unless that throws, its last command is COMMIT
  // or ROLLBACK: ROLLBACK whenever a row was not stored and whenever the call throws.
  lemma EveryPathEnds<S>(c: Config<S>, rows: seq<Row>, policy: S, start: seq<Event>)
    requires rows != [] && c.transaction
    ensures var o := Run(c, rows, policy, start);
      && |o.log| > |start| && o.log[|start|] == Begin(c.replies(|start|))
      && if !c.replies(|start|) && c.connThrows then o.log == start + [Begin(false)] && o.thrown
         else
           var last := o.log[|o.log| - 1];
           && (last.Commit? || last.Rollback?)
           && (Stored(o.log, |start|) != rows || o.thrown ==> last.Rollback?)
  {
    SentIsPrefix(c, rows, policy, start);
    var log1 := start + [Begin(c.replies(|start|))];
    TracksStatements(c, log1, policy, rows);
    var p := Statementwise(c, rows, policy, log1);
    CloseAdds(c, p.status, p.log, |log1|);
  }
}
