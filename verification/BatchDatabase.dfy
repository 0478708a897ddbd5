/**
  What the database keeps of batched inserts, one call or any number of calls on one connection.
  A command that fails has no effect; START TRANSACTION commits what an open transaction holds.
 */
module BatchDatabase {
  import opened BatchInsert
  import opened InsertPolicy

  datatype Db = Db(durable: seq<Row>, pending: seq<Row>, inTransaction: bool)

  const EMPTY := Db([], [], false)

  function Effect(db: Db, e: Event): Db {
    if !e.ok then db
    else
      match e
      case Begin(_) => Db(db.durable + db.pending, [], true)
      case Statement(rows, _, _) =>
        if db.inTransaction then db.(pending := db.pending + rows) else db.(durable := db.durable + rows)
      case Commit(_) => Db(db.durable + db.pending, [], false)
      case Rollback(_) => Db(db.durable, [], false)
  }

  function After(db: Db, start: nat, log: seq<Event>): Db
    requires start <= |log|
    decreases |log|
  {
    if |log| == start then db else Effect(After(db, start, log[..|log| - 1]), log[|log| - 1])
  }

  lemma AfterOne(db: Db, start: nat, log: seq<Event>, e: Event)
    requires start <= |log|
    ensures After(db, start, log + [e]) == Effect(After(db, start, log), e)
  {
    assert (log + [e])[..|log|] == log;
  }

  lemma {:induction false} AfterSplit(db: Db, start: nat, n: nat, log: seq<Event>)
    requires start <= n <= |log|
    ensures After(db, start, log) == After(After(db, start, log[..n]), n, log)
    decreases |log|
  {
    if n < |log| {
      assert log[..|log| - 1][..n] == log[..n];
      AfterSplit(db, start, n, log[..|log| - 1]);
    } else {
      assert log[..n] == log;
    }
  }

  // ---- one call --------------------------------------------------------------------------

  function Holding(db: Db, rows: seq<Row>): Db {
    if db.inTransaction then db.(pending := db.pending + rows) else db.(durable := db.durable + rows)
  }

  // Statements inside a transaction stay pending; outside one each is durable at once.
  lemma {:induction false} AfterStatements(db: Db, start: nat, n: nat, log: seq<Event>)
    requires start <= n <= |log|
    requires forall i :: n <= i < |log| ==> log[i].Statement?
    ensures After(db, start, log) == Holding(After(db, start, log[..n]), Stored(log, n))
    decreases |log|
  {
    var d := After(db, start, log[..n]);
    if |log| == n {
      assert log[..n] == log && d.pending + [] == d.pending && d.durable + [] == d.durable;
    } else {
      var m := |log| - 1;
      AfterStatements(db, start, n, log[..m]);
      assert log[..m][..n] == log[..n];
      HoldingMore(d, Stored(log[..m], n), log[m]);
    }
  }

  lemma HoldingMore(d: Db, rows: seq<Row>, e: Event)
    requires e.Statement?
    ensures Effect(Holding(d, rows), e) == Holding(d, rows + if e.ok then e.rows else [])
  {
    assert d.pending + (rows + e.rows) == d.pending + rows + e.rows;
    assert d.durable + (rows + e.rows) == d.durable + rows + e.rows;
    assert rows + [] == rows;
  }

  // Of the closing commands only the last can have an effect.
  lemma CloseLeaves<S>(c: Config<S>, status: Status, log: seq<Event>, db: Db, start: nat)
    requires c.transaction && start <= |log|
    ensures var log2 := Close(c, status, log).0;
      |log| < |log2| && After(db, start, log2) == Effect(After(db, start, log), log2[|log2| - 1])
  {
    var ok := c.replies(|log|);
    var e := if status == Going then Commit(ok) else Rollback(ok);
    AfterOne(db, start, log, e);
    AfterOne(db, start, log + [e], Rollback(c.replies(|log + [e]|)));
  }

  lemma StatementsLeave<S>(c: Config<S>, rows: seq<Row>, policy: S, log1: seq<Event>, db: Db, start: nat)
    requires start <= |log1|
    ensures var p := Statementwise(c, rows, policy, log1);
      && start <= |log1| <= |p.log|
      && After(db, start, p.log) == Holding(After(db, start, log1), Stored(p.log, |log1|))
  {
    TracksStatements(c, log1, policy, rows);
    var p := Statementwise(c, rows, policy, log1);
    assert p.log[..|log1|] == log1;
    AfterStatements(db, start, |log1|, p.log);
  }

  // What a call with a transaction leaves of any database, open transactions included: an effect of
  // its last command alone, on what the statements put where the answer to START TRANSACTION sent it.
  lemma CallLeaves<S>(c: Config<S>, rows: seq<Row>, policy: S, start: seq<Event>, db: Db)
    requires rows != [] && c.transaction
    ensures var n, log := |start|, Run(c, rows, policy, start).log;
      && n < |log| && start <= log
      && var left, last := After(db, n, log), log[|log| - 1];
      if !c.replies(n) && c.connThrows then left == db
      else
        && (last.Commit? || last.Rollback?) && (last.Commit? ==> Stored(log, n) == rows)
        && left == Effect(Holding(Effect(db, Begin(c.replies(n))), Stored(log, n)), last)
  {
    hide After, Holding, Effect, Sent, Stored, Statementwise, Close, Commits;
    var n, begin := |start|, Begin(c.replies(|start|));
    SentIsPrefix(c, rows, policy, start);
    EveryPathEnds(c, rows, policy, start);
    AfterOne(db, n, start, begin);
    NoneAfter(db, start);
    if !c.replies(n) && c.connThrows {
      FailedEffect(db, begin);
    } else {
      var log1 := start + [begin];
      StatementsLeave(c, rows, policy, log1, db, n);
      var p := Statementwise(c, rows, policy, log1);
      CloseLeaves(c, p.status, p.log, db, n);
      StoredInCall(c, rows, policy, start);
      CommitIsLast(c, rows, policy, start);
    }
  }

  lemma NoneAfter(db: Db, log: seq<Event>)
    ensures After(db, |log|, log) == db
  {
  }

  lemma FailedEffect(db: Db, e: Event)
    requires !e.ok
    ensures Effect(db, e) == db
  {
  }

  lemma CommitIsLast<S>(c: Config<S>, rows: seq<Row>, policy: S, start: seq<Event>)
    requires rows != []
    ensures var log := Run(c, rows, policy, start).log;
      |log| > |start| && log[|log| - 1].Commit? ==> Commits(log, |start|)
  {
  }

  lemma StoredInCall<S>(c: Config<S>, rows: seq<Row>, policy: S, start: seq<Event>)
    requires rows != [] && c.transaction && (c.replies(|start|) || !c.connThrows)
    ensures var log1 := start + [Begin(c.replies(|start|))];
      Stored(Run(c, rows, policy, start).log, |start|) == Stored(Statementwise(c, rows, policy, log1).log, |log1|)
  {
    hide Statementwise;
    var log1 := start + [Begin(c.replies(|start|))];
    TracksStatements(c, log1, policy, rows);
    var p := Statementwise(c, rows, policy, log1);
    CloseAdds(c, p.status, p.log, |log1|);
    var log2 := Close(c, p.status, p.log).0;
    assert log2[|start|] == log1[|start|];
    SentSkip(log2, |start|);
  }

  // With START TRANSACTION answered, the call leaves all rows or none of them and nothing open
  // exactly if its last command succeeded; else the rows stored stay behind in an open transaction.
  lemma StoredAsAUnit<S>(c: Config<S>, rows: seq<Row>, policy: S, start: seq<Event>, db: Db)
    requires rows != [] && c.transaction && c.replies(|start|)
    ensures var n, log := |start|, Run(c, rows, policy, start).log;
      && n < |log|
      && var left, last := After(db, n, log), log[|log| - 1];
      && (left == Db(db.durable + db.pending + (if last.Commit? then rows else []), [], false) <==> last.ok)
      && (!last.ok ==> left == Db(db.durable + db.pending, Stored(log, n), true))
  {
    hide After, Stored;
    CallLeaves(c, rows, policy, start, db);
    var stored := Stored(Run(c, rows, policy, start).log, |start|);
    assert [] + stored == stored;
    assert db.durable + db.pending + [] == db.durable + db.pending;
  }

  // Without a transaction, or when START TRANSACTION fails unnoticed, each statement is durable at once.
  lemma StoredAtOnce<S>(c: Config<S>, rows: seq<Row>, policy: S, start: seq<Event>, db: Db)
    requires !c.transaction || (!c.replies(|start|) && !c.connThrows)
    requires !db.inTransaction && db.pending == []
    ensures var log := Run(c, rows, policy, start).log;
      |start| <= |log| && After(db, |start|, log) == Db(db.durable + Stored(log, |start|), [], false)
  {
    hide After, Stored;
    NoneAfter(db, start);
    if rows == [] {
      NoneStored(start);
      assert db.durable + [] == db.durable;
    } else if c.transaction {
      CallLeaves(c, rows, policy, start, db);
      var stored := Stored(Run(c, rows, policy, start).log, |start|);
      assert db.durable + stored + [] == db.durable + stored;
    } else {
      StatementsLeave(c, rows, policy, start, db, |start|);
    }
  }

  lemma NoneStored(log: seq<Event>)
    ensures Stored(log, |log|) == []
  {
  }

  // The rows of a batch whose COMMIT or ROLLBACK was refused become durable with the next START
  // TRANSACTION on the connection, whether they are the whole batch or not.
  lemma RefusedCloseStoresLater<S>(
      c: Config<S>, rows: seq<Row>, policy: S, start: seq<Event>, db: Db, next: Config<S>, more: seq<Row>, policy2: S)
    requires rows != [] && c.transaction && c.replies(|start|) && !db.inTransaction && db.pending == []
    requires var log := Run(c, rows, policy, start).log; log != [] && !log[|log| - 1].ok
    requires next.transaction && more != [] && next.replies(|Run(c, rows, policy, start).log|)
    ensures var n, log := |start|, Run(c, rows, policy, start).log;
      var log2 := Run(next, more, policy2, log).log;
      n <= |log| <= |log2| && db.durable + Stored(log, n) <= After(db, n, log2).durable
  {
    hide After, Stored, Run;
    var n, log := |start|, Run(c, rows, policy, start).log;
    StoredAsAUnit(c, rows, policy, start, db);
    CallLeaves(next, more, policy2, log, After(db, n, log));
    var log2 := Run(next, more, policy2, log).log;
    AfterSplit(db, n, |log|, log2);
    assert log2[..|log|] == log;
    assert db.durable + [] == db.durable;
  }

  // ---- any number of calls on one connection --------------------------------------------------

  datatype Call<!S> = Call(verb: string, canAdd: CanAdd<S>, queryThrows: bool, rows: seq<Row>, policy: S)

  datatype Connection = Connection(throws: bool, replies: nat -> bool)

  function ConfigOf<S>(w: Connection, call: Call<S>): Config<S> {
    Config(call.verb, call.canAdd, true, call.queryThrows, w.throws, w.replies)
  }

  function Made<S>(w: Connection, call: Call<S>, log: seq<Event>): seq<Event> {
    Run(ConfigOf(w, call), call.rows, call.policy, log).log
  }

  function AllMade<S>(w: Connection, calls: seq<Call<S>>, log: seq<Event>): (r: seq<Event>)
    ensures log <= r
  {
    if calls == [] then log
    else
      var before := AllMade(w, calls[..|calls| - 1], log);
      var last := calls[|calls| - 1];
      SentIsPrefix(ConfigOf(w, last), last.rows, last.policy, before);
      Made(w, last, before)
  }

  // START TRANSACTION did not fail unnoticed, and the closing command succeeded.
  predicate Sound<S>(w: Connection, call: Call<S>, log: seq<Event>) {
    call.rows == [] ||
    if w.replies(|log|) then var r := Made(w, call, log); r != [] && r[|r| - 1].ok else w.throws
  }

  predicate AllSound<S>(w: Connection, calls: seq<Call<S>>, log: seq<Event>) {
    calls == [] ||
    (AllSound(w, calls[..|calls| - 1], log)
     && Sound(w, calls[|calls| - 1], AllMade(w, calls[..|calls| - 1], log)))
  }

  // The calls that ended in a successful COMMIT.
  function Committed<S>(w: Connection, calls: seq<Call<S>>, log: seq<Event>): (r: seq<bool>)
    ensures |r| == |calls|
  {
    if calls == [] then []
    else
      var before := AllMade(w, calls[..|calls| - 1], log);
      var after := Made(w, calls[|calls| - 1], before);
      Committed(w, calls[..|calls| - 1], log) + [EndsInCommit(before, after)]
  }

  function RowsOf<S>(calls: seq<Call<S>>): seq<seq<Row>> {
    seq(|calls|, i requires 0 <= i < |calls| => calls[i].rows)
  }

  // Whole batches in order, some left out.
  function Chosen(batches: seq<seq<Row>>, choice: seq<bool>): seq<Row>
    requires |choice| == |batches|
  {
    if batches == [] then []
    else
      var n := |batches| - 1;
      Chosen(batches[..n], choice[..n]) + if choice[n] then batches[n] else []
  }

  ghost predicate Whole(before: seq<Row>, batches: seq<seq<Row>>, durable: seq<Row>) {
    exists choice: seq<bool> :: |choice| == |batches| && durable == before + Chosen(batches, choice)
  }

  lemma SoundLeaves<S>(w: Connection, call: Call<S>, log: seq<Event>, db: Db)
    requires Sound(w, call, log) && !db.inTransaction && db.pending == []
    ensures var r := Made(w, call, log);
      && log <= r
      && After(db, |log|, r) ==
         Db(db.durable + (if EndsInCommit(log, r) then call.rows else []), [], false)
  {
    hide After, Sound, EndsInCommit;
    RunExtends(ConfigOf(w, call), call.rows, call.policy, log);
    if call.rows == [] {
      NothingMade(w, call, log, db);
    } else if w.replies(|log|) {
      BegunLeaves(w, call, log, db);
    } else {
      LoudLeaves(w, call, log, db);
    }
  }

  lemma RunExtends<S>(c: Config<S>, rows: seq<Row>, policy: S, log: seq<Event>)
    ensures log <= Run(c, rows, policy, log).log
  {
    SentIsPrefix(c, rows, policy, log);
  }

  lemma NothingMade<S>(w: Connection, call: Call<S>, log: seq<Event>, db: Db)
    requires call.rows == [] && !db.inTransaction && db.pending == []
    ensures var r := Made(w, call, log);
      r == log && !EndsInCommit(log, r) && After(db, |log|, r) == Db(db.durable + [], [], false)
  {
    NoneAfter(db, log);
    assert db.durable + [] == db.durable;
  }

  lemma BegunLeaves<S>(w: Connection, call: Call<S>, log: seq<Event>, db: Db)
    requires call.rows != [] && w.replies(|log|) && Sound(w, call, log) && !db.inTransaction && db.pending == []
    ensures var r := Made(w, call, log);
      |log| <= |r| && After(db, |log|, r) ==
        Db(db.durable + (if EndsInCommit(log, r) then call.rows else []), [], false)
  {
    hide After, Stored, Run;
    StoredAsAUnit(ConfigOf(w, call), call.rows, call.policy, log, db);
    assert db.durable + [] == db.durable;
  }

  lemma LoudLeaves<S>(w: Connection, call: Call<S>, log: seq<Event>, db: Db)
    requires call.rows != [] && !w.replies(|log|) && Sound(w, call, log) && !db.inTransaction && db.pending == []
    ensures var r := Made(w, call, log);
      |log| <= |r| && !EndsInCommit(log, r) && After(db, |log|, r) == Db(db.durable + [], [], false)
  {
    hide After, Run;
    LoudLog(ConfigOf(w, call), call.rows, call.policy, log);
    AfterOne(db, |log|, log, Begin(false));
    NoneAfter(db, log);
    assert db.durable + [] == db.durable;
  }

  lemma LoudLog<S>(c: Config<S>, rows: seq<Row>, policy: S, log: seq<Event>)
    requires rows != [] && c.transaction && !c.replies(|log|) && c.connThrows
    ensures Run(c, rows, policy, log).log == log + [Begin(false)]
  {
  }

  predicate EndsInCommit(before: seq<Event>, after: seq<Event>) {
    |before| < |after| && after[|after| - 1] == Commit(true)
  }

  lemma ChosenMore<S>(w: Connection, calls: seq<Call<S>>, log: seq<Event>)
    requires calls != []
    ensures var n := |calls| - 1; var before := AllMade(w, calls[..n], log);
      Chosen(RowsOf(calls), Committed(w, calls, log)) ==
      Chosen(RowsOf(calls[..n]), Committed(w, calls[..n], log)) +
      if EndsInCommit(before, Made(w, calls[n], before)) then calls[n].rows else []
  {
    hide Made;
    var n := |calls| - 1;
    assert RowsOf(calls)[..n] == RowsOf(calls[..n]);
    assert Committed(w, calls, log)[..n] == Committed(w, calls[..n], log);
  }

  // Under any policies, verbs and replies: as long as every START TRANSACTION succeeds or fails loudly
  // and every closing command succeeds, exactly the committed batches are durable, and nothing is open.
  lemma {:induction false} SoundCallsLeave<S>(w: Connection, calls: seq<Call<S>>, log: seq<Event>, db: Db)
    requires AllSound(w, calls, log) && !db.inTransaction && db.pending == []
    ensures After(db, |log|, AllMade(w, calls, log)) ==
      Db(db.durable + Chosen(RowsOf(calls), Committed(w, calls, log)), [], false)
    decreases |calls|
  {
    hide After, Made, Sound;
    if calls == [] {
      NoneAfter(db, log);
      assert db.durable + [] == db.durable;
    } else {
      var n := |calls| - 1;
      var before := AllMade(w, calls[..n], log);
      SoundCallsLeave(w, calls[..n], log, db);
      ChosenMore(w, calls, log);
      hide Chosen, Committed, RowsOf;
      var kept := Chosen(RowsOf(calls[..n]), Committed(w, calls[..n], log));
      SoundLeaves(w, calls[n], before, Db(db.durable + kept, [], false));
      var r := AllMade(w, calls, log);
      AfterSplit(db, |log|, |before|, r);
      assert r[..|before|] == before;
      var rows := if EndsInCommit(before, r) then calls[n].rows else [];
      assert db.durable + (kept + rows) == db.durable + kept + rows;
    }
  }

  // ---- the exact condition ---------------------------------------------------------------------

  // What a caller may know of the server: START TRANSACTION never fails; no closing command is the
  // last of its call and fails.
  predicate Behaves<S>(w: Connection, calls: seq<Call<S>>, log: seq<Event>, begins: bool, closes: bool) {
    calls == [] ||
    var before := AllMade(w, calls[..|calls| - 1], log);
    var call := calls[|calls| - 1];
    var r := Made(w, call, before);
    && Behaves(w, calls[..|calls| - 1], log, begins, closes)
    && (call.rows != [] && begins ==> w.replies(|before|))
    && (call.rows != [] && closes && w.replies(|before|) ==> r != [] && r[|r| - 1].ok)
  }

  lemma {:induction false} BehavedIsSound<S>(
      w: Connection, calls: seq<Call<S>>, log: seq<Event>, begins: bool, closes: bool)
    requires Behaves(w, calls, log, begins, closes) && (begins || w.throws) && closes
    ensures AllSound(w, calls, log)
    decreases |calls|
  {
    if calls != [] { BehavedIsSound(w, calls[..|calls| - 1], log, begins, closes); }
  }

  ghost predicate AlwaysWhole(throws: bool, begins: bool, closes: bool) {
    forall replies: nat -> bool, calls: seq<Call<nat>> |
      Behaves(Connection(throws, replies), calls, [], begins, closes) ::
      Whole([], RowsOf(calls), After(EMPTY, 0, AllMade(Connection(throws, replies), calls, [])).durable)
  }

  // ---- batches that tear -----------------------------------------------------------------------

  const A := Row("t", "x", "1")
  const B := Row("t", "x", "2")
  const C := Row("t", "x", "3")

  // One row to a statement, from a query that throws.
  function Single(rows: seq<Row>): Call<nat> { Call("INSERT", RowCount(1), true, rows, 0) }

  lemma TornRows(c: Config<nat>, begin: Event)
    requires c.canAdd == RowCount(1) && c.replies(1)
    ensures AllRows(c, Progress(Going, 0, [], [begin]), [A, B]) ==
      Progress(Going, 1, [B], [begin, Statement([A], Text(c.verb, [A]), true)])
  {
    hide Text, OneRow, RowCount;
    var p0 := Progress(Going, 0, [], [begin]);
    var p1 := Progress(Going, 1, [A], [begin]);
    assert [] + [A] == [A];
    RowCountRow(c, 1, p0, A);
    RowCountRow(c, 1, p1, B);
    TwoRows(c, p0, A, B);
  }

  // The first statement succeeds, the second fails.
  lemma TornStatements(c: Config<nat>, begin: Event)
    requires c.canAdd == RowCount(1) && c.queryThrows && c.replies(1) && !c.replies(2) && begin.Begin?
    ensures var p := Statementwise(c, [A, B], 0, [begin]);
      p.status == Threw && |p.log| == 3 && Stored(p.log, 1) == [A]
  {
    hide Text, AllRows, RowCount, Stored;
    TornRows(c, begin);
    var first, second := Statement([A], Text(c.verb, [A]), true), Statement([B], Text(c.verb, [B]), false);
    NoneStored([begin]);
    SentOne([begin], 1, first);
    SentOne([begin] + [first], 1, second);
    assert [] + [A] == [A] && [A] + [] == [A];
    assert [begin, first] == [begin] + [first];
    assert Statementwise(c, [A, B], 0, [begin]).log == [begin] + [first] + [second];
  }

  // START TRANSACTION fails unnoticed: the first statement is durable although the call fails.
  lemma TornBatch(replies: nat -> bool)
    requires !replies(0) && replies(1) && !replies(2)
    ensures After(EMPTY, 0, AllMade(Connection(false, replies), [Single([A, B])], [])) == Db([A], [], false)
  {
    hide After, Stored;
    var w, call := Connection(false, replies), Single([A, B]);
    var c := ConfigOf(w, call);
    assert [call][..0] == [] && [] + [Begin(false)] == [Begin(false)];
    StoredAtOnce(c, [A, B], 0, [], EMPTY);
    StoredInCall(c, [A, B], 0, []);
    TornStatements(c, Begin(false));
    assert [] + [A] == [A];
  }

  // The closing ROLLBACK is refused: half the batch stays behind in an open transaction ...
  lemma LeftOpen(w: Connection)
    requires w.replies(0) && w.replies(1) && !w.replies(2) && !w.replies(3)
    ensures var log := Made(w, Single([A, B]), []);
      |log| == 4 && !log[3].ok && After(EMPTY, 0, log) == Db([], [A], true)
  {
    hide After, Stored;
    var c := ConfigOf(w, Single([A, B]));
    assert [] + [Begin(true)] == [Begin(true)];
    TornStatements(c, Begin(true));
    StoredAsAUnit(c, [A, B], 0, [], EMPTY);
    StoredInCall(c, [A, B], 0, []);
    hide Statementwise;
    assert EMPTY.durable + EMPTY.pending == [];
  }

  // ... and the next batch on the connection makes it durable.
  lemma TornLater(w: Connection)
    requires w.replies(0) && w.replies(1) && !w.replies(2) && !w.replies(3)
    requires w.replies(4) && w.replies(5) && w.replies(6)
    ensures After(EMPTY, 0, AllMade(w, [Single([A, B]), Single([C])], [])) == Db([A, C], [], false)
  {
    hide After, Made;
    var calls := [Single([A, B]), Single([C])];
    var log := Made(w, calls[0], []);
    LeftOpen(w);
    assert calls[..1] == [calls[0]] && [calls[0]][..0] == [];
    assert AllMade(w, calls[..1], []) == log;
    var log2 := AllMade(w, calls, []);
    OneRowCommitted(w, log, Db([], [A], true));
    assert [] + [A] + [C] == [A, C];
    AfterSplit(EMPTY, 0, |log|, log2);
    assert log2[..|log|] == log;
  }

  lemma OneRowCommitted(w: Connection, log: seq<Event>, db: Db)
    requires w.replies(|log|) && w.replies(|log| + 1) && w.replies(|log| + 2)
    ensures var r := Made(w, Single([C]), log);
      log <= r && After(db, |log|, r) == Db(db.durable + db.pending + [C], [], false)
  {
    hide After, Text, CastInt;
    var c := ConfigOf(w, Single([C]));
    var log1 := log + [Begin(true)];
    var p0 := Progress(Going, 0, [], log1);
    assert [C][..0] == [] && [] + [C] == [C];
    hide OneRow, RowCount;
    RowCountRow(c, 1, p0, C);
    assert AllRows(c, p0, [C]) == Progress(Going, 1, [C], log1);
    StoredAsAUnit(c, [C], 0, log, db);
    SentIsPrefix(c, [C], 0, log);
  }

  // Every batch stays whole, in every sequence of calls, exactly if no START TRANSACTION can fail
  // unnoticed and no closing command can be refused for good.
  lemma UnitIff(throws: bool, begins: bool, closes: bool)
    ensures AlwaysWhole(throws, begins, closes) <==> (begins || throws) && closes
  {
    if (begins || throws) && closes {
      forall replies: nat -> bool, calls: seq<Call<nat>> |
        Behaves(Connection(throws, replies), calls, [], begins, closes)
        ensures Whole([], RowsOf(calls), After(EMPTY, 0, AllMade(Connection(throws, replies), calls, [])).durable)
      {
        var w := Connection(throws, replies);
        BehavedIsSound(w, calls, [], begins, closes);
        SoundCallsLeave(w, calls, [], EMPTY);
      }
    } else if closes {
      UnnoticedTears(begins);
    } else {
      RefusedTears(throws, begins);
    }
  }

  lemma Counterexample(w: Connection, calls: seq<Call<nat>>, begins: bool, closes: bool)
    requires Behaves(w, calls, [], begins, closes)
    requires !Whole([], RowsOf(calls), After(EMPTY, 0, AllMade(w, calls, [])).durable)
    ensures !AlwaysWhole(w.throws, begins, closes)
  {
    assert w == Connection(w.throws, w.replies);
  }

  lemma UnnoticedTears(begins: bool)
    requires !begins
    ensures !AlwaysWhole(false, begins, true)
  {
    var replies := (i: nat) => i != 0 && i != 2;
    var w, calls := Connection(false, replies), [Single([A, B])];
    TornBatch(replies);
    NotWholeOne();
    assert calls[..0] == [] && RowsOf(calls) == [[A, B]];
    hide Made, Whole, After, AlwaysWhole;
    Counterexample(w, calls, begins, true);
  }

  lemma RefusedTears(throws: bool, begins: bool)
    ensures !AlwaysWhole(throws, begins, false)
  {
    hide Behaves, Whole, After, AllMade, AlwaysWhole, Chosen;
    var replies := (i: nat) => i != 2 && i != 3;
    var w, calls := Connection(throws, replies), [Single([A, B]), Single([C])];
    TornLater(w);
    NotWholeTwo();
    assert RowsOf(calls) == [[A, B], [C]];
    TornBehaves(w, begins);
    Counterexample(w, calls, begins, false);
  }

  lemma RowsDiffer()
    ensures A != B && B != C && A != C
  {
    assert A.valueList[0] == '1' && B.valueList[0] == '2' && C.valueList[0] == '3';
  }

  lemma NotWholeOne()
    ensures !Whole([], [[A, B]], [A])
  {
    forall choice: seq<bool> | |choice| == 1 ensures [A] != [] + Chosen([[A, B]], choice) {
      assert Chosen([[A, B]], choice) == if choice[0] then [A, B] else [];
    }
  }

  lemma NotWholeTwo()
    ensures !Whole([], [[A, B], [C]], [A, C])
  {
    forall choice: seq<bool> | |choice| == 2 ensures [A, C] != [] + Chosen([[A, B], [C]], choice) {
      assert [[A, B], [C]][..1] == [[A, B]];
      var first, second := if choice[0] then [A, B] else [], if choice[1] then [C] else [];
      assert Chosen([[A, B]], choice[..1]) == first;
      assert Chosen([[A, B], [C]], choice) == first + second == [] + (first + second);
      RowsDiffer();
      if choice[0] { assert (first + second)[1] == B; } else { assert |first + second| < 2; }
    }
  }

  lemma TornBehaves(w: Connection, begins: bool)
    requires w.replies(0) && w.replies(1) && !w.replies(2) && !w.replies(3) && w.replies(4)
    ensures Behaves(w, [Single([A, B]), Single([C])], [], begins, false)
  {
    LeftOpen(w);
    hide Made;
    var calls := [Single([A, B]), Single([C])];
    assert calls[..1] == [calls[0]] && [calls[0]][..0] == [];
    assert AllMade(w, calls[..1], []) == Made(w, calls[0], []);
    assert Behaves(w, calls[..1], [], begins, false);
  }
}
