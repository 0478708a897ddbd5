/**
  The objects behind a batched insert: the connection, the transaction guarding it, the policy and
  the query whose stream the statements are built in.
 */
module BatchInsertObject {
  import opened BatchInsert

  class Connection {
    const replies: nat -> bool  // the server: does the k-th command succeed?
    const throwing: bool        // throw_exceptions()
    var sent: nat
    ghost var log: seq<Event>

    ghost predicate Valid()
      reads this
    {
      sent == |log|
    }

    constructor (replies: nat -> bool, throwing: bool)
      ensures Valid() && log == [] && this.replies == replies && this.throwing == throwing
    {
      this.replies := replies;
      this.throwing := throwing;
      sent := 0;
      log := [];
    }
  }

  // START TRANSACTION in the constructor, ROLLBACK in the destructor unless finished.
  class Transaction {
    const conn: Connection
    var finished: bool

    constructor (conn: Connection)
      ensures this.conn == conn && finished
    {
      this.conn := conn;
      finished := true;
    }

    // The rest of the C++ constructor, which may throw.
    method Begin() returns (thrown: bool)
      requires conn.Valid()
      modifies this, conn
      ensures conn.Valid()
      ensures var ok := conn.replies(|old(conn.log)|);
        && conn.log == old(conn.log) + [Event.Begin(ok)]
        && thrown == (!ok && conn.throwing) && finished == (thrown && old(finished))
    {
      var ok := conn.replies(conn.sent);
      conn.log := conn.log + [Event.Begin(ok)];
      conn.sent := conn.sent + 1;
      thrown := !ok && conn.throwing;
      if !thrown { finished := false; }
    }

    method Commit() returns (thrown: bool)
      requires conn.Valid()
      modifies this, conn
      ensures conn.Valid()
      ensures var ok := conn.replies(|old(conn.log)|);
        && conn.log == old(conn.log) + [Event.Commit(ok)]
        && thrown == (!ok && conn.throwing) && finished == (!thrown || old(finished))
    {
      var ok := conn.replies(conn.sent);
      conn.log := conn.log + [Event.Commit(ok)];
      conn.sent := conn.sent + 1;
      thrown := !ok && conn.throwing;
      if !thrown { finished := true; }
    }

    method Rollback() returns (thrown: bool)
      requires conn.Valid()
      modifies this, conn
      ensures conn.Valid()
      ensures var ok := conn.replies(|old(conn.log)|);
        && conn.log == old(conn.log) + [Event.Rollback(ok)]
        && thrown == (!ok && conn.throwing) && finished == (!thrown || old(finished))
    {
      var ok := conn.replies(conn.sent);
      conn.log := conn.log + [Event.Rollback(ok)];
      conn.sent := conn.sent + 1;
      thrown := !ok && conn.throwing;
      if !thrown { finished := true; }
    }

    // The destructor: what rollback throws is swallowed.
    method Destroy()
      requires conn.Valid()
      modifies this, conn
      ensures conn.Valid()
      ensures conn.log == if old(finished) then old(conn.log)
                          else old(conn.log) + [Event.Rollback(conn.replies(|old(conn.log)|))]
    {
      if !finished {
        var _ := Rollback();
      }
    }
  }

  class InsertPolicy<S> {
    const rule: CanAdd<S>
    var state: S

    constructor (rule: CanAdd<S>, state: S)
      ensures this.rule == rule && this.state == state
    {
      this.rule := rule;
      this.state := state;
    }

    method CanAdd(size: int, row: Row) returns (fits: bool)
      modifies this
      ensures (fits, state) == rule(old(state), size, row)
    {
      var (answer, next) := rule(state, size, row);
      fits, state := answer, next;
    }
  }

  // A row that follows a failure changes nothing.
  lemma {:induction false} Stuck<S>(c: Config<S>, p: Progress<S>, rows: seq<Row>, i: nat)
    requires i <= |rows| && AllRows(c, p, rows[..i]).status != Going
    ensures AllRows(c, p, rows) == AllRows(c, p, rows[..i])
    decreases |rows|
  {
    if i < |rows| {
      var n := |rows| - 1;
      assert rows[..n][..i] == rows[..i];
      Stuck(c, p, rows[..n], i);
    } else {
      assert rows[..i] == rows;
    }
  }

  class Query {
    const conn: Connection
    const throwing: bool
    var buffer: string
    ghost var batch: seq<Row>  // the rows the buffer was built from

    ghost predicate Valid(verb: string)
      reads this, conn
    {
      conn.Valid() && buffer == Text(verb, batch)
    }

    constructor (conn: Connection, throwing: bool)
      ensures this.conn == conn && this.throwing == throwing
    {
      this.conn := conn;
      this.throwing := throwing;
      buffer := "";
      batch := [];
    }

    method Reset()
      modifies this
      ensures buffer == "" && batch == []
    {
      buffer := "";
      batch := [];
    }

    // exec(): the buffer is emptied on success only.
    method Exec(ghost verb: string) returns (ok: bool, thrown: bool)
      requires Valid(verb)
      modifies this, conn
      ensures Valid(verb) && ok == conn.replies(|old(conn.log)|) && thrown == (!ok && throwing)
      ensures conn.log == old(conn.log) + [Statement(old(batch), old(buffer), ok)]
      ensures batch == if ok then [] else old(batch)
    {
      ok := conn.replies(conn.sent);
      conn.log := conn.log + [Statement(batch, buffer, ok)];
      conn.sent := conn.sent + 1;
      thrown := !ok && throwing;
      if ok { Reset(); }
    }

    // The row's text: a whole statement when nothing is in the buffer, else one more value list.
    method Append(verb: string, row: Row, empty: bool)
      requires Valid(verb) && empty == (batch == [])
      modifies this
      ensures Valid(verb) && batch == old(batch) + [row]
    {
      if empty {
        buffer := First(verb, row);
      } else {
        buffer := buffer + Next(row);
      }
      assert (batch + [row])[..|batch|] == batch;
      batch := batch + [row];
    }

    // One round of the loop.
    method AddRow<S>(verb: string, row: Row, policy: InsertPolicy<S>, empty: bool, ghost c: Config<S>)
      returns (success: bool, nowEmpty: bool, thrown: bool)
      requires Valid(verb) && empty == (batch == []) && Matches(c, verb, policy)
      modifies this, conn, policy
      ensures Valid(verb) && nowEmpty == (batch == [])
      ensures Progress(StatusOf(success, thrown), policy.state, batch, conn.log) ==
        OneRow(c, Progress(Going, old(policy.state), old(batch), old(conn.log)), row)
    {
      success, nowEmpty, thrown := true, empty, false;
      var fits := policy.CanAdd(CastInt(|buffer|), row);
      if fits {
        Append(verb, row, empty);
        nowEmpty := false;
      } else {
        if !empty {
          success, thrown := Exec(verb);
          if !success { return; }
          nowEmpty := true;
        }
        fits := policy.CanAdd(CastInt(|buffer|), row);
        if fits {
          assert batch == [] && [] + [row] == [row];
          Append(verb, row, true);
          nowEmpty := false;
        } else {
          success, thrown := false, throwing;
        }
      }
    }

    // The loop over the rows.
    method FillAndSend<S>(verb: string, rows: seq<Row>, policy: InsertPolicy<S>, ghost c: Config<S>)
      returns (success: bool, empty: bool, thrown: bool)
      requires Valid(verb) && batch == [] && Matches(c, verb, policy)
      modifies this, conn, policy
      ensures Valid(verb) && empty == (batch == [])
      ensures Progress(StatusOf(success, thrown), policy.state, batch, conn.log) ==
        AllRows(c, Progress(Going, old(policy.state), [], old(conn.log)), rows)
    {
      ghost var start := Progress(Going, policy.state, [], conn.log);
      success, empty, thrown := true, true, false;
      var i := 0;
      while i < |rows| && success && !thrown
        invariant i <= |rows| && Valid(verb) && empty == (batch == [])
        invariant Progress(StatusOf(success, thrown), policy.state, batch, conn.log) == AllRows(c, start, rows[..i])
      {
        assert rows[..i + 1][..i] == rows[..i];
        success, empty, thrown := AddRow(verb, rows[i], policy, empty, c);
        i := i + 1;
      }
      if i == |rows| {
        assert rows[..i] == rows;
      } else {
        Stuck(c, start, rows, i);
      }
    }

    // insertfrom (verb INSERT) and replacefrom (verb REPLACE).
    method WriteFrom<S>(verb: string, rows: seq<Row>, policy: InsertPolicy<S>, transaction: bool)
      returns (thrown: bool)
      requires conn.Valid()
      modifies this, conn, policy
      ensures conn.Valid()
      ensures var c := Config(verb, policy.rule, transaction, throwing, conn.throwing, conn.replies);
        Outcome(conn.log, policy.state, thrown) == Run(c, rows, old(policy.state), old(conn.log))
    {
      ghost var c := Config(verb, policy.rule, transaction, throwing, conn.throwing, conn.replies);
      thrown := false;
      var success, empty := true, true;
      Reset();
      if |rows| == 0 { return; }

      var ac := new Transaction(conn);
      if transaction {
        thrown := ac.Begin();
        if thrown { return; }
      }
      ghost var log1 := conn.log;
      success, empty, thrown := FillAndSend(verb, rows, policy, c);
      if success && !thrown && !empty {
        success, thrown := Exec(verb);
      }
      assert Progress(StatusOf(success, thrown), policy.state, batch, conn.log) ==
        Statementwise(c, rows, old(policy.state), log1);
      if transaction {
        thrown := Finish(ac, success, thrown, c);
      }
    }

    // The end of the call, and the access controller leaving its scope.
    method Finish<S>(ac: Transaction, success: bool, thrownBefore: bool, ghost c: Config<S>)
      returns (thrown: bool)
      requires ac.conn == conn && conn.Valid() && !ac.finished
      requires c.transaction && c.connThrows == conn.throwing && c.replies == conn.replies
      modifies ac, conn
      ensures conn.Valid() && (conn.log, thrown) == Close(c, StatusOf(success, thrownBefore), old(conn.log))
    {
      thrown := thrownBefore;
      if !thrown {
        if success {
          thrown := ac.Commit();
        } else {
          thrown := ac.Rollback();
        }
      }
      ac.Destroy();
    }

    // The call as the run sees it.
    ghost predicate Matches<S>(c: Config<S>, verb: string, policy: InsertPolicy<S>) {
      && c.verb == verb && c.canAdd == policy.rule
      && c.queryThrows == throwing && c.replies == conn.replies
    }
  }

  function StatusOf(success: bool, thrown: bool): Status {
    if thrown then Threw else if success then Going else Failed
  }
}
