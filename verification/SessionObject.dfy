/**
  session_iface and controler_wrap as they are written, with the calls run to
  the end: `close`, `handle_error`, `set_connected`, `post_request` and
  `handle_wrap`.  Each is proved to be the corresponding row of actions of the
  step machine.  What the message parser and the handler answer are parameters.
 */
module SessionObject {
  import opened Session

  // A task_info without the history the machine keeps about it.
  datatype TaskInfo = CloseInfo | MessageInfo(compkey: nat)

  function InfoOf(t: Task): TaskInfo {
    match t
    case CloseTask(_) => CloseInfo
    case Message(k, _) => MessageInfo(k)
  }

  // close() when it wins: a closed socket, a new key, one close task posted.
  function Closed(s: Session): (t: Session)
    requires Enabled(s, BeginClose)
    ensures t == s.(state := NoConnection, key := (s.key + 1) % KEY_MOD, gen := s.gen + 1,
      queue := Queued(s, CloseTask(s.gen)), closePosts := s.closePosts + [s.gen],
      worker := if s.worker == InClose then Ready else s.worker)
  {
    Apply(Apply(Apply(Apply(s, BeginClose), Clear), Bump), PostClose)
  }

  // handle_error(key) on any thread.
  function ErrorClosed(s: Session, key: nat): Session {
    if s.key == key && s.state == Connected && s.closer == Nobody then Closed(s) else s
  }

  // handle_error run by the worker from its comparison on.
  function Errored(s: Session): (t: Session)
    requires s.worker.Failing? && s.closer == Nobody
    ensures t == ErrorClosed(s, s.worker.key).(worker := Ready)
  {
    var c := Apply(s, CheckError);
    if c.worker == Ready then c
    else
      var w := Apply(c, WorkerClose);
      if w.worker == Ready then w else Apply(Apply(Apply(w, Clear), Bump), PostClose)
  }

  // One message task from its comparison to the end, the oracles answering as given.
  function Handled(s: Session, ok: bool, c: Confirm): (t: Session)
    requires s.worker.Comparing? && s.closer == Nobody
    ensures t.worker == Ready
  {
    var h := Apply(s, Compare);
    if h.worker == Ready then h
    else
      var r := Apply(h, Handle(ok));
      if r.worker.Failing? then Errored(r)
      else
        var p := Apply(r, Repost(c));
        if p.worker.Failing? then Errored(p) else p
  }

  // What post_request is given: no message, or one the parser judges.
  datatype Request = NoMessage | Data(c: Confirm)

  // post_request on any thread: a malformed message is an error, an incomplete one is dropped.
  function Posted(s: Session, key: nat, conn: nat, r: Request): Session {
    match r
    case NoMessage => s.(queue := Queued(s, CloseTask(conn)))
    case Data(Complete) => s.(queue := Queued(s, Message(key, conn)))
    case Data(Short) => s
    case Data(Malformed) => ErrorClosed(s, key)
  }

  lemma HandledIs(s: Session, ok: bool, c: Confirm)
    requires s.worker.Comparing? && s.closer == Nobody
    ensures Handled(s, ok, c) ==
      var w := s.worker;
      if s.key != w.key then Apply(s, Compare)
      else
        var h := Apply(Apply(s, Compare), Handle(ok));
        (if ok then Posted(h, w.key, w.conn, Data(c)) else ErrorClosed(h, w.key)).(worker := Ready)
  {
    hide Errored, ErrorClosed;
    if s.key == s.worker.key {
      var h := Apply(Apply(s, Compare), Handle(ok));
      ErrorFree(h, h.worker.key, Failing(h.worker.key, h.worker.conn));
    }
  }

  // What an error does to the rest does not depend on what the worker is at.
  lemma ErrorFree(s: Session, key: nat, w: Worker)
    ensures ErrorClosed(s.(worker := w), key).(worker := Ready) == ErrorClosed(s, key).(worker := Ready)
  {
    hide Closed;
  }

  class SessionIface {
    var state: SocketState
    var compkey: nat
    var posted: seq<TaskInfo>     // handed to the dispatcher and still queued
    var accepting: bool           // the dispatcher's state

    ghost predicate Shows(s: Session)
      reads this
    {
      state == s.state && compkey == s.key && accepting == s.accepting && |posted| == |s.queue|
      && forall i :: 0 <= i < |posted| ==> posted[i] == InfoOf(s.queue[i])
    }

    constructor ()
      ensures Shows(Init())
    {
      state, compkey, posted, accepting := NoConnection, 0, [], true;
    }

    method SetConnected(ghost s: Session) returns (ghost t: Session)
      requires Shows(s) && Enabled(s, Connect)
      modifies this`state
      ensures state == Connected
      ensures t == Apply(s, Connect) && Shows(t)
    {
      state := Connected;
      t := Apply(s, Connect);
    }

    // dispatch, whose answer is not looked at.
    method Dispatch(info: TaskInfo)
      modifies this`posted
      ensures posted == if accepting then old(posted) + [info] else old(posted)
    {
      if accepting { posted := posted + [info]; }
    }

    // What a close leaves: the socket closed, the next key, a close task queued unless refused.
    twostate predicate ClosedNow()
      reads this
    {
      && state == NoConnection && compkey == (old(compkey) + 1) % KEY_MOD && accepting == old(accepting)
      && posted == old(posted) + if accepting then [CloseInfo] else []
    }

    twostate predicate Unchanged()
      reads this
    {
      state == old(state) && compkey == old(compkey) && accepting == old(accepting) && posted == old(posted)
    }

    // close(): nothing unless connected.
    method Close(ghost s: Session) returns (ghost t: Session)
      requires Shows(s) && s.closer == Nobody
      modifies this
      ensures if old(state) == Connected then ClosedNow() else Unchanged()
      ensures t == (if Enabled(s, BeginClose) then Closed(s) else s) && Shows(t)
      decreases 1
    {
      if state != Connected {
        return s;
      }
      state := Closing;
      state := NoConnection;
      compkey := (compkey + 1) % KEY_MOD;
      t := Apply(Apply(Apply(s, BeginClose), Clear), Bump);
      ghost var _ := PostRequest(0, NoMessage, s.gen, t);
      t := Apply(t, PostClose);
    }

    // handle_error: close only while the key is still current.
    method HandleError(key: nat, ghost s: Session) returns (ghost t: Session)
      requires Shows(s) && s.closer == Nobody
      modifies this
      ensures if key == old(compkey) && old(state) == Connected then ClosedNow() else Unchanged()
      ensures t == ErrorClosed(s, key) && Shows(t)
      decreases 2
    {
      if compkey == key {
        t := Close(s);
      } else {
        t := s;
      }
    }

    // controler_wrap::post_request, called by close, by process_recv and by handle_wrap.
    method PostRequest(key: nat, r: Request, ghost conn: nat, ghost s: Session) returns (ghost t: Session)
      requires Shows(s) && (r.Data? ==> s.closer == Nobody)
      modifies this
      ensures t == Posted(s, key, conn, r) && Shows(t)
      ensures !(r == Data(Malformed)) ==>
        && state == old(state) && compkey == old(compkey) && accepting == old(accepting)
        && posted == old(posted) +
             if r == Data(Short) || !accepting then [] else if r.NoMessage? then [CloseInfo] else [MessageInfo(key)]
      ensures r == Data(Malformed) ==>
        if key == old(compkey) && old(state) == Connected then ClosedNow() else Unchanged()
      decreases if r.Data? then 3 else 0
    {
      t := Posted(s, key, conn, r);
      match r {
        case NoMessage => Dispatch(CloseInfo);
        case Data(Complete) => Dispatch(MessageInfo(key));
        case Data(Short) =>
        case Data(Malformed) => t := HandleError(key, s);
      }
    }

    // process_recv behind its lock on m_close_mutex: data is posted only while connected.
    method ProcessRecv(c: Confirm, ghost s: Session) returns (ghost t: Session)
      requires Shows(s) && s.closer == Nobody
      modifies this
      ensures Shows(t)
      ensures if old(state) != Connected || c == Short then Unchanged()
              else if c == Malformed then ClosedNow()
              else
                && state == old(state) && compkey == old(compkey) && accepting == old(accepting)
                && posted == old(posted) + if accepting then [MessageInfo(compkey)] else []
      ensures t == if s.state != Connected then s
                   else match c
                        case Complete => Apply(s, Receive)
                        case Short => s
                        case Malformed => Closed(s)
    {
      if state != Connected {
        return s;
      }
      t := PostRequest(compkey, Data(c), s.gen, s);
    }

    // controler_wrap::handle_wrap for the task at the head of the queue.
    method HandleWrap(ok: bool, c: Confirm, ghost s: Session) returns (ghost t: Session)
      requires Shows(s) && s.closer == Nobody && Enabled(s, Take)
      modifies this
      ensures accepting == old(accepting)
      ensures var info, rest, current := old(posted)[0], old(posted)[1..], old(state) == Connected;
        if info == CloseInfo || info.compkey != old(compkey) || (ok && c != Malformed) || !current then
          && state == old(state) && compkey == old(compkey)
          && posted == rest +
               if accepting && info == MessageInfo(old(compkey)) && ok && c == Complete then [info] else []
        else
          && state == NoConnection && compkey == (old(compkey) + 1) % KEY_MOD
          && posted == rest + if accepting then [CloseInfo] else []
      ensures t.worker == Ready && Shows(t)
      ensures var taken := Apply(s, Take);
        t == if taken.worker.InDoClose? then Apply(taken, DoClose) else Handled(taken, ok, c)
    {
      hide Handled, Posted, ErrorClosed;
      var info := posted[0];
      posted := posted[1..];
      ghost var taken := Apply(s, Take);
      if taken.worker.Comparing? { HandledIs(taken, ok, c); }
      if info == CloseInfo {
        return Apply(taken, DoClose);
      }
      if compkey != info.compkey {
        return Apply(taken, Compare);
      }
      ghost var h := Apply(Apply(taken, Compare), Handle(ok));
      if !ok {
        t := HandleError(info.compkey, h);
      } else {
        t := PostRequest(info.compkey, Data(c), taken.worker.conn, h);
      }
      t := t.(worker := Ready);
    }

    // The dispatcher begins to stop.
    method Stop(ghost s: Session) returns (ghost t: Session)
      requires Shows(s) && Enabled(s, Shut)
      modifies this`accepting
      ensures t == Apply(s, Shut) && Shows(t)
    {
      accepting := false;
      t := Apply(s, Shut);
    }
  }
}
