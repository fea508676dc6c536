/** Every run of a connection: who is answered, in which order, and what a broken socket leaves behind. */
module Requests {
  import opened Bytes
  import opened ReadMachine
  import opened Protocol
  import opened Sequences

  function QueueIds(queue: seq<Request>): seq<nat> {
    if queue == [] then [] else [queue[0].id] + QueueIds(queue[1..])
  }

  /** The requests whose promise was settled, in the order of settling. */
  function Settled(log: seq<Event>): seq<nat> {
    if log == [] then []
    else
      match log[0]
      case Resolved(id, _) => [id] + Settled(log[1..])
      case Rejected(id, _) => [id] + Settled(log[1..])
      case _ => Settled(log[1..])
  }

  lemma {:induction false} SettledOfSum(s: seq<Event>, t: seq<Event>)
    ensures Settled(s + t) == Settled(s) + Settled(t)
    decreases |s|
  {
    if s == [] {
      assert s + t == t;
    } else {
      assert (s + t)[0] == s[0] && (s + t)[1..] == s[1..] + t;
      SettledOfSum(s[1..], t);
    }
  }

  lemma SettledOne(log: seq<Event>, e: Event)
    ensures Settled(log + [e]) ==
      Settled(log) + (if e.Resolved? || e.Rejected? then [e.id] else [])
  {
    SettledOfSum(log, [e]);
    assert [e][1..] == [];
  }

  lemma {:induction false} CancelSettlesAll(queue: seq<Request>, reason: Reason)
    ensures Settled(CancelAll(queue, reason)) == QueueIds(queue)
    decreases |queue|
  {
    if queue != [] {
      CancelSettlesAll(queue[1..], reason);
      var all := CancelAll(queue, reason);
      assert all[0] == Rejected(queue[0].id, reason) && all[1..] == CancelAll(queue[1..], reason);
    }
  }

  lemma ReportKeepsRequests(head: Request, waiting: seq<Request>, log: seq<Event>, outcome: Outcome)
    requires !outcome.Waiting?
    ensures var (queue, reported) := Report(head, waiting, log, outcome);
      Settled(reported) + QueueIds(queue) == Settled(log) + ([head.id] + QueueIds(waiting))
  {
    hide CancelAll, Settled;
    match outcome
    case Complete(v) => SettledOne(log, Resolved(head.id, v));
    case Pushed(p) =>
      SettledOne(log, PushEvent(p));
      assert ([head] + waiting)[1..] == waiting;
    case Failed(v) =>
      SettledOne(log, Rejected(head.id, ServerError(v.Field("status").Field("error"))));
      var reason := UnknownError(v);
      var cancelled := CancelAll(waiting, reason);
      SettledOne(log, Rejected(head.id, reason));
      SettledOfSum(log + [Rejected(head.id, reason)], cancelled);
      CancelSettlesAll(waiting, reason);
      SettledOne(log + [Rejected(head.id, reason)] + cancelled, EmitError);
  }

  /** Data settles requests from the front of the queue only, each once. */
  lemma {:induction false} DriveKeepsRequests(queue: seq<Request>, b: seq<Byte>, log: seq<Event>)
    ensures var d := Drive(queue, b, log); Settled(d.log) + QueueIds(d.queue) == Settled(log) + QueueIds(queue)
    decreases |b|, |queue|, Head(queue)
  {
    hide Consume, Weight, Report, Settled;
    var st := if queue == [] then NewOperation([]) else queue[0].op;
    var r := Consume(st, b);
    ConsumePushed(st, b);
    var rest := b[r.used..];
    if queue == [] {
      if r.outcome.Pushed? {
        var e := PushEvent(r.outcome.push);
        SettledOne(log, e);
        DriveKeepsRequests([], rest, log + [e]);
      }
    } else {
      var head := queue[0].(op := r.state);
      if r.outcome.Waiting? {
        assert ([head] + queue[1..])[1..] == queue[1..];
      } else {
        ReportKeepsRequests(head, queue[1..], log, r.outcome);
        var (waiting, reported) := Report(head, queue[1..], log, r.outcome);
        DriveKeepsRequests(waiting, rest, reported);
      }
    }
  }

  // ---- runs --------------------------------------------------------------

  datatype Input =
    | Send(id: nat, ops: seq<ReadOp>)
    | SendClose
    | Data(chunk: seq<Byte>)
    | SocketError
    | SocketClose
    | SocketEnd

  /** The connection and the two flags that decide what the end of the socket means. */
  datatype Session = Session(conn: Conn, closing: bool, reconnectNow: bool)

  function Fresh(closing: bool): Session {
    Session(Conn([], [], [], false), closing, false)
  }

  function Cancelled(c: Conn, code: nat, last: Event): Conn {
    c.(queue := [], log := c.log + CancelAll(c.queue, ConnectionError(code)) + [last])
  }

  function Next(s: Session, input: Input): Session {
    match input
    case Send(id, ops) => s.(conn := s.conn.(queue := s.conn.queue + [Request(id, NewOperation(ops))]))
    case SendClose => s.(reconnectNow := true)
    case Data(chunk) => s.(conn := Feed(s.conn, chunk))
    case SocketError => s.(conn := Cancelled(s.conn, 2, EmitError))
    case SocketClose => s.(conn := Cancelled(s.conn, 3, EmitClose))
    case SocketEnd =>
      if s.reconnectNow then s.(reconnectNow := false, conn := s.conn.(log := s.conn.log + [EmitReconnect]))
      else if s.closing then s.(closing := false, conn := s.conn.(log := s.conn.log + [EmitClose]))
      else s.(conn := Cancelled(s.conn, 1, EmitError))
  }

  function RunAll(s: Session, inputs: seq<Input>): Session
    decreases |inputs|
  {
    if inputs == [] then s else RunAll(Next(s, inputs[0]), inputs[1..])
  }

  function SentIds(inputs: seq<Input>): seq<nat> {
    if inputs == [] then []
    else (if inputs[0].Send? then [inputs[0].id] else []) + SentIds(inputs[1..])
  }

  lemma {:induction false} QueueIdsOfSum(q: seq<Request>, r: seq<Request>)
    ensures QueueIds(q + r) == QueueIds(q) + QueueIds(r)
    decreases |q|
  {
    if q == [] {
      assert q + r == r;
    } else {
      assert (q + r)[0] == q[0] && (q + r)[1..] == q[1..] + r;
      QueueIdsOfSum(q[1..], r);
    }
  }

  lemma CancelledSettles(c: Conn, code: nat, last: Event)
    requires !last.Resolved? && !last.Rejected?
    ensures Settled(Cancelled(c, code, last).log) == Settled(c.log) + QueueIds(c.queue)
  {
    CancelSettlesAll(c.queue, ConnectionError(code));
    SettledOfSum(c.log, CancelAll(c.queue, ConnectionError(code)));
    SettledOne(c.log + CancelAll(c.queue, ConnectionError(code)), last);
  }

  /** One step: the settled requests and then the waiting ones are the old ones plus the one just sent. */
  lemma StepKeepsRequests(s: Session, input: Input)
    ensures var c, d := s.conn, Next(s, input).conn;
      Settled(d.log) + QueueIds(d.queue) ==
        Settled(c.log) + QueueIds(c.queue) + (if input.Send? then [input.id] else [])
  {
    hide Settled, Drive, CancelAll;
    var c := s.conn;
    match input
    case Send(id, ops) =>
      var last := [Request(id, NewOperation(ops))];
      QueueIdsOfSum(c.queue, last);
      assert QueueIds(last) == [id] by { assert last[1..] == []; }
    case SendClose =>
    case Data(chunk) => DriveKeepsRequests(c.queue, c.remaining + chunk, c.log);
    case SocketError => CancelledSettles(c, 2, EmitError);
    case SocketClose => CancelledSettles(c, 3, EmitClose);
    case SocketEnd =>
      SettledOne(c.log, EmitReconnect);
      SettledOne(c.log, EmitClose);
      CancelledSettles(c, 1, EmitError);
  }

  lemma {:induction false} RunKeepsRequests(s: Session, inputs: seq<Input>)
    ensures var c, d := s.conn, RunAll(s, inputs).conn;
      Settled(d.log) + QueueIds(d.queue) == Settled(c.log) + QueueIds(c.queue) + SentIds(inputs)
    decreases |inputs|
  {
    hide Settled, Next, QueueIds;
    if inputs != [] {
      StepKeepsRequests(s, inputs[0]);
      RunKeepsRequests(Next(s, inputs[0]), inputs[1..]);
    }
  }

  /**
   * Over every run of sends, data, errors, closes and ends: the requests settled so far, followed by those
   * still queued, are exactly the requests sent, in that order. So promises settle in the order of sending
   * and, when the requests are distinct, none settles twice or both settles and waits.
   */
  lemma RequestsSettleInOrder(closing: bool, inputs: seq<Input>)
    ensures var c := RunAll(Fresh(closing), inputs).conn;
      && Settled(c.log) + QueueIds(c.queue) == SentIds(inputs)
      && (Distinct(SentIds(inputs)) ==> Distinct(Settled(c.log) + QueueIds(c.queue)))
  {
    RunKeepsRequests(Fresh(closing), inputs);
    assert SentIds(inputs) == [] + [] + SentIds(inputs);
  }

  /** After an error or a close every request sent before has been settled. */
  lemma BrokenSocketSettlesAll(closing: bool, inputs: seq<Input>, last: Input)
    requires last.SocketError? || last.SocketClose?
    ensures var c := RunAll(Fresh(closing), inputs + [last]).conn;
      c.queue == [] && Settled(c.log) == SentIds(inputs)
  {
    hide Settled, QueueIds, CancelAll, Drive;
    RunOfSum(Fresh(closing), inputs, [last]);
    RequestsSettleInOrder(closing, inputs);
    var c := RunAll(Fresh(closing), inputs).conn;
    assert [last][1..] == [];
    CancelledSettles(c, 2, EmitError);
    CancelledSettles(c, 3, EmitClose);
  }

  lemma {:induction false} RunOfSum(s: Session, a: seq<Input>, b: seq<Input>)
    ensures RunAll(s, a + b) == RunAll(RunAll(s, a), b)
    decreases |a|
  {
    hide Next;
    if a == [] {
      assert a + b == b;
    } else {
      assert (a + b)[0] == a[0] && (a + b)[1..] == a[1..] + b;
      RunOfSum(Next(s, a[0]), a[1..], b);
    }
  }

  /**
   * The end of the socket settles everything exactly when nobody waits or it was not announced: after
   * `db-close` was sent, or while closing, the queue is left as it is and its promises stay open.
   */
  lemma EndSettlesAllIff(s: Session)
    ensures Next(s, SocketEnd).conn.queue == [] <==> s.conn.queue == [] || !(s.reconnectNow || s.closing)
    ensures Settled(Next(s, SocketEnd).conn.log) ==
      Settled(s.conn.log) + (if s.reconnectNow || s.closing then [] else QueueIds(s.conn.queue))
  {
    SettledOne(s.conn.log, EmitReconnect);
    SettledOne(s.conn.log, EmitClose);
    CancelledSettles(s.conn, 1, EmitError);
  }

  // ---- what the waiting requests are told --------------------------------

  /** One rejection for each request, in the order of the queue, behind what was reported before. */
  predicate RejectsEach(before: seq<Event>, queue: seq<Request>, reason: Reason, after: seq<Event>) {
    && |after| == |before| + |queue| && after[..|before|] == before
    && forall i :: 0 <= i < |queue| ==> after[|before| + i] == Rejected(queue[i].id, reason)
  }

  /** The same, and then one last event. */
  predicate RejectsThen(before: seq<Event>, queue: seq<Request>, reason: Reason, last: Event, after: seq<Event>) {
    |after| > 0 && after[|after| - 1] == last && RejectsEach(before, queue, reason, after[..|after| - 1])
  }

  lemma {:induction false} CancelRejects(queue: seq<Request>, reason: Reason, before: seq<Event>)
    ensures RejectsEach(before, queue, reason, before + CancelAll(queue, reason))
    decreases |queue|
  {
    if queue == [] {
      assert before + [] == before;
    } else {
      var first := Rejected(queue[0].id, reason);
      CancelRejects(queue[1..], reason, before + [first]);
      var after := before + [first] + CancelAll(queue[1..], reason);
      assert before + CancelAll(queue, reason) == after;
      assert after[..|before| + 1][..|before|] == after[..|before|];
      assert after[|before|] == first;
      forall i | 0 < i < |queue| ensures after[|before| + i] == Rejected(queue[i].id, reason) {
        assert queue[i] == queue[1..][i - 1];
        assert after[|before + [first]| + (i - 1)] == Rejected(queue[1..][i - 1].id, reason);
      }
    }
  }

  lemma CancelledRejects(c: Conn, code: nat, last: Event)
    ensures RejectsThen(c.log, c.queue, ConnectionError(code), last, Cancelled(c, code, last).log)
  {
    CancelRejects(c.queue, ConnectionError(code), c.log);
    var all := c.log + CancelAll(c.queue, ConnectionError(code));
    assert (all + [last])[..|all|] == all;
  }

  /**
   * What a socket event reports and leaves. An error, a close and an end that was not announced reject every request
   * that waits, each kind with its own code, and nobody waits any more; an end that was announced rejects nobody.
   */
  lemma SocketEventReports(s: Session)
    ensures var error := Next(s, SocketError);
      && RejectsThen(s.conn.log, s.conn.queue, ConnectionError(2), EmitError, error.conn.log)
      && error == s.(conn := s.conn.(queue := [], log := error.conn.log))
    ensures var close := Next(s, SocketClose);
      && RejectsThen(s.conn.log, s.conn.queue, ConnectionError(3), EmitClose, close.conn.log)
      && close == s.(conn := s.conn.(queue := [], log := close.conn.log))
    ensures var end := Next(s, SocketEnd);
      && (!s.reconnectNow && !s.closing ==>
            && RejectsThen(s.conn.log, s.conn.queue, ConnectionError(1), EmitError, end.conn.log)
            && end == s.(conn := s.conn.(queue := [], log := end.conn.log)))
      && (s.reconnectNow ==> end == s.(reconnectNow := false, conn := s.conn.(log := s.conn.log + [EmitReconnect])))
      && (!s.reconnectNow && s.closing ==> end == s.(closing := false, conn := s.conn.(log := s.conn.log + [EmitClose])))
  {
    hide CancelAll, RejectsThen;
    CancelledRejects(s.conn, 2, EmitError);
    CancelledRejects(s.conn, 3, EmitClose);
    CancelledRejects(s.conn, 1, EmitError);
  }

  /** An outcome with a failure that names no error rejects everybody and nobody waits any more. */
  lemma UnknownErrorRejectsAll(queue: seq<Request>, b: seq<Byte>, log: seq<Event>)
    requires queue != [] && Consume(queue[0].op, b).outcome.Failed?
    requires !Consume(queue[0].op, b).outcome.result.Field("status").Field("error").Truthy()
    ensures var r := Consume(queue[0].op, b);
      exists after :: RejectsThen(log, queue, UnknownError(r.outcome.result), EmitError, after) &&
        Drive(queue, b, log) == Drive([], b[r.used..], after)
  {
    hide CancelAll, RejectsEach, Weight, Consume;
    var r := Consume(queue[0].op, b);
    var reason := UnknownError(r.outcome.result);
    var head := queue[0].(op := r.state);
    CancelRejects(queue, reason, log);
    assert CancelAll(queue, reason) == [Rejected(queue[0].id, reason)] + CancelAll(queue[1..], reason) by { CancelFirst(queue, reason); }
    var all := log + CancelAll(queue, reason);
    assert all == log + [Rejected(queue[0].id, reason)] + CancelAll(queue[1..], reason);
    assert (all + [EmitError])[..|all|] == all;
    ConsumePushed(queue[0].op, b);
    assert Report(head, queue[1..], log, r.outcome) == ([], all + [EmitError]);
    assert RejectsThen(log, queue, reason, EmitError, all + [EmitError]);
  }

  /** The queue with the first operation gone on. */
  function Kept(queue: seq<Request>, op: OpState): seq<Request>
    requires queue != []
  {
    queue[0 := Request(queue[0].id, op)]
  }

  /** What becomes of the request in front when its operation is done, and of a push in front of it. */
  lemma FirstOutcome(queue: seq<Request>, b: seq<Byte>, log: seq<Event>)
    requires queue != []
    ensures var r, id := Consume(queue[0].op, b), queue[0].id;
      && (r.outcome.Complete? ==>
            Drive(queue, b, log) == Drive(queue[1..], b[r.used..], log + [Resolved(id, r.outcome.result)]))
      && (r.outcome.Failed? ==>
            var error := r.outcome.result.Field("status").Field("error");
            error.Truthy() ==> Drive(queue, b, log) == Drive(queue[1..], b[r.used..], log + [Rejected(id, ServerError(error))]))
      && (r.outcome.Waiting? ==> Drive(queue, b, log) == Conn(Kept(queue, r.state), b[r.used..], log, false))
    ensures var r := Consume(queue[0].op, b);
      r.outcome.Pushed? ==>
        exists e :: IsEventOf(e, r.outcome.push) && Drive(queue, b, log) == Drive(Kept(queue, r.state), b[r.used..], log + [e])
  {
    hide Consume, Weight, CancelAll;
    ConsumePushed(queue[0].op, b);
    var r := Consume(queue[0].op, b);
    assert Kept(queue, r.state) == [queue[0].(op := r.state)] + queue[1..];
    if r.outcome.Pushed? {
      assert IsEventOf(PushEvent(r.outcome.push), r.outcome.push);
    }
  }

  predicate IsEventOf(e: Event, p: Push) {
    && (p.Config? ==> e == UpdateConfig(p.hosts))
    && (p.LiveResult? ==> e == LiveQueryResult(p.result))
    && (p.LiveEnd? ==> e == LiveQueryEnd(p.monitor))
  }

  lemma CancelFirst(queue: seq<Request>, reason: Reason)
    requires queue != []
    ensures CancelAll(queue, reason) == [Rejected(queue[0].id, reason)] + CancelAll(queue[1..], reason)
  {}
}
