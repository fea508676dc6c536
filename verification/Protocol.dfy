/** The connection as a state machine: its queue of requests, the bytes not yet used, what it has reported. */
module Protocol {
  import opened Bytes
  import opened Values
  import opened ReadMachine
  import opened Chunks

  /** An operation in the queue with the promise it settles. */
  datatype Request = Request(id: nat, op: OpState)

  datatype Reason = ServerError(error: Value) | UnknownError(result: Value) | ConnectionError(code: nat)

  datatype Event =
    | Resolved(id: nat, result: Value)
    | Rejected(id: nat, reason: Reason)
    | UpdateConfig(hosts: Value)
    | LiveQueryResult(result: Value)
    | LiveQueryEnd(monitor: Value)
    | EmitError
    | EmitClose
    | EmitReconnect

  /** `overflow`: the last chunk made `handleSocketData` call itself without end. */
  datatype Conn = Conn(queue: seq<Request>, remaining: seq<Byte>, log: seq<Event>, overflow: bool)

  function PushEvent(p: Push): Event {
    match p
    case Config(hosts) => UpdateConfig(hosts)
    case LiveResult(result) => LiveQueryResult(result)
    case LiveEnd(monitor) => LiveQueryEnd(monitor)
  }

  /** `cancel`: every queued request is rejected, in order. */
  function CancelAll(queue: seq<Request>, reason: Reason): seq<Event> {
    if queue == [] then [] else [Rejected(queue[0].id, reason)] + CancelAll(queue[1..], reason)
  }

  // ---- pushes take bytes or leave lighter work ---------------------------

  lemma {:induction false} RunPushed(st: OpState, b: seq<Byte>)
    ensures var r := Run(st, b);
      r.outcome.Pushed? ==> r.used > 0 || Weight(r.state.readOps) < Weight(st.readOps)
    decreases |b|, Weight(st.readOps)
  {
    hide Step, Weight;
    if st.readOps != [] {
      StepProgress(st, b);
      var t := Step(st, b);
      if t.Next? {
        RunPushed(t.state, b[t.used..]);
      }
    }
  }

  /** A push announced by the byte 3 has at least that byte. */
  lemma PushHasBytes(st: OpState, b: seq<Byte>)
    requires st.readOps == PUSH_READS
    ensures Run(st, b).outcome.Pushed? ==> Run(st, b).used > 0
  {
    hide Weight, AfterRead, SetField, ReadValue;
    StepProgress(st, b);
  }

  lemma ConsumePushed(st: OpState, b: seq<Byte>)
    ensures var r := Consume(st, b);
      r.outcome.Pushed? ==> r.used > 0 || (st.readOps != [] && Weight(r.state.readOps) < Weight(st.readOps))
  {
    hide Run, Weight;
    assert Weight([]) == 0 by { UnitWeights([]); }
    if b != [] || st.status.Reading? {
      var started := if st.status.Pending? then Start(st, b[0]) else st;
      RunPushed(started, b);
      if started.readOps == PUSH_READS {
        PushHasBytes(started, b);
      }
    }
  }

  function Head(queue: seq<Request>): nat {
    if queue == [] then 0 else Weight(queue[0].op.readOps)
  }

  /** Who still waits and what was reported once the first request's operation stopped with an outcome. */
  function Report(head: Request, waiting: seq<Request>, log: seq<Event>, outcome: Outcome): (r: (seq<Request>, seq<Event>))
    requires !outcome.Waiting?
    ensures outcome.Pushed? ==> r.0 == [head] + waiting
    ensures !outcome.Pushed? ==> |r.0| <= |waiting|
  {
    match outcome
    case Complete(v) => (waiting, log + [Resolved(head.id, v)])
    case Pushed(p) => ([head] + waiting, log + [PushEvent(p)])
    case Failed(v) =>
      var error := v.Field("status").Field("error");
      if error.Truthy() then (waiting, log + [Rejected(head.id, ServerError(error))])
      else ([], log + [Rejected(head.id, UnknownError(v))] + CancelAll(waiting, UnknownError(v)) + [EmitError])
  }

  /**
   * `handleSocketData` on all unused bytes: `process` and, while it gets somewhere, itself again.
   * With nobody waiting a fresh operation looks for a push; bytes that are none, and the error of a live query, make
   * no progress.
   */
  function Drive(queue: seq<Request>, b: seq<Byte>, log: seq<Event>): Conn
    decreases |b|, |queue|, Head(queue)
  {
    if queue == [] then
      var r := Consume(NewOperation([]), b);
      ConsumePushed(NewOperation([]), b);
      match r.outcome
      case Waiting => Conn([], b, log, false)
      case Pushed(p) => Drive([], b[r.used..], log + [PushEvent(p)])
      case _ => Conn([], b, log, true)
    else
      var r := Consume(queue[0].op, b);
      var head := queue[0].(op := r.state);
      ConsumePushed(queue[0].op, b);
      if r.outcome.Waiting? then Conn([head] + queue[1..], b[r.used..], log, false)
      else
        var (waiting, reported) := Report(head, queue[1..], log, r.outcome);
        Drive(waiting, b[r.used..], reported)
  }

  function Feed(c: Conn, data: seq<Byte>): Conn {
    Drive(c.queue, c.remaining + data, c.log)
  }

  function FeedAll(c: Conn, chunks: seq<seq<Byte>>): Conn
    decreases |chunks|
  {
    if chunks == [] then c else FeedAll(Feed(c, chunks[0]), chunks[1..])
  }

  function Concat(chunks: seq<seq<Byte>>): seq<Byte>
    decreases |chunks|
  {
    if chunks == [] then [] else chunks[0] + Concat(chunks[1..])
  }

  // ---- chunk independence ------------------------------------------------

  lemma {:induction false} DriveInTwo(queue: seq<Request>, b: seq<Byte>, log: seq<Event>, more: seq<Byte>)
    ensures var d := Drive(queue, b, log); Drive(d.queue, d.remaining + more, d.log) == Drive(queue, b + more, log)
    decreases |b|, |queue|, Head(queue)
  {
    hide Consume, Weight, Report;
    var st := if queue == [] then NewOperation([]) else queue[0].op;
    var r := Consume(st, b);
    ConsumePushed(st, b);
    ConsumeInTwo(st, b, more);
    var rest := b[r.used..];
    if r.outcome.Waiting? {
      if queue != [] {
        var head := queue[0].(op := r.state);
        var r2 := Consume(head.op, rest + more);
        assert (b + more)[r.used + r2.used..] == (rest + more)[r2.used..];
        assert ([head] + queue[1..])[1..] == queue[1..];
      }
    } else {
      assert (b + more)[r.used..] == rest + more;
      if queue == [] {
        if r.outcome.Pushed? {
          DriveInTwo([], rest, log + [PushEvent(r.outcome.push)], more);
        }
      } else {
        var (waiting, reported) := Report(queue[0].(op := r.state), queue[1..], log, r.outcome);
        DriveInTwo(waiting, rest, reported, more);
      }
    }
  }

  /** Two chunks, whatever the bytes and wherever the cut, leave the connection as one chunk does. */
  lemma FeedInTwo(c: Conn, x: seq<Byte>, y: seq<Byte>)
    ensures Feed(Feed(c, x), y) == Feed(c, x + y)
  {
    DriveInTwo(c.queue, c.remaining + x, c.log, y);
    assert c.remaining + x + y == c.remaining + (x + y);
  }

  /** Any number of chunks leave the connection as one chunk does: same queue, same reports, same bytes kept. */
  lemma {:induction false} ChunkIndependence(c: Conn, chunks: seq<seq<Byte>>)
    requires chunks != []
    ensures FeedAll(c, chunks) == Feed(c, Concat(chunks))
    decreases |chunks|
  {
    hide Feed;
    if |chunks| == 1 {
      assert chunks[0] + [] == chunks[0];
    } else {
      ChunkIndependence(Feed(c, chunks[0]), chunks[1..]);
      FeedInTwo(c, chunks[0], Concat(chunks[1..]));
    }
  }
}
