/** The connection object: operations wait in a queue, and each chunk from the socket is run against it. */
module Connections {
  import opened Bytes
  import opened Values
  import opened ReadMachine
  import opened Protocol
  import opened Requests
  import opened WireFormat
  import opened Operations

  /** An operation waiting for its reply, and the promise it settles. */
  datatype Item = Item(op: Operation, id: nat)

  ghost function Ops(items: seq<Item>): set<Operation> {
    set item | item in items :: item.op
  }

  ghost predicate Apart(items: seq<Item>) {
    forall i, j :: 0 <= i < j < |items| ==> items[i].op != items[j].op
  }

  /** The queue with the operations as they are now. */
  ghost function Snapshot(items: seq<Item>): (q: seq<Request>)
    reads Ops(items)
    ensures |q| == |items|
  {
    if items == [] then [] else
      assert items[0] in items;
      [Request(items[0].id, items[0].op.State())] + Snapshot(items[1..])
  }

  lemma {:induction false} SnapshotOfSum(items: seq<Item>, item: Item)
    ensures Snapshot(items + [item]) == Snapshot(items) + [Request(item.id, item.op.State())]
    decreases |items|
  {
    if items == [] {
      assert [item][1..] == [];
    } else {
      assert (items + [item])[1..] == items[1..] + [item];
      SnapshotOfSum(items[1..], item);
    }
  }

  /** Operations that did not change look the same in the queue. */
  twostate lemma SnapshotKept(items: seq<Item>)
    requires forall item :: item in items ==> old(allocated(item.op)) && item.op.State() == old(item.op.State())
    ensures Snapshot(items) == old(Snapshot(items))
    decreases |items|
  {
    if items != [] {
      assert items[0] in items;
      SnapshotKept(items[1..]);
    }
  }

  lemma NothingToDrive(log: seq<Event>)
    ensures Drive([], [], log) == Conn([], [], log, false)
  {
  }

  class Connection {
    var queue: seq<Item>
    var remaining: seq<Byte>
    var log: seq<Event>
    var overflow: bool
    var closing: bool
    var reconnectNow: bool
    var sent: seq<Byte>

    ghost predicate Valid()
      reads this
    {
      Apart(queue)
    }

    /** What the connection is, without the objects it is made of. */
    ghost function State(): Session
      reads this, Ops(queue)
    {
      Session(Conn(Snapshot(queue), remaining, log, overflow), closing, reconnectNow)
    }

    constructor (closing: bool)
      ensures Valid() && State() == Fresh(closing) && sent == [] && queue == []
    {
      queue, remaining, log, sent := [], [], [], [];
      overflow, reconnectNow := false, false;
      this.closing := closing;
    }

    /** Lay the operation out, write it to the socket and let it wait for its reply. */
    method SendOp(op: Operation, id: nat)
      requires Valid() && op !in Ops(queue) && AllWritable(op.writeOps)
      modifies this`queue, this`sent
      ensures Valid() && queue == old(queue) + [Item(op, id)]
      ensures op.State() == NewOperation(op.readOps) ==> State() == Requests.Next(old(State()), Send(id, op.readOps))
      ensures sent == old(sent) + Encodings(op.writeOps)
    {
      hide Encodings, Settled, Drive, Operation.State;
      var buffer := op.Buffer();
      sent := sent + buffer[..];
      assert forall item :: item in queue ==> item.op in Ops(queue);
      queue := queue + [Item(op, id)];
      SnapshotKept(old(queue));
      SnapshotOfSum(old(queue), Item(op, id));
    }

    /** Closing the database is written but not queued: its promise follows the socket, not a reply. */
    method SendCloseOp(op: Operation)
      requires Valid() && AllWritable(op.writeOps)
      modifies this`reconnectNow, this`sent
      ensures Valid() && State() == Requests.Next(old(State()), SendClose)
      ensures sent == old(sent) + Encodings(op.writeOps)
    {
      hide Encodings, Settled, Drive;
      var buffer := op.Buffer();
      reconnectNow := true;
      sent := sent + buffer[..];
      SnapshotKept(queue);
    }

    method Cancel(reason: Reason)
      requires Valid()
      modifies this`queue, this`log
      ensures Valid() && queue == [] && log == old(log) + CancelAll(old(Snapshot(queue)), reason)
      ensures RejectsEach(old(log), old(Snapshot(queue)), reason, log)
    {
      CancelRejects(Snapshot(queue), reason, log);
      while queue != []
        invariant Valid() && Ops(queue) <= old(Ops(queue))
        invariant log + CancelAll(Snapshot(queue), reason) == old(log) + CancelAll(old(Snapshot(queue)), reason)
        decreases |queue|
      {
        var item := queue[0];
        ghost var waiting := Snapshot(queue);
        assert log + ([Rejected(item.id, reason)] + CancelAll(waiting[1..], reason)) ==
          log + [Rejected(item.id, reason)] + CancelAll(waiting[1..], reason);
        queue := queue[1..];
        log := log + [Rejected(item.id, reason)];
      }
    }

    /** Nobody waits: a fresh operation looks whether the bytes are a push. */
    method ProcessIdle(buffer: seq<Byte>) returns (offset: nat, outcome: Outcome)
      requires queue == []
      modifies this`log
      ensures offset <= |buffer| && (outcome.Pushed? ==> offset > 0) && (!outcome.Pushed? ==> offset == 0 && log == old(log))
      ensures outcome.Waiting? ==> Drive([], buffer, old(log)) == Conn([], buffer, log, false)
      ensures outcome.Pushed? ==> Drive([], buffer, old(log)) == Drive([], buffer[offset..], log)
      ensures !outcome.Waiting? && !outcome.Pushed? ==> Drive([], buffer, old(log)) == Conn([], buffer, log, true)
    {
      hide ReadMachine.Consume, Weight;
      ConsumePushed(NewOperation([]), buffer);
      var op := new Operation([]);
      assert buffer[0..] == buffer;
      var end;
      outcome, end := op.Consume(buffer, 0);
      offset := 0;
      if outcome.Pushed? {
        offset := end;
        log := log + [PushEvent(outcome.push)];
      }
    }

    /** Settle the promise of an operation that is done, or put the operation back after a push. */
    method Answer(item: Item, outcome: Outcome)
      requires Apart([item] + queue) && !outcome.Waiting?
      modifies this`queue, this`log
      ensures Valid() && forall i :: i in queue ==> i in [item] + old(queue)
      ensures (Snapshot(queue), log) ==
        Report(Request(item.id, item.op.State()), old(Snapshot(queue)), old(log), outcome)
    {
      hide CancelAll, Operation.State;
      assert Apart(queue) by {
        assert forall i :: 0 <= i < |queue| ==> queue[i] == ([item] + queue)[i + 1];
      }
      assert ([item] + queue)[1..] == queue;
      match outcome
      case Complete(v) =>
        log := log + [Resolved(item.id, v)];
        SnapshotKept(queue);
      case Pushed(p) =>
        log := log + [PushEvent(p)];
        queue := [item] + queue;
        SnapshotKept(old(queue));
      case Failed(v) =>
        var error := v.Field("status").Field("error");
        if error.Truthy() {
          log := log + [Rejected(item.id, ServerError(error))];
          SnapshotKept(queue);
        } else {
          log := log + [Rejected(item.id, UnknownError(v))];
          SnapshotKept(queue);
          Cancel(UnknownError(v));
          log := log + [EmitError];
        }
    }

    /** The operation at the front consumes what it can; it leaves the queue unless it is not done. */
    method ProcessFirst(buffer: seq<Byte>, start: nat) returns (offset: nat, outcome: Outcome)
      requires Valid() && queue != [] && start <= |buffer|
      modifies this`queue, this`log, Ops(queue)
      ensures Valid() && Ops(queue) <= old(Ops(queue)) && start <= offset <= |buffer|
      ensures outcome.Waiting? ==>
        Drive(old(Snapshot(queue)), buffer[start..], old(log)) == Conn(Snapshot(queue), buffer[offset..], log, false)
      ensures !outcome.Waiting? ==>
        Drive(old(Snapshot(queue)), buffer[start..], old(log)) == Drive(Snapshot(queue), buffer[offset..], log)
      ensures outcome.Waiting? || offset > start || |queue| < |old(queue)| ||
        (|queue| == |old(queue)| && Head(Snapshot(queue)) < Head(old(Snapshot(queue))))
    {
      hide ReadMachine.Consume, Weight, Report, Operation.State;
      var item := queue[0];
      assert item in queue;
      ghost var rest := queue[1..];
      ConsumePushed(item.op.State(), buffer[start..]);
      queue := queue[1..];
      outcome, offset := item.op.Consume(buffer, start);
      SnapshotKept(rest);
      assert buffer[start..][offset - start..] == buffer[offset..];
      if outcome.Waiting? {
        queue := [item] + queue;
      } else {
        Answer(item, outcome);
      }
    }

    /** Run the queue against the buffer until an operation needs more bytes or nobody waits. */
    method Process(buffer: seq<Byte>) returns (offset: nat, outcome: Outcome)
      requires Valid() && queue != []
      modifies this`queue, this`log, Ops(queue)
      ensures Valid() && Ops(queue) <= old(Ops(queue)) && offset <= |buffer|
      ensures outcome.Waiting? ==>
        Drive(old(Snapshot(queue)), buffer, old(log)) == Conn(Snapshot(queue), buffer[offset..], log, false)
      ensures !outcome.Waiting? ==>
        (queue == [] && Drive(old(Snapshot(queue)), buffer, old(log)) == Drive([], buffer[offset..], log))
    {
      hide Drive, Head;
      offset, outcome := 0, Complete(Undefined);
      assert buffer[0..] == buffer;
      while queue != []
        invariant Valid() && Ops(queue) <= old(Ops(queue)) && offset <= |buffer| && !outcome.Waiting?
        invariant Drive(old(Snapshot(queue)), buffer, old(log)) == Drive(Snapshot(queue), buffer[offset..], log)
        decreases |buffer| - offset, |queue|, Head(Snapshot(queue))
      {
        offset, outcome := ProcessFirst(buffer, offset);
        if outcome.Waiting? {
          return;
        }
      }
    }

    /** Process the bytes kept and the new ones; keep what is left and, unless an operation waits for more, go on. */
    method HandleSocketData(data: seq<Byte>)
      requires Valid()
      modifies this`queue, this`log, this`remaining, this`overflow, Ops(queue)
      ensures Valid() && Ops(queue) <= old(Ops(queue))
      ensures State() == Requests.Next(old(State()), Data(data))
      decreases |remaining| + |data|, |queue|
    {
      hide Settled, Drive;
      var buffer := remaining + data;
      var offset, outcome;
      overflow := false;
      SnapshotKept(queue);
      if queue == [] {
        offset, outcome := ProcessIdle(buffer);
        overflow := !outcome.Waiting? && !outcome.Pushed?;
      } else {
        offset, outcome := Process(buffer);
      }
      label Processed:
      remaining := buffer[offset..];
      SnapshotKept@Processed(queue);
      NothingToDrive(log);
      if remaining != [] && !outcome.Waiting? && !overflow {
        assert remaining + [] == remaining;
        HandleSocketData([]);
      }
    }

    method HandleSocketError()
      requires Valid()
      modifies this`queue, this`log
      ensures Valid() && State() == Requests.Next(old(State()), SocketError)
      ensures queue == [] && RejectsThen(old(log), old(Snapshot(queue)), ConnectionError(2), EmitError, log)
    {
      hide RejectsThen;
      SocketEventReports(State());
      Cancel(ConnectionError(2));
      log := log + [EmitError];
    }

    method HandleSocketClose()
      requires Valid()
      modifies this`queue, this`log
      ensures Valid() && State() == Requests.Next(old(State()), SocketClose)
      ensures queue == [] && RejectsThen(old(log), old(Snapshot(queue)), ConnectionError(3), EmitClose, log)
    {
      hide RejectsThen;
      SocketEventReports(State());
      Cancel(ConnectionError(3));
      log := log + [EmitClose];
    }

    method HandleSocketEnd()
      requires Valid()
      modifies this`queue, this`log, this`reconnectNow, this`closing
      ensures Valid() && State() == Requests.Next(old(State()), SocketEnd)
      ensures old(reconnectNow || closing) ==>
        queue == old(queue) && log == old(log) + [if old(reconnectNow) then EmitReconnect else EmitClose]
      ensures !old(reconnectNow || closing) ==>
        queue == [] && RejectsThen(old(log), old(Snapshot(queue)), ConnectionError(1), EmitError, log)
    {
      hide CancelAll, RejectsThen, RejectsEach;
      SocketEventReports(State());
      if reconnectNow {
        reconnectNow := false;
        log := log + [EmitReconnect];
        SnapshotKept(queue);
      } else if closing {
        closing := false;
        log := log + [EmitClose];
        SnapshotKept(queue);
      } else {
        Cancel(ConnectionError(1));
        log := log + [EmitError];
      }
    }
  }
}
