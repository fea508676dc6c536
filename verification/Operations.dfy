/** The operation object: commands queued and laid out in a buffer, a reply consumed chunk by chunk. */
module Operations {
  import opened Bytes
  import opened Options
  import opened Values
  import opened ReadMachine
  import opened WireFormat
  import opened Buffers

  /** For each item an empty object, and its reads between entering and leaving that object. */
  method QueueItems(list: Ref, n: nat, item: seq<ReadOp>) returns (children: seq<Value>, ops: seq<ReadOp>)
    ensures children == seq(n, _ => Obj(map[])) && ops == ItemOps(list, 0, n, item)
  {
    children, ops := [], [];
    for i := 0 to n
      invariant children == seq(i, _ => Obj(map[]))
      invariant ops + ItemOps(list, i, n, item) == ItemOps(list, 0, n, item)
    {
      children := children + [Obj(map[])];
      var enter := [Nop(Enter(Below(list, Index(i))))];
      assert ops + (enter + item + [Nop(Pop)] + ItemOps(list, i + 1, n, item)) ==
        ops + enter + item + [Nop(Pop)] + ItemOps(list, i + 1, n, item);
      ops := ops + enter + item + [Nop(Pop)];
    }
  }

  class Operation {
    var status: Status
    var readOps: seq<ReadOp>
    var stack: seq<Ref>
    var roots: seq<Value>
    var writeOps: seq<WriteOp>

    /** What `consume` works on. */
    function State(): OpState
      reads this
    {
      OpState(status, readOps, stack, roots)
    }

    constructor (ops: seq<ReadOp>)
      ensures State() == NewOperation(ops) && writeOps == []
    {
      status := Pending;
      readOps := ops;
      stack := [Ref(0, [])];
      roots := [Obj(map[])];
      writeOps := [];
    }

    // ---- reading -----------------------------------------------------------

    method Become(st: OpState)
      modifies this`status, this`readOps, this`stack, this`roots
      ensures State() == st
    {
      status, readOps, stack, roots := st.status, st.readOps, st.stack, st.roots;
    }

    /** Set aside the queued reads, queue those of every item between entering and leaving it, put the others back. */
    method ParseArray(field: string, count: string, item: seq<ReadOp>)
      modifies this`readOps, this`stack, this`roots
      ensures State() == BeginArray(old(State()), field, count, item)
    {
      var n := CountOf(Context(State()).Field(count));
      var list := Below(Top(State()), Name(field));
      var remainingOps := readOps;
      var children, ops := QueueItems(list, n, item);
      roots := Assign(roots, Top(State()), field, Arr(children));
      stack := stack + [list];
      readOps := ops + [Nop(Pop)] + remainingOps;
    }

    method ParseCollection(field: string, total: Int32)
      modifies this`readOps, this`roots
      ensures State() == BeginCollection(old(State()), field, total)
    {
      var remainingOps := readOps;
      readOps := [];
      roots := Assign(roots, Top(State()), field, Arr([]));
      for i := 0 to CountOf(Num(total))
        invariant readOps == seq(i, _ => ReadRecord(field))
        invariant stack == old(stack) && roots == Assign(old(roots), Top(old(State())), field, Arr([]))
      {
        readOps := readOps + [ReadRecord(field)];
      }
      readOps := readOps + remainingOps;
    }

    /** Shift one read and run it, or put it back when its bytes are not there yet. */
    method ShiftAndRun(buffer: seq<Byte>, offset: nat) returns (used: nat, stop: Option<Outcome>)
      requires offset <= |buffer| && readOps != []
      modifies this`status, this`readOps, this`stack, this`roots
      ensures match Step(old(State()), buffer[offset..])
        case Wait => stop == Some(Waiting) && used == 0 && State() == old(State())
        case Next(next, n) => stop == None && used == n && State() == next
        case Stop(last, push) => stop == Some(Pushed(push)) && used == 0 && State() == last
    {
      hide AfterRead, Perform, BeginRecord, BeginResult, BeginError, BeginArray, BeginCollection, ReadValue, CanRead, ReadSize, PushResult;
      var item := readOps[0];
      readOps := readOps[1..];
      assert [item] + readOps == old(readOps);
      used, stop := 0, None;
      match item {
        case Nop(act) => Become(Perform(State(), act));
        case Finish(kind) =>
          stop := Some(Pushed(PushResult(State(), kind)));
          status := Pending;
        case Read(kind, field, after) =>
          if CanRead(kind, buffer[offset..]) {
            used := ReadSize(kind, buffer[offset..]);
            Become(SetField(State(), field, ReadValue(kind, buffer[offset..])));
            Become(AfterRead(State(), field, after));
          } else {
            stop := Some(Waiting);
          }
        case ReadArray(field, count, list) => ParseArray(field, count, list);
        case ReadRecord(field) =>
          if |buffer| >= offset + 2 {
            Become(BeginRecord(State(), field));
          } else {
            stop := Some(Waiting);
          }
        case ReadCollection(field) =>
          if |buffer| >= offset + 4 {
            used := 4;
            ParseCollection(field, ReadInt32(buffer[offset..]));
          } else {
            stop := Some(Waiting);
          }
        case ReadResult(field, done) => Become(BeginResult(State(), field, done));
        case ReadError(field) => Become(BeginError(State(), field));
      }
      if stop == Some(Waiting) {
        readOps := [item] + readOps;
      }
    }

    /** Run reads until none is left, the bytes run out or a push is complete. */
    method Consume(buffer: seq<Byte>, start: nat) returns (outcome: Outcome, offset: nat)
      requires start <= |buffer|
      modifies this`status, this`readOps, this`stack, this`roots
      ensures start <= offset <= |buffer|
      ensures RunResult(State(), offset - start, outcome) == ReadMachine.Consume(old(State()), buffer[start..])
    {
      hide Weight, Step, Ending;
      offset := start;
      if status.Pending? {
        if |buffer| < offset + 1 {
          return Waiting, offset;
        }
        if buffer[offset] == 3 {
          readOps := PUSH_READS;
          stack := stack + [Ref(|roots|, [])];
          roots := roots + [Obj(map[])];
        }
        status := Reading;
      }
      if readOps == [] {
        return Complete(if stack == [] then Undefined else Load(roots, stack[0])), offset;
      }
      ghost var begun := State();
      while readOps != []
        invariant start <= offset <= |buffer|
        invariant Run(begun, buffer[start..]) == Plus(Run(State(), buffer[offset..]), offset - start)
        decreases |buffer| - offset, Weight(readOps)
      {
        StepProgress(State(), buffer[offset..]);
        var used, stop := ShiftAndRun(buffer, offset);
        assert buffer[offset..][used..] == buffer[offset + used..];
        if stop.Some? {
          return stop.value, offset;
        }
        offset := offset + used;
      }
      return Ending(State()), offset;
    }

    method Write(op: WriteOp)
      requires Writable(op) && AllWritable(writeOps)
      modifies this`writeOps
      ensures AllWritable(writeOps) && writeOps == old(writeOps) + [op]
      ensures Encodings(writeOps) == Encodings(old(writeOps)) + Encoding(op)
    {
      OneMore(writeOps, op);
      writeOps := writeOps + [op];
    }

    /** The first pass: each command gets its offset, and the sizes add up. */
    method Layout() returns (commands: seq<(WriteOp, nat)>, size: nat)
      ensures |commands| == |writeOps| && size == TotalSize(writeOps)
      ensures forall k :: 0 <= k < |writeOps| ==> commands[k] == (writeOps[k], TotalSize(writeOps[..k]))
    {
      var total := |writeOps|;
      size, commands := 0, [];
      for i := 0 to total
        invariant |commands| == i && size == TotalSize(writeOps[..i])
        invariant forall k :: 0 <= k < i ==> commands[k] == (writeOps[k], TotalSize(writeOps[..k]))
      {
        var item := writeOps[i];
        var offset := size;
        commands := commands + [(item, offset)];
        assert writeOps[..i + 1][..i] == writeOps[..i];
        size := size + Size(item);
      }
      assert writeOps[..total] == writeOps;
    }

    /**
     * The second pass lets each command write into its own window of the buffer: what comes out is the
     * encodings of the commands, one right behind the other.
     */
    method Buffer() returns (buffer: array<Byte>)
      requires AllWritable(writeOps)
      ensures fresh(buffer) && buffer[..] == Encodings(writeOps)
    {
      hide Splice, Encoding, Encodings, TotalSize, Size;
      var commands, size := Layout();
      buffer := new Byte[size](_ => 0);
      NothingWritten(writeOps);
      for i := 0 to |writeOps|
        invariant AllWritable(writeOps[..i]) && TotalSize(writeOps[..i]) <= size
        invariant buffer[..TotalSize(writeOps[..i])] == Encodings(writeOps[..i])
      {
        var (fn, offset) := commands[i];
        NextWindow(writeOps, i);
        ghost var before := buffer[..];
        WriteAt(fn, buffer, offset);
        SpliceEnd(before, offset, Encoding(fn));
      }
      assert writeOps[..|writeOps|] == writeOps;
      assert buffer[..size] == buffer[..];
    }
  }

  lemma NothingWritten(ops: seq<WriteOp>)
    ensures TotalSize(ops[..0]) == 0 && Encodings(ops[..0]) == []
  {
  }

  lemma NextWindow(ops: seq<WriteOp>, i: nat)
    requires AllWritable(ops) && i < |ops|
    ensures AllWritable(ops[..i]) && AllWritable(ops[..i + 1])
    ensures TotalSize(ops[..i + 1]) == TotalSize(ops[..i]) + Size(ops[i]) <= TotalSize(ops)
    ensures Encodings(ops[..i + 1]) == Encodings(ops[..i]) + Encoding(ops[i])
  {
    NextSize(ops, i);
    NextEncoding(ops, i);
  }

  lemma NextSize(ops: seq<WriteOp>, i: nat)
    requires i < |ops|
    ensures TotalSize(ops[..i + 1]) == TotalSize(ops[..i]) + Size(ops[i]) <= TotalSize(ops)
  {
    hide Size, TotalSize;
    SizeGrows(ops, i + 1);
    assert ops[..i + 1] == ops[..i] + [ops[i]];
    OneMoreSize(ops[..i], ops[i]);
  }

  lemma NextEncoding(ops: seq<WriteOp>, i: nat)
    requires AllWritable(ops) && i < |ops|
    ensures AllWritable(ops[..i]) && AllWritable(ops[..i + 1])
    ensures Encodings(ops[..i + 1]) == Encodings(ops[..i]) + Encoding(ops[i])
  {
    hide Encoding, Encodings, Writable;
    var front := ops[..i];
    assert ops[..i + 1] == front + [ops[i]];
    OneMore(front, ops[i]);
  }
}
