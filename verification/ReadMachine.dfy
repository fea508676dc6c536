/**
 * The continuation machine behind `Operation.consume`: the list of pending reads, the stack of contexts
 * and the objects being filled. The closures of the source are data here; a closure that captures the
 * reads it will restore carries them in `saved`.
 */
module ReadMachine {
  import opened Bytes
  import opened Values

  /** The reads whose size the buffer alone decides. */
  datatype Kind = ByteK | CharK | BooleanK | ShortK | IntK | LongK | BytesK | StringK | RecordIdK

  datatype ReadOp =
    | Read(kind: Kind, field: string, after: After)
    | ReadArray(field: string, count: string, item: seq<ReadOp>)
    | ReadRecord(field: string)
    | ReadCollection(field: string)
    | ReadResult(field: string, done: EventDone)
    | ReadError(field: string)
    | Nop(act: Act)
    | Finish(push: PushKind)

  /** What runs after a value has been read. */
  datatype After =
    | Plain
    | AsFlag
    | AsDocument
    | StatusNext
    | RecordClass(saved: seq<ReadOp>)
    | RecordValue(saved: seq<ReadOp>)
    | MoreErrors(error: Ref)
    | LastError
    | PushType
    | LiveStatus
    | EventType
    | ResultType(saved: seq<ReadOp>, home: Ref, field: string, done: EventDone)
    | ResultProjection(saved: seq<ReadOp>, home: Ref, field: string, done: EventDone)
    | ResultDocument(saved: seq<ReadOp>, home: Ref, field: string, done: EventDone)

  /** The reader that a live event gives to its `data` and `before` results. */
  datatype EventDone = DataDone(isUpdate: bool, saved: seq<ReadOp>) | BeforeDone(saved: seq<ReadOp>)

  /** A queued function: it reads no byte. */
  datatype Act =
    | OpenStatus(field: string)
    | Enter(target: Ref)
    | Pop
    | Idle
    | CloseRecord(saved: seq<ReadOp>)
    | CloseResult(element: Ref, home: Ref, field: string, done: EventDone)

  datatype PushKind = ConfigPush | LivePush

  datatype Status = Pending | Reading

  datatype OpState = OpState(status: Status, readOps: seq<ReadOp>, stack: seq<Ref>, roots: seq<Value>)

  datatype Push = Config(hosts: Value) | LiveResult(result: Value) | LiveEnd(monitor: Value)

  datatype Outcome = Waiting | Complete(result: Value) | Failed(result: Value) | Pushed(push: Push)

  /** The operation after a run, the bytes it took and what `consume` returns. */
  datatype RunResult = RunResult(state: OpState, used: nat, outcome: Outcome)

  /** A new operation whose `reader()` declared these reads. */
  function NewOperation(ops: seq<ReadOp>): OpState {
    OpState(Pending, ops, [Ref(0, [])], [Obj(map[])])
  }

  // ---- reading one value -------------------------------------------------

  function MinSize(kind: Kind): nat {
    match kind
    case ByteK => 1
    case CharK => 1
    case BooleanK => 1
    case ShortK => 2
    case IntK => 4
    case LongK => 8
    case BytesK => 4
    case StringK => 4
    case RecordIdK => 10
  }

  predicate CanRead(kind: Kind, b: seq<Byte>) {
    |b| >= MinSize(kind) && (kind.BytesK? || kind.StringK? ==> |b| >= 4 + ReadInt32(b))
  }

  function ReadSize(kind: Kind, b: seq<Byte>): (n: nat)
    requires CanRead(kind, b)
    ensures 0 < n <= |b|
  {
    if kind.BytesK? || kind.StringK? then
      if ReadInt32(b) > 0 then ReadInt32(b) + 4 else 4
    else
      MinSize(kind)
  }

  function ReadValue(kind: Kind, b: seq<Byte>): Value
    requires CanRead(kind, b)
  {
    match kind
    case ByteK => Num(b[0])
    case CharK => Chr(b[0])
    case BooleanK => Bool(b[0] != 0)
    case ShortK => Num(ReadInt16(b))
    case IntK => Num(ReadInt32(b))
    case LongK => Num(ReadInt64(b))
    case BytesK => if ReadInt32(b) < 0 then Null else Raw(b[4..4 + ReadInt32(b)])
    case StringK => if ReadInt32(b) < 0 then Null else Text(b[4..4 + ReadInt32(b)])
    case RecordIdK => Rid(ReadInt16(b), ReadInt64(b[2..]))
  }

  /** `deserializer.deserialize(kind, value)` */
  function Decode(kind: int, v: Value): Value {
    if v.Raw? then Decoded(kind, v.bytes) else Null
  }

  // ---- the context on top of the stack -----------------------------------

  /** With nothing on the stack there is no context: a reference to no root. */
  function Top(st: OpState): Ref {
    if st.stack == [] then Ref(|st.roots|, []) else st.stack[|st.stack| - 1]
  }

  function Context(st: OpState): Value {
    Load(st.roots, Top(st))
  }

  function SetField(st: OpState, field: string, v: Value): OpState {
    st.(roots := Assign(st.roots, Top(st), field, v))
  }

  function PopStack(st: OpState): OpState {
    if st.stack == [] then st else st.(stack := st.stack[..|st.stack| - 1])
  }

  function PushStack(st: OpState, r: Ref): OpState {
    st.(stack := st.stack + [r])
  }

  function Queue(st: OpState, ops: seq<ReadOp>): OpState {
    st.(readOps := st.readOps + ops)
  }

  // ---- closures ----------------------------------------------------------

  const STATUS_READS: seq<ReadOp> :=
    [Read(ByteK, "code", Plain), Read(IntK, "sessionId", Plain),
     Read(BytesK, "token", Plain), Read(ByteK, "op", StatusNext)]

  const DOCUMENT_READS: seq<ReadOp> :=
    [Read(CharK, "type", Plain), Read(ShortK, "cluster", Plain),
     Read(LongK, "position", Plain), Read(IntK, "version", Plain)]

  function ErrorItem(error: Ref): seq<ReadOp> {
    [Read(StringK, "type", Plain), Read(StringK, "message", Plain), Read(ByteK, "hasMore", MoreErrors(error))]
  }

  const PUSH_READS: seq<ReadOp> := [Read(ByteK, "code", Plain), Read(ByteK, "pushType", PushType)]

  const CONFIG_READS: seq<ReadOp> :=
    [Read(IntK, "hostSize", Plain), ReadArray("hosts", "hostSize", [Read(StringK, "address", Plain)]), Finish(ConfigPush)]

  const LIVE_READS: seq<ReadOp> := [Read(IntK, "monitorId", Plain), Read(ByteK, "status", LiveStatus)]

  const LIVE_ERROR_READS: seq<ReadOp> :=
    [Read(IntK, "errorIdentifier", Plain), Read(IntK, "errorCode", Plain), Read(StringK, "errorMessage", Plain)]

  const EVENT_READS: seq<ReadOp> :=
    [Read(IntK, "eventsSize", Plain), ReadArray("events", "eventsSize", [Read(ByteK, "type", EventType)]), Finish(LivePush)]

  /** What follows a record's class identifier. Below -3 nothing does: the saved reads are lost. */
  function AfterRecordClass(st: OpState, id: Value, saved: seq<ReadOp>): OpState {
    if id == Num(-1) then
      Queue(PopStack(SetField(st, "value", ProtocolError)), [Nop(Idle)] + saved)
    else if id == Num(-2) then
      Queue(PopStack(SetField(st, "value", Null)), [Nop(Idle)] + saved)
    else if id == Num(-3) then
      Queue(SetField(st, "type", Chr(100)),
            [Read(ShortK, "cluster", Plain), Read(LongK, "position", Plain), Nop(CloseRecord(saved))])
    else if id.Num? && id.n > -1 then
      Queue(st, DOCUMENT_READS + [Read(BytesK, "value", RecordValue(saved))])
    else
      st
  }

  function AfterEvent(st: OpState, home: Ref, field: string, done: EventDone): OpState {
    var roots := Assign(st.roots, home, field, Load(st.roots, home).Field(field).Field("value"));
    Queue(st.(roots := roots), if done.DataDone? && done.isUpdate then [] else done.saved)
  }

  /** The next exception of the chain goes to a new element of the first error's `previous`. */
  function AfterHasMore(st: OpState, error: Ref, more: bool): OpState {
    if more then
      var list := Load(st.roots, error).Field("previous");
      var items := if list.Arr? then list.items else [];
      var next := Below(Below(error, Name("previous")), Index(|items|));
      var roots := Assign(st.roots, error, "previous", Arr(items + [Obj(map[])]));
      Queue(PushStack(PopStack(st.(roots := roots)), next), ErrorItem(error))
    else
      Queue(st, [Read(BytesK, "javaStackTrace", LastError)])
  }

  /** Run the closure of a read; the value is already in the context's field. */
  function AfterRead(st: OpState, field: string, after: After): OpState {
    var v := Context(st).Field(field);
    match after
    case Plain => st
    case AsFlag => SetField(st, field, Bool(v.Truthy()))
    case AsDocument => SetField(st, field, Decode(3, v))
    case StatusNext =>
      if Context(st).Field("code") == Num(1) then st.(readOps := [ReadError("error")]) else PopStack(st)
    case RecordClass(saved) => AfterRecordClass(st, v, saved)
    case RecordValue(saved) => Queue(PopStack(SetField(st, field, Decode(3, v))), [Nop(Idle)] + saved)
    case MoreErrors(error) => AfterHasMore(st, error, v.Truthy())
    case LastError => Queue(st, [Nop(Pop)])
    case PushType => Queue(st, if v == Num(81) then LIVE_READS else CONFIG_READS)
    case LiveStatus => Queue(st, if v == Num(3) then LIVE_ERROR_READS else EVENT_READS)
    case EventType =>
      var update := v == Num(2);
      st.(readOps := [ReadResult("data", DataDone(update, st.readOps))] +
                     if update then [ReadResult("before", BeforeDone(st.readOps))] else [])
    case ResultType(saved, home, f, done) =>
      Queue(st, if v == Num(4) then [Read(BytesK, "value", ResultProjection(saved, home, f, done))]
                else [Read(ShortK, "t", Plain)] + DOCUMENT_READS + [Read(BytesK, "value", ResultDocument(saved, home, f, done))])
    case ResultProjection(saved, home, f, done) =>
      Queue(AfterEvent(PopStack(SetField(st, field, Decode(4, v))), home, f, done), saved)
    case ResultDocument(saved, home, f, done) =>
      Queue(PopStack(st), [Nop(CloseResult(Top(st), home, f, done))] + saved)
  }

  function Perform(st: OpState, act: Act): OpState {
    match act
    case OpenStatus(field) => PushStack(SetField(st, field, Obj(map[])), Below(Top(st), Name(field)))
    case Enter(target) => PushStack(st, target)
    case Pop => PopStack(st)
    case Idle => st
    case CloseRecord(saved) => Queue(PopStack(st), [Nop(Idle)] + saved)
    case CloseResult(element, home, f, done) =>
      var e := Load(st.roots, element);
      var kind := if e.Field("elementType").Num? then e.Field("elementType").n else 0;
      AfterEvent(st.(roots := Assign(st.roots, element, "value", Decode(kind, e.Field("value")))), home, f, done)
  }

  // ---- reads that rewrite the continuation -------------------------------

  function CountOf(v: Value): (n: nat)
    ensures n <= TWO_63
  {
    if v.Num? && v.n > 0 then v.n else 0
  }

  /** Enter item i, run its reads, leave it; then the next item. */
  function ItemOps(list: Ref, i: nat, n: nat, item: seq<ReadOp>): seq<ReadOp>
    requires i <= n
    decreases n - i
  {
    if i == n then [] else
      [Nop(Enter(Below(list, Index(i))))] + item + [Nop(Pop)] + ItemOps(list, i + 1, n, item)
  }

  function BeginArray(st: OpState, field: string, count: string, item: seq<ReadOp>): OpState {
    var n := CountOf(Context(st).Field(count));
    var list := Below(Top(st), Name(field));
    var st1 := PushStack(SetField(st, field, Arr(seq(n, _ => Obj(map[])))), list);
    st1.(readOps := ItemOps(list, 0, n, item) + [Nop(Pop)] + st.readOps)
  }

  /** Where the record goes: a new element of the list already there, or the field itself. */
  function BeginRecord(st: OpState, field: string): OpState {
    var present := Context(st).Field(field);
    var home := Below(Top(st), Name(field));
    var st1 :=
      if present.Arr? then
        PushStack(SetField(st, field, Arr(present.items + [Obj(map[])])), Below(home, Index(|present.items|)))
      else
        PushStack(SetField(st, field, Obj(map[])), home);
    st1.(readOps := [Read(ShortK, "classId", RecordClass(st.readOps))])
  }

  function BeginCollection(st: OpState, field: string, total: Int32): OpState {
    var st1 := SetField(st, field, Arr([]));
    st1.(readOps := seq(CountOf(Num(total)), _ => ReadRecord(field)) + st.readOps)
  }

  function BeginResult(st: OpState, field: string, done: EventDone): OpState {
    var st1 := PushStack(SetField(st, field, Obj(map[])), Below(Top(st), Name(field)));
    st1.(readOps := [Read(ByteK, "elementType", ResultType(st.readOps, Top(st), field, done))])
  }

  function BeginError(st: OpState, field: string): OpState {
    var error := Below(Top(st), Name(field));
    var st1 := PushStack(SetField(st, field, Obj(map["previous" := Arr([])])), error);
    st1.(readOps := [Read(IntK, "code", Plain), Read(IntK, "identifier", Plain), Read(ByteK, "id", Plain)] +
                    ErrorItem(error) + [Nop(Pop)])
  }

  function PushResult(st: OpState, kind: PushKind): Push {
    match kind
    case ConfigPush => Config(Context(st).Field("hosts"))
    case LivePush =>
      if Context(st).Field("status") == Num(1) then LiveResult(Context(st)) else LiveEnd(Context(st).Field("monitorId"))
  }

  // ---- one turn of the loop ----------------------------------------------

  datatype Turn = Wait | Next(state: OpState, used: nat) | Stop(state: OpState, push: Push)

  /** One turn of the `while` loop: shift the first read and run it on the unread bytes. */
  function Step(st: OpState, b: seq<Byte>): Turn
    requires st.readOps != []
  {
    var rest := st.(readOps := st.readOps[1..]);
    match st.readOps[0]
    case Nop(act) => Next(Perform(rest, act), 0)
    case Finish(kind) => Stop(rest.(status := Pending), PushResult(rest, kind))
    case Read(kind, field, after) =>
      if CanRead(kind, b) then
        Next(AfterRead(SetField(rest, field, ReadValue(kind, b)), field, after), ReadSize(kind, b))
      else Wait
    case ReadArray(field, count, item) => Next(BeginArray(rest, field, count, item), 0)
    case ReadRecord(field) => if |b| >= 2 then Next(BeginRecord(rest, field), 0) else Wait
    case ReadCollection(field) => if |b| >= 4 then Next(BeginCollection(rest, field, ReadInt32(b)), 4) else Wait
    case ReadResult(field, done) => Next(BeginResult(rest, field, done), 0)
    case ReadError(field) => Next(BeginError(rest, field), 0)
  }

  /** What the operation returns when no read is left. */
  function Ending(st: OpState): Outcome {
    var result := if st.stack == [] then Undefined else Load(st.roots, st.stack[0]);
    if result.Field("status").Field("code").Truthy() then Failed(result) else Complete(result)
  }

  // ---- the loop ends: a turn takes bytes or makes the pending work lighter

  function Weight(ops: seq<ReadOp>): nat
    decreases ops
  {
    if ops == [] then 0 else OpWeight(ops[0]) + Weight(ops[1..])
  }

  function OpWeight(op: ReadOp): nat
    decreases op
  {
    match op
    case ReadArray(_, _, item) => 2 + TWO_63 * (Weight(item) + 2)
    case Nop(CloseRecord(saved)) => 2 + Weight(saved)
    case Nop(CloseResult(_, _, _, done)) => 1 + Weight(done.saved)
    case ReadRecord(_) => 2
    case ReadResult(_, _) => 2
    case ReadError(_) => 8
    case _ => 1
  }

  lemma {:induction false} WeightOfSum(s: seq<ReadOp>, t: seq<ReadOp>)
    ensures Weight(s + t) == Weight(s) + Weight(t)
    decreases |s|
  {
    if s == [] {
      assert s + t == t;
    } else {
      assert (s + t)[0] == s[0] && (s + t)[1..] == s[1..] + t;
      WeightOfSum(s[1..], t);
    }
  }

  lemma {:induction false} WeightOfItems(list: Ref, i: nat, n: nat, item: seq<ReadOp>)
    requires i <= n
    ensures Weight(ItemOps(list, i, n, item)) == (n - i) * (Weight(item) + 2)
    decreases n - i
  {
    if i < n {
      WeightOfItems(list, i + 1, n, item);
      var enter, tail := [Nop(Enter(Below(list, Index(i))))], ItemOps(list, i + 1, n, item);
      assert Weight(enter) == 1 by { assert enter[1..] == []; }
      assert Weight([Nop(Pop)]) == 1 by { assert [Nop(Pop)][1..] == []; }
      WeightOfSum(enter, item);
      WeightOfSum(enter + item, [Nop(Pop)]);
      WeightOfSum(enter + item + [Nop(Pop)], tail);
      assert (n - i) * (Weight(item) + 2) == Weight(item) + 2 + (n - i - 1) * (Weight(item) + 2);
    }
  }

  lemma {:induction false} NopProgress(st: OpState, act: Act)
    requires st.readOps != [] && st.readOps[0] == Nop(act)
    ensures Weight(Perform(st.(readOps := st.readOps[1..]), act).readOps) < Weight(st.readOps)
  {
    var tail := st.readOps[1..];
    match act
    case CloseRecord(saved) =>
      WeightOfSum(tail, [Nop(Idle)] + saved);
      assert ([Nop(Idle)] + saved)[1..] == saved;
    case CloseResult(_, _, _, done) =>
      WeightOfSum(tail, done.saved);
      WeightOfSum(tail, []);
    case _ =>
  }

  lemma {:induction false} ArrayProgress(st: OpState, field: string, count: string, item: seq<ReadOp>)
    requires st.readOps != [] && st.readOps[0] == ReadArray(field, count, item)
    ensures Weight(BeginArray(st.(readOps := st.readOps[1..]), field, count, item).readOps) < Weight(st.readOps)
  {
    var rest := st.(readOps := st.readOps[1..]);
    var n := CountOf(Context(rest).Field(count));
    var list := Below(Top(rest), Name(field));
    var items := ItemOps(list, 0, n, item);
    WeightOfItems(list, 0, n, item);
    WeightOfSum(items, [Nop(Pop)]);
    WeightOfSum(items + [Nop(Pop)], rest.readOps);
    assert [Nop(Pop)][1..] == [];
    assert Weight(items) <= TWO_63 * (Weight(item) + 2) by { Scale(n, TWO_63, Weight(item) + 2); }
  }

  lemma Scale(n: nat, m: nat, w: nat)
    requires n <= m
    ensures n * w <= m * w
  {}

  lemma {:induction false} UnitWeights(ops: seq<ReadOp>)
    requires forall op :: op in ops ==> OpWeight(op) == 1
    ensures Weight(ops) == |ops|
  {
    if ops != [] {
      UnitWeights(ops[1..]);
    }
  }

  lemma ErrorProgress(st: OpState, field: string)
    requires st.readOps != [] && st.readOps[0] == ReadError(field)
    ensures Weight(BeginError(st.(readOps := st.readOps[1..]), field).readOps) < Weight(st.readOps)
  {
    var error := Below(Top(st.(readOps := st.readOps[1..])), Name(field));
    var ops := [Read(IntK, "code", Plain), Read(IntK, "identifier", Plain), Read(ByteK, "id", Plain),
                Read(StringK, "type", Plain), Read(StringK, "message", Plain), Read(ByteK, "hasMore", MoreErrors(error)),
                Nop(Pop)];
    assert BeginError(st.(readOps := st.readOps[1..]), field).readOps == ops;
    UnitWeights(ops);
  }

  lemma {:induction false} StepProgress(st: OpState, b: seq<Byte>)
    requires st.readOps != []
    ensures var t := Step(st, b);
      && (t.Next? ==> t.used <= |b| && (t.used > 0 || Weight(t.state.readOps) < Weight(st.readOps)))
      && (t.Stop? ==> Weight(t.state.readOps) < Weight(st.readOps))
  {
    match st.readOps[0]
    case Nop(act) => NopProgress(st, act);
    case ReadArray(field, count, item) => ArrayProgress(st, field, count, item);
    case ReadError(field) => ErrorProgress(st, field);
    case ReadRecord(field) =>
      var next := BeginRecord(st.(readOps := st.readOps[1..]), field).readOps;
      assert next[1..] == [];
    case ReadResult(field, done) =>
      var next := BeginResult(st.(readOps := st.readOps[1..]), field, done).readOps;
      assert next[1..] == [];
    case _ =>
  }

  function Plus(r: RunResult, n: nat): RunResult {
    r.(used := r.used + n)
  }

  /** The `while` loop of `consume` on the unread bytes of the buffer. */
  function Run(st: OpState, b: seq<Byte>): (r: RunResult)
    ensures r.used <= |b|
    decreases |b|, Weight(st.readOps)
  {
    if st.readOps == [] then RunResult(st, 0, Ending(st))
    else
      StepProgress(st, b);
      match Step(st, b)
      case Wait => RunResult(st, 0, Waiting)
      case Next(next, n) => Plus(Run(next, b[n..]), n)
      case Stop(last, push) => RunResult(last, 0, Pushed(push))
  }

  /** First bytes of a reply: a 3 announces a push, for which the operation's own reads are set aside. */
  function Start(st: OpState, first: Byte): OpState {
    if first == 3 then
      OpState(Reading, PUSH_READS, st.stack + [Ref(|st.roots|, [])], st.roots + [Obj(map[])])
    else
      st.(status := Reading)
  }

  /** `Operation.consume` on the unread bytes of the buffer. */
  function Consume(st: OpState, b: seq<Byte>): (r: RunResult)
    ensures r.used <= |b|
  {
    if st.status.Pending? && b == [] then RunResult(st, 0, Waiting)
    else
      var started := if st.status.Pending? then Start(st, b[0]) else st;
      if started.readOps == [] then
        RunResult(started, 0, Complete(if started.stack == [] then Undefined else Load(started.roots, started.stack[0])))
      else
        Run(started, b)
  }
}
