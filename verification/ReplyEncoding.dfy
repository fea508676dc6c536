/** The bytes of a reply, written from the values it carries; reading them gives those values back. */
module ReplyEncoding {
  import opened Bytes
  import opened Values
  import opened ReadMachine
  import opened ReplyParser
  import opened ErrorReplies
  import opened Replies

  predicate Writable(kind: Kind, v: Value) {
    match kind
    case ByteK => v.Num? && 0 <= v.n < 256
    case CharK => v.Chr?
    case BooleanK => v.Bool?
    case ShortK => v.Num? && -0x8000 <= v.n < 0x8000
    case IntK => v.Num? && -0x8000_0000 <= v.n < 0x8000_0000
    case LongK => v.Num?
    case BytesK => v.Null? || (v.Raw? && |v.bytes| < 0x8000_0000)
    case StringK => v.Null? || (v.Text? && |v.utf8| < 0x8000_0000)
    case RecordIdK => v.Rid? && -0x8000 <= v.cluster < 0x8000 && -TWO_63 <= v.position < TWO_63
  }

  /** A length and the bytes, or the length -1 alone. */
  function EncodeBlock(v: Value): seq<Byte>
    requires Writable(BytesK, v) || Writable(StringK, v)
  {
    match v
    case Raw(c) => EncodeInt32(|c|) + c
    case Text(c) => EncodeInt32(|c|) + c
    case _ => EncodeInt32(-1)
  }

  function EncodeScalar(kind: Kind, v: Value): seq<Byte>
    requires Writable(kind, v)
  {
    match kind
    case ByteK => [v.n]
    case CharK => [v.code]
    case BooleanK => [if v.b then 1 else 0]
    case ShortK => EncodeInt16(v.n)
    case IntK => EncodeInt32(v.n)
    case LongK => EncodeInt64(v.n)
    case BytesK => EncodeBlock(v)
    case StringK => EncodeBlock(v)
    case RecordIdK => EncodeInt16(v.cluster) + EncodeInt64(v.position)
  }

  lemma BlockRoundTrip(kind: Kind, v: Value, rest: seq<Byte>)
    requires kind.BytesK? || kind.StringK?
    requires Writable(kind, v)
    ensures var b := EncodeBlock(v) + rest;
      CanRead(kind, b) && ReadValue(kind, b) == v && ReadSize(kind, b) == |EncodeBlock(v)|
  {
    var b := EncodeBlock(v) + rest;
    if v.Null? {
      Int32RoundTrip(-1, rest);
    } else {
      var c := if v.Raw? then v.bytes else v.utf8;
      assert b == EncodeInt32(|c|) + (c + rest);
      Int32RoundTrip(|c|, c + rest);
      assert b[4..4 + |c|] == c;
    }
  }

  lemma ScalarRoundTrip(kind: Kind, v: Value, rest: seq<Byte>)
    requires Writable(kind, v)
    ensures var b := EncodeScalar(kind, v) + rest;
      CanRead(kind, b) && ReadValue(kind, b) == v && ReadSize(kind, b) == |EncodeScalar(kind, v)|
  {
    hide ReadInt16, ReadInt32, ReadInt64, EncodeInt16, EncodeInt32, EncodeInt64;
    match kind
    case ShortK => Int16RoundTrip(v.n, rest);
    case IntK => Int32RoundTrip(v.n, rest);
    case LongK => Int64RoundTrip(v.n, rest);
    case BytesK => BlockRoundTrip(kind, v, rest);
    case StringK => BlockRoundTrip(kind, v, rest);
    case RecordIdK =>
      var b := EncodeScalar(kind, v) + rest;
      var tail := EncodeInt64(v.position) + rest;
      assert b == EncodeInt16(v.cluster) + tail;
      assert b[2..] == tail;
      Int16RoundTrip(v.cluster, tail);
      Int64RoundTrip(v.position, rest);
    case _ =>
  }

  // ---- slots -------------------------------------------------------------

  predicate AllWritable(slots: seq<Slot>, vs: seq<Value>) {
    |slots| == |vs| && forall i :: 0 <= i < |vs| ==> Writable(slots[i].kind, vs[i])
  }

  function EncodeSlots(slots: seq<Slot>, vs: seq<Value>): seq<Byte>
    requires AllWritable(slots, vs)
  {
    if slots == [] then [] else EncodeScalar(slots[0].kind, vs[0]) + EncodeSlots(slots[1..], vs[1..])
  }

  function SetSlots(slots: seq<Slot>, vs: seq<Value>, m: Fields): Fields
    requires |slots| == |vs|
  {
    if slots == [] then m else SetSlots(slots[1..], vs[1..], m[slots[0].name := vs[0]])
  }

  lemma {:induction false} SlotsRoundTrip(slots: seq<Slot>, vs: seq<Value>, m: Fields, rest: seq<Byte>)
    requires AllWritable(slots, vs)
    ensures ParseSlots(slots, m, EncodeSlots(slots, vs) + rest) == Done(SetSlots(slots, vs, m), |EncodeSlots(slots, vs)|)
    decreases |slots|
  {
    hide CanRead, ReadValue, ReadSize, EncodeScalar, Writable;
    if slots != [] {
      var first, others := EncodeScalar(slots[0].kind, vs[0]), EncodeSlots(slots[1..], vs[1..]);
      var b := EncodeSlots(slots, vs) + rest;
      assert b == first + (others + rest);
      ScalarRoundTrip(slots[0].kind, vs[0], others + rest);
      assert b[|first|..] == others + rest;
      SlotsRoundTrip(slots[1..], vs[1..], m[slots[0].name := vs[0]], rest);
    }
  }

  // ---- records -----------------------------------------------------------

  predicate IsContent(v: Value) {
    v.Null? || (v.Decoded? && v.kind == 3 && |v.content| < 0x8000_0000)
  }

  /** The bytes a decoded document was read from. */
  function ContentBlock(v: Value): (b: Value)
    requires IsContent(v)
    ensures Writable(BytesK, b)
  {
    if v.Null? then Null else Raw(v.content)
  }

  datatype RecordData =
    | NoClass
    | NoRecord
    | LinkTo(cluster: Value, position: Value)
    | Full(classId: Int16, meta: seq<Value>, content: Value)

  predicate RecordFits(r: RecordData) {
    match r
    case LinkTo(c, p) => AllWritable(LINK_SLOTS, [c, p])
    case Full(id, meta, content) => id >= 0 && AllWritable(DOCUMENT_SLOTS, meta) && IsContent(content)
    case _ => true
  }

  function EncodeRecord(r: RecordData): (b: seq<Byte>)
    requires RecordFits(r)
    ensures |b| >= 2
  {
    match r
    case NoClass => EncodeInt16(-1)
    case NoRecord => EncodeInt16(-2)
    case LinkTo(c, p) => EncodeInt16(-3) + EncodeSlots(LINK_SLOTS, [c, p])
    case Full(id, meta, content) => EncodeInt16(id) + EncodeSlots(DOCUMENT_SLOTS, meta) + EncodeBlock(ContentBlock(content))
  }

  function RecordFields(r: RecordData): Fields
    requires RecordFits(r)
  {
    match r
    case NoClass => map["classId" := Num(-1), "value" := ProtocolError]
    case NoRecord => map["classId" := Num(-2), "value" := Null]
    case LinkTo(c, p) => SetSlots(LINK_SLOTS, [c, p], map["classId" := Num(-3), "type" := Chr(100)])
    case Full(id, meta, content) => SetSlots(DOCUMENT_SLOTS, meta, map["classId" := Num(id)])["value" := content]
  }

  lemma DocumentRoundTrip(name: string, v: Value, m: Fields, rest: seq<Byte>)
    requires IsContent(v)
    ensures var e := EncodeBlock(ContentBlock(v)); ParseDocument(name, m, e + rest) == Done(m[name := v], |e|)
  {
    hide CanRead, ReadValue, ReadSize, EncodeBlock;
    BlockRoundTrip(BytesK, ContentBlock(v), rest);
  }

  lemma RecordRoundTrip(r: RecordData, rest: seq<Byte>)
    requires RecordFits(r)
    ensures ParseRecord(EncodeRecord(r) + rest) == Done(RecordFields(r), |EncodeRecord(r)|)
  {
    hide EncodeInt16, ReadInt16, CanRead, ReadValue, ReadSize, EncodeScalar, Writable, EncodeSlots, ParseSlots, ParseDocument, EncodeBlock, SetSlots;
    var b := EncodeRecord(r) + rest;
    match r
    case NoClass => Int16RoundTrip(-1, rest);
    case NoRecord => Int16RoundTrip(-2, rest);
    case LinkTo(c, p) =>
      var e := EncodeSlots(LINK_SLOTS, [c, p]);
      assert b == EncodeInt16(-3) + (e + rest);
      assert b[2..] == e + rest;
      Int16RoundTrip(-3, e + rest);
      var m: Fields := map["classId" := Num(-3)];
      assert m["type" := Chr(100)] == map["classId" := Num(-3), "type" := Chr(100)];
      SlotsRoundTrip(LINK_SLOTS, [c, p], m["type" := Chr(100)], rest);
    case Full(id, meta, content) =>
      var e, c := EncodeSlots(DOCUMENT_SLOTS, meta), EncodeBlock(ContentBlock(content));
      assert b == EncodeInt16(id) + (e + (c + rest));
      assert b[2..] == e + (c + rest);
      assert b[2 + |e|..] == c + rest;
      Int16RoundTrip(id, e + (c + rest));
      var m: Fields := map["classId" := Num(id)];
      SlotsRoundTrip(DOCUMENT_SLOTS, meta, m, c + rest);
      DocumentRoundTrip("value", content, SetSlots(DOCUMENT_SLOTS, meta, m), rest);
  }

  function EncodeRecords(rs: seq<RecordData>): seq<Byte>
    requires forall r :: r in rs ==> RecordFits(r)
  {
    if rs == [] then [] else EncodeRecord(rs[0]) + EncodeRecords(rs[1..])
  }

  function RecordValues(rs: seq<RecordData>): seq<Value>
    requires forall r :: r in rs ==> RecordFits(r)
  {
    if rs == [] then [] else [Obj(RecordFields(rs[0]))] + RecordValues(rs[1..])
  }

  lemma {:induction false} RecordsRoundTrip(rs: seq<RecordData>, rest: seq<Byte>)
    requires forall r :: r in rs ==> RecordFits(r)
    ensures ParseRecords(|rs|, EncodeRecords(rs) + rest) == Done(RecordValues(rs), |EncodeRecords(rs)|)
  {
    hide RecordFits, EncodeRecord, ParseRecord, RecordFields;
    if rs != [] {
      var first, others := EncodeRecord(rs[0]), EncodeRecords(rs[1..]);
      assert EncodeRecords(rs) + rest == first + (others + rest);
      RecordRoundTrip(rs[0], others + rest);
      assert (first + (others + rest))[|first|..] == others + rest;
      RecordsRoundTrip(rs[1..], rest);
    }
  }

  // ---- fields ------------------------------------------------------------

  /** What one declared field carries. */
  datatype Datum =
    | Leaf(value: Value)
    | Rows(rows: seq<Row>)
    | OneRecord(record: RecordData)
    | ManyRecords(records: seq<RecordData>)

  datatype Row = Row(data: seq<Datum>)

  predicate FieldFits(f: Field, d: Datum, m: Fields)
    decreases d
  {
    match f
    case Scalar(kind, _) => d.Leaf? && Writable(kind, d.value)
    case Flag(_) => d.Leaf? && d.value.Bool?
    case Document(_) => d.Leaf? && IsContent(d.value)
    case List(_, count, item) =>
      d.Rows? && CountOf(Obj(m).Field(count)) == |d.rows| && forall row :: row in d.rows ==> FieldsFit(item, row.data, map[])
    case Record(name) => d.OneRecord? && RecordFits(d.record) && !Obj(m).Field(name).Arr?
    case Records(_) =>
      d.ManyRecords? && |d.records| < 0x8000_0000 && forall r :: r in d.records ==> RecordFits(r)
  }

  predicate FieldsFit(fs: seq<Field>, ds: seq<Datum>, m: Fields)
    decreases ds
  {
    |fs| == |ds| &&
    (ds == [] || (FieldFits(fs[0], ds[0], m) && FieldsFit(fs[1..], ds[1..], m[fs[0].name := DatumValue(fs[0], ds[0], m)])))
  }

  function DatumValue(f: Field, d: Datum, m: Fields): Value
    decreases d
  {
    match (f, d)
    case (List(_, _, item), Rows(rows)) => Arr(RowValues(item, rows))
    case (_, OneRecord(r)) => if RecordFits(r) then Obj(RecordFields(r)) else Undefined
    case (_, ManyRecords(rs)) => if forall r :: r in rs ==> RecordFits(r) then Arr(RecordValues(rs)) else Undefined
    case (_, Leaf(v)) => v
    case _ => Undefined
  }

  function RowValues(item: seq<Field>, rows: seq<Row>): (vs: seq<Value>)
    decreases rows
  {
    if rows == [] then [] else [Obj(SetFields(item, rows[0].data, map[]))] + RowValues(item, rows[1..])
  }

  /** The object that the fields make, on top of what it held before. */
  function SetFields(fs: seq<Field>, ds: seq<Datum>, m: Fields): Fields
    decreases ds
  {
    if fs == [] || ds == [] then m else SetFields(fs[1..], ds[1..], m[fs[0].name := DatumValue(fs[0], ds[0], m)])
  }

  function EncodeField(f: Field, d: Datum, m: Fields): seq<Byte>
    requires FieldFits(f, d, m)
    decreases d
  {
    match f
    case Scalar(kind, _) => EncodeScalar(kind, d.value)
    case Flag(_) => [if d.value.b then 1 else 0]
    case Document(_) => EncodeBlock(ContentBlock(d.value))
    case List(_, _, item) => EncodeRows(item, d.rows)
    case Record(_) => EncodeRecord(d.record)
    case Records(_) => EncodeInt32(|d.records|) + EncodeRecords(d.records)
  }

  function EncodeRows(item: seq<Field>, rows: seq<Row>): seq<Byte>
    requires forall row :: row in rows ==> FieldsFit(item, row.data, map[])
    decreases rows
  {
    if rows == [] then [] else EncodeFields(item, rows[0].data, map[]) + EncodeRows(item, rows[1..])
  }

  function EncodeFields(fs: seq<Field>, ds: seq<Datum>, m: Fields): seq<Byte>
    requires FieldsFit(fs, ds, m)
    decreases ds
  {
    if ds == [] then []
    else EncodeField(fs[0], ds[0], m) + EncodeFields(fs[1..], ds[1..], m[fs[0].name := DatumValue(fs[0], ds[0], m)])
  }

  lemma {:induction false} FieldRoundTrip(f: Field, d: Datum, m: Fields, rest: seq<Byte>)
    requires FieldFits(f, d, m)
    ensures ParseField(f, m, EncodeField(f, d, m) + rest) == Done(m[f.name := DatumValue(f, d, m)], |EncodeField(f, d, m)|)
    decreases d
  {
    hide CanRead, ReadValue, ReadSize, EncodeScalar, Writable, EncodeBlock, ReadInt32, EncodeInt32;
    var e := EncodeField(f, d, m);
    match f
    case Scalar(kind, name) =>
      ScalarRoundTrip(kind, d.value, rest);
      var slots := [Slot(kind, name)];
      assert slots[1..] == [];
      assert ParseSlots(slots[1..], m[name := d.value], (e + rest)[|e|..]) == Done(m[name := d.value], 0);
    case Flag(_) =>
    case Document(name) => DocumentRoundTrip(name, d.value, m, rest);
    case List(_, _, item) => RowsRoundTrip(item, d.rows, rest);
    case Record(_) => RecordRoundTrip(d.record, rest);
    case Records(_) =>
      var body := EncodeRecords(d.records);
      assert e + rest == EncodeInt32(|d.records|) + (body + rest);
      assert (e + rest)[4..] == body + rest;
      Int32RoundTrip(|d.records|, body + rest);
      RecordsRoundTrip(d.records, rest);
  }

  lemma {:induction false} RowsRoundTrip(item: seq<Field>, rows: seq<Row>, rest: seq<Byte>)
    requires forall row :: row in rows ==> FieldsFit(item, row.data, map[])
    ensures ParseItems(|rows|, item, EncodeRows(item, rows) + rest) == Done(RowValues(item, rows), |EncodeRows(item, rows)|)
    decreases rows
  {
    hide FieldsFit, ParseFields, EncodeFields, SetFields;
    if rows != [] {
      assert rows[0] in rows;
      var first, others := EncodeFields(item, rows[0].data, map[]), EncodeRows(item, rows[1..]);
      assert EncodeRows(item, rows) + rest == first + (others + rest);
      assert (first + (others + rest))[|first|..] == others + rest;
      FieldsRoundTrip(item, rows[0].data, map[], others + rest);
      RowsRoundTrip(item, rows[1..], rest);
    }
  }

  /** Parsing what was encoded, with anything behind it, gives the values back and stops right after them. */
  lemma {:induction false} FieldsRoundTrip(fs: seq<Field>, ds: seq<Datum>, m: Fields, rest: seq<Byte>)
    requires FieldsFit(fs, ds, m)
    ensures ParseFields(fs, m, EncodeFields(fs, ds, m) + rest) == Done(SetFields(fs, ds, m), |EncodeFields(fs, ds, m)|)
    decreases ds
  {
    hide FieldFits, ParseField, EncodeField, DatumValue;
    if ds != [] {
      var m1 := m[fs[0].name := DatumValue(fs[0], ds[0], m)];
      var first, others := EncodeField(fs[0], ds[0], m), EncodeFields(fs[1..], ds[1..], m1);
      assert EncodeFields(fs, ds, m) + rest == first + (others + rest);
      assert (first + (others + rest))[|first|..] == others + rest;
      FieldRoundTrip(fs[0], ds[0], m, others + rest);
      FieldsRoundTrip(fs[1..], ds[1..], m1, rest);
    }
  }

  // ---- whole replies -----------------------------------------------------

  /** A reply that is not a refusal: the status values and what the declared fields carry. */
  predicate AnswerFits(status: seq<Value>, body: seq<Field>, ds: seq<Datum>) {
    AllWritable(STATUS_SLOTS, status) && status[0] != Num(1) && status[0] != Num(3) &&
    FieldsFit(body, ds, map["status" := Obj(SetSlots(STATUS_SLOTS, status, map[]))])
  }

  function EncodeAnswer(status: seq<Value>, body: seq<Field>, ds: seq<Datum>): seq<Byte>
    requires AnswerFits(status, body, ds)
  {
    EncodeSlots(STATUS_SLOTS, status) + EncodeFields(body, ds, map["status" := Obj(SetSlots(STATUS_SLOTS, status, map[]))])
  }

  lemma {:induction false} SetSlotsKeeps(slots: seq<Slot>, vs: seq<Value>, m: Fields, name: string)
    requires |slots| == |vs| && forall s :: s in slots ==> s.name != name
    ensures Obj(SetSlots(slots, vs, m)).Field(name) == Obj(m).Field(name)
    decreases |slots|
  {
    if slots != [] {
      SetSlotsKeeps(slots[1..], vs[1..], m[slots[0].name := vs[0]], name);
    }
  }

  lemma StatusCode(status: seq<Value>)
    requires AllWritable(STATUS_SLOTS, status)
    ensures Obj(SetSlots(STATUS_SLOTS, status, map[])).Field("code") == status[0]
  {
    SetSlotsKeeps(STATUS_SLOTS[1..], status[1..], map["code" := status[0]], "code");
  }

  lemma AnswerParses(status: seq<Value>, body: seq<Field>, ds: seq<Datum>, rest: seq<Byte>)
    requires AnswerFits(status, body, ds)
    ensures ParseReply(body, EncodeAnswer(status, body, ds) + rest) ==
      Answered(SetFields(body, ds, map["status" := Obj(SetSlots(STATUS_SLOTS, status, map[]))]), |EncodeAnswer(status, body, ds)|)
  {
    hide ParseFields, ParseSlots, EncodeFields, EncodeSlots, SetFields, SetSlots, FieldsFit, Writable;
    var s := SetSlots(STATUS_SLOTS, status, map[]);
    var m: Fields := map["status" := Obj(s)];
    var head, tail := EncodeSlots(STATUS_SLOTS, status), EncodeFields(body, ds, m);
    var b := EncodeAnswer(status, body, ds) + rest;
    assert b == head + (tail + rest);
    SlotsRoundTrip(STATUS_SLOTS, status, map[], tail + rest);
    assert b[|head|..] == tail + rest;
    FieldsRoundTrip(body, ds, m, rest);
    StatusCode(status);
  }

  /** A reply with nothing wrong in it resolves the operation with exactly the object it encodes. */
  lemma AnswerRoundTrip(status: seq<Value>, body: seq<Field>, ds: seq<Datum>, rest: seq<Byte>)
    requires AnswerFits(status, body, ds) && status[0] == Num(0)
    requires forall f :: f in body ==> f.name != "status"
    ensures var result := Obj(SetFields(body, ds, map["status" := Obj(SetSlots(STATUS_SLOTS, status, map[]))]));
      Consume(NewOperation(Declared(body)), EncodeAnswer(status, body, ds) + rest) ==
        RunResult(OpState(Reading, [], [ROOT], [result]), |EncodeAnswer(status, body, ds)|, Complete(result))
  {
    hide Consume, ParseReply, EncodeFields, EncodeSlots, Declared, SetFields, FieldsFit, Writable;
    var m: Fields := map["status" := Obj(SetSlots(STATUS_SLOTS, status, map[]))];
    var tail := EncodeFields(body, ds, m) + rest;
    assert EncodeAnswer(status, body, ds) + rest == EncodeSlots(STATUS_SLOTS, status) + tail;
    AnswerParses(status, body, ds, rest);
    StatusCode(status);
    StatusIsFirst(status, tail);
    ConsumeReply(body, EncodeAnswer(status, body, ds) + rest);
    StatusStays(body, ds, m);
  }

  lemma StatusIsFirst(status: seq<Value>, rest: seq<Byte>)
    requires AllWritable(STATUS_SLOTS, status)
    ensures var b := EncodeSlots(STATUS_SLOTS, status) + rest; b != [] && b[0] == status[0].n
  {
    assert STATUS_SLOTS[0] == Slot(ByteK, "code");
  }

  lemma {:induction false} StatusStays(fs: seq<Field>, ds: seq<Datum>, m: Fields)
    requires forall f :: f in fs ==> f.name != "status"
    ensures Obj(SetFields(fs, ds, m)).Field("status") == Obj(m).Field("status")
    decreases ds
  {
    if fs != [] && ds != [] {
      StatusStays(fs[1..], ds[1..], m[fs[0].name := DatumValue(fs[0], ds[0], m)]);
    }
  }

  // ---- refusals ----------------------------------------------------------

  datatype ExceptionData = ExceptionData(kind: Value, message: Value)

  function ExceptionValues(x: ExceptionData, more: bool): seq<Value> {
    [x.kind, x.message, Num(if more then 1 else 0)]
  }

  predicate ChainFits(xs: seq<ExceptionData>, trace: Value) {
    xs != [] && Writable(BytesK, trace) && forall x :: x in xs ==> Writable(StringK, x.kind) && Writable(StringK, x.message)
  }

  /** Each exception says whether another one follows; behind the last comes the stack trace. */
  function EncodeChain(xs: seq<ExceptionData>, trace: Value): seq<Byte>
    requires ChainFits(xs, trace)
  {
    var first := EncodeSlots(EXCEPTION_SLOTS, ExceptionValues(xs[0], |xs| > 1));
    if |xs| == 1 then first + EncodeScalar(BytesK, trace) else first + EncodeChain(xs[1..], trace)
  }

  function ChainOf(xs: seq<ExceptionData>, trace: Value): Chain
    requires ChainFits(xs, trace)
  {
    var first := SetSlots(EXCEPTION_SLOTS, ExceptionValues(xs[0], |xs| > 1), map[]);
    if |xs| == 1 then Chain([first], map["javaStackTrace" := trace])
    else var c := ChainOf(xs[1..], trace); Chain([first] + c.exceptions, c.trace)
  }

  lemma {:induction false} LastSlot(slots: seq<Slot>, vs: seq<Value>, slot: Slot, v: Value, m: Fields)
    requires |slots| == |vs|
    ensures SetSlots(slots + [slot], vs + [v], m) == SetSlots(slots, vs, m)[slot.name := v]
    decreases |slots|
  {
    if slots == [] {
      assert slots + [slot] == [slot] && vs + [v] == [v];
      assert [slot][1..] == [];
    } else {
      assert (slots + [slot])[1..] == slots[1..] + [slot] && (vs + [v])[1..] == vs[1..] + [v];
      LastSlot(slots[1..], vs[1..], slot, v, m[slots[0].name := vs[0]]);
    }
  }

  lemma TraceRoundTrip(trace: Value, rest: seq<Byte>)
    requires Writable(BytesK, trace)
    ensures ParseSlots([Slot(BytesK, "javaStackTrace")], map[], EncodeScalar(BytesK, trace) + rest) ==
      Done(map["javaStackTrace" := trace], |EncodeScalar(BytesK, trace)|)
  {
    hide CanRead, ReadValue, ReadSize, EncodeScalar, Writable;
    var slots := [Slot(BytesK, "javaStackTrace")];
    assert slots[1..] == [];
    ScalarRoundTrip(BytesK, trace, rest);
    var m: Fields := map[];
    assert m["javaStackTrace" := trace] == map["javaStackTrace" := trace];
    assert ParseSlots(slots[1..], m["javaStackTrace" := trace], (EncodeScalar(BytesK, trace) + rest)[|EncodeScalar(BytesK, trace)|..]).Done?;
  }

  lemma ExceptionRoundTrip(x: ExceptionData, more: bool, rest: seq<Byte>)
    requires Writable(StringK, x.kind) && Writable(StringK, x.message)
    ensures var vs := ExceptionValues(x, more);
      && AllWritable(EXCEPTION_SLOTS, vs)
      && ParseSlots(EXCEPTION_SLOTS, map[], EncodeSlots(EXCEPTION_SLOTS, vs) + rest) ==
           Done(SetSlots(EXCEPTION_SLOTS, vs, map[]), |EncodeSlots(EXCEPTION_SLOTS, vs)|)
      && Obj(SetSlots(EXCEPTION_SLOTS, vs, map[])).Field("hasMore").Truthy() == more
  {
    hide ParseSlots, EncodeSlots;
    var vs := ExceptionValues(x, more);
    SlotsRoundTrip(EXCEPTION_SLOTS, vs, map[], rest);
    var slots := [Slot(StringK, "type"), Slot(StringK, "message")];
    assert slots + [Slot(ByteK, "hasMore")] == EXCEPTION_SLOTS;
    assert [x.kind, x.message] + [vs[2]] == vs;
    LastSlot(slots, [x.kind, x.message], Slot(ByteK, "hasMore"), vs[2], map[]);
  }

  lemma {:induction false} ChainRoundTrip(xs: seq<ExceptionData>, trace: Value, rest: seq<Byte>)
    requires ChainFits(xs, trace)
    ensures ParseChain(EncodeChain(xs, trace) + rest) == Done(ChainOf(xs, trace), |EncodeChain(xs, trace)|)
    ensures |ChainOf(xs, trace).exceptions| == |xs|
    decreases |xs|
  {
    hide ParseSlots, EncodeSlots, EncodeScalar, SetSlots, Writable, ParseChain;
    var vs := ExceptionValues(xs[0], |xs| > 1);
    assert xs[0] in xs;
    ExceptionRoundTrip(xs[0], |xs| > 1, []);
    var first := EncodeSlots(EXCEPTION_SLOTS, vs);
    var others := if |xs| == 1 then EncodeScalar(BytesK, trace) else EncodeChain(xs[1..], trace);
    var b := EncodeChain(xs, trace) + rest;
    assert b == first + (others + rest);
    assert b[|first|..] == others + rest;
    ExceptionRoundTrip(xs[0], |xs| > 1, others + rest);
    ChainCases(b);
    if |xs| == 1 {
      TraceRoundTrip(trace, rest);
    } else {
      ChainRoundTrip(xs[1..], trace, rest);
    }
  }

  /** What a refusal carries: the status, the head of the error frame, the exceptions and the stack trace. */
  datatype RefusalData = RefusalData(status: seq<Value>, head: seq<Value>, chain: seq<ExceptionData>, trace: Value)

  predicate RefusalFits(d: RefusalData) {
    AllWritable(STATUS_SLOTS, d.status) && d.status[0] == Num(1) && AllWritable(ERROR_SLOTS, d.head) && ChainFits(d.chain, d.trace)
  }

  function EncodeRefusal(d: RefusalData): seq<Byte>
    requires RefusalFits(d)
  {
    EncodeSlots(STATUS_SLOTS, d.status) + (EncodeSlots(ERROR_SLOTS, d.head) + EncodeChain(d.chain, d.trace))
  }

  function RefusalOf(d: RefusalData): Refusal
    requires RefusalFits(d)
  {
    Refusal(SetSlots(ERROR_SLOTS, d.head, map[]), ChainOf(d.chain, d.trace))
  }

  lemma FrameParses(d: RefusalData, rest: seq<Byte>)
    requires RefusalFits(d)
    ensures var e := EncodeSlots(ERROR_SLOTS, d.head) + EncodeChain(d.chain, d.trace);
      ParseRefusal(e + rest) == Done(RefusalOf(d), |e|)
    ensures |RefusalOf(d).chain.exceptions| == |d.chain|
  {
    hide ParseSlots, ParseChain, EncodeSlots, EncodeChain, SetSlots, ChainOf, Writable;
    var head, chain := EncodeSlots(ERROR_SLOTS, d.head), EncodeChain(d.chain, d.trace);
    assert head + chain + rest == head + (chain + rest);
    assert (head + (chain + rest))[|head|..] == chain + rest;
    SlotsRoundTrip(ERROR_SLOTS, d.head, map[], chain + rest);
    ChainRoundTrip(d.chain, d.trace, rest);
  }

  lemma RefusalParses(d: RefusalData, body: seq<Field>, rest: seq<Byte>)
    requires RefusalFits(d)
    ensures ParseReply(body, EncodeRefusal(d) + rest) ==
      Rejected(SetSlots(STATUS_SLOTS, d.status, map[]), RefusalOf(d), |EncodeRefusal(d)|)
  {
    hide ParseSlots, ParseRefusal, ParseFields, EncodeSlots, EncodeChain, SetSlots, RefusalOf, Writable, ChainFits;
    var status, frame := EncodeSlots(STATUS_SLOTS, d.status), EncodeSlots(ERROR_SLOTS, d.head) + EncodeChain(d.chain, d.trace);
    var b := EncodeRefusal(d) + rest;
    assert b == status + (frame + rest);
    assert b[|status|..] == frame + rest;
    SlotsRoundTrip(STATUS_SLOTS, d.status, map[], frame + rest);
    StatusCode(d.status);
    FrameParses(d, rest);
  }

  /** A refusal fails the operation with the object that its status, its head and its chain make, whatever follows. */
  lemma RefusalRoundTrip(d: RefusalData, body: seq<Field>, rest: seq<Byte>)
    requires RefusalFits(d)
    ensures |RefusalOf(d).chain.exceptions| > 0
    ensures var result := RejectedResult(SetSlots(STATUS_SLOTS, d.status, map[]), RefusalOf(d));
      Consume(NewOperation(Declared(body)), EncodeRefusal(d) + rest) ==
        RunResult(OpState(Reading, [], [ROOT], [result]), |EncodeRefusal(d)|, Failed(result))
  {
    hide Consume, ParseReply, EncodeSlots, EncodeChain, Declared, RefusalOf, RejectedResult, Writable;
    var tail := EncodeSlots(ERROR_SLOTS, d.head) + EncodeChain(d.chain, d.trace) + rest;
    assert EncodeRefusal(d) + rest == EncodeSlots(STATUS_SLOTS, d.status) + tail;
    FrameParses(d, rest);
    RefusalParses(d, body, rest);
    StatusIsFirst(d.status, tail);
    ConsumeReply(body, EncodeRefusal(d) + rest);
  }
}
