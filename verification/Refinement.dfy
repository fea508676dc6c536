/** The continuation machine computes what the recursive parser says, for every declaration and all bytes. */
module Refinement {
  import opened Bytes
  import opened Values
  import opened ReadMachine
  import opened ReplyParser

  /** The loop gets from one operation state to another by taking n bytes. */
  ghost predicate Reaches(s: OpState, b: seq<Byte>, t: OpState, n: nat) {
    n <= |b| && Run(s, b) == Plus(Run(t, b[n..]), n)
  }

  /** The loop stops for want of bytes. */
  ghost predicate Blocks(s: OpState, b: seq<Byte>) {
    Run(s, b).outcome.Waiting?
  }

  /** The loop ends after n bytes with the reads that were still queued gone. */
  ghost predicate LosesRest(s: OpState, b: seq<Byte>, n: nat) {
    var r := Run(s, b);
    r.used == n && r.state.readOps == [] && r.outcome == Ending(r.state)
  }

  lemma TwoLegs(s: OpState, b: seq<Byte>, t: OpState, n: nat, u: OpState, k: nat)
    requires Reaches(s, b, t, n) && Reaches(t, b[n..], u, k)
    ensures Reaches(s, b, u, n + k)
  {
    hide Run;
    assert b[n..][k..] == b[n + k..];
  }

  lemma OneTurn(s: OpState, b: seq<Byte>)
    requires s.readOps != []
    ensures Step(s, b).Next? ==> Step(s, b).used <= |b| && Reaches(s, b, Step(s, b).state, Step(s, b).used)
    ensures Step(s, b).Wait? ==> Blocks(s, b)
  {
    hide Step, Weight;
    StepProgress(s, b);
  }

  /** There is a context, and it is an object. */
  predicate Ready(st: OpState) {
    st.stack != [] && Live(st.roots, Top(st)) && Context(st).Obj?
  }

  /** The same operation with other reads queued and other fields in its context. */
  function Fill(st: OpState, ops: seq<ReadOp>, m: Fields): OpState
    requires Ready(st)
  {
    st.(readOps := ops, roots := Store(st.roots, Top(st), Obj(m)))
  }

  lemma FillAgain(st: OpState, ops: seq<ReadOp>, m: Fields, ops2: seq<ReadOp>, m2: Fields)
    requires Ready(st)
    ensures Ready(Fill(st, ops, m)) && Context(Fill(st, ops, m)) == Obj(m)
    ensures Top(Fill(st, ops, m)) == Top(st)
    ensures Fill(Fill(st, ops, m), ops2, m2) == Fill(st, ops2, m2)
  {
    StoreThenLoad(st.roots, Top(st), Obj(m), Obj(m2));
  }

  lemma FillSame(st: OpState)
    requires Ready(st)
    ensures Fill(st, st.readOps, Context(st).fields) == st
  {
    PutBack(st.roots[Top(st).root], Top(st).path);
  }

  /** Setting a field of the context. */
  lemma SetFieldFills(st: OpState, field: string, v: Value)
    requires Ready(st)
    ensures SetField(st, field, v) == Fill(st, st.readOps, Context(st).fields[field := v])
  {
  }

  /** How the loop relates to a parse of the fields of its context. */
  ghost predicate Follows(st: OpState, b: seq<Byte>, p: Parsed<Fields>, rest: seq<ReadOp>)
    requires Ready(st)
  {
    match p
    case Short => Blocks(st, b)
    case Lost(n) => LosesRest(st, b, n)
    case Done(m, n) => Reaches(st, b, Fill(st, rest, m), n)
  }

  /** Following a parse after having reached its start. */
  lemma FollowsAfter(st: OpState, b: seq<Byte>, n: nat, ops: seq<ReadOp>, m: Fields, p: Parsed<Fields>, rest: seq<ReadOp>)
    requires Ready(st) && Reaches(st, b, Fill(st, ops, m), n)
    requires Ready(Fill(st, ops, m)) && Follows(Fill(st, ops, m), b[n..], p, rest)
    ensures Follows(st, b, Advance(p, n), rest)
  {
    hide Run, Ending;
    if p.Done? {
      FillAgain(st, ops, m, rest, p.value);
      TwoLegs(st, b, Fill(st, ops, m), n, Fill(st, rest, p.value), p.used);
    }
  }

  /** One plain read. */
  lemma RunRead(st: OpState, b: seq<Byte>, kind: Kind, name: string, rest: seq<ReadOp>)
    requires Ready(st) && st.readOps == [Read(kind, name, Plain)] + rest
    ensures Follows(st, b,
      if CanRead(kind, b) then Done(Context(st).fields[name := ReadValue(kind, b)], ReadSize(kind, b)) else Short, rest)
  {
    OneTurn(st, b);
    assert st.readOps[1..] == rest;
    if CanRead(kind, b) {
      SetFieldFills(st.(readOps := rest), name, ReadValue(kind, b));
    }
  }

  lemma RunFlag(st: OpState, b: seq<Byte>, name: string, rest: seq<ReadOp>)
    requires Ready(st) && st.readOps == [Read(ByteK, name, AsFlag)] + rest
    ensures Follows(st, b, ParseField(Flag(name), Context(st).fields, b), rest)
  {
    hide Load, Store, Live, Weight;
    OneTurn(st, b);
    assert st.readOps[1..] == rest;
    if b != [] {
      var m := Context(st).fields;
      SetFieldFills(st.(readOps := rest), name, Num(b[0]));
      FillAgain(st, rest, m[name := Num(b[0])], rest, m[name := Bool(b[0] != 0)]);
      assert m[name := Num(b[0])][name := Bool(b[0] != 0)] == m[name := Bool(b[0] != 0)];
      SetFieldFills(Fill(st, rest, m[name := Num(b[0])]), name, Bool(b[0] != 0));
    }
  }

  lemma RunDocument(st: OpState, b: seq<Byte>, name: string, rest: seq<ReadOp>)
    requires Ready(st) && st.readOps == [Read(BytesK, name, AsDocument)] + rest
    ensures Follows(st, b, ParseField(Document(name), Context(st).fields, b), rest)
  {
    hide Load, Store, Live, Weight;
    OneTurn(st, b);
    assert st.readOps[1..] == rest;
    if CanRead(BytesK, b) {
      var m, v := Context(st).fields, ReadValue(BytesK, b);
      SetFieldFills(st.(readOps := rest), name, v);
      FillAgain(st, rest, m[name := v], rest, m[name := Decode(3, v)]);
      assert m[name := v][name := Decode(3, v)] == m[name := Decode(3, v)];
      SetFieldFills(Fill(st, rest, m[name := v]), name, Decode(3, v));
    }
  }

  function SlotReads(slots: seq<Slot>): seq<ReadOp> {
    if slots == [] then [] else [Read(slots[0].kind, slots[0].name, Plain)] + SlotReads(slots[1..])
  }

  lemma {:induction false} RunSlots(st: OpState, b: seq<Byte>, slots: seq<Slot>, rest: seq<ReadOp>)
    requires Ready(st) && st.readOps == SlotReads(slots) + rest
    ensures Follows(st, b, ParseSlots(slots, Context(st).fields, b), rest)
    decreases |slots|
  {
    hide Run, Step, CanRead, ReadValue, ReadSize, Load, Store, Live;
    if slots == [] {
      assert st.readOps == rest;
      FillSame(st);
      assert b[0..] == b;
    } else {
      var kind, name := slots[0].kind, slots[0].name;
      var later := SlotReads(slots[1..]) + rest;
      assert st.readOps == [Read(kind, name, Plain)] + later;
      RunRead(st, b, kind, name, later);
      if CanRead(kind, b) {
        var m, n := Context(st).fields[name := ReadValue(kind, b)], ReadSize(kind, b);
        FillAgain(st, later, m, later, m);
        RunSlots(Fill(st, later, m), b[n..], slots[1..], rest);
        FollowsAfter(st, b, n, later, m, ParseSlots(slots[1..], m, b[n..]), rest);
      }
    }
  }

  // ---- records -----------------------------------------------------------

  lemma RunIdle(st: OpState, b: seq<Byte>, rest: seq<ReadOp>)
    requires st.readOps == [Nop(Idle)] + rest
    ensures Reaches(st, b, st.(readOps := rest), 0)
  {
    OneTurn(st, b);
    assert st.readOps[1..] == rest;
  }

  /** How the loop relates to the parse of the object on top of the stack, which is left in the end. */
  ghost predicate FollowsThenPops(st: OpState, b: seq<Byte>, p: Parsed<Fields>, rest: seq<ReadOp>)
    requires Ready(st)
  {
    match p
    case Short => Blocks(st, b)
    case Lost(n) => LosesRest(st, b, n)
    case Done(m, n) => Reaches(st, b, PopStack(Fill(st, rest, m)), n)
  }

  /** The end of a record: its reader, which does nothing here, then the saved reads. */
  lemma EndRecord(st: OpState, b: seq<Byte>, n: nat, m: Fields, rest: seq<ReadOp>)
    requires Ready(st) && Reaches(st, b, PopStack(Fill(st, [Nop(Idle)] + rest, m)), n)
    ensures Reaches(st, b, PopStack(Fill(st, rest, m)), n)
  {
    hide Run;
    var s := PopStack(Fill(st, [Nop(Idle)] + rest, m));
    RunIdle(s, b[n..], rest);
    TwoLegs(st, b, s, n, PopStack(Fill(st, rest, m)), 0);
  }

  lemma RunLinkRecord(st: OpState, b: seq<Byte>, rest: seq<ReadOp>)
    requires Ready(st)
    requires st.readOps == SlotReads(LINK_SLOTS) + [Nop(CloseRecord(rest))]
    ensures FollowsThenPops(st, b, ParseSlots(LINK_SLOTS, Context(st).fields, b), rest)
  {
    hide Load, Store, Live, Weight;
    var p := ParseSlots(LINK_SLOTS, Context(st).fields, b);
    RunSlots(st, b, LINK_SLOTS, [Nop(CloseRecord(rest))]);
    if p.Done? {
      hide Run;
      var s := Fill(st, [Nop(CloseRecord(rest))], p.value);
      OneTurn(s, b[p.used..]);
      assert [] + ([Nop(Idle)] + rest) == [Nop(Idle)] + rest;
      TwoLegs(st, b, s, p.used, PopStack(Fill(st, [Nop(Idle)] + rest, p.value)), 0);
      EndRecord(st, b, p.used, p.value, rest);
    }
  }

  lemma RunRecordValue(st: OpState, b: seq<Byte>, rest: seq<ReadOp>)
    requires Ready(st) && st.readOps == [Read(BytesK, "value", RecordValue(rest))]
    ensures FollowsThenPops(st, b, ParseDocument("value", Context(st).fields, b), rest)
  {
    hide Load, Store, Live, Weight;
    OneTurn(st, b);
    assert st.readOps[1..] == [];
    if CanRead(BytesK, b) {
      var m, v := Context(st).fields, ReadValue(BytesK, b);
      SetFieldFills(st.(readOps := []), "value", v);
      FillAgain(st, [], m["value" := v], [], m["value" := Decode(3, v)]);
      assert m["value" := v]["value" := Decode(3, v)] == m["value" := Decode(3, v)];
      SetFieldFills(Fill(st, [], m["value" := v]), "value", Decode(3, v));
      assert [] + ([Nop(Idle)] + rest) == [Nop(Idle)] + rest;
      EndRecord(st, b, ReadSize(BytesK, b), m["value" := Decode(3, v)], rest);
    }
  }

  lemma RunDocumentRecord(st: OpState, b: seq<Byte>, rest: seq<ReadOp>)
    requires Ready(st)
    requires st.readOps == SlotReads(DOCUMENT_SLOTS) + [Read(BytesK, "value", RecordValue(rest))]
    ensures var p := ParseSlots(DOCUMENT_SLOTS, Context(st).fields, b);
      FollowsThenPops(st, b, if p.Done? then Advance(ParseDocument("value", p.value, b[p.used..]), p.used) else Short, rest)
  {
    hide Run, Step, CanRead, ReadValue, ReadSize, Load, Store, Live;
    var p := ParseSlots(DOCUMENT_SLOTS, Context(st).fields, b);
    var last := [Read(BytesK, "value", RecordValue(rest))];
    RunSlots(st, b, DOCUMENT_SLOTS, last);
    if p.Done? {
      var s := Fill(st, last, p.value);
      FillAgain(st, last, p.value, last, p.value);
      RunRecordValue(s, b[p.used..], rest);
      var q := ParseDocument("value", p.value, b[p.used..]);
      if q.Done? {
        FillAgain(st, last, p.value, rest, q.value);
        TwoLegs(st, b, s, p.used, PopStack(Fill(st, rest, q.value)), q.used);
      }
    }
  }

  /** After the class identifier: the four shapes of a record, and the fifth that loses the reply. */
  lemma RunClass(st: OpState, b: seq<Byte>, rest: seq<ReadOp>)
    requires Ready(st) && Context(st) == Obj(map[])
    requires st.readOps == [Read(ShortK, "classId", RecordClass(rest))]
    ensures FollowsThenPops(st, b, ParseRecord(b), rest)
  {
    OneTurn(st, b);
    assert st.readOps[1..] == [];
    if |b| >= 2 {
      var id := Num(ReadInt16(b));
      var m: Fields := map["classId" := id];
      SetFieldFills(st.(readOps := []), "classId", id);
      FillAgain(st, [], m, [], m);
      var s := Fill(st, [], m);
      assert Reaches(st, b, AfterRecordClass(s, id, rest), 2);
      RunShape(st, b, id, rest);
    }
  }

  lemma RunShape(st: OpState, b: seq<Byte>, id: Value, rest: seq<ReadOp>)
    requires Ready(st) && Context(st) == Obj(map[]) && |b| >= 2 && id == Num(ReadInt16(b))
    requires Ready(Fill(st, [], map["classId" := id]))
    requires Reaches(st, b, AfterRecordClass(Fill(st, [], map["classId" := id]), id, rest), 2)
    ensures FollowsThenPops(st, b, ParseRecord(b), rest)
  {
    hide Step, CanRead, ReadValue, ReadSize, Load, Store, Live, ParseSlots, ParseDocument, Weight;
    var m: Fields := map["classId" := id];
    var s := Fill(st, [], m);
    FillAgain(st, [], m, [], m);
    var done := [Nop(Idle)] + rest;
    assert [] + done == done;
    if id.n == -1 || id.n == -2 {
      var v := if id.n == -1 then ProtocolError else Null;
      SetFieldFills(s, "value", v);
      FillAgain(st, [], m, done, m["value" := v]);
      FillAgain(st, [], m, [], m["value" := v]);
      EndRecord(st, b, 2, m["value" := v], rest);
    } else if id.n == -3 {
      SetFieldFills(s, "type", Chr(100));
      LinkReads(rest);
      var t := Fill(st, SlotReads(LINK_SLOTS) + [Nop(CloseRecord(rest))], m["type" := Chr(100)]);
      FillAgain(st, [], m, t.readOps, m["type" := Chr(100)]);
      FillAgain(st, t.readOps, m["type" := Chr(100)], [], m);
      RunLinkRecord(t, b[2..], rest);
      ThenPops(st, b, 2, t.readOps, m["type" := Chr(100)], ParseSlots(LINK_SLOTS, m["type" := Chr(100)], b[2..]), rest);
    } else if id.n > -1 {
      DocumentReads(rest);
      var t := Fill(st, SlotReads(DOCUMENT_SLOTS) + [Read(BytesK, "value", RecordValue(rest))], m);
      FillAgain(st, [], m, t.readOps, m);
      FillAgain(st, t.readOps, m, [], m);
      RunDocumentRecord(t, b[2..], rest);
      var p := ParseSlots(DOCUMENT_SLOTS, m, b[2..]);
      if p.Done? {
        assert b[2..][p.used..] == b[2 + p.used..];
      }
      ThenPops(st, b, 2, t.readOps, m,
        if p.Done? then Advance(ParseDocument("value", p.value, b[2..][p.used..]), p.used) else Short, rest);
    } else {
      assert b[2..] == b[2..] && AfterRecordClass(s, id, rest) == s;
    }
  }

  lemma LinkReads(rest: seq<ReadOp>)
    ensures SlotReads(LINK_SLOTS) + [Nop(CloseRecord(rest))] ==
      [] + [Read(ShortK, "cluster", Plain), Read(LongK, "position", Plain), Nop(CloseRecord(rest))]
  {
    assert LINK_SLOTS[1..] == [Slot(LongK, "position")];
    assert LINK_SLOTS[1..][1..] == [];
  }

  lemma DocumentReads(rest: seq<ReadOp>)
    ensures SlotReads(DOCUMENT_SLOTS) + [Read(BytesK, "value", RecordValue(rest))] ==
      [] + (DOCUMENT_READS + [Read(BytesK, "value", RecordValue(rest))])
  {
    var s := DOCUMENT_SLOTS;
    assert s[1..] == [Slot(ShortK, "cluster"), Slot(LongK, "position"), Slot(IntK, "version")];
    assert s[1..][1..] == [Slot(LongK, "position"), Slot(IntK, "version")];
    assert s[1..][1..][1..] == [Slot(IntK, "version")];
    assert s[1..][1..][1..][1..] == [];
    assert SlotReads(s[1..][1..][1..]) == [Read(IntK, "version", Plain)];
    assert SlotReads(s[1..][1..]) == [Read(LongK, "position", Plain), Read(IntK, "version", Plain)];
    assert SlotReads(s) == DOCUMENT_READS;
  }

  lemma ThenPops(st: OpState, b: seq<Byte>, n: nat, ops: seq<ReadOp>, m: Fields, p: Parsed<Fields>, rest: seq<ReadOp>)
    requires Ready(st) && Reaches(st, b, Fill(st, ops, m), n)
    requires Ready(Fill(st, ops, m)) && FollowsThenPops(Fill(st, ops, m), b[n..], p, rest)
    ensures FollowsThenPops(st, b, Advance(p, n), rest)
  {
    hide Run, Ending;
    if p.Done? {
      FillAgain(st, ops, m, rest, p.value);
      TwoLegs(st, b, Fill(st, ops, m), n, PopStack(Fill(st, rest, p.value)), p.used);
    }
  }

  /** A fresh object hung below the context: filling it fills the field of the context. */
  lemma HangField(st: OpState, field: string, ops: seq<ReadOp>, r: Fields, rest: seq<ReadOp>)
    requires Ready(st)
    ensures var m := Context(st).fields;
      var inner := PushStack(Fill(st, ops, m[field := Obj(map[])]), Below(Top(st), Name(field)));
      && Ready(inner) && Context(inner) == Obj(map[])
      && PopStack(Fill(inner, rest, r)) == Fill(st, rest, m[field := Obj(r)])
  {
    hide Load, Store, Live;
    var m := Context(st).fields;
    var m1 := m[field := Obj(map[])];
    FillAgain(st, ops, m1, ops, m1);
    var outer := Fill(st, ops, m1);
    StoreBelow(outer.roots, Top(st), Name(field), Obj(r));
    StoreBelow(outer.roots, Top(st), Name(field), Obj(map[]));
    StoreThenLoad(st.roots, Top(st), Obj(m1), Obj(m[field := Obj(r)]));
    assert m1[field := Obj(r)] == m[field := Obj(r)];
  }

  /** The same for a fresh object at the end of a list. */
  lemma HangElement(st: OpState, field: string, before: seq<Value>, ops: seq<ReadOp>, r: Fields, rest: seq<ReadOp>)
    requires Ready(st)
    ensures var m := Context(st).fields;
      var inner := PushStack(Fill(st, ops, m[field := Arr(before + [Obj(map[])])]),
                             Below(Below(Top(st), Name(field)), Index(|before|)));
      && Ready(inner) && Context(inner) == Obj(map[])
      && PopStack(Fill(inner, rest, r)) == Fill(st, rest, m[field := Arr(before + [Obj(r)])])
  {
    hide Load, Store, Live;
    var m := Context(st).fields;
    var list := Arr(before + [Obj(map[])]);
    var m1 := m[field := list];
    FillAgain(st, ops, m1, ops, m1);
    var outer := Fill(st, ops, m1);
    var place := Below(Top(st), Name(field));
    var full := Arr(before + [Obj(r)]);
    StoreBelow(outer.roots, Top(st), Name(field), full);
    StoreBelow(outer.roots, place, Index(|before|), Obj(r));
    assert WithChild(list, Index(|before|), Obj(r)) == full;
    StoreThenLoad(st.roots, Top(st), Obj(m1), Obj(m[field := full]));
    assert m1[field := full] == m[field := full];
  }

  lemma RecordTurn(st: OpState, b: seq<Byte>, field: string, rest: seq<ReadOp>)
    requires Ready(st) && st.readOps == [ReadRecord(field)] + rest
    ensures |b| < 2 ==> Blocks(st, b)
    ensures |b| >= 2 ==> Reaches(st, b, BeginRecord(st.(readOps := rest), field), 0)
  {
    OneTurn(st, b);
    assert st.readOps[1..] == rest;
  }

  lemma RunRecord(st: OpState, b: seq<Byte>, field: string, rest: seq<ReadOp>)
    requires Ready(st) && st.readOps == [ReadRecord(field)] + rest
    ensures Follows(st, b, ParseField(Record(field), Context(st).fields, b), rest)
  {
    hide Run, Step, Ending, Load, Store, Live, ParseRecord;
    RecordTurn(st, b, field, rest);
    if |b| >= 2 {
      var s := st.(readOps := rest);
      var m := Context(st).fields;
      var inner := BeginRecord(s, field);
      var p := ParseRecord(b);
      var r: Fields := if p.Done? then p.value else map[];
      if Obj(m).Field(field).Arr? {
        var before := Obj(m).Field(field).items;
        SetFieldFills(s, field, Arr(before + [Obj(map[])]));
        HangElement(st, field, before, inner.readOps, r, rest);
      } else {
        SetFieldFills(s, field, Obj(map[]));
        HangField(st, field, inner.readOps, r, rest);
      }
      EnterRecord(st, inner, b, rest);
    } else {
      assert ParseRecord(b).Short? by { ShortRecord(b); }
    }
  }

  lemma ShortRecord(b: seq<Byte>)
    ensures |b| < 2 ==> ParseRecord(b).Short?
  {}

  lemma EnterRecord(st: OpState, inner: OpState, b: seq<Byte>, rest: seq<ReadOp>)
    requires Ready(inner) && Context(inner) == Obj(map[])
    requires inner.readOps == [Read(ShortK, "classId", RecordClass(rest))]
    requires Reaches(st, b, inner, 0)
    ensures var p := ParseRecord(b);
      && (p.Short? ==> Blocks(st, b))
      && (p.Lost? ==> LosesRest(st, b, p.used))
      && (p.Done? ==> Reaches(st, b, PopStack(Fill(inner, rest, p.value)), p.used))
  {
    hide Run, Ending;
    assert b[0..] == b;
    RunClass(inner, b, rest);
    var p := ParseRecord(b);
    if p.Done? {
      TwoLegs(st, b, inner, 0, PopStack(Fill(inner, rest, p.value)), p.used);
    }
  }

  // ---- collections -------------------------------------------------------

  function Appended(m: Fields, field: string, before: seq<Value>, p: Parsed<seq<Value>>): Parsed<Fields> {
    match p
    case Short => Short
    case Lost(n) => Lost(n)
    case Done(xs, n) => Done(m[field := Arr(before + xs)], n)
  }

  lemma {:induction false} RunRecords(st: OpState, b: seq<Byte>, field: string, n: nat, before: seq<Value>, rest: seq<ReadOp>)
    requires Ready(st) && st.readOps == seq(n, _ => ReadRecord(field)) + rest
    requires Obj(Context(st).fields).Field(field) == Arr(before)
    ensures Follows(st, b, Appended(Context(st).fields, field, before, ParseRecords(n, b)), rest)
    decreases n
  {
    hide Run, Step, ParseRecord, Load, Store, Live, Ending;
    var m := Context(st).fields;
    if n == 0 {
      assert st.readOps == rest;
      FillSame(st);
      assert b[0..] == b;
      assert m[field := Arr(before + [])] == m by { assert before + [] == before; }
    } else {
      var later := seq(n - 1, _ => ReadRecord(field)) + rest;
      assert st.readOps == [ReadRecord(field)] + later;
      RunRecord(st, b, field, later);
      var p := ParseRecord(b);
      if p.Done? {
        var one := before + [Obj(p.value)];
        var m1 := m[field := Arr(one)];
        FillAgain(st, later, m1, later, m1);
        var next := Fill(st, later, m1);
        RunRecords(next, b[p.used..], field, n - 1, one, rest);
        var q := ParseRecords(n - 1, b[p.used..]);
        FollowsAfter(st, b, p.used, later, m1, Appended(m1, field, one, q), rest);
        if q.Done? {
          assert one + q.value == before + ([Obj(p.value)] + q.value);
          assert m1[field := Arr(one + q.value)] == m[field := Arr(one + q.value)];
        }
      }
    }
  }

  lemma CollectionTurn(st: OpState, b: seq<Byte>, field: string, rest: seq<ReadOp>)
    requires Ready(st) && st.readOps == [ReadCollection(field)] + rest
    ensures |b| < 4 ==> Blocks(st, b)
    ensures |b| >= 4 ==>
      var ops := seq(CountOf(Num(ReadInt32(b))), _ => ReadRecord(field)) + rest;
      Reaches(st, b, Fill(st, ops, Context(st).fields[field := Arr([])]), 4)
  {
    OneTurn(st, b);
    assert st.readOps[1..] == rest;
    SetFieldFills(st.(readOps := rest), field, Arr([]));
  }

  lemma RunCollection(st: OpState, b: seq<Byte>, field: string, rest: seq<ReadOp>)
    requires Ready(st) && st.readOps == [ReadCollection(field)] + rest
    ensures Follows(st, b, ParseField(Records(field), Context(st).fields, b), rest)
  {
    hide Run, Step, Ending, Load, Store, Live, ParseRecords;
    CollectionTurn(st, b, field, rest);
    if |b| >= 4 {
      var m := Context(st).fields;
      var n := CountOf(Num(ReadInt32(b)));
      var ops := seq(n, _ => ReadRecord(field)) + rest;
      FillAgain(st, ops, m[field := Arr([])], ops, m[field := Arr([])]);
      RunRecords(Fill(st, ops, m[field := Arr([])]), b[4..], field, n, [], rest);
      var p := ParseRecords(n, b[4..]);
      FollowsAfter(st, b, 4, ops, m[field := Arr([])], Appended(m[field := Arr([])], field, [], p), rest);
      if p.Done? {
        assert [] + p.value == p.value;
        assert m[field := Arr([])][field := Arr(p.value)] == m[field := Arr(p.value)];
      }
    }
  }

  // ---- arrays ------------------------------------------------------------

  /** The state in front of item i of an array: the list on the stack, the first i items filled. */
  function AtItem(st: OpState, field: string, done: seq<Value>, n: nat, item: seq<ReadOp>, rest: seq<ReadOp>): OpState
    requires Ready(st) && |done| <= n
  {
    var list := Below(Top(st), Name(field));
    var filled := Arr(done + seq(n - |done|, _ => Obj(map[])));
    PushStack(Fill(st, ItemOps(list, |done|, n, item) + [Nop(Pop)] + rest, Context(st).fields[field := filled]), list)
  }

  /** Entering item i makes its empty object the context; leaving it filled is the state in front of i + 1. */
  lemma ItemContext(st: OpState, field: string, done: seq<Value>, n: nat, item: seq<ReadOp>, rest: seq<ReadOp>,
                    ops: seq<ReadOp>, r: Fields, later: seq<ReadOp>)
    requires Ready(st) && |done| < n
    ensures var s := AtItem(st, field, done, n, item, rest);
      var inner := PushStack(s, Below(Top(s), Index(|done|))).(readOps := ops);
      && Ready(inner) && Context(inner) == Obj(map[])
      && PopStack(Fill(inner, later, r)) == AtItem(st, field, done + [Obj(r)], n, item, rest).(readOps := later)
  {
    hide Load, Store, Live;
    var m := Context(st).fields;
    var blank := seq(n - |done|, _ => Obj(map[]));
    var before, after := Arr(done + blank), Arr((done + [Obj(r)]) + seq(n - |done| - 1, _ => Obj(map[])));
    assert WithChild(before, Index(|done|), Obj(r)) == after;
    assert Child(before, Index(|done|)) == Obj(map[]);
    var m1 := m[field := before];
    FillAgain(st, ops, m1, ops, m1);
    var outer := Fill(st, ops, m1);
    var list := Below(Top(st), Name(field));
    StoreBelow(outer.roots, Top(st), Name(field), after);
    StoreBelow(outer.roots, list, Index(|done|), Obj(r));
    StoreThenLoad(st.roots, Top(st), Obj(m1), Obj(m[field := after]));
    assert m1[field := after] == m[field := after];
  }

  /** The queued `pop` behind an array or an item. */
  lemma RunPop(st: OpState, b: seq<Byte>, rest: seq<ReadOp>)
    requires st.readOps == [Nop(Pop)] + rest
    ensures Reaches(st, b, PopStack(st.(readOps := rest)), 0)
  {
    OneTurn(st, b);
    assert st.readOps[1..] == rest;
  }

  lemma RunEnter(st: OpState, b: seq<Byte>, target: Ref, rest: seq<ReadOp>)
    requires st.readOps == [Nop(Enter(target))] + rest
    ensures Reaches(st, b, PushStack(st, target).(readOps := rest), 0)
  {
    OneTurn(st, b);
    assert st.readOps[1..] == rest;
  }

  /** How the loop inside an array relates to the parse of its remaining items. */
  ghost predicate FollowsItems(st: OpState, field: string, done: seq<Value>, n: nat, item: seq<ReadOp>, b: seq<Byte>,
                               p: Parsed<seq<Value>>, rest: seq<ReadOp>)
    requires Ready(st) && |done| <= n
  {
    var s := AtItem(st, field, done, n, item, rest);
    match p
    case Short => Blocks(s, b)
    case Lost(k) => LosesRest(s, b, k)
    case Done(xs, k) => Reaches(s, b, Fill(st, rest, Context(st).fields[field := Arr(done + xs)]), k)
  }

  lemma NoItemLeft(st: OpState, field: string, done: seq<Value>, item: seq<ReadOp>, b: seq<Byte>, rest: seq<ReadOp>)
    requires Ready(st)
    ensures FollowsItems(st, field, done, |done|, item, b, Done([], 0), rest)
  {
    hide Run, Step, Load, Store, Live;
    var s := AtItem(st, field, done, |done|, item, rest);
    assert s.readOps == [Nop(Pop)] + rest;
    assert done + seq(0, _ => Obj(map[])) == done + [];
    RunPop(s, b, rest);
    assert PopStack(s.(readOps := rest)) == Fill(st, rest, Context(st).fields[field := Arr(done + [])]);
  }

  /** Into the next item, an empty object in front of its own reads, and out of it with r read. */
  lemma NextItem(st: OpState, field: string, done: seq<Value>, n: nat, item: seq<ReadOp>, b: seq<Byte>, rest: seq<ReadOp>,
                 r: Fields, c: seq<Byte>)
      returns (inner: OpState, later: seq<ReadOp>)
    requires Ready(st) && |done| < n
    ensures Ready(inner) && Context(inner) == Obj(map[])
    ensures inner.readOps == item + later
    ensures Reaches(AtItem(st, field, done, n, item, rest), b, inner, 0)
    ensures Reaches(Fill(inner, later, r), c, AtItem(st, field, done + [Obj(r)], n, item, rest), 0)
  {
    hide Run, Step, Load, Store, Live;
    var s := AtItem(st, field, done, n, item, rest);
    var list := Below(Top(st), Name(field));
    var tail := ItemOps(list, |done| + 1, n, item) + [Nop(Pop)] + rest;
    later := [Nop(Pop)] + tail;
    assert s.readOps == [Nop(Enter(Below(list, Index(|done|))))] + (item + later);
    RunEnter(s, b, Below(list, Index(|done|)), item + later);
    inner := PushStack(s, Below(list, Index(|done|))).(readOps := item + later);
    ItemContext(st, field, done, n, item, rest, item + later, r, tail);
    RunPop(Fill(inner, later, r), c, tail);
    assert PopStack(Fill(inner, tail, r)) == AtItem(st, field, done + [Obj(r)], n, item, rest).(readOps := tail);
  }

  ghost predicate FollowsItem(st: OpState, field: string, done: seq<Value>, n: nat, item: seq<ReadOp>, b: seq<Byte>,
                              p: Parsed<Fields>, rest: seq<ReadOp>)
    requires Ready(st) && |done| < n
  {
    var s := AtItem(st, field, done, n, item, rest);
    match p
    case Short => Blocks(s, b)
    case Lost(k) => LosesRest(s, b, k)
    case Done(m, k) => Reaches(s, b, AtItem(st, field, done + [Obj(m)], n, item, rest), k)
  }

  /** One item: into its object, through its fields, out again. */
  lemma OneItem(st: OpState, field: string, done: seq<Value>, n: nat, item: seq<Field>, b: seq<Byte>, rest: seq<ReadOp>)
    requires Ready(st) && |done| < n
    ensures FollowsItem(st, field, done, n, Compile(item), b, ParseFields(item, map[], b), rest)
    decreases item, 1
  {
    hide Run, Step, Load, Store, Live, Ending, ParseFields, AtItem, Context;
    var s := AtItem(st, field, done, n, Compile(item), rest);
    var p := ParseFields(item, map[], b);
    var r: Fields := if p.Done? then p.value else map[];
    var inner, later := NextItem(st, field, done, n, Compile(item), b, rest, r, if p.Done? then b[p.used..] else []);
    assert b[0..] == b;
    RunFields(inner, b, item, later);
    if p.Done? {
      TwoLegs(s, b, inner, 0, Fill(inner, later, r), p.used);
      TwoLegs(s, b, Fill(inner, later, r), p.used, AtItem(st, field, done + [Obj(r)], n, Compile(item), rest), 0);
    }
  }

  lemma {:induction false} RunItems(st: OpState, field: string, done: seq<Value>, n: nat, item: seq<Field>, b: seq<Byte>,
                                    rest: seq<ReadOp>)
    requires Ready(st) && |done| <= n
    ensures FollowsItems(st, field, done, n, Compile(item), b, ParseItems(n - |done|, item, b), rest)
    decreases item, 2, n - |done|
  {
    hide Run, Step, Load, Store, Live, Ending, ParseFields, AtItem, Context;
    if |done| == n {
      NoItemLeft(st, field, done, Compile(item), b, rest);
    } else {
      OneItem(st, field, done, n, item, b, rest);
      var p := ParseFields(item, map[], b);
      if p.Done? {
        var s := AtItem(st, field, done, n, Compile(item), rest);
        var next := AtItem(st, field, done + [Obj(p.value)], n, Compile(item), rest);
        RunItems(st, field, done + [Obj(p.value)], n, item, b[p.used..], rest);
        var q := ParseItems(n - |done| - 1, item, b[p.used..]);
        if q.Done? {
          assert done + [Obj(p.value)] + q.value == done + ([Obj(p.value)] + q.value);
          TwoLegs(s, b, next, p.used, Fill(st, rest, Context(st).fields[field := Arr(done + ([Obj(p.value)] + q.value))]), q.used);
        }
      }
    }
  }

  /** An array starts in front of its first item, with as many empty objects as its count says. */
  lemma EnterArray(st: OpState, b: seq<Byte>, field: string, count: string, item: seq<ReadOp>, rest: seq<ReadOp>)
    requires Ready(st) && st.readOps == [ReadArray(field, count, item)] + rest
    ensures Reaches(st, b, AtItem(st, field, [], CountOf(Context(st).Field(count)), item, rest), 0)
  {
    hide Load, Store, Live, Weight;
    OneTurn(st, b);
    assert st.readOps[1..] == rest;
    var blank := seq(CountOf(Context(st).Field(count)), _ => Obj(map[]));
    SetFieldFills(st.(readOps := rest), field, Arr(blank));
    assert [] + blank == blank;
  }

  lemma RunArray(st: OpState, b: seq<Byte>, field: string, count: string, item: seq<Field>, rest: seq<ReadOp>)
    requires Ready(st) && st.readOps == [ReadArray(field, count, Compile(item))] + rest
    ensures Follows(st, b, ParseField(List(field, count, item), Context(st).fields, b), rest)
    decreases item, 3
  {
    hide Run, Step, Load, Store, Live, Ending, AtItem;
    EnterArray(st, b, field, count, Compile(item), rest);
    var n := CountOf(Context(st).Field(count));
    var s := AtItem(st, field, [], n, Compile(item), rest);
    assert b[0..] == b;
    RunItems(st, field, [], n, item, b, rest);
    var p := ParseItems(n, item, b);
    if p.Done? {
      assert [] + p.value == p.value;
      TwoLegs(st, b, s, 0, Fill(st, rest, Context(st).fields[field := Arr(p.value)]), p.used);
    }
  }

  lemma RunField(st: OpState, b: seq<Byte>, f: Field, rest: seq<ReadOp>)
    requires Ready(st) && st.readOps == [CompileField(f)] + rest
    ensures Follows(st, b, ParseField(f, Context(st).fields, b), rest)
    decreases f, 0
  {
    match f
    case Scalar(kind, name) =>
      assert SlotReads([Slot(kind, name)]) == [Read(kind, name, Plain)] by { assert [Slot(kind, name)][1..] == []; }
      RunSlots(st, b, [Slot(kind, name)], rest);
    case Flag(name) => RunFlag(st, b, name, rest);
    case Document(name) => RunDocument(st, b, name, rest);
    case List(name, count, item) => RunArray(st, b, name, count, item, rest);
    case Record(name) => RunRecord(st, b, name, rest);
    case Records(name) => RunCollection(st, b, name, rest);
  }

  /**
   * Running the reads that `fs` queued, with any reads `rest` behind them: when the parser gets through,
   * so does the loop, with the parsed fields in its context, the stack as before and `rest` still queued;
   * when the parser wants more bytes the loop stops; when the parser loses the rest, so does the loop.
   */
  lemma {:induction false} RunFields(st: OpState, b: seq<Byte>, fs: seq<Field>, rest: seq<ReadOp>)
    requires Ready(st) && st.readOps == Compile(fs) + rest
    ensures Follows(st, b, ParseFields(fs, Context(st).fields, b), rest)
    decreases fs, 0
  {
    hide Run, Step, Load, Store, Live, Ending, ParseField, CompileField;
    if fs == [] {
      assert st.readOps == rest;
      FillSame(st);
      assert b[0..] == b;
    } else {
      var later := Compile(fs[1..]) + rest;
      assert st.readOps == [CompileField(fs[0])] + later;
      RunField(st, b, fs[0], later);
      var p := ParseField(fs[0], Context(st).fields, b);
      if p.Done? {
        FillAgain(st, later, p.value, later, p.value);
        RunFields(Fill(st, later, p.value), b[p.used..], fs[1..], rest);
        FollowsAfter(st, b, p.used, later, p.value, ParseFields(fs[1..], p.value, b[p.used..]), rest);
      }
    }
  }
}
