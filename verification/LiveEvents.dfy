/** The events of a live-query push: each with its data, and for an update what was there before. */
module LiveEvents {
  import opened Bytes
  import opened Values
  import opened ReadMachine
  import opened ReplyParser
  import opened Refinement
  import opened ErrorReplies

  // ---- events read the simple way ----------------------------------------

  /** What follows the type of an element: a projection's bytes, or a whole record. */
  function ResultSlots(kind: Byte): seq<Slot> {
    if kind == 4 then [Slot(BytesK, "value")] else [Slot(ShortK, "t")] + DOCUMENT_SLOTS + [Slot(BytesK, "value")]
  }

  /** The data of an event; only the deserialized content stays. */
  function ParseResult(b: seq<Byte>): (p: Parsed<Value>)
    ensures Fits(p, b) && !p.Lost?
  {
    if b == [] then Short
    else
      match ParseSlots(ResultSlots(b[0]), map[], b[1..])
      case Done(m, n) => Done(Decode(b[0], Obj(m).Field("value")), 1 + n)
      case _ => Short
  }

  function ParseEvent(b: seq<Byte>): (p: Parsed<Fields>)
    ensures Fits(p, b) && !p.Lost?
  {
    if b == [] then Short
    else
      match ParseResult(b[1..])
      case Done(v, n) =>
        var m := map["type" := Num(b[0]), "data" := v];
        if b[0] != 2 then Done(m, 1 + n)
        else
          (match ParseResult(b[1 + n..])
           case Done(w, k) => Done(m["before" := w], 1 + n + k)
           case _ => Short)
      case _ => Short
  }

  function ParseEvents(n: nat, b: seq<Byte>): (p: Parsed<seq<Value>>)
    ensures Fits(p, b) && !p.Lost?
  {
    if n == 0 then Done([], 0)
    else
      match ParseEvent(b)
      case Done(m, u) =>
        (match ParseEvents(n - 1, b[u..])
         case Done(xs, v) => Done([Obj(m)] + xs, u + v)
         case _ => Short)
      case _ => Short
  }

  // ---- the machine reads the data of an event ----------------------------

  /** The saved reads that the reader of a result puts back. */
  function Resumed(done: EventDone): seq<ReadOp> {
    if done.DataDone? && done.isUpdate then [] else done.saved
  }

  lemma AfterEventFills(st: OpState, ops: seq<ReadOp>, r: Fields, field: string, done: EventDone)
    requires Ready(st)
    ensures var m := Context(st).fields;
      AfterEvent(Fill(st, ops, m[field := Obj(r)]), Top(st), field, done) ==
        Fill(st, ops + Resumed(done), m[field := Obj(r).Field("value")])
  {
    hide Load, Store, Live;
    var m := Context(st).fields;
    var m1, v := m[field := Obj(r)], Obj(r).Field("value");
    FillAgain(st, ops, m1, ops, m1);
    SetFieldFills(Fill(st, ops, m1), field, v);
    FillAgain(st, ops, m1, ops, m1[field := v]);
    assert m1[field := v] == m[field := v];
  }

  /** The object of a result below the context. */
  function Inside(st: OpState, field: string, ops: seq<ReadOp>): OpState
    requires Ready(st)
  {
    PushStack(Fill(st, ops, Context(st).fields[field := Obj(map[])]), Below(Top(st), Name(field)))
  }

  /** The value of a result deserialized in its object, which is then left. */
  lemma DecodedInside(st: OpState, field: string, before: seq<ReadOp>, r: Fields, w: Value, ops: seq<ReadOp>)
    requires Ready(st)
    ensures var inner, m := Inside(st, field, before), Context(st).fields;
      && Ready(inner) && Context(inner) == Obj(map[])
      && PopStack(Fill(inner, ops, r)) == Fill(st, ops, m[field := Obj(r)])
      && PopStack(SetField(Fill(inner, ops, r), "value", w)) == Fill(st, ops, m[field := Obj(r["value" := w])])
      && Assign(Fill(inner, ops, r).roots, Top(inner), "value", w) == Fill(st, ops, m[field := Obj(r["value" := w])]).roots
      && Load(Fill(inner, ops, r).roots, Top(inner)) == Obj(r)
  {
    hide Load, Store, Live;
    var inner := Inside(st, field, before);
    HangField(st, field, before, r, ops);
    HangField(st, field, before, r["value" := w], ops);
    FillAgain(inner, ops, r, ops, r["value" := w]);
    SetFieldFills(Fill(inner, ops, r), "value", w);
  }

  lemma AfterProjection(st: OpState, field: string, done: EventDone, before: seq<ReadOp>, r: Fields, rest: seq<ReadOp>)
    requires Ready(st) && "value" in r
    requires Ready(Inside(st, field, before))
    ensures AfterRead(Fill(Inside(st, field, before), [], r), "value", ResultProjection(rest, Top(st), field, done)) ==
      Fill(st, Resumed(done) + rest, Context(st).fields[field := Decode(4, r["value"])])
  {
    hide Load, Store, Live;
    var inner := Inside(st, field, before);
    var w := Decode(4, r["value"]);
    DecodedInside(st, field, before, r, w, []);
    FillAgain(inner, [], r, [], r);
    AfterEventFills(st, [], r["value" := w], field, done);
    assert [] + Resumed(done) == Resumed(done);
  }

  lemma CloseTurn(st: OpState, field: string, done: EventDone, before: seq<ReadOp>, r: Fields, rest: seq<ReadOp>, b: seq<Byte>)
    requires Ready(st) && Ready(Inside(st, field, before)) && "value" in r && Obj(r).Field("elementType").Num?
    ensures var inner, m := Inside(st, field, before), Context(st).fields;
      Reaches(AfterRead(Fill(inner, [], r), "value", ResultDocument(rest, Top(st), field, done)), b,
        Fill(st, rest + Resumed(done), m[field := Decode(r["elementType"].n, r["value"])]), 0)
  {
    hide Load, Store, Live, Weight, Run;
    var inner, m := Inside(st, field, before), Context(st).fields;
    var kind := r["elementType"].n;
    var w := Decode(kind, r["value"]);
    var act := CloseResult(Top(inner), Top(st), field, done);
    DecodedInside(st, field, before, r, w, []);
    var ops := [Nop(act)] + rest;
    FillAgain(inner, [], r, [], r);
    var s := AfterRead(Fill(inner, [], r), "value", ResultDocument(rest, Top(st), field, done));
    assert [] + ops == ops;
    assert s == Fill(st, ops, m[field := Obj(r)]);
    assert ops[1..] == rest;
    AfterEventFills(st, rest, r["value" := w], field, done);
    ClosePerforms(st, field, done, before, r, rest);
    OneTurn(s, b);
  }

  lemma ClosePerforms(st: OpState, field: string, done: EventDone, before: seq<ReadOp>, r: Fields, rest: seq<ReadOp>)
    requires Ready(st) && Ready(Inside(st, field, before)) && "value" in r && Obj(r).Field("elementType").Num?
    ensures var m, w := Context(st).fields, Decode(r["elementType"].n, r["value"]);
      Perform(Fill(st, rest, m[field := Obj(r)]), CloseResult(Top(Inside(st, field, before)), Top(st), field, done)) ==
        AfterEvent(Fill(st, rest, m[field := Obj(r["value" := w])]), Top(st), field, done)
  {
    hide Load, Store, Live, AfterEvent;
    DecodedInside(st, field, before, r, Decode(r["elementType"].n, r["value"]), rest);
  }

  lemma ResultReads()
    ensures SlotReads([Slot(ShortK, "t")] + DOCUMENT_SLOTS) == [Read(ShortK, "t", Plain)] + DOCUMENT_READS
  {
    DocumentReads([]);
    var slots := [Slot(ShortK, "t")] + DOCUMENT_SLOTS;
    assert slots[1..] == DOCUMENT_SLOTS;
  }

  /** The reads in front of the value, and the closure of the read of the value. */
  function ValueSlots(kind: Byte): seq<Slot> {
    if kind == 4 then [] else [Slot(ShortK, "t")] + DOCUMENT_SLOTS
  }

  function ValueAfter(kind: Byte, rest: seq<ReadOp>, home: Ref, field: string, done: EventDone): After {
    if kind == 4 then ResultProjection(rest, home, field, done) else ResultDocument(rest, home, field, done)
  }

  /** Into the object of the result and past the type of its element. */
  lemma TypeTurns(st: OpState, b: seq<Byte>, field: string, done: EventDone, rest: seq<ReadOp>)
    requires Ready(st) && st.readOps == [ReadResult(field, done)] + rest
    ensures b == [] ==> Blocks(st, b)
    ensures var inner := Inside(st, field, []);
      && Ready(inner)
      && (b != [] ==>
            var ops := SlotReads(ValueSlots(b[0])) + ([Read(BytesK, "value", ValueAfter(b[0], rest, Top(st), field, done))] + []);
            Reaches(st, b, Fill(inner, ops, map["elementType" := Num(b[0])]), 1))
  {
    hide Run, Load, Store, Live, Weight;
    var ops := [Read(ByteK, "elementType", ResultType(rest, Top(st), field, done))];
    var inner := Inside(st, field, ops);
    OneTurn(st, b);
    assert st.readOps[1..] == rest;
    SetFieldFills(st.(readOps := rest), field, Obj(map[]));
    DecodedInside(st, field, ops, map[], Null, []);
    DecodedInside(st, field, [], map[], Null, []);
    assert b[0..] == b;
    assert Reaches(st, b, inner, 0);
    assert ops == ops + [];
    LastRead(inner, b, ByteK, "elementType", ResultType(rest, Top(st), field, done), []);
    if b != [] {
      var none: Fields := map[];
      var m := none["elementType" := Num(b[0])];
      assert m == map["elementType" := Num(b[0])];
      FillAgain(inner, [], m, [], m);
      ResultReads();
      var last := [Read(BytesK, "value", ValueAfter(b[0], rest, Top(st), field, done))];
      var next := SlotReads(ValueSlots(b[0])) + (last + []);
      assert AfterRead(Fill(inner, [], m), "elementType", ResultType(rest, Top(st), field, done)) == Fill(inner, next, m);
      Onward(st, b, inner, 0, Fill(inner, next, m), 1);
    } else {
      Onward(st, b, inner, 0, inner, 0);
    }
  }

  /** A result: its decoded content lands in the field, and the saved reads are back. */
  lemma RunEventData(st: OpState, b: seq<Byte>, field: string, done: EventDone, rest: seq<ReadOp>)
    requires Ready(st) && st.readOps == [ReadResult(field, done)] + rest
    requires rest == [] || Resumed(done) == []
    ensures var p := ParseResult(b);
      && (p.Short? ==> Blocks(st, b))
      && (p.Done? ==> Reaches(st, b, Fill(st, Resumed(done) + rest, Context(st).fields[field := p.value]), p.used))
  {
    hide Run, Load, Store, Live, Weight, AfterRead, ParseSlots, Decode;
    TypeTurns(st, b, field, done, rest);
    if b != [] {
      var inner := Inside(st, field, []);
      var kind: Byte := b[0];
      var m: Fields := map["elementType" := Num(kind)];
      var after := ValueAfter(kind, rest, Top(st), field, done);
      var slots, last := ValueSlots(kind), Slot(BytesK, "value");
      var ops := SlotReads(slots) + ([Read(BytesK, "value", after)] + []);
      var s := Fill(inner, ops, m);
      FillAgain(inner, ops, m, ops, m);
      assert slots + [last] == ResultSlots(kind);
      SlotsThen(s, b[1..], slots, last, after, []);
      var q := ParseSlots(ResultSlots(kind), map[], b[1..]);
      if q.Done? {
        var r := m + q.value;
        FillAgain(inner, ops, m, [], r);
        ValuePresent(kind, b[1..]);
        ValueClosed(st, b[1..][q.used..], field, done, r, kind, rest);
        var t := AfterRead(Fill(inner, [], r), "value", after);
        var end := Fill(st, Resumed(done) + rest, Context(st).fields[field := Decode(kind, r["value"])]);
        TwoLegs(st, b, s, 1, t, q.used);
        assert b[1..][q.used..] == b[1 + q.used..];
        TwoLegs(st, b, t, 1 + q.used, end, 0);
      } else {
        Onward(st, b, s, 1, s, 0);
      }
    }
  }

  lemma ValuePresent(kind: Byte, b: seq<Byte>)
    ensures var q := ParseSlots(ResultSlots(kind), map[], b);
      q.Done? ==> "value" in q.value && "elementType" !in q.value
  {
    hide ParseSlots;
    SlotsPresent(ResultSlots(kind), map[], b);
    SlotKeys(ResultSlots(kind), map[], b, "elementType");
    assert Slot(BytesK, "value") in ResultSlots(kind);
  }

  lemma ValueClosed(st: OpState, b: seq<Byte>, field: string, done: EventDone, r: Fields, kind: Byte, rest: seq<ReadOp>)
    requires Ready(st) && "value" in r && Obj(r).Field("elementType") == Num(kind)
    requires rest == [] || Resumed(done) == []
    ensures var inner := Inside(st, field, []);
      && Ready(inner)
      && Reaches(AfterRead(Fill(inner, [], r), "value", ValueAfter(kind, rest, Top(st), field, done)), b,
           Fill(st, Resumed(done) + rest, Context(st).fields[field := Decode(kind, r["value"])]), 0)
  {
    hide Run, Load, Store, Live, Weight, AfterRead, Decode;
    DecodedInside(st, field, [], r, Null, []);
    assert b[0..] == b;
    if kind == 4 {
      AfterProjection(st, field, done, [], r, rest);
    } else {
      CloseTurn(st, field, done, [], r, rest, b);
      assert Resumed(done) + rest == rest + Resumed(done);
    }
  }

  // ---- the machine reads events ------------------------------------------

  const EVENT_ITEM: seq<ReadOp> := [Read(ByteK, "type", EventType)]

  /** The type of an event decides what is read next; the reads behind the event are saved. */
  lemma EventTurn(st: OpState, b: seq<Byte>, rest: seq<ReadOp>)
    requires Ready(st) && Context(st) == Obj(map[]) && st.readOps == EVENT_ITEM + rest
    ensures b == [] ==> Blocks(st, b)
    ensures b != [] ==>
      var update := b[0] == 2;
      var later := if update then [ReadResult("before", BeforeDone(rest))] else [];
      Reaches(st, b, Fill(st, [ReadResult("data", DataDone(update, rest))] + later, map["type" := Num(b[0])]), 1)
  {
    hide Run, Load, Store, Live, Weight;
    LastRead(st, b, ByteK, "type", EventType, rest);
    if b != [] {
      var none: Fields := map[];
      var m := none["type" := Num(b[0])];
      assert m == map["type" := Num(b[0])];
      FillAgain(st, rest, m, rest, m);
    }
  }

  lemma RunEvent(st: OpState, b: seq<Byte>, rest: seq<ReadOp>)
    requires Ready(st) && Context(st) == Obj(map[]) && st.readOps == EVENT_ITEM + rest
    ensures Follows(st, b, ParseEvent(b), rest)
  {
    hide Run, Load, Store, Live, Weight, ParseResult;
    EventTurn(st, b, rest);
    if b != [] {
      var update := b[0] == 2;
      var done := DataDone(update, rest);
      var later := if update then [ReadResult("before", BeforeDone(rest))] else [];
      var m: Fields := map["type" := Num(b[0])];
      var ops := [ReadResult("data", done)] + later;
      var s := Fill(st, ops, m);
      FillAgain(st, ops, m, ops, m);
      RunEventData(s, b[1..], "data", done, later);
      var p := ParseResult(b[1..]);
      if p.Done? {
        var m1 := m["data" := p.value];
        assert m1 == map["type" := Num(b[0]), "data" := p.value];
        FillAgain(st, ops, m, Resumed(done) + later, m1);
        assert b[1..][p.used..] == b[1 + p.used..];
        TwoLegs(st, b, s, 1, Fill(st, Resumed(done) + later, m1), p.used);
        if update {
          assert [] + later == later && later == [ReadResult("before", BeforeDone(rest))] + [];
          BeforeRead(st, b, m1, rest, 1 + p.used);
        } else {
          assert rest + [] == rest;
        }
      } else {
        Onward(st, b, s, 1, s, 0);
      }
    }
  }

  lemma BeforeRead(st: OpState, b: seq<Byte>, m: Fields, rest: seq<ReadOp>, n: nat)
    requires Ready(st) && n <= |b|
    requires Reaches(st, b, Fill(st, [ReadResult("before", BeforeDone(rest))], m), n)
    ensures var p := ParseResult(b[n..]);
      && (p.Short? ==> Blocks(st, b))
      && (p.Done? ==> Reaches(st, b, Fill(st, rest, m["before" := p.value]), n + p.used))
  {
    hide Run, Load, Store, Live, Weight, ParseResult;
    var ops := [ReadResult("before", BeforeDone(rest))];
    var s := Fill(st, ops, m);
    FillAgain(st, ops, m, ops, m);
    assert ops == ops + [];
    RunEventData(s, b[n..], "before", BeforeDone(rest), []);
    var p := ParseResult(b[n..]);
    if p.Done? {
      assert rest + [] == rest;
      FillAgain(st, ops, m, rest, m["before" := p.value]);
      TwoLegs(st, b, s, n, Fill(st, rest, m["before" := p.value]), p.used);
    } else {
      Onward(st, b, s, n, s, 0);
    }
  }

  lemma OneEvent(st: OpState, done: seq<Value>, n: nat, b: seq<Byte>, rest: seq<ReadOp>)
    requires Ready(st) && |done| < n
    ensures FollowsItem(st, "events", done, n, EVENT_ITEM, b, ParseEvent(b), rest)
  {
    hide Run, Step, Load, Store, Live, Ending, ParseEvent, AtItem, Context;
    var s := AtItem(st, "events", done, n, EVENT_ITEM, rest);
    var p := ParseEvent(b);
    var r: Fields := if p.Done? then p.value else map[];
    var inner, later := NextItem(st, "events", done, n, EVENT_ITEM, b, rest, r, if p.Done? then b[p.used..] else []);
    assert b[0..] == b;
    RunEvent(inner, b, later);
    if p.Done? {
      TwoLegs(s, b, inner, 0, Fill(inner, later, r), p.used);
      TwoLegs(s, b, Fill(inner, later, r), p.used, AtItem(st, "events", done + [Obj(r)], n, EVENT_ITEM, rest), 0);
    } else {
      Onward(s, b, inner, 0, inner, 0);
    }
  }

  lemma {:induction false} RunEvents(st: OpState, done: seq<Value>, n: nat, b: seq<Byte>, rest: seq<ReadOp>)
    requires Ready(st) && |done| <= n
    ensures FollowsItems(st, "events", done, n, EVENT_ITEM, b, ParseEvents(n - |done|, b), rest)
    decreases n - |done|
  {
    hide Run, Step, Load, Store, Live, Ending, ParseEvent, AtItem, Context;
    if |done| == n {
      NoItemLeft(st, "events", done, EVENT_ITEM, b, rest);
    } else {
      OneEvent(st, done, n, b, rest);
      var p := ParseEvent(b);
      if p.Done? {
        var s := AtItem(st, "events", done, n, EVENT_ITEM, rest);
        var next := AtItem(st, "events", done + [Obj(p.value)], n, EVENT_ITEM, rest);
        RunEvents(st, done + [Obj(p.value)], n, b[p.used..], rest);
        var q := ParseEvents(n - |done| - 1, b[p.used..]);
        if q.Done? {
          assert done + [Obj(p.value)] + q.value == done + ([Obj(p.value)] + q.value);
          TwoLegs(s, b, next, p.used, Fill(st, rest, Context(st).fields["events" := Arr(done + ([Obj(p.value)] + q.value))]), q.used);
        } else {
          Onward(s, b, next, p.used, next, 0);
        }
      }
    }
  }

  /** The events of a push: the machine fills the list with what the parser makes of them. */
  lemma RunEventList(st: OpState, b: seq<Byte>, rest: seq<ReadOp>)
    requires Ready(st) && st.readOps == [ReadArray("events", "eventsSize", EVENT_ITEM)] + rest
    ensures var p := ParseEvents(CountOf(Context(st).Field("eventsSize")), b);
      && (p.Short? ==> Blocks(st, b))
      && (p.Done? ==> Reaches(st, b, Fill(st, rest, Context(st).fields["events" := Arr(p.value)]), p.used))
  {
    hide Run, Step, Load, Store, Live, Ending, AtItem, ParseEvents;
    EnterArray(st, b, "events", "eventsSize", EVENT_ITEM, rest);
    var n := CountOf(Context(st).Field("eventsSize"));
    var s := AtItem(st, "events", [], n, EVENT_ITEM, rest);
    assert b[0..] == b;
    RunEvents(st, [], n, b, rest);
    var p := ParseEvents(n, b);
    if p.Done? {
      assert [] + p.value == p.value;
      TwoLegs(st, b, s, 0, Fill(st, rest, Context(st).fields["events" := Arr(p.value)]), p.used);
    } else {
      Onward(st, b, s, 0, s, 0);
    }
  }
}
