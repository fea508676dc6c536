/** Records with an unknown class identifier: when a reply is cut by one, and what the request then gets. */
module LostRecords {
  import opened Bytes
  import opened Values
  import opened ReadMachine
  import opened ReplyParser
  import opened Refinement
  import opened ErrorReplies
  import opened Replies

  /** A record that starts here has a class identifier below -3. */
  predicate UnknownClass(b: seq<Byte>) {
    |b| >= 2 && ReadInt16(b) < -3
  }

  lemma RecordLostIff(b: seq<Byte>)
    ensures ParseRecord(b).Lost? <==> UnknownClass(b)
    ensures ParseRecord(b).Lost? ==> ParseRecord(b).used == 2
  {
  }

  // ---- where the records of a reply start --------------------------------

  function Shifted(starts: seq<nat>, n: nat): seq<nat> {
    if starts == [] then [] else [starts[0] + n] + Shifted(starts[1..], n)
  }

  /** The places at which the records of a collection start, as far as the reader gets. */
  function CollectionStarts(n: nat, b: seq<Byte>): seq<nat> {
    if n == 0 then []
    else
      [0] + match ParseRecord(b)
        case Done(_, u) => Shifted(CollectionStarts(n - 1, b[u..]), u)
        case _ => []
  }

  function ItemStarts(n: nat, item: seq<Field>, b: seq<Byte>): seq<nat>
    decreases item, 1, n
  {
    if n == 0 then []
    else
      FieldsStarts(item, map[], b) +
      match ParseFields(item, map[], b)
      case Done(_, u) => Shifted(ItemStarts(n - 1, item, b[u..]), u)
      case _ => []
  }

  function FieldStarts(f: Field, m: Fields, b: seq<Byte>): seq<nat>
    decreases f, 0
  {
    match f
    case List(_, count, item) => ItemStarts(CountOf(Obj(m).Field(count)), item, b)
    case Record(_) => [0]
    case Records(_) => if |b| < 4 then [] else Shifted(CollectionStarts(CountOf(Num(ReadInt32(b))), b[4..]), 4)
    case _ => []
  }

  function FieldsStarts(fs: seq<Field>, m: Fields, b: seq<Byte>): seq<nat>
    decreases fs, 0
  {
    if fs == [] then []
    else
      FieldStarts(fs[0], m, b) +
      match ParseField(fs[0], m, b)
      case Done(m1, u) => Shifted(FieldsStarts(fs[1..], m1, b[u..]), u)
      case _ => []
  }

  ghost predicate AnyUnknown(starts: seq<nat>, b: seq<Byte>) {
    exists n :: n in starts && n <= |b| && UnknownClass(b[n..])
  }

  lemma {:induction false} ShiftedHas(starts: seq<nat>, n: nat, k: nat)
    ensures k in Shifted(starts, n) <==> k >= n && k - n in starts
    decreases |starts|
  {
    if starts != [] {
      ShiftedHas(starts[1..], n, k);
      assert starts == [starts[0]] + starts[1..];
    }
  }

  lemma UnknownShifted(starts: seq<nat>, n: nat, b: seq<Byte>)
    requires n <= |b|
    ensures AnyUnknown(Shifted(starts, n), b) <==> AnyUnknown(starts, b[n..])
  {
    hide UnknownClass;
    forall k: nat ensures k in Shifted(starts, n) <==> k >= n && k - n in starts {
      ShiftedHas(starts, n, k);
    }
    if AnyUnknown(starts, b[n..]) {
      var k :| k in starts && k <= |b[n..]| && UnknownClass(b[n..][k..]);
      assert b[n..][k..] == b[n + k..];
      assert (n + k) - n == k && n + k in Shifted(starts, n);
    }
    if AnyUnknown(Shifted(starts, n), b) {
      var k :| k in Shifted(starts, n) && k <= |b| && UnknownClass(b[k..]);
      assert b[n..][k - n..] == b[k..];
    }
  }

  lemma UnknownInSum(s: seq<nat>, t: seq<nat>, b: seq<Byte>)
    ensures AnyUnknown(s + t, b) <==> AnyUnknown(s, b) || AnyUnknown(t, b)
  {
    hide UnknownClass;
  }

  lemma UnknownAtStart(b: seq<Byte>)
    ensures AnyUnknown([0], b) <==> UnknownClass(b)
    ensures !AnyUnknown([], b)
  {
    hide UnknownClass;
    assert b[0..] == b;
    assert 0 in [0];
  }

  // ---- a parse loses the rest exactly there ------------------------------

  lemma {:induction false} CollectionLostIff(n: nat, b: seq<Byte>)
    ensures ParseRecords(n, b).Lost? <==> AnyUnknown(CollectionStarts(n, b), b)
    decreases n
  {
    hide ParseRecord, AnyUnknown, Shifted;
    UnknownAtStart(b);
    if n > 0 {
      RecordLostIff(b);
      var p := ParseRecord(b);
      if p.Done? {
        var later := CollectionStarts(n - 1, b[p.used..]);
        CollectionLostIff(n - 1, b[p.used..]);
        UnknownShifted(later, p.used, b);
        UnknownInSum([0], Shifted(later, p.used), b);
      } else {
        assert [0] + [] == [0];
      }
    }
  }

  lemma {:induction false} ItemsLostIff(n: nat, item: seq<Field>, b: seq<Byte>)
    ensures ParseItems(n, item, b).Lost? <==> AnyUnknown(ItemStarts(n, item, b), b)
    decreases item, 1, n
  {
    hide ParseFields, AnyUnknown, Shifted, FieldsStarts;
    UnknownAtStart(b);
    if n > 0 {
      FieldsLostIff(item, map[], b);
      var p := ParseFields(item, map[], b);
      var own := FieldsStarts(item, map[], b);
      if p.Done? {
        var later := ItemStarts(n - 1, item, b[p.used..]);
        ItemsLostIff(n - 1, item, b[p.used..]);
        UnknownShifted(later, p.used, b);
        UnknownInSum(own, Shifted(later, p.used), b);
      } else {
        assert own + [] == own;
      }
    }
  }

  lemma {:induction false} FieldLostIff(f: Field, m: Fields, b: seq<Byte>)
    ensures ParseField(f, m, b).Lost? <==> AnyUnknown(FieldStarts(f, m, b), b)
    decreases f, 0
  {
    hide ParseSlots, ParseRecord, ParseRecords, ParseItems, AnyUnknown, Shifted, ItemStarts, CollectionStarts;
    UnknownAtStart(b);
    match f
    case List(_, count, item) => ItemsLostIff(CountOf(Obj(m).Field(count)), item, b);
    case Record(_) => RecordLostIff(b);
    case Records(_) =>
      if |b| >= 4 {
        var n := CountOf(Num(ReadInt32(b)));
        CollectionLostIff(n, b[4..]);
        UnknownShifted(CollectionStarts(n, b[4..]), 4, b);
      }
    case _ =>
  }

  lemma {:induction false} FieldsLostIff(fs: seq<Field>, m: Fields, b: seq<Byte>)
    ensures ParseFields(fs, m, b).Lost? <==> AnyUnknown(FieldsStarts(fs, m, b), b)
    decreases fs, 0
  {
    hide ParseField, AnyUnknown, Shifted, FieldStarts;
    UnknownAtStart(b);
    if fs != [] {
      FieldLostIff(fs[0], m, b);
      var p := ParseField(fs[0], m, b);
      var own := FieldStarts(fs[0], m, b);
      if p.Done? {
        var later := FieldsStarts(fs[1..], p.value, b[p.used..]);
        FieldsLostIff(fs[1..], p.value, b[p.used..]);
        UnknownShifted(later, p.used, b);
        UnknownInSum(own, Shifted(later, p.used), b);
      } else {
        assert own + [] == own;
      }
    }
  }

  /** A reply is cut exactly when its status lets the declared fields be read and a record the reader gets to has an unknown class. */
  lemma CutIff(body: seq<Field>, b: seq<Byte>)
    ensures ParseReply(body, b).Cut? <==>
      var s := ParseSlots(STATUS_SLOTS, map[], b);
      s.Done? && Obj(s.value).Field("code") != Num(1) &&
        AnyUnknown(FieldsStarts(body, map["status" := Obj(s.value)], b[s.used..]), b[s.used..])
  {
    hide ParseSlots, ParseFields, ParseRefusal, AnyUnknown, FieldsStarts;
    var s := ParseSlots(STATUS_SLOTS, map[], b);
    if s.Done? {
      FieldsLostIff(body, map["status" := Obj(s.value)], b[s.used..]);
    }
  }

  // ---- what the request gets ---------------------------------------------

  /** The record read first has an unknown class: two bytes are used and nothing is left to read. */
  lemma CutRun(name: string, rest: seq<ReadOp>, m: Fields, b: seq<Byte>)
    requires UnknownClass(b) && !Obj(m).Field(name).Arr?
    ensures var st := OpState(Reading, [ReadRecord(name)] + rest, [ROOT], [Obj(m)]);
      var result := Obj(m[name := Obj(map["classId" := Num(ReadInt16(b))])]);
      && Run(st, b).used == 2
      && Run(st, b).outcome ==
           if result.Field("status").Field("code").Truthy() then Failed(result) else Complete(result)
  {
    hide Run, Weight;
    var st := OpState(Reading, [ReadRecord(name)] + rest, [ROOT], [Obj(m)]);
    var id := Num(ReadInt16(b));
    var inner := OpState(Reading, [Read(ShortK, "classId", RecordClass(rest))], [ROOT, Ref(0, [Name(name)])],
      [Obj(m[name := Obj(map[])])]);
    assert st.readOps[1..] == rest;
    assert Below(ROOT, Name(name)) == Ref(0, [Name(name)]);
    assert Step(st, b) == Next(inner, 0);
    OneTurn(st, b);
    assert b[0..] == b;
    var last := OpState(Reading, [], inner.stack, [Obj(m[name := Obj(map["classId" := id])])]);
    assert inner.readOps[1..] == [];
    CutStep(name, rest, m, b);
    OneTurn(inner, b);
    EndOfReads(last, b[2..]);
  }

  lemma CutStep(name: string, rest: seq<ReadOp>, m: Fields, b: seq<Byte>)
    requires UnknownClass(b)
    ensures var stack := [ROOT, Ref(0, [Name(name)])];
      Step(OpState(Reading, [Read(ShortK, "classId", RecordClass(rest))], stack, [Obj(m[name := Obj(map[])])]), b) ==
        Next(OpState(Reading, [], stack, [Obj(m[name := Obj(map["classId" := Num(ReadInt16(b))])])]), 2)
  {
    hide Load, Store, Live;
    var none: Fields := map[];
    var id := Num(ReadInt16(b));
    RecordPlace(name, m, none, none["classId" := id]);
    RecordPlace(name, m, none["classId" := id], none);
    assert none["classId" := id] == map["classId" := id];
    var st := OpState(Reading, [Read(ShortK, "classId", RecordClass(rest))], [ROOT, Ref(0, [Name(name)])], [Obj(m[name := Obj(none)])]);
    assert st.readOps[1..] == [];
  }

  lemma RecordPlace(name: string, m: Fields, r: Fields, r2: Fields)
    ensures var roots, place := [Obj(m[name := Obj(r)])], Ref(0, [Name(name)]);
      && Live(roots, place) && Load(roots, place) == Obj(r)
      && Store(roots, place, Obj(r2)) == [Obj(m[name := Obj(r2)])]
  {
    var roots := [Obj(m[name := Obj(r)])];
    StoreBelow(roots, ROOT, Name(name), Obj(r2));
    assert Below(ROOT, Name(name)) == Ref(0, [Name(name)]);
    assert m[name := Obj(r)][name := Obj(r2)] == m[name := Obj(r2)];
  }

  lemma EndOfReads(st: OpState, b: seq<Byte>)
    requires st.readOps == []
    ensures Run(st, b) == RunResult(st, 0, Ending(st))
  {
  }

  /**
   * A request whose first declared field is a record of unknown class completes two bytes behind the status: its
   * object has the status and the identifier, and none of the other fields it declared.
   */
  lemma CutAnswer(name: string, more: seq<Field>, b: seq<Byte>)
    requires name != "status" && b != [] && b[0] != 3
    requires var s := ParseSlots(STATUS_SLOTS, map[], b);
      s.Done? && Obj(s.value).Field("code") == Num(0) && UnknownClass(b[s.used..])
    ensures var s := ParseSlots(STATUS_SLOTS, map[], b);
      var r := Consume(NewOperation(Declared([Record(name)] + more)), b);
      && r.used == s.used + 2
      && r.outcome == Complete(
           Obj(map["status" := Obj(s.value), name := Obj(map["classId" := Num(ReadInt16(b[s.used..]))])]))
  {
    hide Run, ParseSlots, Weight, Load, Store;
    var body := [Record(name)] + more;
    var s := ParseSlots(STATUS_SLOTS, map[], b);
    RunStatus(Compile(body), b);
    assert body[1..] == more && Compile(body) == [ReadRecord(name)] + Compile(more);
    var m: Fields := map["status" := Obj(s.value)];
    CutRun(name, Compile(more), m, b[s.used..]);
    var record := Obj(map["classId" := Num(ReadInt16(b[s.used..]))]);
    assert m[name := record] == map["status" := Obj(s.value), name := record];
    assert Consume(NewOperation(Declared(body)), b) == Run(Blank(Declared(body)), b);
  }

  /** A reply to a record and a count: after the status, a class identifier of -4; the count is never read. */
  lemma CountIsLost()
    ensures var b := FRESH_STATUS + [255, 252, 0, 0, 0, 7];
      var r := Consume(NewOperation(Declared([Record("record"), Scalar(IntK, "count")])), b);
      && r.used == 12 && r.outcome.Complete?
      && r.outcome.result.Field("count") == Undefined
      && r.outcome.result.Field("record") == Obj(map["classId" := Num(-4)])
  {
    hide Consume, Declared, ParseSlots;
    var b := FRESH_STATUS + [255, 252, 0, 0, 0, 7];
    FreshStatus([255, 252, 0, 0, 0, 7]);
    assert b[10..] == [255, 252, 0, 0, 0, 7];
    assert [Record("record")] + [Scalar(IntK, "count")] == [Record("record"), Scalar(IntK, "count")];
    assert "count" != "record" && "count" != "status";
    CutAnswer("record", [Scalar(IntK, "count")], b);
  }

  /** Status code 0, session 0, no token, and the number of the operation. */
  const FRESH_STATUS: seq<Byte> := [0, 0, 0, 0, 0, 255, 255, 255, 255, 5]

  lemma FreshStatus(rest: seq<Byte>)
    ensures ParseSlots(STATUS_SLOTS, map[], FRESH_STATUS + rest) ==
      Done(map["code" := Num(0), "sessionId" := Num(0), "token" := Null, "op" := Num(5)], 10)
  {
    hide ParseSlots;
    var b := FRESH_STATUS + rest;
    var none: Fields := map[];
    NextSlot(STATUS_SLOTS, none, b, Num(0), 1);
    var m1 := none["code" := Num(0)];
    NextSlot(STATUS_SLOTS[1..], m1, b[1..], Num(0), 4);
    var m2 := m1["sessionId" := Num(0)];
    assert b[1..][4..] == b[5..];
    NextSlot(STATUS_SLOTS[2..], m2, b[5..], Null, 4);
    var m3 := m2["token" := Null];
    assert b[5..][4..] == b[9..];
    NextSlot(STATUS_SLOTS[3..], m3, b[9..], Num(5), 1);
    assert b[9..][1..] == b[10..];
    assert STATUS_SLOTS[1..][1..] == STATUS_SLOTS[2..] && STATUS_SLOTS[2..][1..] == STATUS_SLOTS[3..];
    assert STATUS_SLOTS[3..][1..] == [];
    NoSlots(m3["op" := Num(5)], b[10..]);
    assert m3["op" := Num(5)] == map["code" := Num(0), "sessionId" := Num(0), "token" := Null, "op" := Num(5)];
  }
}
