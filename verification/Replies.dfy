/** A whole reply: the status, then either the declared fields or the error frame. */
module Replies {
  import opened Bytes
  import opened Values
  import opened ReadMachine
  import opened ReplyParser
  import opened Refinement
  import opened ErrorReplies

  /** `readStatus("status")` and then the reads of `body`. */
  function Declared(body: seq<Field>): seq<ReadOp> {
    [Nop(OpenStatus("status"))] + STATUS_READS + Compile(body)
  }

  datatype Reply =
    | Unfinished
    | Answered(fields: Fields, used: nat)
    | Rejected(status: Fields, refusal: Refusal, used: nat)
    | Cut(used: nat)

  function ParseReply(body: seq<Field>, b: seq<Byte>): (r: Reply)
    ensures r.Unfinished? || 0 < r.used <= |b|
    ensures r.Rejected? ==> |r.refusal.chain.exceptions| > 0
  {
    match ParseSlots(STATUS_SLOTS, map[], b)
    case Done(s, n) =>
      if Obj(s).Field("code") == Num(1) then
        (match ParseRefusal(b[n..])
         case Done(r, k) => Rejected(s, r, n + k)
         case _ => Unfinished)
      else
        (match ParseFields(body, map["status" := Obj(s)], b[n..])
         case Done(m, k) => Answered(m, n + k)
         case Short => Unfinished
         case Lost(k) => Cut(n + k))
    case _ => Unfinished
  }

  const ROOT: Ref := Ref(0, [])
  const STATUS: Ref := Ref(0, [Name("status")])

  function Blank(ops: seq<ReadOp>): OpState {
    OpState(Reading, ops, [ROOT], [Obj(map[])])
  }

  /** The operation when its status object has been read; it is still on top of the stack. */
  function InStatus(s: Fields, ops: seq<ReadOp>): OpState {
    OpState(Reading, ops, [ROOT, STATUS], [Obj(map["status" := Obj(s)])])
  }

  lemma InStatusFills(s: Fields, ops: seq<ReadOp>, ops2: seq<ReadOp>, s2: Fields)
    ensures var st := InStatus(s, ops);
      && Ready(st) && Context(st) == Obj(s) && Fill(st, ops2, s2) == InStatus(s2, ops2)
      && PopStack(st) == OpState(Reading, ops, [ROOT], [Obj(map["status" := Obj(s)])])
  {
    var roots := [Obj(map["status" := Obj(s)])];
    StoreBelow(roots, ROOT, Name("status"), Obj(s2));
    var m: Fields := map["status" := Obj(s)];
    assert m["status" := Obj(s2)] == map["status" := Obj(s2)];
    assert [ROOT, STATUS][..1] == [ROOT];
  }

  lemma OpenTurn(rest: seq<ReadOp>, b: seq<Byte>)
    ensures Reaches(Blank([Nop(OpenStatus("status"))] + rest), b, InStatus(map[], rest), 0)
  {
    var st := Blank([Nop(OpenStatus("status"))] + rest);
    OneTurn(st, b);
    assert st.readOps[1..] == rest;
    var m: Fields := map[];
    assert m["status" := Obj(map[])] == map["status" := Obj(map[])];
    var next := Perform(Blank(rest), OpenStatus("status"));
    assert Below(ROOT, Name("status")) == STATUS;
    assert next.stack == [ROOT, STATUS];
    assert next.roots == [Obj(map["status" := Obj(map[])])];
  }

  lemma RunStatus(rest: seq<ReadOp>, b: seq<Byte>)
    ensures var st := Blank([Nop(OpenStatus("status"))] + STATUS_READS + rest);
      var p := ParseSlots(STATUS_SLOTS, map[], b);
      && (p.Short? ==> Blocks(st, b))
      && (p.Done? ==> Reaches(st, b,
            if Obj(p.value).Field("code") == Num(1) then InStatus(p.value, [ReadError("error")])
            else OpState(Reading, rest, [ROOT], [Obj(map["status" := Obj(p.value)])]), p.used))
  {
    hide Run, Load, Store, Live, Weight, ParseSlots;
    var st := Blank([Nop(OpenStatus("status"))] + STATUS_READS + rest);
    var slots, last := [Slot(ByteK, "code"), Slot(IntK, "sessionId"), Slot(BytesK, "token")], Slot(ByteK, "op");
    assert slots + [last] == STATUS_SLOTS;
    assert slots[1..] == [Slot(IntK, "sessionId"), Slot(BytesK, "token")];
    assert slots[1..][1..] == [Slot(BytesK, "token")] && slots[1..][1..][1..] == [];
    assert SlotReads(slots[1..][1..]) == [Read(BytesK, "token", Plain)];
    var ops := SlotReads(slots) + ([Read(ByteK, "op", StatusNext)] + rest);
    assert STATUS_READS + rest == ops;
    assert [Nop(OpenStatus("status"))] + STATUS_READS + rest == [Nop(OpenStatus("status"))] + ops;
    OpenTurn(ops, b);
    assert b[0..] == b;
    var p := ParseSlots(STATUS_SLOTS, map[], b);
    InStatusFills(map[], ops, rest, if p.Done? then p.value else map[]);
    SlotsThen(InStatus(map[], ops), b, slots, last, StatusNext, rest);
    if p.Done? {
      assert map[] + p.value == p.value;
      InStatusFills(p.value, rest, [], map[]);
      Onward(st, b, InStatus(map[], ops), 0, AfterRead(InStatus(p.value, rest), "op", StatusNext), p.used);
    } else {
      Onward(st, b, InStatus(map[], ops), 0, st, 0);
    }
  }

  /** The result object of a refused operation. */
  function RejectedResult(s: Fields, r: Refusal): Value
    requires |r.chain.exceptions| > 0
  {
    Obj(map["status" := RefusedStatus(s, r)])
  }

  /** The status code survives whatever the error frame writes into the status object. */
  lemma RefusalIsFailure(s: Fields, r: Refusal, b: seq<Byte>)
    requires Obj(s).Field("code") == Num(1)
    requires ParseRefusal(b).Done? && ParseRefusal(b).value == r
    ensures var result := RejectedResult(s, r);
      result.Field("status").Field("code") == Num(1) && result.Field("status").Field("error").Obj?
  {
    hide CanRead, ReadValue, ReadSize, ParseSlots;
    var h := ParseSlots(ERROR_SLOTS, map[], b);
    NoCode(b[h.used..]);
    CodeStays(s, r);
  }

  lemma CodeStays(s: Fields, r: Refusal)
    requires |r.chain.exceptions| > 0
    requires "code" !in r.chain.trace && forall e :: e in r.chain.exceptions ==> "code" !in e
    ensures RejectedResult(s, r).Field("status").Field("code") == Obj(s).Field("code")
    ensures RejectedResult(s, r).Field("status").Field("error").Obj?
  {
    var x := r.chain.exceptions;
    assert |x| > 1 ==> x[1] in x;
  }

  lemma {:induction false} NoCode(b: seq<Byte>)
    ensures var p := ParseChain(b);
      p.Done? ==> "code" !in p.value.trace && forall e :: e in p.value.exceptions ==> "code" !in e
    decreases |b|
  {
    hide CanRead, ReadValue, ReadSize, ParseSlots;
    ChainCases(b);
    SlotKeys(EXCEPTION_SLOTS, map[], b, "code");
    var p := ParseSlots(EXCEPTION_SLOTS, map[], b);
    if p.Done? {
      assert p.used > 0 by { ExceptionTakesBytes(b); }
      SlotKeys([Slot(BytesK, "javaStackTrace")], map[], b[p.used..], "code");
      NoCode(b[p.used..]);
    }
  }

  /** Every exception that was read has a type. */
  lemma {:induction false} ChainHasTypes(b: seq<Byte>)
    ensures var p := ParseChain(b);
      p.Done? ==> forall e :: e in p.value.exceptions ==> Obj(e).Field("type") != Undefined
    decreases |b|
  {
    hide CanRead, ReadValue, ReadSize, ParseSlots;
    ChainCases(b);
    var p := ParseSlots(EXCEPTION_SLOTS, map[], b);
    if p.Done? {
      ExceptionTakesBytes(b);
      FirstHasType(b);
      ChainHasTypes(b[p.used..]);
    }
  }

  lemma FirstHasType(b: seq<Byte>)
    ensures var p := ParseSlots(EXCEPTION_SLOTS, map[], b); p.Done? ==> Obj(p.value).Field("type") != Undefined
  {
    hide ParseSlots;
    var slots := [Slot(StringK, "type")];
    var others := [Slot(StringK, "message"), Slot(ByteK, "hasMore")];
    assert EXCEPTION_SLOTS[1..] == others;
    assert EXCEPTION_SLOTS[0] == slots[0];
    if ParseSlots(EXCEPTION_SLOTS, map[], b).Done? {
      FirstSlot(EXCEPTION_SLOTS, map[], b);
    }
  }

  /** The value of a slot whose name comes only once. */
  lemma FirstSlot(slots: seq<Slot>, m: Fields, b: seq<Byte>)
    requires slots != [] && forall s :: s in slots[1..] ==> s.name != slots[0].name
    requires ParseSlots(slots, m, b).Done?
    ensures CanRead(slots[0].kind, b)
    ensures Obj(ParseSlots(slots, m, b).value).Field(slots[0].name) == ReadValue(slots[0].kind, b)
  {
    var name, v, n := slots[0].name, ReadValue(slots[0].kind, b), ReadSize(slots[0].kind, b);
    SlotsMerge(slots[1..], m[name := v], b[n..]);
    SlotKeys(slots[1..], map[], b[n..], name);
  }

  /** An exception of a chain, with the trace when it is the last. */
  function WithTrace(c: Chain, i: nat): Fields
    requires i < |c.exceptions|
  {
    if i == |c.exceptions| - 1 then c.exceptions[i] + c.trace else c.exceptions[i]
  }

  lemma {:induction false} OwnObjectsAre(c: Chain, i: nat)
    requires i < |c.exceptions|
    ensures |OwnObjects(c)| == |c.exceptions| && OwnObjects(c)[i] == Obj(WithTrace(c, i))
    decreases |c.exceptions|
  {
    if |c.exceptions| > 1 {
      OwnObjectsAre(Chain(c.exceptions[1..], c.trace), if i == 0 then 0 else i - 1);
    }
  }

  /**
   * Where the exceptions of a refusal end up: the first in the error object, the second in the status object. The
   * list has one element for each chained exception, but the first of them stays empty; from the third exception
   * on, each is the element made for it. The trace joins the last, wherever that is.
   */
  lemma PreviousOf(s: Fields, r: Refusal, i: nat)
    requires |r.chain.exceptions| > 0
    ensures var x, status := r.chain.exceptions, RejectedResult(s, r).Field("status");
      var list := status.Field("error").Field("previous");
      && list.Arr? && |list.items| == |x| - 1
      && (|x| == 1 ==> status == Tree(s + r.chain.trace, r.head + x[0], []))
      && (|x| > 1 ==> status == Tree(s + (if |x| == 2 then x[1] + r.chain.trace else x[1]), r.head + x[0], list.items))
      && (|x| > 1 ==> list.items[0] == Obj(map[]))
      && (0 < i < |x| - 1 ==> list.items[i] == Obj(WithTrace(r.chain, i + 1)))
  {
    var x, trace := r.chain.exceptions, r.chain.trace;
    if |x| == 2 {
      assert s + x[1] + trace == s + (x[1] + trace);
    }
    if |x| > 2 {
      var c := Chain(x[1..][1..], trace);
      OwnObjectsAre(c, if 0 < i < |x| - 1 then i - 1 else 0);
    }
  }

  /**
   * Each chained exception is reported with its own type exactly when nothing is chained: the `pop` queued
   * before the chain is read uncovers the status object, and the first chained exception is read into that.
   */
  lemma ChainReportedIff(s: Fields, b: seq<Byte>)
    requires ParseRefusal(b).Done?
    ensures var r := ParseRefusal(b).value;
      var x, list := r.chain.exceptions, RejectedResult(s, r).Field("status").Field("error").Field("previous");
      && list.Arr? && |list.items| == |x| - 1
      && ((forall i :: 0 <= i < |x| - 1 ==> list.items[i].Field("type") == Obj(x[i + 1]).Field("type")) <==> |x| == 1)
  {
    var r := ParseRefusal(b).value;
    var x := r.chain.exceptions;
    var h := ParseSlots(ERROR_SLOTS, map[], b);
    ChainHasTypes(b[h.used..]);
    if |x| > 1 {
      hide ParseChain, ParseSlots, OwnObjects, Landed;
      PreviousOf(s, r, 0);
      assert x[1] in x;
    }
  }

  lemma ExceptionTakesBytes(b: seq<Byte>)
    ensures var p := ParseSlots(EXCEPTION_SLOTS, map[], b); p.Done? ==> 0 < p.used <= |b|
  {}

  /** What `consume` returns for one reply. */
  ghost predicate Delivers(r: RunResult, reply: Reply)
    requires reply.Rejected? ==> |reply.refusal.chain.exceptions| > 0
  {
    match reply
    case Unfinished => r.outcome.Waiting?
    case Answered(m, n) =>
      r == RunResult(OpState(Reading, [], [ROOT], [Obj(m)]), n,
        if Obj(m).Field("status").Field("code").Truthy() then Failed(Obj(m)) else Complete(Obj(m)))
    case Rejected(s, x, n) =>
      r == RunResult(OpState(Reading, [], [ROOT], [RejectedResult(s, x)]), n, Failed(RejectedResult(s, x)))
    case Cut(n) => r.used == n && r.state.readOps == [] && r.outcome == Ending(r.state)
  }

  /**
   * For every declaration and all bytes that do not announce a push, `consume` delivers what the parser
   * says: the object, the number of bytes, nothing left to read and only the root on the stack.
   */
  lemma ConsumeReply(body: seq<Field>, b: seq<Byte>)
    requires b == [] || b[0] != 3
    ensures Delivers(Consume(NewOperation(Declared(body)), b), ParseReply(body, b))
  {
    if b == [] {
      assert ParseSlots(STATUS_SLOTS, map[], b).Short?;
    } else {
      var st := Blank(Declared(body));
      assert Consume(NewOperation(Declared(body)), b) == Run(st, b);
      RunStatus(Compile(body), b);
      RunReply(body, b);
    }
  }

  lemma RunReply(body: seq<Field>, b: seq<Byte>)
    ensures Delivers(Run(Blank(Declared(body)), b), ParseReply(body, b))
  {
    hide Run, Load, Store, Live, Weight, ParseSlots, ParseFields, ParseRefusal, Ending;
    var st := Blank(Declared(body));
    RunStatus(Compile(body), b);
    var p := ParseSlots(STATUS_SLOTS, map[], b);
    if p.Done? {
      if Obj(p.value).Field("code") == Num(1) {
        RunRejected(st, p.value, b, p.used);
      } else {
        RunAnswer(st, body, map["status" := Obj(p.value)], b, p.used);
      }
    }
  }

  lemma RunAnswer(st: OpState, body: seq<Field>, m: Fields, b: seq<Byte>, n: nat)
    requires n <= |b| && Reaches(st, b, OpState(Reading, Compile(body), [ROOT], [Obj(m)]), n)
    ensures Delivers(Run(st, b),
      match ParseFields(body, m, b[n..])
      case Done(f, k) => Answered(f, n + k)
      case Short => Unfinished
      case Lost(k) => Cut(n + k))
  {
    hide ParseFields, Run, Load, Store, Live, Ending;
    var t := OpState(Reading, Compile(body), [ROOT], [Obj(m)]);
    assert Compile(body) == Compile(body) + [];
    var p := ParseFields(body, m, b[n..]);
    OnRoot(Compile(body), m, if p.Done? then p.value else m);
    RunFields(t, b[n..], body, []);
    if p.Done? {
      var end := OpState(Reading, [], [ROOT], [Obj(p.value)]);
      TwoLegs(st, b, t, n, end, p.used);
      NothingLeft(p.value, b[n + p.used..]);
    }
  }

  lemma OnRoot(ops: seq<ReadOp>, m: Fields, m2: Fields)
    ensures var t := OpState(Reading, ops, [ROOT], [Obj(m)]);
      Ready(t) && Context(t) == Obj(m) && Fill(t, [], m2) == OpState(Reading, [], [ROOT], [Obj(m2)])
  {}

  lemma NothingLeft(m: Fields, b: seq<Byte>)
    ensures var end := OpState(Reading, [], [ROOT], [Obj(m)]);
      Run(end, b) == RunResult(end, 0,
        if Obj(m).Field("status").Field("code").Truthy() then Failed(Obj(m)) else Complete(Obj(m)))
  {}

  lemma RunRejected(st: OpState, s: Fields, b: seq<Byte>, n: nat)
    requires n <= |b| && Obj(s).Field("code") == Num(1)
    requires Reaches(st, b, InStatus(s, [ReadError("error")]), n)
    ensures var p := ParseRefusal(b[n..]);
      Delivers(Run(st, b), if p.Done? then Rejected(s, p.value, n + p.used) else Unfinished)
  {
    hide ParseRefusal, Run, Store, Live, Load, Ending, RefusedStatus;
    var t := InStatus(s, [ReadError("error")]);
    assert t.stack == [ROOT] + [STATUS];
    var p := ParseRefusal(b[n..]);
    StatusPlace(s, if p.Done? then RefusedStatus(s, p.value) else Null);
    RunRefusal([ROOT], t.roots, STATUS, s, b[n..]);
    if p.Done? {
      RefusalIsFailure(s, p.value, b[n..]);
      TwoLegs(st, b, t, n, OpState(Reading, [], [ROOT], [RejectedResult(s, p.value)]), p.used);
      NothingLeft(map["status" := RefusedStatus(s, p.value)], b[n + p.used..]);
    }
  }

  lemma StatusPlace(s: Fields, w: Value)
    ensures var roots := InStatus(s, []).roots;
      Live(roots, STATUS) && Load(roots, STATUS) == Obj(s) && Store(roots, STATUS, w) == [Obj(map["status" := w])]
  {
    var m: Fields := map["status" := Obj(s)];
    StoreBelow(InStatus(s, []).roots, ROOT, Name("status"), w);
    assert m["status" := w] == map["status" := w];
  }
}
