/** Push frames of every kind: what is read, on an idle connection and in front of a request that waits. */
module Pushes {
  import opened Bytes
  import opened Values
  import opened ReadMachine
  import opened ReplyParser
  import opened Refinement
  import opened ErrorReplies
  import opened LiveEvents

  // ---- push frames read the simple way -----------------------------------

  const PUSH_SLOTS: seq<Slot> := [Slot(ByteK, "code"), Slot(ByteK, "pushType")]

  const CONFIG_FIELDS: seq<Field> :=
    [Scalar(IntK, "hostSize"), List("hosts", "hostSize", [Scalar(StringK, "address")])]

  const LIVE_SLOTS: seq<Slot> := [Slot(IntK, "monitorId"), Slot(ByteK, "status")]

  const LIVE_ERROR_SLOTS: seq<Slot> :=
    [Slot(IntK, "errorIdentifier"), Slot(IntK, "errorCode"), Slot(StringK, "errorMessage")]

  const EVENTS_SLOTS: seq<Slot> := [Slot(IntK, "eventsSize")]

  /** `Silent`: the error of a live query, which is read to its end and reported to nobody. */
  datatype Frame =
    | Unfinished
    | Reported(push: Push, fields: Fields, used: nat)
    | Silent(fields: Fields, used: nat)

  function Behind(f: Frame, n: nat): Frame {
    match f
    case Unfinished => Unfinished
    case Reported(push, m, k) => Reported(push, m, n + k)
    case Silent(m, k) => Silent(m, n + k)
  }

  predicate FrameFits(f: Frame, b: seq<Byte>) {
    f.Unfinished? || f.used <= |b|
  }

  function ParseConfig(m: Fields, b: seq<Byte>): (f: Frame)
    ensures FrameFits(f, b)
  {
    match ParseFields(CONFIG_FIELDS, m, b)
    case Done(r, n) => Reported(Config(Obj(r).Field("hosts")), r, n)
    case _ => Unfinished
  }

  function LivePushOf(m: Fields): Push {
    if Obj(m).Field("status") == Num(1) then LiveResult(Obj(m)) else LiveEnd(Obj(m).Field("monitorId"))
  }

  function ParseEventList(m: Fields, b: seq<Byte>): (f: Frame)
    ensures FrameFits(f, b)
  {
    match ParseSlots(EVENTS_SLOTS, m, b)
    case Done(h, n) =>
      (match ParseEvents(CountOf(Obj(h).Field("eventsSize")), b[n..])
       case Done(xs, k) => Reported(LivePushOf(h["events" := Arr(xs)]), h["events" := Arr(xs)], n + k)
       case _ => Unfinished)
    case _ => Unfinished
  }

  function ParseLiveError(m: Fields, b: seq<Byte>): (f: Frame)
    ensures FrameFits(f, b)
  {
    match ParseSlots(LIVE_ERROR_SLOTS, m, b)
    case Done(e, n) => Silent(e, n)
    case _ => Unfinished
  }

  function AfterStatus(h: Fields, b: seq<Byte>): (f: Frame)
    ensures FrameFits(f, b)
  {
    if Obj(h).Field("status") == Num(3) then ParseLiveError(h, b) else ParseEventList(h, b)
  }

  function ParseLive(m: Fields, b: seq<Byte>): (f: Frame)
    ensures FrameFits(f, b)
  {
    match ParseSlots(LIVE_SLOTS, m, b)
    case Done(h, n) => Behind(AfterStatus(h, b[n..]), n)
    case _ => Unfinished
  }

  function ParsePush(b: seq<Byte>): (f: Frame)
    ensures FrameFits(f, b)
    ensures f.Unfinished? || f.used >= 2
  {
    if |b| < 2 then Unfinished
    else
      var m := map["code" := Num(b[0]), "pushType" := Num(b[1])];
      Behind(if b[1] == 81 then ParseLive(m, b[2..]) else ParseConfig(m, b[2..]), 2)
  }

  predicate AnnouncesPush(b: seq<Byte>) {
    b != [] && b[0] == 3
  }

  // ---- what an operation is left with ------------------------------------

  /** The operation after a push: without the reads it had before, and with the object of the push on top. */
  function Left(st: OpState, m: Fields, status: Status): OpState {
    OpState(status, [], st.stack + [Ref(|st.roots|, [])], st.roots + [Obj(m)])
  }

  /** The operation while it reads a push: the object of the push is on top. */
  function At(st: OpState, ops: seq<ReadOp>, m: Fields): OpState {
    OpState(Reading, ops, st.stack + [Ref(|st.roots|, [])], st.roots + [Obj(m)])
  }

  ghost predicate Tells(st: OpState, r: RunResult, f: Frame) {
    match f
    case Unfinished => r.outcome.Waiting?
    case Reported(push, m, n) => r == RunResult(Left(st, m, Pending), n, Pushed(push))
    case Silent(m, n) => r == RunResult(Left(st, m, Reading), n, Ending(Left(st, m, Reading)))
  }

  // ---- the machine -------------------------------------------------------

  /** The operation where a push starts to be read: its own reads are gone, a new object is on top. */
  lemma PushStart(st: OpState, ops: seq<ReadOp>, m: Fields)
    ensures var s := Start(st, 3);
      && Ready(s) && Context(s) == Obj(map[]) && s.readOps == PUSH_READS
      && Fill(s, ops, m) == At(st, ops, m)
      && Ready(Fill(s, ops, m)) && Context(Fill(s, ops, m)) == Obj(m)
  {
    var s := Start(st, 3);
    assert s.roots[|st.roots|] == Obj(map[]);
    assert s.roots[|st.roots| := Obj(m)] == st.roots + [Obj(m)];
  }

  /** From one place in the push to the next, both with the object of the push on top. */
  ghost predicate Leads(st: OpState, b: seq<Byte>, ops: seq<ReadOp>, m: Fields, n: nat) {
    Reaches(Start(st, 3), b, At(st, ops, m), n)
  }

  lemma PushReads()
    ensures PUSH_READS == SlotReads([Slot(ByteK, "code")]) + ([Read(ByteK, "pushType", PushType)] + [])
    ensures LIVE_READS == SlotReads([Slot(IntK, "monitorId")]) + ([Read(ByteK, "status", LiveStatus)] + [])
    ensures EVENT_READS == SlotReads(EVENTS_SLOTS) + ([ReadArray("events", "eventsSize", EVENT_ITEM)] + [Finish(LivePush)])
  {
    assert [Slot(ByteK, "code")][1..] == [] && [Slot(IntK, "monitorId")][1..] == [] && EVENTS_SLOTS[1..] == [];
  }

  lemma ConfigReads()
    ensures CONFIG_READS == Compile(CONFIG_FIELDS) + [Finish(ConfigPush)]
    ensures LIVE_ERROR_READS == SlotReads(LIVE_ERROR_SLOTS) + []
  {
    assert CONFIG_FIELDS[1..] == [List("hosts", "hostSize", [Scalar(StringK, "address")])];
    assert CONFIG_FIELDS[1..][1..] == [];
    var item: seq<Field> := [Scalar(StringK, "address")];
    assert item[1..] == [] && Compile(item) == [Read(StringK, "address", Plain)];
    assert Compile(CONFIG_FIELDS[1..]) == [ReadArray("hosts", "hostSize", [Read(StringK, "address", Plain)])];
    assert LIVE_ERROR_SLOTS[1..] == [Slot(IntK, "errorCode"), Slot(StringK, "errorMessage")];
    assert LIVE_ERROR_SLOTS[1..][1..] == [Slot(StringK, "errorMessage")];
    assert LIVE_ERROR_SLOTS[1..][1..][1..] == [];
    assert SlotReads(LIVE_ERROR_SLOTS[1..][1..]) == [Read(StringK, "errorMessage", Plain)];
  }

  lemma NoneLost(m: Fields, b: seq<Byte>)
    ensures !ParseFields(CONFIG_FIELDS, m, b).Lost?
  {
    hide ParseSlots;
    assert CONFIG_FIELDS[1..] == [List("hosts", "hostSize", [Scalar(StringK, "address")])];
    assert CONFIG_FIELDS[1..][1..] == [];
    var p := ParseSlots([Slot(IntK, "hostSize")], m, b);
    if p.Done? {
      AddressesNotLost(CountOf(Obj(p.value).Field("hostSize")), b[p.used..]);
    }
  }

  lemma {:induction false} AddressesNotLost(n: nat, b: seq<Byte>)
    ensures !ParseItems(n, [Scalar(StringK, "address")], b).Lost?
    decreases n
  {
    hide ParseSlots;
    var item: seq<Field> := [Scalar(StringK, "address")];
    assert item[1..] == [];
    if n > 0 {
      var p := ParseFields(item, map[], b);
      if p.Done? {
        AddressesNotLost(n - 1, b[p.used..]);
      }
    }
  }

  lemma SlotValues(b: seq<Byte>)
    requires b != []
    ensures var p := ParseSlots(PUSH_SLOTS, map[], b);
      if |b| == 1 then p == Short else p == Done(map["code" := Num(b[0]), "pushType" := Num(b[1])], 2)
  {
    assert PUSH_SLOTS[1..] == [Slot(ByteK, "pushType")] && PUSH_SLOTS[1..][1..] == [];
    if |b| > 1 {
      var tail := b[1..];
      var m: Fields := map["code" := Num(b[0])];
      var m2: Fields := map["code" := Num(b[0]), "pushType" := Num(b[1])];
      var none: Fields := map[];
      assert none["code" := Num(b[0])] == m && m["pushType" := Num(b[1])] == m2;
      assert ParseSlots([], m2, tail[1..]) == Done(m2, 0);
      assert ParseSlots([Slot(ByteK, "pushType")], m, tail) == Done(m2, 1);
    }
  }

  /** Two bytes, then the reads of the kind of push. */
  lemma PushTyped(st: OpState, b: seq<Byte>)
    requires AnnouncesPush(b)
    ensures |b| == 1 ==> Blocks(Start(st, 3), b)
    ensures |b| > 1 ==>
      Leads(st, b, if b[1] == 81 then LIVE_READS else CONFIG_READS, map["code" := Num(b[0]), "pushType" := Num(b[1])], 2)
  {
    hide Run, Load, Store, Live, ParseSlots;
    var s := Start(st, 3);
    var p := ParseSlots(PUSH_SLOTS, map[], b);
    PushStart(st, [], if p.Done? then p.value else map[]);
    PushReads();
    SlotValues(b);
    assert [Slot(ByteK, "code")] + [Slot(ByteK, "pushType")] == PUSH_SLOTS;
    SlotsThen(s, b, [Slot(ByteK, "code")], Slot(ByteK, "pushType"), PushType, []);
    if p.Done? {
      assert map[] + p.value == p.value;
      var ops := if b[1] == 81 then LIVE_READS else CONFIG_READS;
      var t := Fill(s, [], p.value);
      assert [] + ops == ops;
      assert AfterRead(t, "pushType", PushType) == t.(readOps := ops);
    }
  }

  /** Past slots and a closure, somewhere in the push. */
  lemma OnTop(st: OpState, ops: seq<ReadOp>, m: Fields, ops2: seq<ReadOp>, m2: Fields)
    ensures var s := At(st, ops, m);
      && Ready(s) && Context(s) == Obj(m)
      && s.readOps == ops && Fill(s, ops2, m2) == At(st, ops2, m2)
  {
    hide Load, Store, Live;
    PushStart(st, ops, m);
    PushStart(st, ops2, m2);
    FillAgain(Start(st, 3), ops, m, ops2, m2);
  }

  /** The end of a push that is reported. */
  lemma FinishPush(st: OpState, kind: PushKind, m: Fields, b: seq<Byte>)
    ensures var s := At(st, [Finish(kind)], m);
      Run(s, b) == RunResult(Left(st, m, Pending), 0,
        Outcome.Pushed(if kind.ConfigPush? then Config(Obj(m).Field("hosts")) else LivePushOf(m)))
  {
    hide AfterRead, CanRead, ReadValue, Weight, Load, Store, Live;
    OnTop(st, [Finish(kind)], m, [], m);
    OnTop(st, [], m, [], m);
    var s := At(st, [Finish(kind)], m);
    assert s.readOps[1..] == [];
    StepProgress(s, b);
  }

  lemma Ends(st: OpState, b: seq<Byte>, kind: PushKind, m: Fields, n: nat)
    requires AnnouncesPush(b) && n <= |b| && Leads(st, b, [Finish(kind)], m, n)
    ensures Run(Start(st, 3), b) == RunResult(Left(st, m, Pending), n,
      Outcome.Pushed(if kind.ConfigPush? then Config(Obj(m).Field("hosts")) else LivePushOf(m)))
  {
    hide Run, Load, Store, Live;
    FinishPush(st, kind, m, b[n..]);
  }

  lemma RunConfig(st: OpState, b: seq<Byte>, m: Fields, n: nat)
    requires AnnouncesPush(b) && n <= |b| && Leads(st, b, CONFIG_READS, m, n)
    ensures Tells(st, Run(Start(st, 3), b), Behind(ParseConfig(m, b[n..]), n))
  {
    hide Run, Load, Store, Live, ParseFields, Ending, At, Start, Fill, Ready, Context, Weight;
    var t := At(st, CONFIG_READS, m);
    ConfigReads();
    NoneLost(m, b[n..]);
    var p := ParseFields(CONFIG_FIELDS, m, b[n..]);
    OnTop(st, CONFIG_READS, m, [Finish(ConfigPush)], if p.Done? then p.value else m);
    RunFields(t, b[n..], CONFIG_FIELDS, [Finish(ConfigPush)]);
    if p.Done? {
      TwoLegs(Start(st, 3), b, t, n, Fill(t, [Finish(ConfigPush)], p.value), p.used);
      Ends(st, b, ConfigPush, p.value, n + p.used);
    } else {
      Onward(Start(st, 3), b, t, n, t, 0);
    }
  }

  lemma RunEventFrame(st: OpState, b: seq<Byte>, m: Fields, n: nat)
    requires AnnouncesPush(b) && n <= |b| && Leads(st, b, EVENT_READS, m, n)
    ensures Tells(st, Run(Start(st, 3), b), Behind(ParseEventList(m, b[n..]), n))
  {
    hide Run, Load, Store, Live, ParseSlots, ParseEvents, Ending, At, Start, Fill, Ready, Context, Weight, Tells, LivePushOf;
    var s, c := Start(st, 3), b[n..];
    var t := At(st, EVENT_READS, m);
    var ops := [ReadArray("events", "eventsSize", EVENT_ITEM)] + [Finish(LivePush)];
    PushReads();
    var p := ParseSlots(EVENTS_SLOTS, m, c);
    OnTop(st, EVENT_READS, m, ops, if p.Done? then p.value else m);
    RunSlots(t, c, EVENTS_SLOTS, ops);
    if p.Done? {
      TwoLegs(s, b, t, n, At(st, ops, p.value), p.used);
      assert c[p.used..] == b[n + p.used..];
      RunFrameEvents(st, b, p.value, n + p.used);
    } else {
      Onward(s, b, t, n, t, 0);
      Untold(st, Run(s, b));
    }
  }

  lemma RunFrameEvents(st: OpState, b: seq<Byte>, m: Fields, n: nat)
    requires AnnouncesPush(b) && n <= |b|
    requires Leads(st, b, [ReadArray("events", "eventsSize", EVENT_ITEM)] + [Finish(LivePush)], m, n)
    ensures var q := ParseEvents(CountOf(Obj(m).Field("eventsSize")), b[n..]);
      Tells(st, Run(Start(st, 3), b),
        if q.Done? then Reported(LivePushOf(m["events" := Arr(q.value)]), m["events" := Arr(q.value)], n + q.used) else Unfinished)
  {
    hide Run, Load, Store, Live, ParseEvents, Ending, At, Start, LivePushOf, Fill, Ready, Context, Weight;
    var ops := [ReadArray("events", "eventsSize", EVENT_ITEM)] + [Finish(LivePush)];
    var q := ParseEvents(CountOf(Obj(m).Field("eventsSize")), b[n..]);
    OnTop(st, ops, m, [Finish(LivePush)], if q.Done? then m["events" := Arr(q.value)] else m);
    RunEventList(At(st, ops, m), b[n..], [Finish(LivePush)]);
    if q.Done? {
      TwoLegs(Start(st, 3), b, At(st, ops, m), n, At(st, [Finish(LivePush)], m["events" := Arr(q.value)]), q.used);
      Ends(st, b, LivePush, m["events" := Arr(q.value)], n + q.used);
    } else {
      Onward(Start(st, 3), b, At(st, ops, m), n, At(st, ops, m), 0);
    }
  }

  lemma RunLiveError(st: OpState, b: seq<Byte>, m: Fields, n: nat)
    requires AnnouncesPush(b) && n <= |b| && Leads(st, b, LIVE_ERROR_READS, m, n)
    ensures Tells(st, Run(Start(st, 3), b), Behind(ParseLiveError(m, b[n..]), n))
  {
    hide Run, Load, Store, Live, ParseSlots, Ending, Start, Fill, Ready, Context, Weight;
    var s := Start(st, 3);
    var t := At(st, LIVE_ERROR_READS, m);
    ConfigReads();
    var p := ParseSlots(LIVE_ERROR_SLOTS, m, b[n..]);
    OnTop(st, LIVE_ERROR_READS, m, [], if p.Done? then p.value else m);
    RunSlots(t, b[n..], LIVE_ERROR_SLOTS, []);
    if p.Done? {
      TwoLegs(s, b, t, n, Left(st, p.value, Reading), p.used);
      NoReadsLeft(Left(st, p.value, Reading), b[n + p.used..]);
    } else {
      Onward(s, b, t, n, t, 0);
    }
  }

  lemma NoReadsLeft(st: OpState, b: seq<Byte>)
    requires st.readOps == []
    ensures Run(st, b) == RunResult(st, 0, Ending(st))
  {
  }

  function StatusReads(h: Fields): seq<ReadOp> {
    if Obj(h).Field("status") == Num(3) then LIVE_ERROR_READS else EVENT_READS
  }

  lemma StatusTurn(st: OpState, h: Fields)
    ensures AfterRead(At(st, [], h), "status", LiveStatus) == At(st, StatusReads(h), h)
  {
    hide Load, Store, Live;
    OnTop(st, [], h, [], h);
    assert [] + StatusReads(h) == StatusReads(h);
  }

  lemma RunLive(st: OpState, b: seq<Byte>, m: Fields, n: nat)
    requires AnnouncesPush(b) && n <= |b| && Leads(st, b, LIVE_READS, m, n)
    ensures Tells(st, Run(Start(st, 3), b), Behind(ParseLive(m, b[n..]), n))
  {
    hide Run, Load, Store, Live, ParseSlots, Ending, ParseLiveError, ParseEventList, At, Start, AfterRead, Tells, StatusReads, Fill, Ready, Context, Weight;
    var s, c := Start(st, 3), b[n..];
    var t := At(st, LIVE_READS, m);
    PushReads();
    var slots, last := [Slot(IntK, "monitorId")], Slot(ByteK, "status");
    assert slots + [last] == LIVE_SLOTS;
    SlotsMerge(LIVE_SLOTS, m, c);
    var p, q := ParseSlots(LIVE_SLOTS, m, c), ParseSlots(LIVE_SLOTS, map[], c);
    OnTop(st, LIVE_READS, m, [], if q.Done? then m + q.value else m);
    SlotsThen(t, c, slots, last, LiveStatus, []);
    if p.Done? {
      StatusTurn(st, p.value);
      TwoLegs(s, b, t, n, At(st, StatusReads(p.value), p.value), p.used);
      assert c[p.used..] == b[n + p.used..];
      RunAfterStatus(st, b, p.value, n + p.used);
      BehindTwice(AfterStatus(p.value, c[p.used..]), p.used, n);
    } else {
      Onward(s, b, t, n, t, 0);
      Untold(st, Run(s, b));
    }
  }

  lemma Untold(st: OpState, r: RunResult)
    ensures r.outcome.Waiting? ==> Tells(st, r, Unfinished)
  {}

  lemma RunAfterStatus(st: OpState, b: seq<Byte>, h: Fields, n: nat)
    requires AnnouncesPush(b) && n <= |b| && Leads(st, b, StatusReads(h), h, n)
    ensures Tells(st, Run(Start(st, 3), b), Behind(AfterStatus(h, b[n..]), n))
  {
    hide Run, ParseLiveError, ParseEventList, Tells, Leads;
    if Obj(h).Field("status") == Num(3) {
      RunLiveError(st, b, h, n);
    } else {
      RunEventFrame(st, b, h, n);
    }
  }

  lemma BehindTwice(f: Frame, n: nat, k: nat)
    ensures Behind(Behind(f, n), k) == Behind(f, k + n)
  {}

  /**
   * A push of any kind, wherever it arrives: the operation waits until the whole frame is there and then has used
   * exactly the frame. Configurations and events are reported; the error of a live query ends the operation instead.
   */
  lemma AnyPush(st: OpState, b: seq<Byte>)
    requires st.status.Pending? && AnnouncesPush(b)
    ensures Tells(st, Consume(st, b), ParsePush(b))
  {
    hide Run, Load, Store, Live, Ending, ParseLive, ParseConfig;
    PushTyped(st, b);
    assert Consume(st, b) == Run(Start(st, 3), b);
    if |b| > 1 {
      var m: Fields := map["code" := Num(b[0]), "pushType" := Num(b[1])];
      if b[1] == 81 {
        RunLive(st, b, m, 2);
      } else {
        RunConfig(st, b, m, 2);
      }
    }
  }
}
