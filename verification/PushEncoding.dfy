/** The bytes of pushes, written from what they carry; a connection reports exactly that. */
module PushEncoding {
  import opened Bytes
  import opened Values
  import opened ReadMachine
  import opened ReplyParser
  import opened ErrorReplies
  import opened ReplyEncoding
  import opened LiveEvents
  import opened Protocol
  import opened Pushes
  import opened IdleConnections

  /** The data of an event: the type of its element, for a record what stands in front of its content, the content. */
  datatype ResultData = ResultData(kind: Byte, meta: seq<Value>, content: Value)

  /** `before` is there for an update, type 2. */
  datatype EventData = EventData(kind: Byte, data: ResultData, before: ResultData)

  datatype PushData =
    | NewHosts(pushType: Byte, hosts: seq<Value>)
    | Live(monitor: Int32, status: Byte, events: seq<EventData>)
    | LiveError(monitor: Int32, identifier: Int32, code: Int32, message: Value)

  // ---- events ------------------------------------------------------------

  predicate ResultFits(r: ResultData) {
    Writable(BytesK, r.content) && (r.kind != 4 ==> AllWritable([Slot(ShortK, "t")] + DOCUMENT_SLOTS, r.meta))
  }

  function EncodeResult(r: ResultData): seq<Byte>
    requires ResultFits(r)
  {
    [r.kind] + ((if r.kind == 4 then [] else EncodeSlots([Slot(ShortK, "t")] + DOCUMENT_SLOTS, r.meta)) + EncodeBlock(r.content))
  }

  /** What the deserializer makes of the content. */
  function ResultValue(r: ResultData): Value {
    if r.content.Raw? then Decoded(r.kind, r.content.bytes) else Null
  }

  predicate EventFits(e: EventData) {
    ResultFits(e.data) && (e.kind == 2 ==> ResultFits(e.before))
  }

  function EncodeEvent(e: EventData): seq<Byte>
    requires EventFits(e)
  {
    [e.kind] + (EncodeResult(e.data) + if e.kind == 2 then EncodeResult(e.before) else [])
  }

  function EventFields(e: EventData): Fields {
    if e.kind == 2 then map["type" := Num(2), "data" := ResultValue(e.data), "before" := ResultValue(e.before)]
    else map["type" := Num(e.kind), "data" := ResultValue(e.data)]
  }

  function EncodeEvents(es: seq<EventData>): seq<Byte>
    requires forall e :: e in es ==> EventFits(e)
  {
    if es == [] then [] else EncodeEvent(es[0]) + EncodeEvents(es[1..])
  }

  function EventValues(es: seq<EventData>): (vs: seq<Value>)
    ensures |vs| == |es| && forall i :: 0 <= i < |es| ==> vs[i] == Obj(EventFields(es[i]))
  {
    if es == [] then [] else [Obj(EventFields(es[0]))] + EventValues(es[1..])
  }

  function AllValues(r: ResultData): seq<Value> {
    (if r.kind == 4 then [] else r.meta) + [r.content]
  }

  lemma EncodedAsSlots(r: ResultData)
    requires ResultFits(r)
    ensures AllWritable(ResultSlots(r.kind), AllValues(r))
    ensures EncodeResult(r) == [r.kind] + EncodeSlots(ResultSlots(r.kind), AllValues(r))
    ensures Obj(SetSlots(ResultSlots(r.kind), AllValues(r), map[])).Field("value") == r.content
  {
    hide EncodeSlots, EncodeBlock, SetSlots, Writable;
    var slots := if r.kind == 4 then [] else [Slot(ShortK, "t")] + DOCUMENT_SLOTS;
    var vs, last := if r.kind == 4 then [] else r.meta, Slot(BytesK, "value");
    LastEncoded(slots, vs, last, r.content);
    LastSlot(slots, vs, last, r.content, map[]);
    assert slots + [last] == ResultSlots(r.kind);
    NoneEncoded();
    assert [] + EncodeBlock(r.content) == EncodeBlock(r.content);
  }

  lemma ResultRoundTrip(r: ResultData, rest: seq<Byte>)
    requires ResultFits(r)
    ensures ParseResult(EncodeResult(r) + rest) == Done(ResultValue(r), |EncodeResult(r)|)
  {
    hide ParseSlots, EncodeSlots, EncodeResult, SetSlots, AllValues, ResultSlots, AllWritable;
    EncodedAsSlots(r);
    var all := EncodeSlots(ResultSlots(r.kind), AllValues(r));
    var b := EncodeResult(r) + rest;
    assert b[0] == r.kind && b[1..] == all + rest;
    SlotsRoundTrip(ResultSlots(r.kind), AllValues(r), map[], rest);
  }

  lemma NoneEncoded()
    ensures EncodeSlots([], []) == []
  {}

  lemma {:induction false} LastEncoded(slots: seq<Slot>, vs: seq<Value>, last: Slot, v: Value)
    requires AllWritable(slots, vs) && last.kind.BytesK? && Writable(BytesK, v)
    ensures AllWritable(slots + [last], vs + [v])
    ensures EncodeSlots(slots + [last], vs + [v]) == EncodeSlots(slots, vs) + EncodeBlock(v)
    decreases |slots|
  {
    hide Writable, EncodeBlock;
    if slots == [] {
      assert slots + [last] == [last] && vs + [v] == [v];
      assert [last][1..] == [] && [v][1..] == [];
    } else {
      assert (slots + [last])[1..] == slots[1..] + [last] && (vs + [v])[1..] == vs[1..] + [v];
      LastEncoded(slots[1..], vs[1..], last, v);
      assert EncodeScalar(slots[0].kind, vs[0]) + (EncodeSlots(slots[1..], vs[1..]) + EncodeBlock(v)) ==
        EncodeSlots(slots, vs) + EncodeBlock(v);
    }
  }

  /** An event of any type is read back, an update with both its states. */
  lemma EventRoundTrip(e: EventData, rest: seq<Byte>)
    requires EventFits(e)
    ensures ParseEvent(EncodeEvent(e) + rest) == Done(EventFields(e), |EncodeEvent(e)|)
  {
    hide ParseResult, EncodeResult, ResultFits, ResultValue;
    var data := EncodeResult(e.data);
    var more := if e.kind == 2 then EncodeResult(e.before) else [];
    var b := EncodeEvent(e) + rest;
    assert b[1..] == data + (more + rest);
    ResultRoundTrip(e.data, more + rest);
    var m: Fields := map["type" := Num(e.kind), "data" := ResultValue(e.data)];
    if e.kind == 2 {
      assert b[1 + |data|..] == more + rest;
      ResultRoundTrip(e.before, rest);
      assert m["before" := ResultValue(e.before)] == EventFields(e);
    }
  }

  lemma {:induction false} EventsRoundTrip(es: seq<EventData>, rest: seq<Byte>)
    requires forall e :: e in es ==> EventFits(e)
    ensures ParseEvents(|es|, EncodeEvents(es) + rest) == Done(EventValues(es), |EncodeEvents(es)|)
    decreases |es|
  {
    hide ParseEvent, EncodeEvent, EventFits, EventFields;
    if es != [] {
      assert es[0] in es;
      var first, others := EncodeEvent(es[0]), EncodeEvents(es[1..]);
      assert EncodeEvents(es) + rest == first + (others + rest);
      assert (first + (others + rest))[|first|..] == others + rest;
      EventRoundTrip(es[0], others + rest);
      EventsRoundTrip(es[1..], rest);
    }
  }

  // ---- whole pushes ------------------------------------------------------

  function HostRows(hosts: seq<Value>): (rows: seq<Row>)
    ensures |rows| == |hosts| && forall i :: 0 <= i < |hosts| ==> rows[i] == Row([Leaf(hosts[i])])
  {
    if hosts == [] then [] else [Row([Leaf(hosts[0])])] + HostRows(hosts[1..])
  }

  function HostValues(hosts: seq<Value>): (vs: seq<Value>)
    ensures |vs| == |hosts| && forall i :: 0 <= i < |hosts| ==> vs[i] == Obj(map["address" := hosts[i]])
  {
    if hosts == [] then [] else [Obj(map["address" := hosts[0]])] + HostValues(hosts[1..])
  }

  predicate PushFits(p: PushData) {
    match p
    case NewHosts(t, hosts) => t != 81 && |hosts| < 0x8000_0000 && forall h :: h in hosts ==> Writable(StringK, h)
    case Live(_, status, events) => status != 3 && |events| < 0x8000_0000 && forall e :: e in events ==> EventFits(e)
    case LiveError(_, _, _, message) => Writable(StringK, message)
  }

  function EncodeHosts(hosts: seq<Value>): seq<Byte>
    requires forall h :: h in hosts ==> Writable(StringK, h)
  {
    if hosts == [] then [] else EncodeBlock(hosts[0]) + EncodeHosts(hosts[1..])
  }

  function EncodePush(p: PushData): seq<Byte>
    requires PushFits(p)
  {
    match p
    case NewHosts(t, hosts) => [3, t] + (EncodeInt32(|hosts|) + EncodeHosts(hosts))
    case Live(monitor, status, events) =>
      [3, 81] + (EncodeInt32(monitor) + [status] + (EncodeInt32(|events|) + EncodeEvents(events)))
    case LiveError(monitor, identifier, code, message) =>
      [3, 81] + (EncodeInt32(monitor) + [3] + (EncodeInt32(identifier) + EncodeInt32(code) + EncodeBlock(message)))
  }

  /** What the connection reports of it; the error of a live query is reported to nobody. */
  ghost predicate Says(e: Event, p: PushData)
    requires PushFits(p) && !p.LiveError?
  {
    match p
    case NewHosts(_, hosts) => e == UpdateConfig(Arr(HostValues(hosts)))
    case Live(monitor, status, events) =>
      if status == 1 then
        && e.LiveQueryResult? && e.result.Field("monitorId") == Num(monitor) && e.result.Field("status") == Num(1)
        && e.result.Field("events") == Arr(EventValues(events))
      else e == LiveQueryEnd(Num(monitor))
  }

  lemma {:induction false} HostsRoundTrip(hosts: seq<Value>, rest: seq<Byte>)
    requires forall h :: h in hosts ==> Writable(StringK, h)
    ensures ParseItems(|hosts|, [Scalar(StringK, "address")], EncodeHosts(hosts) + rest) ==
      Done(HostValues(hosts), |EncodeHosts(hosts)|)
    decreases |hosts|
  {
    hide EncodeBlock, Writable, ParseFields;
    if hosts != [] {
      assert hosts[0] in hosts;
      var first, others := EncodeBlock(hosts[0]), EncodeHosts(hosts[1..]);
      assert EncodeHosts(hosts) + rest == first + (others + rest);
      assert (first + (others + rest))[|first|..] == others + rest;
      HostRoundTrip(hosts[0], others + rest);
      HostsRoundTrip(hosts[1..], rest);
    }
  }

  lemma HostRoundTrip(host: Value, rest: seq<Byte>)
    requires Writable(StringK, host)
    ensures ParseFields([Scalar(StringK, "address")], map[], EncodeBlock(host) + rest) ==
      Done(map["address" := host], |EncodeBlock(host)|)
  {
    hide CanRead, ReadValue, ReadSize, EncodeBlock, Writable;
    var fs, slots := [Scalar(StringK, "address")], [Slot(StringK, "address")];
    assert fs[1..] == [] && slots[1..] == [];
    BlockRoundTrip(StringK, host, rest);
    var none: Fields := map[];
    assert none["address" := host] == map["address" := host];
    NextSlot(slots, none, EncodeBlock(host) + rest, host, |EncodeBlock(host)|);
    NoSlots(map["address" := host], (EncodeBlock(host) + rest)[|EncodeBlock(host)|..]);
  }

  lemma ConfigRoundTrip(m: Fields, hosts: seq<Value>, rest: seq<Byte>)
    requires |hosts| < 0x8000_0000 && forall h :: h in hosts ==> Writable(StringK, h)
    ensures var e := EncodeInt32(|hosts|) + EncodeHosts(hosts);
      ParseConfig(m, e + rest).Reported? && ParseConfig(m, e + rest).used == |e|
      && Obj(ParseConfig(m, e + rest).fields).Field("hosts") == Arr(HostValues(hosts))
      && ParseConfig(m, e + rest).push == Config(Arr(HostValues(hosts)))
  {
    hide EncodeInt32, ReadInt32, EncodeHosts, ParseItems, HostValues, Writable;
    var b := EncodeInt32(|hosts|) + EncodeHosts(hosts) + rest;
    assert b == EncodeInt32(|hosts|) + (EncodeHosts(hosts) + rest);
    Int32RoundTrip(|hosts|, EncodeHosts(hosts) + rest);
    assert b[4..] == EncodeHosts(hosts) + rest;
    HostsRoundTrip(hosts, rest);
    assert CONFIG_FIELDS[1..] == [List("hosts", "hostSize", [Scalar(StringK, "address")])];
    assert CONFIG_FIELDS[1..][1..] == [];
    var slots := [Slot(IntK, "hostSize")];
    assert slots[1..] == [];
    var m1 := m["hostSize" := Num(|hosts|)];
    NextSlot(slots, m, b, Num(|hosts|), 4);
    NoSlots(m1, b[4..]);
    var m2 := m1["hosts" := Arr(HostValues(hosts))];
    ConfigParts(m, m1, m2, b, |EncodeHosts(hosts)|);
  }

  lemma ConfigParts(m: Fields, m1: Fields, m2: Fields, b: seq<Byte>, n: nat)
    requires ParseField(CONFIG_FIELDS[0], m, b) == Done(m1, 4) && |b| >= 4 + n
    requires ParseField(CONFIG_FIELDS[1], m1, b[4..]) == Done(m2, n)
    ensures ParseFields(CONFIG_FIELDS, m, b) == Done(m2, 4 + n)
  {
    hide ParseField;
    assert CONFIG_FIELDS[1..][0] == CONFIG_FIELDS[1] && CONFIG_FIELDS[1..][1..] == [];
    assert ParseFields(CONFIG_FIELDS[1..][1..], m2, b[4..][n..]) == Done(m2, 0);
    assert ParseFields(CONFIG_FIELDS[1..], m1, b[4..]) == Done(m2, n);
  }

  lemma EventListRoundTrip(h: Fields, es: seq<EventData>, rest: seq<Byte>)
    requires |es| < 0x8000_0000 && forall e :: e in es ==> EventFits(e)
    ensures var e := EncodeInt32(|es|) + EncodeEvents(es);
      var f := h["eventsSize" := Num(|es|)]["events" := Arr(EventValues(es))];
      ParseEventList(h, e + rest) == Reported(LivePushOf(f), f, |e|)
  {
    hide EncodeInt32, ReadInt32, EncodeEvents, ParseEvents, EventValues, LivePushOf;
    var b := EncodeInt32(|es|) + EncodeEvents(es) + rest;
    assert b == EncodeInt32(|es|) + (EncodeEvents(es) + rest);
    Int32RoundTrip(|es|, EncodeEvents(es) + rest);
    assert b[4..] == EncodeEvents(es) + rest;
    EventsRoundTrip(es, rest);
    assert EVENTS_SLOTS[1..] == [];
    NextSlot(EVENTS_SLOTS, h, b, Num(|es|), 4);
    NoSlots(h["eventsSize" := Num(|es|)], b[4..]);
  }

  lemma LiveHeadRead(m: Fields, monitor: Int32, status: Byte, rest: seq<Byte>)
    ensures ParseSlots(LIVE_SLOTS, m, EncodeInt32(monitor) + [status] + rest) ==
      Done(m["monitorId" := Num(monitor)]["status" := Num(status)], 5)
  {
    hide EncodeInt32, ReadInt32;
    var b := EncodeInt32(monitor) + [status] + rest;
    assert b == EncodeInt32(monitor) + ([status] + rest);
    Int32RoundTrip(monitor, [status] + rest);
    assert LIVE_SLOTS[1..] == [Slot(ByteK, "status")] && LIVE_SLOTS[1..][1..] == [];
    assert b[4..] == [status] + rest && b[4..][1..] == rest;
    NextSlot(LIVE_SLOTS, m, b, Num(monitor), 4);
    NextSlot(LIVE_SLOTS[1..], m["monitorId" := Num(monitor)], b[4..], Num(status), 1);
    NoSlots(m["monitorId" := Num(monitor)]["status" := Num(status)], b[4..][1..]);
  }

  lemma LiveRoundTrip(m: Fields, monitor: Int32, status: Byte, es: seq<EventData>, rest: seq<Byte>)
    requires status != 3 && |es| < 0x8000_0000 && forall e :: e in es ==> EventFits(e)
    ensures var e := EncodeInt32(monitor) + [status] + (EncodeInt32(|es|) + EncodeEvents(es));
      var f := m["monitorId" := Num(monitor)]["status" := Num(status)]["eventsSize" := Num(|es|)]["events" := Arr(EventValues(es))];
      ParseLive(m, e + rest) == Reported(LivePushOf(f), f, |e|)
  {
    hide EncodeInt32, EncodeEvents, ParseSlots, ParseEventList, EventValues, LivePushOf;
    var tail := EncodeInt32(|es|) + EncodeEvents(es);
    var b := EncodeInt32(monitor) + [status] + tail + rest;
    assert b == EncodeInt32(monitor) + [status] + (tail + rest);
    LiveHeadRead(m, monitor, status, tail + rest);
    assert b[5..] == tail + rest;
    EventListRoundTrip(m["monitorId" := Num(monitor)]["status" := Num(status)], es, rest);
  }

  lemma PushHead(t: Byte, body: seq<Byte>)
    ensures var m := map["code" := Num(3), "pushType" := Num(t)];
      ParsePush([3, t] + body) == Behind(if t == 81 then ParseLive(m, body) else ParseConfig(m, body), 2)
  {
    hide ParseLive, ParseConfig;
    assert ([3, t] + body)[2..] == body;
  }

  lemma ParsedHosts(p: PushData, rest: seq<Byte>)
    requires PushFits(p) && p.NewHosts?
    ensures var f := ParsePush(EncodePush(p) + rest);
      f.Reported? && f.used == |EncodePush(p)| && Says(PushEvent(f.push), p)
  {
    hide ParsePush, ParseLive, ParseConfig, EncodeInt32, EncodeHosts, HostValues, Writable;
    var body := EncodeInt32(|p.hosts|) + EncodeHosts(p.hosts);
    PushHead(p.pushType, body + rest);
    assert EncodePush(p) + rest == [3, p.pushType] + (body + rest);
    ConfigRoundTrip(map["code" := Num(3), "pushType" := Num(p.pushType)], p.hosts, rest);
  }

  lemma ParsedLive(p: PushData, rest: seq<Byte>)
    requires PushFits(p) && p.Live?
    ensures var f := ParsePush(EncodePush(p) + rest);
      f.Reported? && f.used == |EncodePush(p)| && Says(PushEvent(f.push), p)
  {
    hide ParsePush, ParseLive, ParseConfig, EncodeInt32, EncodeEvents, EventValues, Writable, EventFits;
    var body := EncodeInt32(p.monitor) + [p.status] + (EncodeInt32(|p.events|) + EncodeEvents(p.events));
    var m: Fields := map["code" := Num(3), "pushType" := Num(81)];
    PushHead(81, body + rest);
    assert EncodePush(p) + rest == [3, 81] + (body + rest);
    LiveRoundTrip(m, p.monitor, p.status, p.events, rest);
    LiveSays(m, p.monitor, p.status, Num(|p.events|), EventValues(p.events));
  }

  lemma ParsedPush(p: PushData, rest: seq<Byte>)
    requires PushFits(p) && !p.LiveError?
    ensures var f := ParsePush(EncodePush(p) + rest);
      f.Reported? && f.used == |EncodePush(p)| && Says(PushEvent(f.push), p)
  {
    hide ParsePush, EncodePush, PushFits, Says, PushEvent;
    if p.NewHosts? {
      ParsedHosts(p, rest);
    } else {
      ParsedLive(p, rest);
    }
  }

  lemma LiveSays(m: Fields, monitor: Int32, status: Byte, size: Value, events: seq<Value>)
    ensures var f := m["monitorId" := Num(monitor)]["status" := Num(status)]["eventsSize" := size]["events" := Arr(events)];
      && Obj(f).Field("monitorId") == Num(monitor) && Obj(f).Field("status") == Num(status)
      && Obj(f).Field("events") == Arr(events)
  {}

  /** A push of any content is reported on an idle connection as what it carries, and exactly its bytes are used. */
  lemma PushRoundTrip(p: PushData, rest: seq<Byte>, log: seq<Event>)
    requires PushFits(p) && !p.LiveError?
    ensures exists e :: Says(e, p) && Drive([], EncodePush(p) + rest, log) == Drive([], rest, log + [e])
  {
    hide Drive, ParsePush, Says, PushEvent, EncodePush;
    var b := EncodePush(p) + rest;
    ParsedPush(p, rest);
    PushStarts(p, rest);
    assert b[|EncodePush(p)|..] == rest;
    IdlePush(b, log);
  }

  lemma PushStarts(p: PushData, rest: seq<Byte>)
    requires PushFits(p)
    ensures AnnouncesPush(EncodePush(p) + rest)
  {}

  /** The whole error of a live query, of any content, is reported to nobody and read again without end. */
  lemma LiveErrorRoundTrip(p: PushData, rest: seq<Byte>, log: seq<Event>)
    requires PushFits(p) && p.LiveError?
    ensures Drive([], EncodePush(p) + rest, log) == Conn([], EncodePush(p) + rest, log, true)
  {
    hide Drive, ParsePush, EncodeInt32, ReadInt32, EncodeBlock, WholeLiveError;
    var b := EncodePush(p) + rest;
    WholeError(p, rest);
    SilentIff(b);
    IdlePush(b, log);
  }

  lemma WholeError(p: PushData, rest: seq<Byte>)
    requires PushFits(p) && p.LiveError?
    ensures AnnouncesPush(EncodePush(p) + rest) && WholeLiveError(EncodePush(p) + rest)
  {
    assert Writable(StringK, p.message);
    hide EncodeInt32, ReadInt32, EncodeBlock, Writable, PushFits;
    var b := EncodePush(p) + rest;
    var m, n, c := EncodeInt32(p.monitor), EncodeInt32(p.identifier), EncodeInt32(p.code);
    FramePlaces(m, n, c, EncodeBlock(p.message), rest);
    MessageLength(p.message, rest);
  }

  lemma FramePlaces(m: seq<Byte>, n: seq<Byte>, c: seq<Byte>, message: seq<Byte>, rest: seq<Byte>)
    requires |m| == |n| == |c| == 4
    ensures var b := [3, 81] + (m + [3] + (n + c + message)) + rest;
      |b| >= 15 && b[0] == 3 && b[1] == 81 && b[6] == 3 && b[15..] == message + rest
  {
    var b := [3, 81] + (m + [3] + (n + c + message)) + rest;
    assert b == [3, 81] + m + [3] + n + c + (message + rest);
  }

  lemma MessageLength(v: Value, rest: seq<Byte>)
    requires Writable(StringK, v)
    ensures var b := EncodeBlock(v) + rest; |b| >= 4 && |b| - 4 >= ReadInt32(b)
  {
    hide EncodeBlock;
    BlockRoundTrip(StringK, v, rest);
  }
}
