/** Bytes nobody asked for: pushes on an idle connection, and when `handleSocketData` calls itself without end. */
module IdleConnections {
  import opened Bytes
  import opened Values
  import opened ReadMachine
  import opened ReplyParser
  import opened ErrorReplies
  import opened LiveEvents
  import opened Protocol
  import opened Pushes
  import opened Options
  import opened Streams

  // ---- the pushes that are reported to nobody ----------------------------

  /** The whole error of a live query: status 3 in the seventh byte, then two numbers and a message. */
  predicate WholeLiveError(b: seq<Byte>) {
    |b| >= 19 && b[0] == 3 && b[1] == 81 && b[6] == 3 && |b| - 19 >= ReadInt32(b[15..])
  }

  lemma LiveHead(m: Fields, b: seq<Byte>)
    ensures var p := ParseSlots(LIVE_SLOTS, m, b);
      if |b| < 5 then p.Short?
      else
        && p.Done? && p.used == 5
        && Obj(p.value).Field("status") == Num(b[4]) && Obj(p.value).Field("monitorId") == Num(ReadInt32(b))
  {
    assert LIVE_SLOTS[1..] == [Slot(ByteK, "status")] && LIVE_SLOTS[1..][1..] == [];
    if |b| >= 4 {
      var m1 := m["monitorId" := Num(ReadInt32(b))];
      NextSlot(LIVE_SLOTS, m, b, Num(ReadInt32(b)), 4);
      if |b| >= 5 {
        NextSlot(LIVE_SLOTS[1..], m1, b[4..], Num(b[4]), 1);
        NoSlots(m1["status" := Num(b[4])], b[4..][1..]);
      }
    }
  }

  lemma LiveErrorTail(m: Fields, b: seq<Byte>)
    ensures ParseSlots(LIVE_ERROR_SLOTS, m, b).Done? <==> |b| >= 12 && |b| - 12 >= ReadInt32(b[8..])
  {
    hide ReadInt32;
    var s := LIVE_ERROR_SLOTS;
    assert s[1..] == [Slot(IntK, "errorCode"), Slot(StringK, "errorMessage")];
    assert s[1..][1..] == [Slot(StringK, "errorMessage")] && s[1..][1..][1..] == [];
    if |b| >= 4 {
      NextSlot(s, m, b, Num(ReadInt32(b)), 4);
      var m1, b1 := m["errorIdentifier" := Num(ReadInt32(b))], b[4..];
      if |b| >= 8 {
        NextSlot(s[1..], m1, b1, Num(ReadInt32(b1)), 4);
        assert b1[4..] == b[8..];
      }
    }
  }

  lemma SilentIff(b: seq<Byte>)
    requires AnnouncesPush(b)
    ensures ParsePush(b).Silent? <==> WholeLiveError(b)
  {
    hide ParseSlots, ParseFields, ParseEvents, ReadInt32;
    if |b| >= 2 && b[1] == 81 {
      var m: Fields := map["code" := Num(b[0]), "pushType" := Num(b[1])];
      LiveHead(m, b[2..]);
      var p := ParseSlots(LIVE_SLOTS, m, b[2..]);
      if p.Done? {
        assert b[2..][4] == b[6];
        assert b[2..][5..] == b[7..];
        LiveErrorTail(p.value, b[7..]);
        assert |b[7..]| >= 12 ==> b[7..][8..] == b[15..];
      }
    }
  }

  // ---- an idle connection ------------------------------------------------

  /** What an idle connection makes of a push in front of its bytes. */
  function AfterPush(f: Frame, b: seq<Byte>, log: seq<Event>): Conn
    requires FrameFits(f, b)
  {
    match f
    case Unfinished => Conn([], b, log, false)
    case Reported(push, _, n) => Drive([], b[n..], log + [PushEvent(push)])
    case Silent(_, _) => Conn([], b, log, true)
  }

  /**
   * On an idle connection a whole push is reported and dropped, part of one is kept from its first byte; the error
   * of a live query completes the operation that looked for the push, and the bytes are looked at again for ever.
   */
  lemma IdlePush(b: seq<Byte>, log: seq<Event>)
    requires AnnouncesPush(b)
    ensures Drive([], b, log) == AfterPush(ParsePush(b), b, log)
  {
    hide Consume, ParsePush, Weight;
    AnyPush(NewOperation([]), b);
    var r := Consume(NewOperation([]), b);
    var f := ParsePush(b);
    if f.Silent? {
      FreshEnding(f.fields);
    }
  }

  lemma FreshEnding(m: Fields)
    ensures Ending(Left(NewOperation([]), m, Reading)) == Complete(Obj(map[]))
  {}

  /** Which event the bytes of a whole push report: the seventh is the status of a live query's. */
  ghost predicate TellsOf(e: Event, b: seq<Byte>, fields: Fields)
    requires |b| >= 2 && (b[1] == 81 ==> |b| >= 7)
  {
    if b[1] != 81 then e == UpdateConfig(Obj(fields).Field("hosts"))
    else if b[6] == 1 then e == LiveQueryResult(Obj(fields))
    else e == LiveQueryEnd(Num(ReadInt32(b[2..])))
  }

  lemma ReportedPush(b: seq<Byte>)
    requires AnnouncesPush(b) && ParsePush(b).Reported?
    ensures |b| >= 2 && (b[1] == 81 ==> |b| >= 7)
    ensures TellsOf(PushEvent(ParsePush(b).push), b, ParsePush(b).fields)
  {
    hide ParseSlots, ParseFields, ParseEvents, ReadInt32;
    if b[1] == 81 {
      var m: Fields := map["code" := Num(b[0]), "pushType" := Num(b[1])];
      LiveHead(m, b[2..]);
      var h := ParseSlots(LIVE_SLOTS, m, b[2..]);
      assert b[2..][4] == b[6];
      EventsKeepHead(h.value, b[2..][5..]);
    }
  }

  lemma EventsKeepHead(m: Fields, b: seq<Byte>)
    requires ParseEventList(m, b).Reported?
    ensures var f := ParseEventList(m, b).fields;
      Obj(f).Field("status") == Obj(m).Field("status") && Obj(f).Field("monitorId") == Obj(m).Field("monitorId")
  {
    hide ParseSlots, ParseEvents;
    SlotsMerge(EVENTS_SLOTS, m, b);
    SlotKeys(EVENTS_SLOTS, map[], b, "status");
    SlotKeys(EVENTS_SLOTS, map[], b, "monitorId");
  }

  /** The event that an idle connection logs for a whole push, told from its bytes. */
  lemma IdlePushEvent(b: seq<Byte>, log: seq<Event>)
    requires AnnouncesPush(b) && ParsePush(b).Reported?
    ensures |b| >= 2 && (b[1] == 81 ==> |b| >= 7)
    ensures var f := ParsePush(b);
      exists e :: TellsOf(e, b, f.fields) && Drive([], b, log) == Drive([], b[f.used..], log + [e])
  {
    hide Drive, ParsePush, TellsOf;
    IdlePush(b, log);
    ReportedPush(b);
  }

  lemma IdleOther(b: seq<Byte>, log: seq<Event>)
    requires b != [] && b[0] != 3
    ensures Drive([], b, log) == Conn([], b, log, true)
  {}

  lemma IdleNothing(log: seq<Event>)
    ensures Drive([], [], log) == Conn([], [], log, false)
  {}

  /** After the whole pushes that are reported comes a byte that starts no push, or the error of a live query. */
  predicate Endless(b: seq<Byte>)
    decreases |b|
  {
    b != [] &&
    (b[0] != 3 || WholeLiveError(b) ||
     (var f := ParsePush(b); f.Reported? && Endless(b[f.used..])))
  }

  /** What the pushes in front report, and the bytes behind them. */
  lemma {:induction false} IdleOverflowIff(b: seq<Byte>, log: seq<Event>)
    ensures Drive([], b, log).overflow <==> Endless(b)
    decreases |b|
  {
    hide Drive, ParsePush, WholeLiveError;
    if b == [] {
      IdleNothing(log);
    } else if b[0] != 3 {
      IdleOther(b, log);
    } else {
      IdlePush(b, log);
      SilentIff(b);
      var f := ParsePush(b);
      if f.Reported? {
        IdleOverflowIff(b[f.used..], log + [PushEvent(f.push)]);
      }
    }
  }

  /**
   * Whoever waits and whatever arrives: the call never ends exactly when in the end nobody waits and the bytes not
   * used start no push or are the error of a live query.
   */
  lemma {:induction false} OverflowIff(queue: seq<Request>, b: seq<Byte>, log: seq<Event>)
    ensures var d := Drive(queue, b, log);
      d.overflow <==> d.queue == [] && d.remaining != [] && (d.remaining[0] != 3 || WholeLiveError(d.remaining))
    decreases |b|, |queue|, Head(queue)
  {
    hide Consume, Weight, Report, WholeLiveError, ParsePush, PushEvent;
    if queue == [] {
      if b == [] {
        IdleNothing(log);
      } else if b[0] != 3 {
        IdleOther(b, log);
      } else {
        IdlePush(b, log);
        SilentIff(b);
        var f := ParsePush(b);
        if f.Reported? {
          OverflowIff([], b[f.used..], log + [PushEvent(f.push)]);
        }
      }
    } else {
      var r := Consume(queue[0].op, b);
      ConsumePushed(queue[0].op, b);
      if !r.outcome.Waiting? {
        var (waiting, reported) := Report(queue[0].(op := r.state), queue[1..], log, r.outcome);
        OverflowIff(waiting, b[r.used..], reported);
      }
    }
  }

  /** The bytes that are left when nobody waits any more; none when somebody still does. */
  function Unclaimed(queue: seq<Request>, b: seq<Byte>): Option<seq<Byte>>
    decreases |b|, |queue|, Head(queue)
  {
    if queue == [] then Some(b)
    else
      var r := Consume(queue[0].op, b);
      ConsumePushed(queue[0].op, b);
      if r.outcome.Waiting? then None
      else
        var (waiting, _) := Report(queue[0].(op := r.state), queue[1..], [], r.outcome);
        Unclaimed(waiting, b[r.used..])
  }

  /** Whoever waits and whatever arrives: told from the requests and the bytes before the call. */
  lemma {:induction false} OverflowIffUnclaimed(queue: seq<Request>, b: seq<Byte>, log: seq<Event>)
    ensures Drive(queue, b, log).overflow <==> Unclaimed(queue, b).Some? && Endless(Unclaimed(queue, b).value)
    decreases |b|, |queue|, Head(queue)
  {
    hide Consume, Weight, WholeLiveError, ParsePush, PushEvent, Endless;
    if queue == [] {
      IdleOverflowIff(b, log);
    } else {
      var r := Consume(queue[0].op, b);
      ConsumePushed(queue[0].op, b);
      if !r.outcome.Waiting? {
        var head := queue[0].(op := r.state);
        var (waiting, reported) := Report(head, queue[1..], log, r.outcome);
        OverflowIffUnclaimed(waiting, b[r.used..], reported);
      }
    }
  }

  /** Behind a whole reply to everybody who waits, the bytes that follow decide. */
  lemma RepliesOverflowIff(xs: seq<Exchange>, rest: seq<Byte>, log: seq<Event>)
    requires forall x :: x in xs ==> IsWholeReply(x)
    ensures Drive(QueueOf(xs), Stream(xs) + rest, log).overflow <==> Endless(rest)
  {
    hide Drive, IsWholeReply, Endless, Settlement;
    AllReplies(xs, [], rest, log);
    assert QueueOf(xs) + [] == QueueOf(xs);
    IdleOverflowIff(rest, log + Outcomes(xs));
  }

  /** The two ways: a byte that starts no push, and the shortest error of a live query, which does start one. */
  lemma TwoOverflows(log: seq<Event>)
    ensures Drive([], [0], log) == Conn([], [0], log, true)
    ensures var b := [3, 81, 0, 0, 0, 1, 3, 0, 0, 0, 0, 0, 0, 0, 0, 0, 0, 0, 0];
      AnnouncesPush(b) && Drive([], b, log) == Conn([], b, log, true)
  {
    hide Drive, ParsePush;
    IdleOther([0], log);
    var b: seq<Byte> := [3, 81, 0, 0, 0, 1, 3, 0, 0, 0, 0, 0, 0, 0, 0, 0, 0, 0, 0];
    assert b[15..] == [0, 0, 0, 0];
    assert WholeLiveError(b);
    SilentIff(b);
    IdlePush(b, log);
  }

  // ---- a push in front of a request that waits ---------------------------

  /** The object an operation fills. */
  function Filled(st: OpState): Value
    requires st.stack != []
  {
    Load(st.roots, st.stack[0])
  }

  /** What a request that has not been answered is left with after a push. */
  ghost predicate Forgotten(st: OpState, r: RunResult, f: Frame, later: seq<Byte>)
    requires st.stack != []
  {
    match f
    case Unfinished => r.outcome.Waiting?
    case Reported(push, _, n) =>
      && r.outcome == Pushed(push) && r.used == n && r.state.readOps == []
      && Consume(r.state, later).used == 0 && Consume(r.state, later).outcome == Complete(Filled(st))
    case Silent(_, n) =>
      && r.used == n
      && r.outcome == if Filled(st).Field("status").Field("code").Truthy() then Failed(Filled(st)) else Complete(Filled(st))
  }

  /**
   * In front of a request that waits, a push takes the request's own reads with it. Behind one that is reported the
   * next byte, unless it announces another push, completes the request with the object as it was, and is not used;
   * the error of a live query ends the request at once.
   */
  lemma PushForgetsReads(st: OpState, b: seq<Byte>, later: seq<Byte>)
    requires st.status.Pending? && AnnouncesPush(b) && later != [] && later[0] != 3
    requires st.stack != [] && st.stack[0].root < |st.roots|
    ensures Forgotten(st, Consume(st, b), ParsePush(b), later)
  {
    hide Run, ParsePush;
    AnyPush(st, b);
  }
}
