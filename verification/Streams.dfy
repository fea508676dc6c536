/** From bytes to promises: a stream of replies, cut anywhere, settles the queued requests one by one. */
module Streams {
  import opened Bytes
  import opened Values
  import opened ReadMachine
  import opened Chunks
  import opened ReplyParser
  import opened Replies
  import opened ReplyEncoding
  import opened Protocol

  /** A request in the queue, what its operation declared, and the bytes of the reply to it. */
  datatype Exchange = Exchange(id: nat, body: seq<Field>, reply: seq<Byte>)

  /** The bytes are exactly one reply, and not one with an unknown status code. */
  predicate IsWholeReply(x: Exchange) {
    x.reply != [] && x.reply[0] != 3 &&
    match ParseReply(x.body, x.reply)
    case Answered(m, n) => n == |x.reply| && !Obj(m).Field("status").Field("code").Truthy()
    case Rejected(_, _, n) => n == |x.reply|
    case _ => false
  }

  function Settlement(x: Exchange): Event
    requires IsWholeReply(x)
  {
    match ParseReply(x.body, x.reply)
    case Answered(m, _) => Resolved(x.id, Obj(m))
    case Rejected(s, r, _) => Event.Rejected(x.id, ServerError(RejectedResult(s, r).Field("status").Field("error")))
  }

  function PendingRequest(x: Exchange): Request {
    Request(x.id, NewOperation(Declared(x.body)))
  }

  function QueueOf(xs: seq<Exchange>): seq<Request> {
    if xs == [] then [] else [PendingRequest(xs[0])] + QueueOf(xs[1..])
  }

  function Stream(xs: seq<Exchange>): seq<Byte> {
    if xs == [] then [] else xs[0].reply + Stream(xs[1..])
  }

  function Outcomes(xs: seq<Exchange>): seq<Event>
    requires forall x :: x in xs ==> IsWholeReply(x)
  {
    if xs == [] then [] else [Settlement(xs[0])] + Outcomes(xs[1..])
  }

  lemma OneReply(x: Exchange, others: seq<Request>, rest: seq<Byte>, log: seq<Event>)
    requires IsWholeReply(x)
    ensures Drive([PendingRequest(x)] + others, x.reply + rest, log) == Drive(others, rest, log + [Settlement(x)])
  {
    hide Consume, Weight, ParseReply, RejectedResult, Declared, Ending;
    var st := NewOperation(Declared(x.body));
    ConsumeReply(x.body, x.reply);
    ConsumeInTwo(st, x.reply, rest);
    var r := Consume(st, x.reply);
    assert (x.reply + rest)[|x.reply|..] == rest;
    assert ([PendingRequest(x)] + others)[1..] == others;
    var p := ParseReply(x.body, x.reply);
    if p.Rejected? {
      ErrorIsObject(p.status, p.refusal);
    }
  }

  lemma ErrorIsObject(s: Fields, r: Refusal)
    requires |r.chain.exceptions| > 0
    ensures RejectedResult(s, r).Field("status").Field("error").Truthy()
  {}

  lemma {:induction false} AllReplies(xs: seq<Exchange>, others: seq<Request>, rest: seq<Byte>, log: seq<Event>)
    requires forall x :: x in xs ==> IsWholeReply(x)
    ensures Drive(QueueOf(xs) + others, Stream(xs) + rest, log) == Drive(others, rest, log + Outcomes(xs))
    decreases |xs|
  {
    hide Drive, IsWholeReply, Settlement;
    if xs == [] {
      assert QueueOf(xs) + others == others && Stream(xs) + rest == rest && log + Outcomes(xs) == log;
    } else {
      assert QueueOf(xs) + others == [PendingRequest(xs[0])] + (QueueOf(xs[1..]) + others);
      assert Stream(xs) + rest == xs[0].reply + (Stream(xs[1..]) + rest);
      assert xs[0] in xs;
      OneReply(xs[0], QueueOf(xs[1..]) + others, Stream(xs[1..]) + rest, log);
      AllReplies(xs[1..], others, rest, log + [Settlement(xs[0])]);
      assert log + [Settlement(xs[0])] + Outcomes(xs[1..]) == log + Outcomes(xs);
    }
  }

  /**
   * Replies to all queued requests, arriving in chunks cut at any bytes: each promise is settled with what the
   * recursive parser makes of its reply, in order, and the connection is idle with no byte kept.
   */
  lemma RepliesInAnyChunks(xs: seq<Exchange>, chunks: seq<seq<Byte>>, log: seq<Event>)
    requires forall x :: x in xs ==> IsWholeReply(x)
    requires chunks != [] && Concat(chunks) == Stream(xs)
    ensures FeedAll(Conn(QueueOf(xs), [], log, false), chunks) == Conn([], [], log + Outcomes(xs), false)
  {
    hide Consume, IsWholeReply, Settlement;
    var c := Conn(QueueOf(xs), [], log, false);
    ChunkIndependence(c, chunks);
    assert c.remaining + Stream(xs) == Stream(xs);
    AllReplies(xs, [], [], log);
    assert QueueOf(xs) + [] == QueueOf(xs) && Stream(xs) + [] == Stream(xs);
    assert Drive([], [], log + Outcomes(xs)) == Conn([], [], log + Outcomes(xs), false) by { Idle(log + Outcomes(xs)); }
  }

  lemma Idle(log: seq<Event>)
    ensures Drive([], [], log) == Conn([], [], log, false)
  {}

  // ---- streams given by what they carry ----------------------------------

  /** What the server sends: the values of the declared fields, or a refusal. */
  datatype Message = Answer(status: seq<Value>, data: seq<Datum>) | Refused(refusal: RefusalData)

  /** A request in the queue, what its operation declared, and what the server answers. */
  datatype Dialogue = Dialogue(id: nat, body: seq<Field>, message: Message)

  predicate Sendable(x: Dialogue) {
    (forall f :: f in x.body ==> f.name != "status") &&
    match x.message
    case Answer(status, ds) => AnswerFits(status, x.body, ds) && status[0] == Num(0)
    case Refused(d) => RefusalFits(d)
  }

  function Encoded(x: Dialogue): Exchange
    requires Sendable(x)
  {
    match x.message
    case Answer(status, ds) => Exchange(x.id, x.body, EncodeAnswer(status, x.body, ds))
    case Refused(d) => Exchange(x.id, x.body, EncodeRefusal(d))
  }

  /** What the promise is told: the values that were sent, or the error with its chain. */
  function Told(x: Dialogue): Event
    requires Sendable(x)
  {
    match x.message
    case Answer(status, ds) =>
      Resolved(x.id, Obj(SetFields(x.body, ds, map["status" := Obj(SetSlots(STATUS_SLOTS, status, map[]))])))
    case Refused(d) =>
      ChainNotEmpty(d);
      Event.Rejected(x.id, ServerError(RejectedResult(SetSlots(STATUS_SLOTS, d.status, map[]), RefusalOf(d)).Field("status").Field("error")))
  }

  lemma ChainNotEmpty(d: RefusalData)
    requires RefusalFits(d)
    ensures |RefusalOf(d).chain.exceptions| > 0
  {
    FrameParses(d, []);
  }

  function AllEncoded(xs: seq<Dialogue>): seq<Exchange>
    requires forall x :: x in xs ==> Sendable(x)
  {
    if xs == [] then [] else [Encoded(xs[0])] + AllEncoded(xs[1..])
  }

  function AllTold(xs: seq<Dialogue>): seq<Event>
    requires forall x :: x in xs ==> Sendable(x)
  {
    if xs == [] then [] else [Told(xs[0])] + AllTold(xs[1..])
  }

  lemma EncodedIsWhole(x: Dialogue)
    requires Sendable(x)
    ensures IsWholeReply(Encoded(x)) && Settlement(Encoded(x)) == Told(x)
  {
    hide ParseReply, EncodeAnswer, EncodeRefusal, SetFields, SetSlots, FieldsFit, Writable, RefusalOf, RejectedResult;
    var e := Encoded(x).reply;
    assert e + [] == e;
    match x.message
    case Answer(status, ds) =>
      AnswerParses(status, x.body, ds, []);
      AnswerStarts(status, x.body, ds);
      StatusCode(status);
      StatusStays(x.body, ds, map["status" := Obj(SetSlots(STATUS_SLOTS, status, map[]))]);
    case Refused(d) =>
      ChainNotEmpty(d);
      RefusalParses(d, x.body, []);
      RefusalStarts(d);
  }

  lemma AnswerStarts(status: seq<Value>, body: seq<Field>, ds: seq<Datum>)
    requires AnswerFits(status, body, ds)
    ensures var e := EncodeAnswer(status, body, ds); e != [] && e[0] == status[0].n
  {
    StatusIsFirst(status, EncodeFields(body, ds, map["status" := Obj(SetSlots(STATUS_SLOTS, status, map[]))]));
  }

  lemma RefusalStarts(d: RefusalData)
    requires RefusalFits(d)
    ensures var e := EncodeRefusal(d); e != [] && e[0] == 1
  {
    StatusIsFirst(d.status, EncodeSlots(ERROR_SLOTS, d.head) + EncodeChain(d.chain, d.trace));
  }

  lemma {:induction false} AllWhole(xs: seq<Dialogue>)
    requires forall x :: x in xs ==> Sendable(x)
    ensures forall e :: e in AllEncoded(xs) ==> IsWholeReply(e)
    ensures Outcomes(AllEncoded(xs)) == AllTold(xs)
    decreases |xs|
  {
    hide Sendable, IsWholeReply, Settlement, Encoded, Told;
    if xs != [] {
      assert xs[0] in xs;
      EncodedIsWhole(xs[0]);
      AllWhole(xs[1..]);
      assert AllEncoded(xs)[1..] == AllEncoded(xs[1..]);
    }
  }

  /**
   * Answers and refusals of any content, encoded one after the other and cut anywhere: each promise is told exactly
   * what was sent to it, in order, and no byte is left.
   */
  lemma MessagesInAnyChunks(xs: seq<Dialogue>, chunks: seq<seq<Byte>>, log: seq<Event>)
    requires forall x :: x in xs ==> Sendable(x)
    requires chunks != [] && Concat(chunks) == Stream(AllEncoded(xs))
    ensures FeedAll(Conn(QueueOf(AllEncoded(xs)), [], log, false), chunks) == Conn([], [], log + AllTold(xs), false)
  {
    hide Sendable, IsWholeReply, Settlement, Encoded, Told, FeedAll;
    AllWhole(xs);
    RepliesInAnyChunks(AllEncoded(xs), chunks, log);
  }
}
