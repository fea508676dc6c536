/**
 * A reply read the simple way: one recursive function from the declared fields and the bytes to the
 * object they make. It has no continuation, no stack and no partial state.
 */
module ReplyParser {
  import opened Bytes
  import opened Values
  import opened ReadMachine

  type Fields = map<string, Value>

  /** What the `reader()` of an operation declares, one constructor for each `readXYZ` it may call. */
  datatype Field =
    | Scalar(kind: Kind, name: string)
    | Flag(name: string)
    | Document(name: string)
    | List(name: string, count: string, item: seq<Field>)
    | Record(name: string)
    | Records(name: string)

  datatype Slot = Slot(kind: Kind, name: string)

  /** `Lost`: after `used` bytes the reader forgets what it still had to read. */
  datatype Parsed<+T> = Short | Done(value: T, used: nat) | Lost(used: nat)

  function Advance<T>(p: Parsed<T>, n: nat): Parsed<T> {
    match p
    case Short => Short
    case Done(v, used) => Done(v, n + used)
    case Lost(used) => Lost(n + used)
  }

  predicate Fits<T>(p: Parsed<T>, b: seq<Byte>) {
    p.Short? || p.used <= |b|
  }

  function ParseSlots(slots: seq<Slot>, m: Fields, b: seq<Byte>): (p: Parsed<Fields>)
    ensures Fits(p, b) && !p.Lost?
    ensures p.Done? && slots != [] ==> p.used > 0
  {
    if slots == [] then Done(m, 0)
    else if !CanRead(slots[0].kind, b) then Short
    else
      var n := ReadSize(slots[0].kind, b);
      Advance(ParseSlots(slots[1..], m[slots[0].name := ReadValue(slots[0].kind, b)], b[n..]), n)
  }

  const LINK_SLOTS: seq<Slot> := [Slot(ShortK, "cluster"), Slot(LongK, "position")]

  const DOCUMENT_SLOTS: seq<Slot> :=
    [Slot(CharK, "type"), Slot(ShortK, "cluster"), Slot(LongK, "position"), Slot(IntK, "version")]

  function ParseDocument(name: string, m: Fields, b: seq<Byte>): (p: Parsed<Fields>)
    ensures Fits(p, b) && !p.Lost?
  {
    if CanRead(BytesK, b) then Done(m[name := Decode(3, ReadValue(BytesK, b))], ReadSize(BytesK, b)) else Short
  }

  /** A record, told apart by its class identifier. */
  function ParseRecord(b: seq<Byte>): (p: Parsed<Fields>)
    ensures Fits(p, b)
  {
    if |b| < 2 then Short
    else
      var id := ReadInt16(b);
      var m := map["classId" := Num(id)];
      if id == -1 then Done(m["value" := ProtocolError], 2)
      else if id == -2 then Done(m["value" := Null], 2)
      else if id == -3 then Advance(ParseSlots(LINK_SLOTS, m["type" := Chr(100)], b[2..]), 2)
      else if id > -1 then
        match ParseSlots(DOCUMENT_SLOTS, m, b[2..])
        case Done(r, n) => Advance(ParseDocument("value", r, b[2 + n..]), 2 + n)
        case _ => Short
      else Lost(2)
  }

  function ParseRecords(n: nat, b: seq<Byte>): (p: Parsed<seq<Value>>)
    ensures Fits(p, b)
  {
    if n == 0 then Done([], 0)
    else
      match ParseRecord(b)
      case Short => Short
      case Lost(u) => Lost(u)
      case Done(r, u) =>
        match ParseRecords(n - 1, b[u..])
        case Done(rs, v) => Done([Obj(r)] + rs, u + v)
        case Short => Short
        case Lost(v) => Lost(u + v)
  }

  function ParseItems(n: nat, item: seq<Field>, b: seq<Byte>): (p: Parsed<seq<Value>>)
    ensures Fits(p, b)
    decreases item, 1, n
  {
    if n == 0 then Done([], 0)
    else
      match ParseFields(item, map[], b)
      case Short => Short
      case Lost(u) => Lost(u)
      case Done(m, u) =>
        match ParseItems(n - 1, item, b[u..])
        case Done(xs, v) => Done([Obj(m)] + xs, u + v)
        case Short => Short
        case Lost(v) => Lost(u + v)
  }

  function Named<T>(m: Fields, name: string, p: Parsed<T>, wrap: T -> Value): Parsed<Fields> {
    match p
    case Short => Short
    case Done(v, used) => Done(m[name := wrap(v)], used)
    case Lost(used) => Lost(used)
  }

  /** The value of a record field: the record, or the list already in the field with the record added. */
  function Joined(m: Fields, name: string, r: Fields): Value {
    var present := Obj(m).Field(name);
    if present.Arr? then Arr(present.items + [Obj(r)]) else Obj(r)
  }

  function ParseField(f: Field, m: Fields, b: seq<Byte>): (p: Parsed<Fields>)
    ensures Fits(p, b)
    decreases f, 0
  {
    match f
    case Scalar(kind, name) => ParseSlots([Slot(kind, name)], m, b)
    case Flag(name) => if b == [] then Short else Done(m[name := Bool(b[0] != 0)], 1)
    case Document(name) => ParseDocument(name, m, b)
    case List(name, count, item) =>
      Named(m, name, ParseItems(CountOf(Obj(m).Field(count)), item, b), (xs: seq<Value>) => Arr(xs))
    case Record(name) =>
      Named(m, name, ParseRecord(b), (r: Fields) => Joined(m, name, r))
    case Records(name) =>
      if |b| < 4 then Short
      else Named(m, name, Advance(ParseRecords(CountOf(Num(ReadInt32(b))), b[4..]), 4), (xs: seq<Value>) => Arr(xs))
  }

  function ParseFields(fs: seq<Field>, m: Fields, b: seq<Byte>): (p: Parsed<Fields>)
    ensures Fits(p, b)
    decreases fs, 0
  {
    if fs == [] then Done(m, 0)
    else
      match ParseField(fs[0], m, b)
      case Short => Short
      case Lost(u) => Lost(u)
      case Done(m1, u) => Advance(ParseFields(fs[1..], m1, b[u..]), u)
  }

  // ---- the status in front of every reply, and the error frame behind a refusal

  const STATUS_SLOTS: seq<Slot> :=
    [Slot(ByteK, "code"), Slot(IntK, "sessionId"), Slot(BytesK, "token"), Slot(ByteK, "op")]

  const ERROR_SLOTS: seq<Slot> := [Slot(IntK, "code"), Slot(IntK, "identifier"), Slot(ByteK, "id")]

  const EXCEPTION_SLOTS: seq<Slot> := [Slot(StringK, "type"), Slot(StringK, "message"), Slot(ByteK, "hasMore")]

  /** The exceptions of an error frame, outermost first, and the stack trace behind the last. */
  datatype Chain = Chain(exceptions: seq<Fields>, trace: Fields)

  function ParseChain(b: seq<Byte>): (p: Parsed<Chain>)
    ensures Fits(p, b) && !p.Lost?
    ensures p.Done? ==> |p.value.exceptions| > 0
    decreases |b|
  {
    match ParseSlots(EXCEPTION_SLOTS, map[], b)
    case Done(e, n) =>
      if Obj(e).Field("hasMore").Truthy() then
        (match ParseChain(b[n..])
         case Done(c, k) => Done(Chain([e] + c.exceptions, c.trace), n + k)
         case _ => Short)
      else
        (match ParseSlots([Slot(BytesK, "javaStackTrace")], map[], b[n..])
         case Done(t, k) => Done(Chain([e], t), n + k)
         case _ => Short)
    case _ => Short
  }

  datatype Refusal = Refusal(head: Fields, chain: Chain)

  function ParseRefusal(b: seq<Byte>): (p: Parsed<Refusal>)
    ensures Fits(p, b) && !p.Lost?
    ensures p.Done? ==> |p.value.chain.exceptions| > 0
  {
    match ParseSlots(ERROR_SLOTS, map[], b)
    case Done(h, n) =>
      (match ParseChain(b[n..])
       case Done(c, k) => Done(Refusal(h, c), n + k)
       case _ => Short)
    case _ => Short
  }

  // ---- the reads that the declarations queue -----------------------------

  function Compile(fs: seq<Field>): seq<ReadOp>
    decreases fs
  {
    if fs == [] then [] else [CompileField(fs[0])] + Compile(fs[1..])
  }

  function CompileField(f: Field): ReadOp
    decreases f
  {
    match f
    case Scalar(kind, name) => Read(kind, name, Plain)
    case Flag(name) => Read(ByteK, name, AsFlag)
    case Document(name) => Read(BytesK, name, AsDocument)
    case List(name, count, item) => ReadArray(name, count, Compile(item))
    case Record(name) => ReadRecord(name)
    case Records(name) => ReadCollection(name)
  }
}
