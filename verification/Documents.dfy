/** The binary document format of protocol 37: what a document is written as, and how those bytes are read. */
module Documents {
  import opened Bytes
  import opened WireFormat
  import Varint
  import Decimals
  import opened Entries

  /** The values a field can hold. Numbers come in two kinds because they are written in two ways. */
  datatype Val =
    | Null
    | Flag(b: bool)
    | Whole(n: int)
    | Real(bits: Double)
    | Text(utf8: seq<Byte>)
    | Date(ms: int)
    | Link(cluster: int, position: int)
    | List(items: seq<Val>)
    | Object(fields: seq<Field>)
    | ReadOnly(extra: Extra)

  /**
   * What only the reader makes: single-precision numbers, decimals, and bags of links, of which a tree keeps its
   * size alone. A decimal is the number divided by ten to the scale.
   */
  datatype Extra = Single(bits: seq<Byte>) | Decimal(number: int, scale: int) | Bag(links: seq<Val>) | TreeBag(size: int)

  /** A field of an object; an object lists its fields in the order in which they were set. */
  type Field = Entry<seq<Byte>, Val>

  /** "@class" and "@rid" */
  const CLASS_KEY: seq<Byte> := [64, 99, 108, 97, 115, 115]
  const RID_KEY: seq<Byte> := [64, 114, 105, 100]

  predicate IsField(key: seq<Byte>) {
    key != CLASS_KEY && key != RID_KEY
  }

  function Find(fields: seq<Field>, key: seq<Byte>): Val {
    if fields == [] then Null
    else if fields[0].key == key then fields[0].value
    else Find(fields[1..], key)
  }

  /** `doc["@class"] || ""` for a class name that is text. */
  function ClassName(fields: seq<Field>): seq<Byte> {
    var v := Find(fields, CLASS_KEY);
    if v.Text? then v.utf8 else []
  }

  // ---- writing -----------------------------------------------------------

  predicate LinksOnly(items: seq<Val>) {
    items != [] && items[0].Link?
  }

  /** How the reader's own values would be written is not modelled. */
  function TypeOf(v: Val): int {
    match v
    case Null => -1
    case Flag(_) => 0
    case Whole(_) => 3
    case Real(_) => 5
    case Text(_) => 7
    case Date(_) => 6
    case Link(_, _) => 13
    case List(items) => if LinksOnly(items) then 14 else 10
    case Object(fields) => if ClassName(fields) != [] then 9 else 12
    case ReadOnly(_) => -1
  }

  function EncodeText(t: seq<Byte>): seq<Byte> {
    Varint.Encode(|t|) + t
  }

  function EncodeLink(cluster: int, position: int): seq<Byte> {
    Varint.Encode(cluster) + Varint.Encode(position)
  }

  /** A value with its type in front. */
  function EncodeValue(v: Val): seq<Byte>
    decreases v, 1
  {
    [TypeOf(v) % 256] + EncodeContent(v)
  }

  function EncodeContent(v: Val): seq<Byte>
    decreases v, 0
  {
    match v
    case Null => []
    case Flag(b) => [if b then 1 else 0]
    case Whole(n) => Varint.Encode(n)
    case Real(bits) => bits
    case Text(t) => EncodeText(t)
    case Date(ms) => Varint.Encode(ms)
    case Link(c, p) => EncodeLink(c, p)
    case List(items) => Varint.Encode(|items|) + if LinksOnly(items) then EncodeLinks(items) else EncodeItems(items)
    case Object(fields) =>
      (if ClassName(fields) != [] then EncodeText(ClassName(fields)) else []) + EncodeObject(fields)
    case ReadOnly(_) => []
  }

  function EncodeItems(items: seq<Val>): seq<Byte>
    decreases items
  {
    if items == [] then [] else EncodeValue(items[0]) + EncodeItems(items[1..])
  }

  function EncodeLinks(items: seq<Val>): seq<Byte>
    decreases items
  {
    if items == [] then []
    else (if items[0].Link? then EncodeLink(items[0].cluster, items[0].position) else []) + EncodeLinks(items[1..])
  }

  function CountFields(fields: seq<Field>): nat {
    if fields == [] then 0 else (if IsField(fields[0].key) then 1 else 0) + CountFields(fields[1..])
  }

  function EncodeFields(fields: seq<Field>): seq<Byte>
    decreases fields, 0
  {
    if fields == [] then []
    else
      assert fields[0].value < fields[0];
      (if IsField(fields[0].key) then EncodeText(fields[0].key) + EncodeValue(fields[0].value) else []) +
      EncodeFields(fields[1..])
  }

  function EncodeObject(fields: seq<Field>): seq<Byte>
    decreases fields, 1
  {
    Varint.Encode(CountFields(fields)) + EncodeFields(fields)
  }

  /** A document: its class name, possibly empty, and its fields. */
  function EncodeDocument(fields: seq<Field>): seq<Byte> {
    EncodeText(ClassName(fields)) + EncodeObject(fields)
  }

  // ---- reading -----------------------------------------------------------

  /** `Failed`: the source throws, or the bytes hold what is not modelled (see `ParseText` and `ParseValue`). */
  datatype Parsed<T> = Parsed(value: T, read: nat) | Failed

  function Rest(b: seq<Byte>, n: nat): seq<Byte> {
    if n <= |b| then b[n..] else []
  }

  function ParseVarint(b: seq<Byte>): (p: Parsed<int>)
    ensures p.Parsed? ==> 0 < p.read <= |b|
  {
    match Varint.Decode(b)
    case Incomplete => Failed
    case Number(n, used) => Parsed(n, used)
  }

  /** Bytes missing at the end of the input are left away; a negative length is not modelled. */
  function ParseText(b: seq<Byte>): (p: Parsed<seq<Byte>>)
    ensures p.Parsed? ==> p.read > 0
  {
    match ParseVarint(b)
    case Failed => Failed
    case Parsed(n, used) =>
      if n < 0 then Failed
      else Parsed(if used + n <= |b| then b[used..used + n] else b[used..], used + n)
  }

  /** The identifier #-2:-1 stands for a link to nothing. */
  function LinkTo(cluster: int, position: int): Val {
    if cluster == -2 && position == -1 then Null else Link(cluster, position)
  }

  function ParseLink(b: seq<Byte>): (p: Parsed<Val>)
    ensures p.Parsed? ==> p.read > 0
  {
    match ParseVarint(b)
    case Failed => Failed
    case Parsed(cluster, used) =>
      match ParseVarint(b[used..])
      case Failed => Failed
      case Parsed(position, used2) => Parsed(LinkTo(cluster, position), used + used2)
  }

  function ParseValue(kind: int, b: seq<Byte>): Parsed<Val>
    decreases |b|, 1
  {
    if kind == -1 then Parsed(Null, 0)
    else if kind == 0 then (if b == [] then Failed else Parsed(Flag(b[0] == 1), 1))
    else if kind in {1, 2, 3} then ParseNumber(b)
    else if kind == 4 then (if |b| < 4 then Failed else Parsed(ReadOnly(Single(b[..4])), 4))
    else if kind == 5 then (if |b| < 8 then Failed else Parsed(Real(b[..8]), 8))
    else if kind == 6 then ParseDate(b, 1)
    else if kind == 7 then ParseString(b)
    else if kind == 9 then ParseDocument(b)
    else if kind in {10, 11} then ParseList(b)
    else if kind == 12 then ParseMap(b)
    else if kind == 13 then ParseLink(b)
    else if kind in {14, 15} then ParseLinkList(b)
    else if kind == 16 then ParseLinkMap(b)
    else if kind == 17 then (if b == [] then Failed else Parsed(Whole(SignedByte(b[0])), 1))
    else if kind == 19 then ParseDate(b, 86400000)
    else if kind == 21 then ParseDecimal(b)
    else if kind == 22 then ParseBag(b)
    else Failed
  }

  function ParseNumber(b: seq<Byte>): Parsed<Val> {
    match ParseVarint(b)
    case Failed => Failed
    case Parsed(n, used) => Parsed(Whole(n), used)
  }

  function ParseDate(b: seq<Byte>, unit: int): Parsed<Val> {
    match ParseVarint(b)
    case Failed => Failed
    case Parsed(n, used) => Parsed(Date(n * unit), used)
  }

  function ParseString(b: seq<Byte>): Parsed<Val> {
    match ParseText(b)
    case Failed => Failed
    case Parsed(t, used) => Parsed(Text(t), used)
  }

  function AsList(p: Parsed<seq<Val>>, used: nat): Parsed<Val> {
    match p
    case Failed => Failed
    case Parsed(items, n) => Parsed(List(items), used + n)
  }

  function AsObject(p: Parsed<seq<Field>>, used: nat): Parsed<Val> {
    match p
    case Failed => Failed
    case Parsed(fields, n) => Parsed(Object(fields), used + n)
  }

  /** A negative count makes no turn of a loop. */
  function Count(n: int): nat {
    if n > 0 then n else 0
  }

  /** An array cannot be made with a negative length or one above 32 bits. */
  function ParseList(b: seq<Byte>): Parsed<Val>
    decreases |b|, 0
  {
    match ParseVarint(b)
    case Failed => Failed
    case Parsed(n, used) => if 0 <= n < TWO_32 then AsList(ParseItems(n, [], b[used..]), used) else Failed
  }

  function ParseItems(n: nat, items: seq<Val>, b: seq<Byte>): Parsed<seq<Val>>
    decreases |b|, 0
  {
    if n == 0 then Parsed(items, 0)
    else if b == [] then Failed
    else
      match ParseValue(SignedByte(b[0]), b[1..])
      case Failed => Failed
      case Parsed(v, used) => After(1 + used, ParseItems(n - 1, items + [v], Rest(b, 1 + used)))
  }

  function ParseLinkList(b: seq<Byte>): Parsed<Val> {
    match ParseVarint(b)
    case Failed => Failed
    case Parsed(n, used) => AsList(ParseLinks(Count(n), [], b[used..]), used)
  }

  function ParseLinks(n: nat, items: seq<Val>, b: seq<Byte>): Parsed<seq<Val>>
    decreases n
  {
    if n == 0 then Parsed(items, 0)
    else
      match ParseLink(b)
      case Failed => Failed
      case Parsed(v, used) => After(used, ParseLinks(n - 1, items + [v], Rest(b, used)))
  }

  function ParseLinkMap(b: seq<Byte>): Parsed<Val> {
    match ParseVarint(b)
    case Failed => Failed
    case Parsed(n, used) => AsObject(ParseLinkEntries(Count(n), [], b[used..]), used)
  }

  /** The type byte in front of a key is skipped. */
  function ParseLinkEntries(n: nat, record: seq<Field>, b: seq<Byte>): Parsed<seq<Field>>
    decreases n
  {
    if n == 0 then Parsed(record, 0)
    else if b == [] then Failed
    else
      match ParseText(b[1..])
      case Failed => Failed
      case Parsed(key, keyUsed) =>
        match ParseLink(Rest(b, 1 + keyUsed))
        case Failed => Failed
        case Parsed(v, used) =>
          var n1 := 1 + keyUsed + used;
          After(n1, ParseLinkEntries(n - 1, Set(record, key, v), Rest(b, n1)))
  }

  function After<T>(used: nat, p: Parsed<T>): Parsed<T> {
    if p.Parsed? then p.(read := used + p.read) else p
  }

  /** The scale, then the bytes of the number with their count; a negative count is not modelled. */
  function ParseDecimal(b: seq<Byte>): Parsed<Val> {
    if |b| < 8 || ReadInt32(b[4..]) < 0 then Failed
    else
      var n := 8 + ReadInt32(b[4..]);
      var bytes := if n <= |b| then b[8..n] else b[8..];
      Parsed(ReadOnly(Decimal(Decimals.Unscaled(bytes), ReadInt32(b))), n)
  }

  function ParseNumbers(n: nat, b: seq<Byte>): (p: Parsed<seq<int>>)
    ensures p.Parsed? ==> |p.value| == n
    decreases n
  {
    if n == 0 then Parsed([], 0)
    else
      match ParseVarint(b)
      case Failed => Failed
      case Parsed(v, used) =>
        match ParseNumbers(n - 1, b[used..])
        case Failed => Failed
        case Parsed(vs, more) => Parsed([v] + vs, used + more)
  }

  function AsBag(p: Parsed<seq<Val>>, used: nat): Parsed<Val> {
    match p
    case Failed => Failed
    case Parsed(links, n) => Parsed(ReadOnly(Bag(links)), used + n)
  }

  /** The links of an embedded bag. */
  function ParseBagLinks(b: seq<Byte>): Parsed<Val> {
    match ParseVarint(b)
    case Failed => Failed
    case Parsed(n, used) => AsBag(ParseLinks(Count(n), [], b[used..]), used)
  }

  /** Where a tree of links is stored, its size, and a count of changes. */
  function ParseTreeBag(b: seq<Byte>): Parsed<Val> {
    match ParseNumbers(5, b)
    case Failed => Failed
    case Parsed(ns, n) => Parsed(ReadOnly(TreeBag(ns[3])), n)
  }

  /** An identifier of two longs, and a byte that says whether the bag is embedded. */
  function ParseBag(b: seq<Byte>): Parsed<Val> {
    if |b| < 17 then Failed
    else After(17, if SignedByte(b[16]) == 1 then ParseBagLinks(b[17..]) else ParseTreeBag(b[17..]))
  }

  function ParseMap(b: seq<Byte>): Parsed<Val>
    decreases |b|, 0
  {
    match ParseVarint(b)
    case Failed => Failed
    case Parsed(n, used) => AsObject(ParseFields(Count(n), [], b[used..]), used)
  }

  function ParseFields(n: nat, record: seq<Field>, b: seq<Byte>): Parsed<seq<Field>>
    decreases |b|, 0
  {
    if n == 0 then Parsed(record, 0)
    else
      match ParseText(b)
      case Failed => Failed
      case Parsed(key, keyUsed) =>
        var b1 := Rest(b, keyUsed);
        if b1 == [] then Failed
        else
          match ParseValue(SignedByte(b1[0]), b1[1..])
          case Failed => Failed
          case Parsed(v, used) =>
            After(keyUsed + 1 + used, ParseFields(n - 1, Set(record, key, v), Rest(b1, 1 + used)))
  }

  /** A new record: a class name that is empty is none. */
  function NewRecord(name: seq<Byte>): seq<Field> {
    if name != [] then [Entry(CLASS_KEY, Text(name))] else []
  }

  function ParseDocument(b: seq<Byte>): Parsed<Val>
    decreases |b|, 0
  {
    match ParseText(b)
    case Failed => Failed
    case Parsed(name, nameUsed) =>
      var b1 := Rest(b, nameUsed);
      match ParseVarint(b1)
      case Failed => Failed
      case Parsed(n, used) => AsObject(ParseFields(Count(n), NewRecord(name), b1[used..]), nameUsed + used)
  }
}
