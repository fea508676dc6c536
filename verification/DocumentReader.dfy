/** The deserializer's loops: an offset moves through the input while records, maps and lists fill up. */
module DocumentReader {
  import opened Bytes
  import opened WireFormat
  import opened Operations
  import opened Documents
  import opened Entries
  import opened DocumentRoundTrip
  import DocumentWriter

  lemma RestOfRest(b: seq<Byte>, m: nat, n: nat)
    ensures Rest(Rest(b, m), n) == Rest(b, m + n)
    ensures m <= |b| ==> Rest(b[m..], n) == Rest(b, m + n) && b[m..] == Rest(b, m)
  {
  }

  lemma RestIsShorter(b: seq<Byte>, m: nat, n: nat)
    requires m <= n
    ensures |Rest(b, n)| <= |Rest(b, m)| <= |b|
    ensures m < n && Rest(b, m) != [] ==> |Rest(b, n)| < |Rest(b, m)|
    ensures Rest(b, m) != [] ==> Rest(b, m)[1..] == Rest(b, m + 1)
  {
  }

  // ---- one turn of each loop, and its end --------------------------------

  lemma LinksTurn(n: nat, items: seq<Val>, b: seq<Byte>)
    ensures ParseLinks(n + 1, items, b) ==
      if ParseLink(b).Failed? then Failed
      else After(ParseLink(b).read, ParseLinks(n, items + [ParseLink(b).value], Rest(b, ParseLink(b).read)))
  {
    hide ParseLink, Rest;
  }

  lemma LinkEntriesTurn(n: nat, record: seq<Field>, b: seq<Byte>, key: Parsed<seq<Byte>>, link: Parsed<Val>)
    requires b != [] ==> key == ParseText(b[1..])
    requires key.Parsed? ==> link == ParseLink(Rest(b, 1 + key.read))
    ensures ParseLinkEntries(n + 1, record, b) ==
      if b == [] || key.Failed? || link.Failed? then Failed
      else
        var used := 1 + key.read + link.read;
        After(used, ParseLinkEntries(n, Set(record, key.value, link.value), Rest(b, used)))
  {
    hide ParseLink, ParseText, Rest, Set;
  }

  lemma ItemsTurn(n: nat, items: seq<Val>, b: seq<Byte>, p: Parsed<Val>)
    requires b != [] ==> p == ParseValue(SignedByte(b[0]), b[1..])
    ensures ParseItems(n + 1, items, b) ==
      if b == [] || p.Failed? then Failed
      else After(1 + p.read, ParseItems(n, items + [p.value], Rest(b, 1 + p.read)))
  {
    hide ParseValue, Rest, SignedByte;
  }

  lemma FieldsTurn(n: nat, record: seq<Field>, b: seq<Byte>, key: Parsed<seq<Byte>>, p: Parsed<Val>)
    requires key == ParseText(b)
    requires key.Parsed? && Rest(b, key.read) != [] ==>
      var b1 := Rest(b, key.read); p == ParseValue(SignedByte(b1[0]), b1[1..])
    ensures ParseFields(n + 1, record, b) ==
      if key.Failed? || Rest(b, key.read) == [] || p.Failed? then Failed
      else
        After(key.read + 1 + p.read,
          ParseFields(n, Set(record, key.value, p.value), Rest(Rest(b, key.read), 1 + p.read)))
  {
    hide ParseValue, Rest, SignedByte, ParseText, Set;
  }

  /** A value read behind its type byte, in terms of the input. */
  lemma ItemsTurnAt(input: seq<Byte>, at: nat, n: nat, items: seq<Val>, p: Parsed<Val>)
    requires var b := Rest(input, at); p == if b == [] then Failed else ParseValue(SignedByte(b[0]), Rest(input, at + 1))
    ensures ParseItems(n + 1, items, Rest(input, at)) ==
      if p.Failed? then Failed
      else After(1 + p.read, ParseItems(n, items + [p.value], Rest(input, at + 1 + p.read)))
  {
    hide ParseValue, Rest, SignedByte, ParseItems;
    RestIsShorter(input, at, at);
    ItemsTurn(n, items, Rest(input, at), p);
    if p.Parsed? {
      RestOfRest(input, at, 1 + p.read);
    }
  }

  lemma FieldsTurnAt(input: seq<Byte>, at: nat, n: nat, record: seq<Field>, key: Parsed<seq<Byte>>, p: Parsed<Val>)
    requires FieldAt(input, at, key, p)
    ensures p.Parsed? ==> key.Parsed?
    ensures ParseFields(n + 1, record, Rest(input, at)) ==
      if p.Failed? then Failed
      else
        After(key.read + 1 + p.read,
          ParseFields(n, Set(record, key.value, p.value), Rest(input, at + (key.read + 1 + p.read))))
  {
    hide ParseValue, Rest, SignedByte, ParseText, Set, ParseFields;
    if key.Parsed? {
      RestOfRest(input, at, key.read);
      RestIsShorter(input, at + key.read, at + key.read);
      if p.Parsed? {
        RestOfRest(input, at + key.read, 1 + p.read);
      }
    }
    FieldsTurn(n, record, Rest(input, at), key, p);
  }

  /** One field at an offset: its key, its type, its value. */
  ghost predicate FieldAt(input: seq<Byte>, at: nat, key: Parsed<seq<Byte>>, p: Parsed<Val>) {
    && key == ParseText(Rest(input, at))
    && p ==
       if key.Failed? || Rest(input, at + key.read) == [] then Failed
       else ParseValue(SignedByte(Rest(input, at + key.read)[0]), Rest(input, at + key.read + 1))
  }

  lemma LoopsEnd(items: seq<Val>, record: seq<Field>, b: seq<Byte>)
    ensures ParseLinks(0, items, b) == Parsed(items, 0) == ParseItems(0, items, b)
    ensures ParseLinkEntries(0, record, b) == Parsed(record, 0) == ParseFields(0, record, b)
  {
  }

  // ---- the loops ---------------------------------------------------------

  method ReadLinkCollection(input: seq<Byte>, offset: nat) returns (p: Parsed<Val>)
    ensures p == ParseLinkList(Rest(input, offset))
  {
    hide ParseLink, ParseVarint, ParseLinks, Rest;
    var size := ParseVarint(Rest(input, offset));
    if size.Failed? {
      return Failed;
    }
    var n, start := Count(size.value), offset + size.read;
    var at, collection: seq<Val> := start, [];
    RestOfRest(input, offset, size.read);
    RestOfRest(Rest(input, offset), size.read, 0);
    for i := 0 to n
      invariant at >= start
      invariant ParseLinks(n, [], Rest(input, start)) == After(at - start, ParseLinks(n - i, collection, Rest(input, at)))
    {
      var link := ParseLink(Rest(input, at));
      LinksTurn(n - i - 1, collection, Rest(input, at));
      if link.Failed? {
        return Failed;
      }
      RestOfRest(input, at, link.read);
      at, collection := at + link.read, collection + [link.value];
    }
    LoopsEnd(collection, [], Rest(input, at));
    return Parsed(List(collection), at - offset);
  }

  method ReadEmbeddedCollection(input: seq<Byte>, offset: nat) returns (p: Parsed<Val>)
    ensures p == ParseList(Rest(input, offset))
    decreases |Rest(input, offset)|, 0
  {
    hide ParseVarint, ParseItems, ParseValue, SignedByte, Rest;
    var size := ParseVarint(Rest(input, offset));
    if size.Failed? || !(0 <= size.value < TWO_32) {
      return Failed;
    }
    var n, start := size.value, offset + size.read;
    var at, embedded: seq<Val> := start, [];
    RestOfRest(input, offset, size.read);
    RestOfRest(Rest(input, offset), size.read, 0);
    for i := 0 to n
      invariant at >= start
      invariant ParseItems(n, [], Rest(input, start)) == After(at - start, ParseItems(n - i, embedded, Rest(input, at)))
    {
      var b := Rest(input, at);
      RestIsShorter(input, offset, at + 1);
      var value := Failed;
      if b != [] {
        value := ReadValue(input, SignedByte(b[0]), at + 1);
      }
      ItemsTurnAt(input, at, n - i - 1, embedded, value);
      if value.Failed? {
        return Failed;
      }
      at, embedded := at + 1 + value.read, embedded + [value.value];
    }
    LoopsEnd(embedded, [], Rest(input, at));
    return Parsed(List(embedded), at - offset);
  }

  /** The type byte in front of a key is skipped. */
  method ReadLinkMap(input: seq<Byte>, offset: nat) returns (p: Parsed<Val>)
    ensures p == ParseLinkMap(Rest(input, offset))
  {
    hide ParseVarint, ParseLinkEntries, ParseText, ParseLink, Set;
    var size := ParseVarint(Rest(input, offset));
    if size.Failed? {
      return Failed;
    }
    var n, start := Count(size.value), offset + size.read;
    var at, record: seq<Field> := start, [];
    for i := 0 to n
      invariant at >= start
      invariant ParseLinkEntries(n, [], Rest(input, start)) ==
        After(at - start, ParseLinkEntries(n - i, record, Rest(input, at)))
    {
      var b := Rest(input, at);
      var key := if b == [] then Failed else ParseText(Rest(input, at + 1));
      var link := if key.Failed? then Failed else ParseLink(Rest(input, at + 1 + key.read));
      LinkEntriesTurn(n - i - 1, record, b, key, link);
      if link.Failed? {
        return Failed;
      }
      at, record := at + 1 + key.read + link.read, Set(record, key.value, link.value);
    }
    LoopsEnd([], record, Rest(input, at));
    return Parsed(Object(record), at - offset);
  }

  /** The count of the fields and then the fields, each of them stored in the record. */
  ghost function FieldsOf(record: seq<Field>, b: seq<Byte>): Parsed<seq<Field>> {
    match ParseVarint(b)
    case Failed => Failed
    case Parsed(n, used) => After(used, ParseFields(Count(n), record, b[used..]))
  }

  method ReadField(input: seq<Byte>, offset: nat) returns (key: Parsed<seq<Byte>>, value: Parsed<Val>)
    ensures FieldAt(input, offset, key, value)
    decreases |Rest(input, offset)|, 0
  {
    hide ParseText, ParseValue, SignedByte, Rest;
    key, value := ParseText(Rest(input, offset)), Failed;
    if key.Failed? {
      return;
    }
    var b := Rest(input, offset + key.read);
    if b != [] {
      RestIsShorter(input, offset, offset + key.read);
      RestIsShorter(input, offset + key.read, offset + key.read + 1);
      value := ReadValue(input, SignedByte(b[0]), offset + key.read + 1);
    }
  }

  method ReadFields(record0: seq<Field>, input: seq<Byte>, offset: nat) returns (p: Parsed<seq<Field>>)
    ensures p == FieldsOf(record0, Rest(input, offset))
    decreases |Rest(input, offset)|, 1
  {
    hide ParseVarint, ParseFields, ParseText, ParseValue, SignedByte, Set, Rest, FieldAt;
    var size := ParseVarint(Rest(input, offset));
    if size.Failed? {
      return Failed;
    }
    var n, start := Count(size.value), offset + size.read;
    var at, record := start, record0;
    RestOfRest(input, offset, size.read);
    RestOfRest(Rest(input, offset), size.read, 0);
    for i := 0 to n
      invariant at >= start
      invariant ParseFields(n, record0, Rest(input, start)) == After(at - start, ParseFields(n - i, record, Rest(input, at)))
    {
      RestIsShorter(input, offset, at);
      var key, value := ReadField(input, at);
      FieldsTurnAt(input, at, n - i - 1, record, key, value);
      if value.Failed? {
        return Failed;
      }
      at, record := at + (key.read + 1 + value.read), Set(record, key.value, value.value);
    }
    LoopsEnd([], record, Rest(input, at));
    return Parsed(record, at - offset);
  }

  /** A map is read like the fields of a document that has no class. */
  method ReadEmbeddedMap(input: seq<Byte>, offset: nat) returns (p: Parsed<Val>)
    ensures p == ParseMap(Rest(input, offset))
    decreases |Rest(input, offset)|, 2
  {
    hide ParseVarint, ParseFields;
    var fields := ReadFields([], input, offset);
    return AsObject(fields, 0);
  }

  method ReadDocument(input: seq<Byte>, offset: nat) returns (p: Parsed<Val>)
    ensures p == ParseDocument(Rest(input, offset))
    decreases |Rest(input, offset)|, 2
  {
    hide ParseVarint, ParseFields, ParseText;
    var className := ParseText(Rest(input, offset));
    if className.Failed? {
      return Failed;
    }
    RestOfRest(input, offset, className.read);
    var fields := ReadFields(NewRecord(className.value), input, offset + className.read);
    return AsObject(fields, className.read);
  }

  method ReadBagLinks(input: seq<Byte>, offset: nat) returns (p: Parsed<Val>)
    ensures p == ParseBagLinks(Rest(input, offset))
  {
    hide ParseLink, ParseVarint, ParseLinks, Rest;
    var size := ParseVarint(Rest(input, offset));
    if size.Failed? {
      return Failed;
    }
    var n, start := Count(size.value), offset + size.read;
    var at, bag: seq<Val> := start, [];
    RestOfRest(input, offset, size.read);
    RestOfRest(Rest(input, offset), size.read, 0);
    for i := 0 to n
      invariant at >= start
      invariant ParseLinks(n, [], Rest(input, start)) == After(at - start, ParseLinks(n - i, bag, Rest(input, at)))
    {
      var link := ParseLink(Rest(input, at));
      LinksTurn(n - i - 1, bag, Rest(input, at));
      if link.Failed? {
        return Failed;
      }
      RestOfRest(input, at, link.read);
      at, bag := at + link.read, bag + [link.value];
    }
    LoopsEnd(bag, [], Rest(input, at));
    return Parsed(ReadOnly(Bag(bag)), at - offset);
  }

  method ReadRidBag(input: seq<Byte>, offset: nat) returns (p: Parsed<Val>)
    ensures p == ParseBag(Rest(input, offset))
  {
    hide ParseBagLinks, ParseTreeBag, SignedByte, Rest;
    var b := Rest(input, offset);
    if |b| < 17 {
      return Failed;
    }
    RestOfRest(input, offset, 17);
    RestOfRest(b, 17, 0);
    if SignedByte(b[16]) == 1 {
      p := ReadBagLinks(input, offset + 17);
    } else {
      p := ParseTreeBag(Rest(input, offset + 17));
    }
    p := After(17, p);
  }

  method ReadValue(input: seq<Byte>, kind: int, offset: nat) returns (p: Parsed<Val>)
    ensures p == ParseValue(kind, Rest(input, offset))
    decreases |Rest(input, offset)|, 3
  {
    hide Rest, ParseList, ParseMap, ParseDocument, ParseLinkList, ParseLinkMap, ParseNumber, ParseDate, ParseString, ParseLink, ParseBag, ParseDecimal;
    if kind == 9 {
      p := ReadDocument(input, offset);
    } else if kind in {10, 11} {
      p := ReadEmbeddedCollection(input, offset);
    } else if kind == 12 {
      p := ReadEmbeddedMap(input, offset);
    } else if kind in {14, 15} {
      p := ReadLinkCollection(input, offset);
    } else if kind == 16 {
      p := ReadLinkMap(input, offset);
    } else if kind == 22 {
      p := ReadRidBag(input, offset);
    } else {
      p := ParseValue(kind, Rest(input, offset));
    }
  }

  /**
   * A document written by a fresh operation and read by the deserializer: the same document, every byte read,
   * exactly when it is canonical.
   */
  method WriteThenRead(fields: seq<Field>) returns (buffer: array<Byte>, back: Parsed<Val>)
    requires Sound(Object(fields))
    ensures back == ParseDocument(buffer[..])
    ensures back == Parsed(Normal(Object(fields)), buffer.Length)
    ensures back == Parsed(Object(fields), buffer.Length) <==> Canonical(Object(fields))
  {
    hide Sound, EncodeDocument, ParseDocument, Normal, Canonical;
    var op := new Operation([]);
    buffer := DocumentWriter.SerializeDocument(fields, op);
    assert Encodings([]) == [];
    assert buffer[..] == EncodeDocument(fields) + [];
    back := ReadDocument(buffer[..], 0);
    assert Rest(buffer[..], 0) == buffer[..];
    DocumentRoundTrip.DocumentRoundTrip(fields, []);
    CanonicalRoundTripIff(fields, []);
  }
}
