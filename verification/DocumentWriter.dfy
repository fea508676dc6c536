/** The serializer: it walks a document and queues write commands on an operation. */
module DocumentWriter {
  import opened Bytes
  import opened WireFormat
  import opened Operations
  import opened Documents
  import opened DocumentRoundTrip
  import Varint

  /** `Object.keys(doc).filter(...)` */
  function Kept(fields: seq<Field>): seq<Field> {
    if fields == [] then []
    else (if IsField(fields[0].key) then [fields[0]] else []) + Kept(fields[1..])
  }

  lemma {:induction false} KeptEncodes(fields: seq<Field>)
    ensures |Kept(fields)| == CountFields(fields) && EncodeFields(Kept(fields)) == EncodeFields(fields)
    decreases |fields|
  {
    hide EncodeValue, EncodeText;
    if fields != [] {
      KeptEncodes(fields[1..]);
      if IsField(fields[0].key) {
        assert Kept(fields)[1..] == Kept(fields[1..]);
      } else {
        assert Kept(fields) == Kept(fields[1..]);
        SkippedHead(fields);
      }
    }
  }

  lemma {:induction false} KeptIsPart(fields: seq<Field>, i: nat)
    requires i < |Kept(fields)|
    ensures IsField(Kept(fields)[i].key)
    ensures exists j :: 0 <= j < |fields| && fields[j] == Kept(fields)[i]
    ensures FieldsSound(fields) ==> Sound(Kept(fields)[i].value)
    decreases |fields|
  {
    hide Sound;
    var head := if IsField(fields[0].key) then 1 else 0;
    if head <= i {
      KeptIsPart(fields[1..], i - head);
      var j :| 0 <= j < |fields[1..]| && fields[1..][j] == Kept(fields[1..])[i - head];
      assert fields[j + 1] == Kept(fields)[i];
    }
  }

  /** Queue the commands of a whole document; also the buffer of everything queued so far, which only the outermost call uses. */
  method SerializeDocument(fields: seq<Field>, op: Operation) returns (buffer: array<Byte>)
    requires Sound(Object(fields)) && AllWritable(op.writeOps)
    modifies op`writeOps
    ensures AllWritable(op.writeOps)
    ensures Encodings(op.writeOps) == Encodings(old(op.writeOps)) + EncodeDocument(fields)
    ensures fresh(buffer) && buffer[..] == Encodings(op.writeOps)
    decreases fields, 2
  {
    hide Encodings, Sound, CountFields, EncodeFields;
    op.Write(PutVarintBytes(ClassName(fields)));
    WriteObject(op, fields);
    Joined(Encodings(old(op.writeOps)), EncodeText(ClassName(fields)), EncodeObject(fields));
    buffer := op.Buffer();
  }

  method WriteObject(op: Operation, doc: seq<Field>)
    requires Sound(Object(doc)) && AllWritable(op.writeOps)
    modifies op`writeOps
    ensures AllWritable(op.writeOps)
    ensures Encodings(op.writeOps) == Encodings(old(op.writeOps)) + EncodeObject(doc)
    decreases doc, 1
  {
    hide Encodings, EncodeFields, CountFields, Kept;
    var fields := Kept(doc);
    KeptEncodes(doc);
    op.Write(PutVarint(|fields|));
    WriteFields(op, fields, doc);
    Joined(Encodings(old(op.writeOps)), Varint.Encode(|fields|), EncodeFields(doc));
  }

  method WriteFields(op: Operation, fields: seq<Field>, doc: seq<Field>)
    requires fields == Kept(doc) && FieldsSound(doc) && AllWritable(op.writeOps)
    modifies op`writeOps
    ensures AllWritable(op.writeOps)
    ensures Encodings(op.writeOps) == Encodings(old(op.writeOps)) + EncodeFields(fields)
    decreases doc, 0
  {
    hide Encodings, EncodeFields, EncodeValue, Kept, FieldsSound;
    ghost var before := Encodings(op.writeOps);
    for i := 0 to |fields|
      invariant AllWritable(op.writeOps)
      invariant Encodings(op.writeOps) + EncodeFields(fields[i..]) == before + EncodeFields(fields)
    {
      KeptIsPart(doc, i);
      ghost var written, others := Encodings(op.writeOps), EncodeFields(fields[i + 1..]);
      ghost var key, content := EncodeText(fields[i].key), EncodeValue(fields[i].value);
      FirstField(fields, i);
      op.Write(PutVarintBytes(fields[i].key));
      assert fields[i].value < fields[i];
      WriteValue(op, fields[i].value);
      assert Encodings(op.writeOps) == written + key + content;
      Joined(written, key, content);
      Joined(written, key + content, others);
    }
    NoFieldLeft(fields);
  }

  lemma FirstField(fields: seq<Field>, i: nat)
    requires i < |fields| && IsField(fields[i].key)
    ensures EncodeFields(fields[i..]) ==
      EncodeText(fields[i].key) + EncodeValue(fields[i].value) + EncodeFields(fields[i + 1..])
  {
    hide EncodeText, EncodeValue;
    assert fields[i..][0] == fields[i] && fields[i..][1..] == fields[i + 1..];
  }

  lemma NoFieldLeft(fields: seq<Field>)
    ensures EncodeFields(fields[|fields|..]) == []
  {
  }

  lemma Joined(a: seq<Byte>, b: seq<Byte>, c: seq<Byte>)
    ensures a + b + c == a + (b + c)
  {
  }

  /** A type byte and then the one command its value needs. */
  method WriteTyped(op: Operation, kind: int, content: WriteOp)
    requires Writable(content) && AllWritable(op.writeOps)
    modifies op`writeOps
    ensures AllWritable(op.writeOps)
    ensures Encodings(op.writeOps) == Encodings(old(op.writeOps)) + ([kind % 256] + Encoding(content))
  {
    hide Encodings;
    op.Write(PutByte(kind));
    op.Write(content);
    Joined(Encodings(old(op.writeOps)), [kind % 256], Encoding(content));
  }

  method WriteValue(op: Operation, value: Val)
    requires Sound(value) && AllWritable(op.writeOps)
    modifies op`writeOps
    ensures AllWritable(op.writeOps)
    ensures Encodings(op.writeOps) == Encodings(old(op.writeOps)) + EncodeValue(value)
    decreases value
  {
    hide Encodings, EncodeItems, EncodeLinks, EncodeObject, Sound;
    match value
    case Null => op.Write(PutByte(-1));
    case Text(t) => WriteTyped(op, 7, PutVarintBytes(t));
    case List(items) => HandleArray(op, items);
    case Object(fields) => HandleObject(op, fields);
    case Link(cluster, position) => WriteTypedLink(op, cluster, position);
    case Date(ms) => WriteTyped(op, 6, PutVarint(ms));
    case Whole(n) => WriteTyped(op, 3, PutVarint(n));
    case Real(bits) => WriteTyped(op, 5, PutDouble(bits));
    case Flag(b) => WriteTyped(op, 0, PutBoolean(b));
    case ReadOnly(_) =>
      NotWritable(value);
      assert false;
  }

  lemma NotWritable(v: Val)
    requires v.ReadOnly?
    ensures !Sound(v)
  {
  }

  method WriteLink(op: Operation, cluster: int, position: int)
    requires AllWritable(op.writeOps)
    modifies op`writeOps
    ensures AllWritable(op.writeOps)
    ensures Encodings(op.writeOps) == Encodings(old(op.writeOps)) + EncodeLink(cluster, position)
  {
    hide Encodings;
    op.Write(PutVarint(cluster));
    op.Write(PutVarint(position));
    Joined(Encodings(old(op.writeOps)), Varint.Encode(cluster), Varint.Encode(position));
  }

  method WriteTypedLink(op: Operation, cluster: int, position: int)
    requires AllWritable(op.writeOps)
    modifies op`writeOps
    ensures AllWritable(op.writeOps)
    ensures Encodings(op.writeOps) == Encodings(old(op.writeOps)) + EncodeValue(Link(cluster, position))
  {
    hide Encodings, EncodeLink;
    op.Write(PutByte(13));
    WriteLink(op, cluster, position);
    Joined(Encodings(old(op.writeOps)), [13], EncodeLink(cluster, position));
  }

  /** An object with a class name is embedded as a document, any other as a map. */
  method HandleObject(op: Operation, fields: seq<Field>)
    requires Sound(Object(fields)) && AllWritable(op.writeOps)
    modifies op`writeOps
    ensures AllWritable(op.writeOps)
    ensures Encodings(op.writeOps) == Encodings(old(op.writeOps)) + EncodeValue(Object(fields))
    decreases fields, 3
  {
    hide Encodings, Sound, EncodeObject, ClassName;
    if ClassName(fields) != [] {
      op.Write(PutByte(9));
      var _ := SerializeDocument(fields, op);
      Joined(Encodings(old(op.writeOps)), [9], EncodeDocument(fields));
    } else {
      op.Write(PutByte(12));
      WriteObject(op, fields);
      Joined(Encodings(old(op.writeOps)), [12], EncodeObject(fields));
    }
  }

  method WriteItems(op: Operation, items: seq<Val>)
    requires AllSound(items) && AllWritable(op.writeOps)
    modifies op`writeOps
    ensures AllWritable(op.writeOps)
    ensures Encodings(op.writeOps) == Encodings(old(op.writeOps)) + EncodeItems(items)
    decreases items, 0
  {
    hide Encodings, EncodeValue, Sound, EncodeItems;
    ghost var before := Encodings(op.writeOps);
    for i := 0 to |items|
      invariant AllWritable(op.writeOps) && AllSound(items[i..])
      invariant Encodings(op.writeOps) + EncodeItems(items[i..]) == before + EncodeItems(items)
    {
      FirstItem(items, i);
      Joined(Encodings(op.writeOps), EncodeValue(items[i]), EncodeItems(items[i + 1..]));
      WriteValue(op, items[i]);
    }
    NoItemLeft(items);
  }

  lemma FirstItem(items: seq<Val>, i: nat)
    requires i < |items|
    ensures EncodeItems(items[i..]) == EncodeValue(items[i]) + EncodeItems(items[i + 1..])
    ensures AllSound(items[i..]) ==> Sound(items[i]) && AllSound(items[i + 1..])
  {
    hide EncodeValue, Sound;
    assert items[i..][0] == items[i] && items[i..][1..] == items[i + 1..];
  }

  lemma NoItemLeft(items: seq<Val>)
    ensures EncodeItems(items[|items|..]) == []
  {
  }

  method HandleEmbeddedCollection(op: Operation, items: seq<Val>)
    requires AllSound(items) && AllWritable(op.writeOps)
    modifies op`writeOps
    ensures AllWritable(op.writeOps)
    ensures Encodings(op.writeOps) ==
      Encodings(old(op.writeOps)) + ([10] + (Varint.Encode(|items|) + EncodeItems(items)))
    decreases items, 1
  {
    hide Encodings, EncodeItems, AllSound;
    WriteTyped(op, 10, PutVarint(|items|));
    WriteItems(op, items);
    Joined(Encodings(old(op.writeOps)), [10] + Varint.Encode(|items|), EncodeItems(items));
    Joined([10], Varint.Encode(|items|), EncodeItems(items));
  }

  method WriteLinks(op: Operation, items: seq<Val>)
    requires AllWritable(op.writeOps) && forall i :: 0 <= i < |items| ==> items[i].Link?
    modifies op`writeOps
    ensures AllWritable(op.writeOps)
    ensures Encodings(op.writeOps) == Encodings(old(op.writeOps)) + EncodeLinks(items)
  {
    hide Encodings, EncodeLink, EncodeLinks;
    ghost var before := Encodings(op.writeOps);
    for i := 0 to |items|
      invariant AllWritable(op.writeOps)
      invariant Encodings(op.writeOps) + EncodeLinks(items[i..]) == before + EncodeLinks(items)
    {
      FirstLink(items, i);
      Joined(Encodings(op.writeOps), EncodeLink(items[i].cluster, items[i].position), EncodeLinks(items[i + 1..]));
      WriteLink(op, items[i].cluster, items[i].position);
    }
    NoLinkLeft(items);
  }

  lemma FirstLink(items: seq<Val>, i: nat)
    requires i < |items| && items[i].Link?
    ensures EncodeLinks(items[i..]) == EncodeLink(items[i].cluster, items[i].position) + EncodeLinks(items[i + 1..])
  {
    assert items[i..][0] == items[i] && items[i..][1..] == items[i + 1..];
  }

  lemma NoLinkLeft(items: seq<Val>)
    ensures EncodeLinks(items[|items|..]) == []
  {
  }

  method HandleLinkList(op: Operation, items: seq<Val>)
    requires AllWritable(op.writeOps) && forall i :: 0 <= i < |items| ==> items[i].Link?
    modifies op`writeOps
    ensures AllWritable(op.writeOps)
    ensures Encodings(op.writeOps) ==
      Encodings(old(op.writeOps)) + ([14] + (Varint.Encode(|items|) + EncodeLinks(items)))
  {
    hide Encodings, EncodeLinks;
    WriteTyped(op, 14, PutVarint(|items|));
    WriteLinks(op, items);
    Joined(Encodings(old(op.writeOps)), [14] + Varint.Encode(|items|), EncodeLinks(items));
    Joined([14], Varint.Encode(|items|), EncodeLinks(items));
  }

  /** A list headed by a link is written as a list of links. */
  method HandleArray(op: Operation, items: seq<Val>)
    requires Sound(List(items)) && AllWritable(op.writeOps)
    modifies op`writeOps
    ensures AllWritable(op.writeOps)
    ensures Encodings(op.writeOps) == Encodings(old(op.writeOps)) + EncodeValue(List(items))
    decreases items, 2
  {
    hide Encodings, EncodeItems, EncodeLinks;
    if LinksOnly(items) {
      HandleLinkList(op, items);
    } else {
      HandleEmbeddedCollection(op, items);
    }
  }
}
