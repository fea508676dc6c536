/** Reading what was written gives the document back: which documents come back unchanged, and what happens to the others. */
module DocumentRoundTrip {
  import opened Bytes
  import opened Documents
  import opened Entries
  import Varint

  /** None of the keys that will be read is in the record yet. */
  predicate NewKeys(fields: seq<Field>, record: seq<Field>) {
    forall i :: 0 <= i < |fields| && IsField(fields[i].key) ==> !HasKey(record, fields[i].key)
  }

  /**
   * What the writer can take: keys are distinct as in any JavaScript object, a class name is text, and a list
   * that starts with a link holds links only.
   */
  predicate Sound(v: Val)
    decreases v
  {
    match v
    case List(items) =>
      && |items| < TWO_32
      && (LinksOnly(items) ==> forall i :: 0 <= i < |items| ==> items[i].Link?)
      && AllSound(items)
    case Object(fields) =>
      && DistinctKeys(fields)
      && (Find(fields, CLASS_KEY).Text? || Find(fields, CLASS_KEY).Null?)
      && FieldsSound(fields)
    case ReadOnly(_) => false
    case _ => true
  }

  predicate AllSound(items: seq<Val>)
    decreases items
  {
    items == [] || (Sound(items[0]) && AllSound(items[1..]))
  }

  predicate FieldsSound(fields: seq<Field>)
    decreases fields
  {
    fields == [] || (
      assert fields[0].value < fields[0];
      Sound(fields[0].value) && FieldsSound(fields[1..]))
  }

  /** The value that comes back: the class name first and not empty, no "@rid", links to nothing as null. */
  function Normal(v: Val): Val
    decreases v
  {
    match v
    case Link(c, p) => LinkTo(c, p)
    case List(items) => List(NormalItems(items))
    case Object(fields) => Object(NewRecord(ClassName(fields)) + NormalFields(fields))
    case _ => v
  }

  function NormalItems(items: seq<Val>): seq<Val>
    decreases items
  {
    if items == [] then [] else [Normal(items[0])] + NormalItems(items[1..])
  }

  function NormalFields(fields: seq<Field>): seq<Field>
    decreases fields
  {
    if fields == [] then []
    else
      assert fields[0].value < fields[0];
      (if IsField(fields[0].key) then [Entry(fields[0].key, Normal(fields[0].value))] else []) +
      NormalFields(fields[1..])
  }

  // ---- the pieces --------------------------------------------------------

  lemma ReadVarint(n: int, rest: seq<Byte>)
    ensures ParseVarint(Varint.Encode(n) + rest) == Parsed(n, |Varint.Encode(n)|)
  {
    Varint.RoundTrip(n, rest);
  }

  lemma ReadText(t: seq<Byte>, rest: seq<Byte>)
    ensures ParseText(EncodeText(t) + rest) == Parsed(t, |EncodeText(t)|)
    ensures Rest(EncodeText(t) + rest, |EncodeText(t)|) == rest
  {
    ReadVarint(|t|, t + rest);
    assert EncodeText(t) + rest == Varint.Encode(|t|) + (t + rest);
  }

  lemma ReadLink(cluster: int, position: int, rest: seq<Byte>)
    ensures ParseLink(EncodeLink(cluster, position) + rest) ==
      Parsed(LinkTo(cluster, position), |EncodeLink(cluster, position)|)
  {
    var first, second := Varint.Encode(cluster), Varint.Encode(position);
    assert EncodeLink(cluster, position) + rest == first + (second + rest);
    ReadVarint(cluster, second + rest);
    ReadVarint(position, rest);
  }

  lemma TypeByte(v: Val)
    ensures SignedByte(TypeOf(v) % 256) == TypeOf(v)
  {
  }

  lemma LinksHead(items: seq<Val>, rest: seq<Byte>)
    requires items != [] && items[0].Link?
    ensures EncodeLinks(items) + rest ==
      EncodeLink(items[0].cluster, items[0].position) + (EncodeLinks(items[1..]) + rest)
  {
    hide EncodeLink;
  }

  lemma ItemsHead(items: seq<Val>, done: seq<Val>, rest: seq<Byte>)
    requires items != []
    ensures EncodeItems(items) + rest ==
      [TypeOf(items[0]) % 256] + (EncodeContent(items[0]) + (EncodeItems(items[1..]) + rest))
    ensures |EncodeItems(items)| == 1 + |EncodeContent(items[0])| + |EncodeItems(items[1..])|
    ensures done + NormalItems(items) == done + [Normal(items[0])] + NormalItems(items[1..])
  {
    hide EncodeContent, TypeOf, Normal;
    assert EncodeValue(items[0]) == [TypeOf(items[0]) % 256] + EncodeContent(items[0]);
  }

  lemma FieldsHead(fields: seq<Field>, record: seq<Field>, rest: seq<Byte>)
    requires fields != [] && IsField(fields[0].key)
    ensures var v := fields[0].value;
      && EncodeFields(fields) + rest == EncodeText(fields[0].key) +
           ([TypeOf(v) % 256] + (EncodeContent(v) + (EncodeFields(fields[1..]) + rest)))
      && |EncodeFields(fields)| == |EncodeText(fields[0].key)| + 1 + |EncodeContent(v)| + |EncodeFields(fields[1..])|
      && record + NormalFields(fields) == record + [Entry(fields[0].key, Normal(v))] + NormalFields(fields[1..])
      && CountFields(fields) == CountFields(fields[1..]) + 1
  {
    hide EncodeContent, TypeOf, EncodeText, Normal, EncodeFields, NormalFields;
    var v := fields[0].value;
    FieldsUnfold(fields);
    Regroup(EncodeText(fields[0].key), TypeOf(v) % 256, EncodeContent(v), EncodeFields(fields[1..]), rest);
  }

  lemma FieldsUnfold(fields: seq<Field>)
    requires fields != [] && IsField(fields[0].key)
    ensures var v := fields[0].value;
      && EncodeFields(fields) ==
           EncodeText(fields[0].key) + ([TypeOf(v) % 256] + EncodeContent(v)) + EncodeFields(fields[1..])
      && NormalFields(fields) == [Entry(fields[0].key, Normal(v))] + NormalFields(fields[1..])
  {
    hide EncodeContent, TypeOf, EncodeText, Normal;
    var v := fields[0].value;
    assert EncodeValue(v) == [TypeOf(v) % 256] + EncodeContent(v);
  }

  lemma Regroup(key: seq<Byte>, kind: Byte, content: seq<Byte>, others: seq<Byte>, rest: seq<Byte>)
    ensures key + ([kind] + content) + others + rest == key + ([kind] + (content + (others + rest)))
  {
  }

  lemma SkippedHead(fields: seq<Field>)
    requires fields != [] && !IsField(fields[0].key)
    ensures EncodeFields(fields) == EncodeFields(fields[1..]) && NormalFields(fields) == NormalFields(fields[1..])
    ensures CountFields(fields) == CountFields(fields[1..])
  {
  }

  // ---- whole documents ---------------------------------------------------

  lemma {:induction false} LinksRoundTrip(items: seq<Val>, done: seq<Val>, rest: seq<Byte>)
    requires forall i :: 0 <= i < |items| ==> items[i].Link?
    ensures ParseLinks(|items|, done, EncodeLinks(items) + rest) ==
      Parsed(done + NormalItems(items), |EncodeLinks(items)|)
    decreases |items|
  {
    hide ParseLink, EncodeLink;
    if items == [] {
      assert done + [] == done;
    } else {
      var first, others := EncodeLink(items[0].cluster, items[0].position), EncodeLinks(items[1..]);
      var b := EncodeLinks(items) + rest;
      LinksHead(items, rest);
      ReadLink(items[0].cluster, items[0].position, others + rest);
      assert Rest(b, |first|) == others + rest;
      LinksRoundTrip(items[1..], done + [Normal(items[0])], rest);
      assert done + [Normal(items[0])] + NormalItems(items[1..]) == done + NormalItems(items);
    }
  }

  lemma {:induction false} ItemsRoundTrip(items: seq<Val>, done: seq<Val>, rest: seq<Byte>)
    requires AllSound(items)
    ensures ParseItems(|items|, done, EncodeItems(items) + rest) ==
      Parsed(done + NormalItems(items), |EncodeItems(items)|)
    decreases items, 0
  {
    hide ParseValue, Sound, Normal, EncodeContent, TypeOf, ParseItems, SignedByte, Rest, EncodeItems, NormalItems;
    if items == [] {
      NoItems(done, rest);
    } else {
      var content, tail := EncodeContent(items[0]), EncodeItems(items[1..]) + rest;
      ItemsHead(items, done, rest);
      TypeByte(items[0]);
      ValueRoundTrip(items[0], tail);
      Behind(TypeOf(items[0]) % 256, content, tail);
      ItemTurn(|items| - 1, done, EncodeItems(items) + rest, Normal(items[0]), |content|);
      ItemsRoundTrip(items[1..], done + [Normal(items[0])], rest);
    }
  }

  lemma NoItems(done: seq<Val>, rest: seq<Byte>)
    ensures ParseItems(0, done, EncodeItems([]) + rest) == Parsed(done + NormalItems([]), |EncodeItems([])|)
  {
    assert done + [] == done;
  }

  lemma ItemTurn(n: nat, done: seq<Val>, b: seq<Byte>, v: Val, used: nat)
    requires b != [] && ParseValue(SignedByte(b[0]), b[1..]) == Parsed(v, used)
    ensures ParseItems(n + 1, done, b) == After(1 + used, ParseItems(n, done + [v], Rest(b, 1 + used)))
  {
    hide ParseValue, Rest, SignedByte;
  }

  /** One turn of the field loop on a key, a type byte, and a value that can be read. */
  lemma ReadField(n: nat, record: seq<Field>, key: seq<Byte>, v: Val, tail: seq<Byte>)
    requires ParseValue(TypeOf(v), EncodeContent(v) + tail) == Parsed(Normal(v), |EncodeContent(v)|)
    ensures ParseFields(n + 1, record, EncodeText(key) + ([TypeOf(v) % 256] + (EncodeContent(v) + tail))) ==
      After(|EncodeText(key)| + 1 + |EncodeContent(v)|, ParseFields(n, Set(record, key, Normal(v)), tail))
  {
    hide ParseValue, Normal, EncodeContent, TypeOf, ParseText, EncodeText, Set, ParseFields, SignedByte, Rest;
    var content := EncodeContent(v);
    var b1 := [TypeOf(v) % 256] + (content + tail);
    ReadText(key, b1);
    TypeByte(v);
    Behind(TypeOf(v) % 256, content, tail);
    FieldTurn(n, record, EncodeText(key) + b1, key, |EncodeText(key)|, Normal(v), |content|);
  }

  lemma FieldTurn(n: nat, record: seq<Field>, b: seq<Byte>, key: seq<Byte>, keyUsed: nat, v: Val, used: nat)
    requires ParseText(b) == Parsed(key, keyUsed)
    requires var b1 := Rest(b, keyUsed); b1 != [] && ParseValue(SignedByte(b1[0]), b1[1..]) == Parsed(v, used)
    ensures ParseFields(n + 1, record, b) ==
      After(keyUsed + 1 + used, ParseFields(n, Set(record, key, v), Rest(Rest(b, keyUsed), 1 + used)))
  {
    hide ParseValue, ParseText, Set, Rest, SignedByte;
  }

  lemma Behind(kind: Byte, content: seq<Byte>, tail: seq<Byte>)
    ensures var b := [kind] + (content + tail); b[0] == kind && b[1..] == content + tail && Rest(b, 1 + |content|) == tail
  {
  }

  /** Reading the fields that were written puts each of them behind what the record already holds. */
  lemma {:induction false} FieldsRoundTrip(fields: seq<Field>, record: seq<Field>, rest: seq<Byte>)
    requires DistinctKeys(fields) && FieldsSound(fields) && NewKeys(fields, record)
    ensures ParseFields(CountFields(fields), record, EncodeFields(fields) + rest) ==
      Parsed(record + NormalFields(fields), |EncodeFields(fields)|)
    decreases fields, 0
  {
    hide ParseValue, Sound, Normal, EncodeContent, TypeOf, ParseText, EncodeText, Set, ParseFields, DistinctKeys, NewKeys,
      HasKey, EncodeFields, NormalFields, CountFields;
    if fields == [] {
      NoFields(record, rest);
    } else {
      var key, v := fields[0].key, fields[0].value;
      KeysStayNew(fields, record, Normal(v));
      if !IsField(key) {
        SkippedHead(fields);
        FieldsRoundTrip(fields[1..], record, rest);
      } else {
        var tail := EncodeFields(fields[1..]) + rest;
        FieldsHead(fields, record, rest);
        assert v < fields[0];
        ValueRoundTrip(v, tail);
        ReadField(CountFields(fields[1..]), record, key, v, tail);
        SetNew(record, key, Normal(v));
        FieldsRoundTrip(fields[1..], record + [Entry(key, Normal(v))], rest);
      }
    }
  }

  lemma NoFields(record: seq<Field>, rest: seq<Byte>)
    ensures ParseFields(CountFields([]), record, EncodeFields([]) + rest) ==
      Parsed(record + NormalFields([]), |EncodeFields([])|)
  {
    assert record + [] == record;
  }

  lemma KeysStayNew(fields: seq<Field>, record: seq<Field>, v: Val)
    requires fields != [] && DistinctKeys(fields) && NewKeys(fields, record)
    ensures DistinctKeys(fields[1..]) && NewKeys(fields[1..], record)
    ensures IsField(fields[0].key) ==> !HasKey(record, fields[0].key)
    ensures NewKeys(fields[1..], record + [Entry(fields[0].key, v)])
  {
    var next := record + [Entry(fields[0].key, v)];
    forall i | 0 <= i < |fields[1..]| && IsField(fields[1..][i].key)
      ensures !HasKey(next, fields[1..][i].key)
    {
      var key := fields[1..][i].key;
      assert fields[i + 1].key == key && !HasKey(record, key);
      forall j | 0 <= j < |next| ensures next[j].key != key {
        if j < |record| {
          assert next[j] == record[j];
        }
      }
    }
  }

  lemma {:induction false} ObjectRoundTrip(fields: seq<Field>, record: seq<Field>, rest: seq<Byte>)
    requires Sound(Object(fields)) && (record == [] || (|record| == 1 && record[0].key == CLASS_KEY))
    ensures var b := EncodeObject(fields) + rest;
      && ParseVarint(b) == Parsed(CountFields(fields), |Varint.Encode(CountFields(fields))|)
      && ParseFields(CountFields(fields), record, b[|Varint.Encode(CountFields(fields))|..]) ==
           Parsed(record + NormalFields(fields), |EncodeFields(fields)|)
    decreases fields, 1
  {
    hide ParseFields, EncodeFields, NormalFields;
    var count, encoded := Varint.Encode(CountFields(fields)), EncodeFields(fields);
    assert EncodeObject(fields) + rest == count + (encoded + rest);
    ReadVarint(CountFields(fields), encoded + rest);
    FieldsRoundTrip(fields, record, rest);
  }

  lemma {:induction false} DocumentRoundTrip(fields: seq<Field>, rest: seq<Byte>)
    requires Sound(Object(fields))
    ensures ParseDocument(EncodeDocument(fields) + rest) == Parsed(Normal(Object(fields)), |EncodeDocument(fields)|)
    decreases fields, 2
  {
    hide ParseFields, ParseText, EncodeText, NormalFields, Sound, ClassName, CountFields, EncodeFields;
    var name, body := EncodeText(ClassName(fields)), EncodeObject(fields);
    assert EncodeDocument(fields) + rest == name + (body + rest);
    ReadText(ClassName(fields), body + rest);
    ObjectRoundTrip(fields, NewRecord(ClassName(fields)), rest);
  }

  /** A value of any depth, whatever follows it, is read back as it was written, using exactly its bytes. */
  lemma {:induction false} ValueRoundTrip(v: Val, rest: seq<Byte>)
    requires Sound(v)
    ensures ParseValue(TypeOf(v), EncodeContent(v) + rest) == Parsed(Normal(v), |EncodeContent(v)|)
    decreases v
  {
    match v
    case Null =>
    case Flag(_) =>
    case Whole(n) => ReadVarint(n, rest);
    case Real(bits) => assert (bits + rest)[..8] == bits;
    case Text(t) => ReadText(t, rest);
    case Date(ms) => ReadVarint(ms, rest);
    case Link(c, p) => ReadLink(c, p, rest);
    case List(items) => ListRoundTrip(items, rest);
    case Object(fields) => EmbeddedRoundTrip(fields, rest);
  }

  lemma {:induction false} ListRoundTrip(items: seq<Val>, rest: seq<Byte>)
    requires Sound(List(items))
    ensures ParseValue(TypeOf(List(items)), EncodeContent(List(items)) + rest) ==
      Parsed(Normal(List(items)), |EncodeContent(List(items))|)
    decreases items, 1
  {
    hide ParseItems, ParseLinks, EncodeItems, EncodeLinks, NormalItems;
    var count := Varint.Encode(|items|);
    var encoded := if LinksOnly(items) then EncodeLinks(items) else EncodeItems(items);
    var b := EncodeContent(List(items)) + rest;
    assert b == count + (encoded + rest);
    ReadVarint(|items|, encoded + rest);
    assert b[|count|..] == encoded + rest;
    assert [] + NormalItems(items) == NormalItems(items);
    if LinksOnly(items) {
      LinksRoundTrip(items, [], rest);
      assert ParseValue(14, b) == ParseLinkList(b);
    } else {
      ItemsRoundTrip(items, [], rest);
      assert ParseValue(10, b) == ParseList(b);
    }
  }

  lemma {:induction false} EmbeddedRoundTrip(fields: seq<Field>, rest: seq<Byte>)
    requires Sound(Object(fields))
    ensures ParseValue(TypeOf(Object(fields)), EncodeContent(Object(fields)) + rest) ==
      Parsed(Normal(Object(fields)), |EncodeContent(Object(fields))|)
    decreases fields, 3
  {
    hide ParseFields, Sound, ClassName, NormalFields, EncodeFields, CountFields, ParseText, EncodeText;
    var b := EncodeContent(Object(fields)) + rest;
    if ClassName(fields) != [] {
      DocumentRoundTrip(fields, rest);
      assert ParseValue(9, b) == ParseDocument(b);
    } else {
      assert b == EncodeObject(fields) + rest;
      ObjectRoundTrip(fields, [], rest);
      assert ParseValue(12, b) == ParseMap(b);
    }
  }

  // ---- which documents come back unchanged -------------------------------

  /** Nothing for the round trip to change: see `Normal`. */
  predicate Canonical(v: Val)
    decreases v
  {
    match v
    case Link(c, p) => !(c == -2 && p == -1)
    case List(items) => CanonicalItems(items)
    case Object(fields) => if Classed(fields) then CanonicalFields(fields[1..]) else CanonicalFields(fields)
    case _ => true
  }

  predicate CanonicalItems(items: seq<Val>)
    decreases items
  {
    items == [] || (Canonical(items[0]) && CanonicalItems(items[1..]))
  }

  predicate CanonicalFields(fields: seq<Field>)
    decreases fields
  {
    fields == [] || (
      assert fields[0].value < fields[0];
      IsField(fields[0].key) && Canonical(fields[0].value) && CanonicalFields(fields[1..]))
  }

  /** A class name in front of all other fields. */
  predicate Classed(fields: seq<Field>) {
    fields != [] && fields[0].key == CLASS_KEY && fields[0].value.Text? && fields[0].value.utf8 != []
  }

  lemma {:induction false} NormalIsNotLonger(fields: seq<Field>)
    ensures |NormalFields(fields)| <= |fields|
    decreases |fields|
  {
    if fields != [] {
      NormalIsNotLonger(fields[1..]);
    }
  }

  lemma {:induction false} FieldsHaveNoClass(fields: seq<Field>)
    requires CanonicalFields(fields)
    ensures ClassName(fields) == []
    decreases |fields|
  {
    if fields != [] {
      FieldsHaveNoClass(fields[1..]);
    }
  }

  lemma {:induction false} ItemsUnchangedIff(items: seq<Val>)
    ensures NormalItems(items) == items <==> CanonicalItems(items)
    decreases items
  {
    if items != [] {
      UnchangedIff(items[0]);
      ItemsUnchangedIff(items[1..]);
      assert items == [items[0]] + items[1..];
    }
  }

  lemma {:induction false} FieldsUnchangedIff(fields: seq<Field>)
    ensures NormalFields(fields) == fields <==> CanonicalFields(fields)
    decreases fields, 0
  {
    if fields != [] {
      assert fields[0].value < fields[0];
      UnchangedIff(fields[0].value);
      FieldsUnchangedIff(fields[1..]);
      NormalIsNotLonger(fields[1..]);
      assert fields == [fields[0]] + fields[1..];
    }
  }

  /** Written and read back, a value is unchanged exactly when it is canonical, at every depth. */
  lemma {:induction false} UnchangedIff(v: Val)
    ensures Normal(v) == v <==> Canonical(v)
    decreases v
  {
    match v
    case List(items) => ItemsUnchangedIff(items);
    case Object(fields) => ObjectUnchangedIff(fields);
    case _ =>
  }

  lemma {:induction false} ObjectUnchangedIff(fields: seq<Field>)
    ensures Normal(Object(fields)) == Object(fields) <==> Canonical(Object(fields))
    decreases fields, 1
  {
    if Classed(fields) {
      FieldsUnchangedIff(fields[1..]);
      assert fields == [fields[0]] + fields[1..];
      SkippedHead(fields);
    } else {
      FieldsUnchangedIff(fields);
      if CanonicalFields(fields) {
        FieldsHaveNoClass(fields);
      }
    }
  }

  /** The round trip as its callers see it: the same document, and every byte of it read. */
  lemma CanonicalRoundTripIff(fields: seq<Field>, rest: seq<Byte>)
    requires Sound(Object(fields))
    ensures ParseDocument(EncodeDocument(fields) + rest) == Parsed(Object(fields), |EncodeDocument(fields)|) <==>
      Canonical(Object(fields))
  {
    DocumentRoundTrip(fields, rest);
    ObjectUnchangedIff(fields);
  }

  lemma {:induction false} NormalLinks(items: seq<Val>)
    requires forall i :: 0 <= i < |items| ==> items[i].Link?
    ensures |NormalItems(items)| == |items| && AllSound(NormalItems(items))
    ensures forall i :: 0 <= i < |items| ==> NormalItems(items)[i] == Normal(items[i])
    decreases |items|
  {
    if items != [] {
      NormalLinks(items[1..]);
      assert NormalItems(items)[1..] == NormalItems(items[1..]);
    }
  }

  /**
   * What comes back for a list of links can be written again exactly when it is empty, starts with a link to
   * nothing, or has none: a null behind a link has no cluster to write.
   */
  lemma LinksStayWritableIff(items: seq<Val>)
    requires |items| < TWO_32 && forall i :: 0 <= i < |items| ==> items[i].Link?
    ensures Sound(Normal(List(items))) <==>
      items == [] || items[0] == Link(-2, -1) || forall i :: 0 <= i < |items| ==> items[i] != Link(-2, -1)
  {
    NormalLinks(items);
    var back := NormalItems(items);
    assert Normal(List(items)) == List(back);
    if items != [] && items[0] != Link(-2, -1) {
      if i :| 0 <= i < |items| && items[i] == Link(-2, -1) {
        assert back[i] == Null;
      }
    }
  }

  /** A link to nothing behind another link is read as a null that cannot be written there; in front it can. */
  lemma NullLinkLeavesTheDomain()
    ensures var links := List([Link(9, 1), Link(-2, -1)]); Sound(links) && !Sound(Normal(links))
    ensures var links := List([Link(-2, -1), Link(9, 1)]); Sound(links) && Sound(Normal(links))
  {
    var behind, front := [Link(9, 1), Link(-2, -1)], [Link(-2, -1), Link(9, 1)];
    LinksStayWritableIff(behind);
    LinksStayWritableIff(front);
    assert behind[1] == Link(-2, -1);
    assert AllSound(behind) by { assert AllSound(behind[1..]) by { assert behind[1..][1..] == []; } }
    assert AllSound(front) by { assert AllSound(front[1..]) by { assert front[1..][1..] == []; } }
  }

  // ---- bytes -------------------------------------------------------------

  lemma SmallNumbers()
    ensures forall n :: 0 <= n < 64 ==> Varint.Encode(n) == [2 * n]
  {
  }

  /** The type byte and the bytes of a value of each kind. */
  lemma KnownValues()
    ensures EncodeValue(Null) == [255] && EncodeValue(Flag(true)) == [0, 1] && EncodeValue(Whole(1)) == [3, 2]
    ensures EncodeValue(Date(1)) == [6, 2] && EncodeValue(Text([104, 105])) == [7, 4, 104, 105]
    ensures EncodeValue(Link(9, 1)) == [13, 18, 2] && EncodeValue(List([Link(9, 1)])) == [14, 2, 18, 2]
    ensures EncodeValue(List([Whole(1)])) == [10, 2, 3, 2]
    ensures EncodeValue(Real([64, 9, 0, 0, 0, 0, 0, 0])) == [5, 64, 9, 0, 0, 0, 0, 0, 0]
  {
    SmallNumbers();
  }

  /** `{a: "hi"}`, as a value and as a document. */
  lemma KnownDocument()
    ensures var plain := [Entry([97], Text([104, 105]))];
      EncodeDocument(plain) == [0, 2, 2, 97, 7, 4, 104, 105] && EncodeValue(Object(plain)) == [12, 2, 2, 97, 7, 4, 104, 105]
  {
    SmallNumbers();
    KnownValues();
  }

  lemma ClassIsNoField(name: seq<Byte>, fields: seq<Field>)
    requires name != []
    ensures var all := [Entry(CLASS_KEY, Text(name))] + fields;
      ClassName(all) == name && EncodeObject(all) == EncodeObject(fields)
  {
    hide EncodeText, EncodeValue;
    var all := [Entry(CLASS_KEY, Text(name))] + fields;
    assert all[1..] == fields && !IsField(all[0].key);
    assert EncodeFields(all) == EncodeFields(fields);
  }

  /** The same of class "C". */
  lemma KnownClassDocument()
    ensures var classed := [Entry(CLASS_KEY, Text([67])), Entry([97], Text([104, 105]))];
      && EncodeDocument(classed) == [2, 67, 2, 2, 97, 7, 4, 104, 105]
      && EncodeValue(Object(classed)) == [9, 2, 67, 2, 2, 97, 7, 4, 104, 105]
  {
    hide EncodeObject, ClassName;
    var plain := [Entry([97], Text([104, 105]))];
    SmallNumbers();
    KnownDocument();
    ClassIsNoField([67], plain);
    NoClass(plain);
    assert [Entry(CLASS_KEY, Text([67]))] + plain == [Entry(CLASS_KEY, Text([67])), Entry([97], Text([104, 105]))];
    assert EncodeText([67]) == [2, 67];
    assert EncodeDocument(plain) == [0] + EncodeObject(plain);
    assert EncodeDocument(plain)[1..] == EncodeObject(plain);
  }

  lemma NoClass(plain: seq<Field>)
    requires plain == [Entry([97], Text([104, 105]))]
    ensures ClassName(plain) == [] && EncodeText([]) == [0]
  {
    SmallNumbers();
    assert plain[0].key == [97] && |CLASS_KEY| == 6 && plain[1..] == [];
    assert Find(plain, CLASS_KEY) == Find([], CLASS_KEY);
  }
}
