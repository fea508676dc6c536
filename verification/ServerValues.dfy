/** Values of the types that only the server writes: what the reader makes of their bytes. */
module ServerValues {
  import opened Bytes
  import opened WireFormat
  import opened Documents
  import opened DocumentRoundTrip
  import opened Entries
  import Decimals
  import Varint

  // ---- numbers, dates, flags ---------------------------------------------

  /** A short, an integer and a long are all read as a varint. */
  lemma NumberRead(kind: int, n: int, rest: seq<Byte>)
    requires kind == 1 || kind == 2 || kind == 3
    ensures ParseValue(kind, Varint.Encode(n) + rest) == Parsed(Whole(n), |Varint.Encode(n)|)
  {
    ReadVarint(n, rest);
  }

  /** A date without time is a number of days. */
  lemma DayRead(day: int, rest: seq<Byte>)
    ensures ParseValue(19, Varint.Encode(day) + rest) == Parsed(Date(day * 86400000), |Varint.Encode(day)|)
  {
    ReadVarint(day, rest);
  }

  lemma ByteRead(n: int, rest: seq<Byte>)
    requires -128 <= n < 128
    ensures ParseValue(17, [n % 256] + rest) == Parsed(Whole(n), 1)
  {
  }

  /** A flag is set by the byte 1 alone. */
  lemma FlagRead(b: Byte, rest: seq<Byte>)
    ensures ParseValue(0, [b] + rest) == Parsed(Flag(b == 1), 1)
  {
  }

  lemma SingleRead(bits: seq<Byte>, rest: seq<Byte>)
    requires |bits| == 4
    ensures ParseValue(4, bits + rest) == Parsed(ReadOnly(Single(bits)), 4)
  {
    assert (bits + rest)[..4] == bits;
  }

  /** The types the reader knows; for any other it throws. */
  lemma OtherTypesFail(kind: int, b: seq<Byte>)
    requires kind < -1 || kind == 8 || kind == 18 || kind == 20 || kind > 22
    ensures ParseValue(kind, b).Failed?
  {
  }

  // ---- sets and maps -----------------------------------------------------

  /** A set of values is read like a list. */
  lemma SetRead(items: seq<Val>, rest: seq<Byte>)
    requires AllSound(items) && |items| < TWO_32
    ensures var e := Varint.Encode(|items|) + EncodeItems(items);
      ParseValue(11, e + rest) == Parsed(List(NormalItems(items)), |e|)
  {
    hide ParseItems, EncodeItems, NormalItems;
    var count, encoded := Varint.Encode(|items|), EncodeItems(items);
    var b := count + encoded + rest;
    assert b == count + (encoded + rest);
    ReadVarint(|items|, encoded + rest);
    assert b[|count|..] == encoded + rest;
    ItemsRoundTrip(items, [], rest);
    assert [] + NormalItems(items) == NormalItems(items);
    assert ParseValue(11, b) == ParseList(b);
  }

  /** A set of links is read like a list of links. */
  lemma LinkSetRead(links: seq<Val>, rest: seq<Byte>)
    requires forall i :: 0 <= i < |links| ==> links[i].Link?
    ensures var e := Varint.Encode(|links|) + EncodeLinks(links);
      ParseValue(15, e + rest) == Parsed(List(NormalItems(links)), |e|)
  {
    hide ParseLinks, EncodeLinks, NormalItems;
    var count, encoded := Varint.Encode(|links|), EncodeLinks(links);
    var b := count + encoded + rest;
    assert b == count + (encoded + rest);
    ReadVarint(|links|, encoded + rest);
    assert b[|count|..] == encoded + rest;
    LinksRoundTrip(links, [], rest);
    assert [] + NormalItems(links) == NormalItems(links);
    assert ParseValue(15, b) == ParseLinkList(b);
  }

  /** An entry of a map of links: the type of its key, its key and where it leads. */
  datatype MapLink = MapLink(keyType: Byte, key: seq<Byte>, cluster: int, position: int)

  function EncodeMapLink(l: MapLink): seq<Byte> {
    [l.keyType] + EncodeText(l.key) + EncodeLink(l.cluster, l.position)
  }

  function EncodeMapLinks(ls: seq<MapLink>): seq<Byte> {
    if ls == [] then []
    else EncodeMapLink(ls[0]) + EncodeMapLinks(ls[1..])
  }

  /** The entries in order, whatever the types of their keys; a link to nothing is null. */
  function MapLinkFields(ls: seq<MapLink>): (fields: seq<Field>)
    ensures |fields| == |ls|
    ensures forall i :: 0 <= i < |ls| ==> fields[i] == Entry(ls[i].key, LinkTo(ls[i].cluster, ls[i].position))
  {
    if ls == [] then [] else [Entry(ls[0].key, LinkTo(ls[0].cluster, ls[0].position))] + MapLinkFields(ls[1..])
  }

  predicate OwnKeys(ls: seq<MapLink>, record: seq<Field>) {
    && (forall i, j :: 0 <= i < j < |ls| ==> ls[i].key != ls[j].key)
    && forall i :: 0 <= i < |ls| ==> !HasKey(record, ls[i].key)
  }

  lemma OwnKeysStay(ls: seq<MapLink>, record: seq<Field>, v: Val)
    requires ls != [] && OwnKeys(ls, record)
    ensures OwnKeys(ls[1..], record + [Entry(ls[0].key, v)])
  {
    var next := record + [Entry(ls[0].key, v)];
    forall i | 0 <= i < |ls[1..]| ensures !HasKey(next, ls[1..][i].key) {
      assert ls[1..][i] == ls[i + 1] && !HasKey(record, ls[i + 1].key);
    }
  }

  lemma EntryBytes(l: MapLink, others: seq<Byte>)
    ensures var b := EncodeMapLink(l) + others;
      var link := EncodeLink(l.cluster, l.position) + others;
      && b != [] && b[1..] == EncodeText(l.key) + link
      && Rest(b, 1 + |EncodeText(l.key)|) == link
      && Rest(b, 1 + |EncodeText(l.key)| + |EncodeLink(l.cluster, l.position)|) == others
  {
    hide EncodeText, EncodeLink;
  }

  /** One turn of the loop over entries. */
  lemma EntryTurn(n: nat, record: seq<Field>, b: seq<Byte>, key: seq<Byte>, keyUsed: nat, link: Val, linkUsed: nat)
    requires b != [] && ParseText(b[1..]) == Parsed(key, keyUsed)
    requires ParseLink(Rest(b, 1 + keyUsed)) == Parsed(link, linkUsed)
    ensures ParseLinkEntries(n + 1, record, b) ==
      After(1 + keyUsed + linkUsed, ParseLinkEntries(n, Set(record, key, link), Rest(b, 1 + keyUsed + linkUsed)))
  {
    hide ParseText, ParseLink, Rest, Set;
  }

  lemma OneMapLink(l: MapLink, n: nat, record: seq<Field>, tail: seq<Byte>)
    requires !HasKey(record, l.key)
    ensures ParseLinkEntries(n + 1, record, EncodeMapLink(l) + tail) ==
      After(|EncodeMapLink(l)|, ParseLinkEntries(n, record + [Entry(l.key, LinkTo(l.cluster, l.position))], tail))
  {
    hide ParseText, ParseLink, EncodeText, EncodeLink, Rest, Set, HasKey, LinkTo, ParseLinkEntries;
    var b := EncodeMapLink(l) + tail;
    var link := LinkTo(l.cluster, l.position);
    EntryBytes(l, tail);
    ReadText(l.key, EncodeLink(l.cluster, l.position) + tail);
    ReadLink(l.cluster, l.position, tail);
    SetNew(record, l.key, link);
    EntryTurn(n, record, b, l.key, |EncodeText(l.key)|, link, |EncodeLink(l.cluster, l.position)|);
  }

  lemma {:induction false} MapLinksRead(ls: seq<MapLink>, record: seq<Field>, rest: seq<Byte>)
    requires OwnKeys(ls, record)
    ensures ParseLinkEntries(|ls|, record, EncodeMapLinks(ls) + rest) ==
      Parsed(record + MapLinkFields(ls), |EncodeMapLinks(ls)|)
    decreases |ls|
  {
    hide EncodeMapLink, OwnKeys, LinkTo, ParseLinkEntries, HasKey;
    if ls == [] {
      NoEntries(record, EncodeMapLinks(ls) + rest);
      assert record + [] == record;
    } else {
      var l, others := ls[0], EncodeMapLinks(ls[1..]);
      var more := record + [Entry(l.key, LinkTo(l.cluster, l.position))];
      assert EncodeMapLinks(ls) + rest == EncodeMapLink(l) + (others + rest);
      FirstKeyNew(ls, record);
      OneMapLink(l, |ls| - 1, record, others + rest);
      OwnKeysStay(ls, record, LinkTo(l.cluster, l.position));
      MapLinksRead(ls[1..], more, rest);
      assert more + MapLinkFields(ls[1..]) == record + MapLinkFields(ls);
    }
  }

  lemma NoEntries(record: seq<Field>, b: seq<Byte>)
    ensures ParseLinkEntries(0, record, b) == Parsed(record, 0)
  {
  }

  lemma FirstKeyNew(ls: seq<MapLink>, record: seq<Field>)
    requires ls != [] && OwnKeys(ls, record)
    ensures !HasKey(record, ls[0].key)
  {
  }

  /** A map of links is read with every key, links to nothing as null; the type in front of a key is skipped. */
  lemma LinkMapRead(ls: seq<MapLink>, rest: seq<Byte>)
    requires OwnKeys(ls, [])
    ensures var e := Varint.Encode(|ls|) + EncodeMapLinks(ls);
      ParseValue(16, e + rest) == Parsed(Object(MapLinkFields(ls)), |e|)
  {
    hide ParseLinkEntries, EncodeMapLinks, MapLinkFields;
    var count, encoded := Varint.Encode(|ls|), EncodeMapLinks(ls);
    var b := count + encoded + rest;
    assert b == count + (encoded + rest);
    ReadVarint(|ls|, encoded + rest);
    assert b[|count|..] == encoded + rest;
    MapLinksRead(ls, [], rest);
    assert [] + MapLinkFields(ls) == MapLinkFields(ls);
    assert ParseValue(16, b) == ParseLinkMap(b);
  }

  // ---- bags and decimals -------------------------------------------------

  /** A bag of links in the bytes the server sends: an identifier, the mark of an embedded bag, and the links. */
  function EncodeBag(id: seq<Byte>, links: seq<Val>): seq<Byte> {
    id + [1] + (Varint.Encode(|links|) + EncodeLinks(links))
  }

  /** An embedded bag is read with all its links, those to nothing as null, using exactly its bytes. */
  lemma BagRead(id: seq<Byte>, links: seq<Val>, rest: seq<Byte>)
    requires |id| == 16 && forall i :: 0 <= i < |links| ==> links[i].Link?
    ensures ParseValue(22, EncodeBag(id, links) + rest) == Parsed(ReadOnly(Bag(NormalItems(links))), |EncodeBag(id, links)|)
  {
    hide ParseLinks, EncodeLinks, NormalItems;
    var count, encoded := Varint.Encode(|links|), EncodeLinks(links);
    var b := EncodeBag(id, links) + rest;
    assert b == id + [1] + (count + (encoded + rest));
    assert b[16] == 1 && b[17..] == count + (encoded + rest);
    ReadVarint(|links|, encoded + rest);
    assert b[17..][|count|..] == encoded + rest;
    LinksRoundTrip(links, [], rest);
    assert [] + NormalItems(links) == NormalItems(links);
    assert ParseBagLinks(b[17..]) == Parsed(ReadOnly(Bag(NormalItems(links))), |count| + |encoded|);
    assert ParseValue(22, b) == ParseBag(b);
  }

  /** A decimal is read as the number of its bytes over ten to its scale. */
  lemma DecimalRead(scale: Int32, number: seq<Byte>, rest: seq<Byte>)
    requires |number| < 0x8000_0000
    ensures ParseValue(21, EncodeInt32(scale) + EncodeInt32(|number|) + number + rest) ==
      Parsed(ReadOnly(Decimal(Decimals.Unscaled(number), scale)), 8 + |number|)
  {
    hide Decimals.Unscaled, EncodeInt32, ReadInt32;
    var b := EncodeInt32(scale) + EncodeInt32(|number|) + number + rest;
    assert b == EncodeInt32(scale) + (EncodeInt32(|number|) + number + rest);
    assert b[4..] == EncodeInt32(|number|) + (number + rest);
    Int32RoundTrip(scale, EncodeInt32(|number|) + number + rest);
    Int32RoundTrip(|number|, number + rest);
    assert b[8..8 + |number|] == number;
    assert ParseValue(21, b) == ParseDecimal(b);
  }

  function EncodeNumbers(ns: seq<int>): seq<Byte> {
    if ns == [] then [] else Varint.Encode(ns[0]) + EncodeNumbers(ns[1..])
  }

  lemma {:induction false} NumbersRead(ns: seq<int>, rest: seq<Byte>)
    ensures ParseNumbers(|ns|, EncodeNumbers(ns) + rest) == Parsed(ns, |EncodeNumbers(ns)|)
    decreases |ns|
  {
    hide ParseVarint;
    if ns != [] {
      var first, others := Varint.Encode(ns[0]), EncodeNumbers(ns[1..]);
      assert EncodeNumbers(ns) + rest == first + (others + rest);
      assert (first + (others + rest))[|first|..] == others + rest;
      ReadVarint(ns[0], others + rest);
      NumbersRead(ns[1..], rest);
      assert ns == [ns[0]] + ns[1..];
    }
  }

  /** A bag kept as a tree: an identifier, any mark but 1, where the tree is, its size and its changes; the size is kept. */
  lemma TreeBagRead(id: seq<Byte>, mark: Byte, fileId: int, pageIndex: int, pageOffset: int, size: int, changes: int,
                    rest: seq<Byte>)
    requires |id| == 16 && mark != 1
    ensures var e := id + [mark] + EncodeNumbers([fileId, pageIndex, pageOffset, size, changes]);
      ParseValue(22, e + rest) == Parsed(ReadOnly(TreeBag(size)), |e|)
  {
    hide ParseNumbers, EncodeNumbers;
    var ns := [fileId, pageIndex, pageOffset, size, changes];
    var b := id + [mark] + EncodeNumbers(ns) + rest;
    assert b[16] == mark && b[17..] == EncodeNumbers(ns) + rest;
    NumbersRead(ns, rest);
    assert ParseValue(22, b) == ParseBag(b);
  }
}
