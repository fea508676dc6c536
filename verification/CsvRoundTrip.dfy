/** Eating a printed record gives the record back. */
module CsvRoundTrip {
  import opened Options
  import opened CsvText
  import opened Entries

  // ---- what can be printed and read back ---------------------------------

  /** A class or field name of a record: no colon, no "@", and nothing in front that the reader would take for something else. */
  predicate PlainName(s: string) {
    && s != "" && s[0] != ' ' && s[0] != ',' && s[0] != ')' && s[0] != '"'
    && forall i :: 0 <= i < |s| ==> s[i] != ':' && s[i] != '@'
  }

  /** The key of a map is put in quotes without escaping. */
  predicate QuotedName(s: string) {
    !Skipped(s) && forall i :: 0 <= i < |s| ==> s[i] != '"' && s[i] != '\\'
  }

  predicate NumeralText(t: string) {
    t != "" && (t[0] == '-' || IsDigit(t[0])) && NumberRun(t) == |t|
  }

  predicate RidText(t: string) {
    RidRun(t) == |t|
  }

  predicate NewKeys(entries: seq<Field>, done: seq<Field>) {
    forall i :: 0 <= i < |entries| ==> !HasKey(done, entries[i].key)
  }

  /** What the printer can put into text that means it: names are clean, keys distinct, numbers finite; arrays hold anything. */
  predicate Printable(v: Val)
    decreases v
  {
    match v
    case Num(t) => NumeralText(t)
    case Date(t) => NumeralText(t)
    case Rid(c, p) => RidText(c) && RidText(p)
    case List(items) => PrintableItems(items)
    case Map(entries) => DistinctKeys(entries) && PrintableFields(entries, true)
    case Rec(cls, entries) => (cls == "" || PlainName(cls)) && DistinctKeys(entries) && PrintableFields(entries, false)
    case _ => true
  }

  predicate PrintableItems(items: seq<Val>)
    decreases items
  {
    items == [] || (Printable(items[0]) && PrintableItems(items[1..]))
  }

  predicate PrintableFields(entries: seq<Field>, isMap: bool)
    decreases entries
  {
    entries == [] || (
      assert entries[0].value < entries[0];
      && (if isMap then QuotedName(entries[0].key) else PlainName(entries[0].key))
      && Printable(entries[0].value)
      && PrintableFields(entries[1..], isMap))
  }

  // ---- what comes back ---------------------------------------------------

  /** A list loses a null in front; in a list a date becomes an empty map and a list the map of its indices. */
  function Returned(v: Val): Val
    decreases v, 1
  {
    match v
    case List(items) => List(ReturnedItems(if items != [] && items[0].Null? then items[1..] else items))
    case Map(entries) => Map(ReturnedFields(entries))
    case Rec(cls, entries) => Rec(cls, ReturnedFields(entries))
    case _ => v
  }

  function ReturnedItem(v: Val): Val
    decreases v, 2
  {
    match v
    case Date(_) => Map([])
    case List(items) => Map(ReturnedIndexed(items, 0))
    case _ => Returned(v)
  }

  function ReturnedItems(items: seq<Val>): (r: seq<Val>)
    ensures |r| == |items|
    decreases items
  {
    if items == [] then [] else [ReturnedItem(items[0])] + ReturnedItems(items[1..])
  }

  function ReturnedIndexed(items: seq<Val>, i: nat): seq<Field>
    decreases items
  {
    if items == [] then [] else [Entry(NatText(i), Returned(items[0]))] + ReturnedIndexed(items[1..], i + 1)
  }

  function ReturnedField(e: Field): Field
    decreases e
  {
    Entry(e.key, Returned(e.value))
  }

  function ReturnedFields(entries: seq<Field>): (r: seq<Field>)
    ensures |r| == |entries|
    decreases entries
  {
    if entries == [] then [] else [ReturnedField(entries[0])] + ReturnedFields(entries[1..])
  }

  /** What follows a printed value. */
  predicate Stop(rest: string) {
    rest == "" || rest[0] == ',' || rest[0] == ')' || rest[0] == ']' || rest[0] == '>' || rest[0] == '}'
  }

  // ---- strings, names, numbers, identifiers ------------------------------

  lemma {:induction false} StringBack(s: string, rest: string)
    ensures EatString(Escape(s) + "\"" + rest) == Eaten(s, rest)
    decreases |s|
  {
    var text := Escape(s) + "\"" + rest;
    if s == "" {
      assert text == "\"" + rest;
    } else {
      StringBack(s[1..], rest);
      var tail := Escape(s[1..]) + "\"" + rest;
      if s[0] == '\\' || s[0] == '"' {
        assert text == ['\\', s[0]] + tail;
        assert text[2..] == tail;
      } else {
        assert text == [s[0]] + tail;
        assert text[1..] == tail;
      }
      assert [s[0]] + s[1..] == s;
    }
  }

  lemma {:induction false} CleanStringBack(s: string, rest: string)
    requires forall i :: 0 <= i < |s| ==> s[i] != '"' && s[i] != '\\'
    ensures EatString(s + "\"" + rest) == Eaten(s, rest)
    decreases |s|
  {
    var text := s + "\"" + rest;
    if s == "" {
      assert text == "\"" + rest;
    } else {
      CleanStringBack(s[1..], rest);
      assert text[0] == s[0] && text[1..] == s[1..] + "\"" + rest;
      assert [s[0]] + s[1..] == s;
    }
  }

  lemma {:induction false} PlainKeyBack(s: string, rest: string)
    requires forall i :: 0 <= i < |s| ==> s[i] != ':' && s[i] != '@'
    ensures EatPlainKey(s + ":" + rest) == Eaten(s, rest)
    ensures EatPlainFirstKey(s + ":" + rest) == Eaten((s, false), rest)
    ensures EatPlainFirstKey(s + "@" + rest) == Eaten((s, true), rest)
    decreases |s|
  {
    var colon, at := s + ":" + rest, s + "@" + rest;
    if s == "" {
      assert colon == ":" + rest && at == "@" + rest;
    } else {
      PlainKeyBack(s[1..], rest);
      assert [s[0]] + s[1..] == s && colon[0] == s[0] && at[0] == s[0];
      assert colon[1..] == s[1..] + ":" + rest;
      assert at[1..] == s[1..] + "@" + rest;
    }
  }

  lemma {:induction false} DigitRunStays(s: string, rest: string)
    requires rest == "" || !IsDigit(rest[0])
    ensures DigitRun(s + rest) == DigitRun(s)
    decreases |s|
  {
    if s == "" {
      assert s + rest == rest;
    } else {
      assert (s + rest)[1..] == s[1..] + rest;
      DigitRunStays(s[1..], rest);
    }
  }

  predicate Continues(c: char) {
    c == '.' || c == 'e' || c == 'E'
  }

  /** A number is read to the same length when what follows cannot continue it. */
  lemma NumberRunStays(s: string, rest: string)
    requires rest == "" || (!IsDigit(rest[0]) && !Continues(rest[0]))
    requires NumberRun(s) == |s| > 0
    ensures NumberRun(s + rest) == |s|
  {
    hide DigitRun, MantissaRun, ExponentRun;
    var sign := SignRun(s);
    assert (s + rest)[0] == s[0] && SignRun(s + rest) == sign;
    assert (s + rest)[sign..] == s[sign..] + rest;
    var m := s[sign..];
    MantissaRunStays(m, rest);
    var mantissa := MantissaRun(m);
    assert (s + rest)[sign + mantissa..] == s[sign + mantissa..] + rest;
    ExponentRunStays(s[sign + mantissa..], rest);
  }

  lemma MantissaRunStays(s: string, rest: string)
    requires rest == "" || (!IsDigit(rest[0]) && !Continues(rest[0]))
    ensures MantissaRun(s + rest) == MantissaRun(s)
  {
    hide DigitRun;
    var whole := DigitRun(s);
    DigitRunStays(s, rest);
    assert (s + rest)[whole..] == s[whole..] + rest;
    if Starts(s[whole..], '.') {
      assert (s + rest)[whole + 1..] == s[whole + 1..] + rest;
      DigitRunStays(s[whole + 1..], rest);
    } else if s[whole..] == "" {
      assert (s + rest)[whole..] == rest;
    }
  }

  lemma ExponentRunStays(s: string, rest: string)
    requires rest == "" || (!IsDigit(rest[0]) && !Continues(rest[0]))
    requires ExponentRun(s) == |s|
    ensures ExponentRun(s + rest) == |s|
  {
    hide DigitRun;
    if s == "" {
      assert s + rest == rest;
    } else {
      assert (s + rest)[1..] == s[1..] + rest;
      var sign := SignRun(s[1..]);
      assert (s + rest)[1 + sign..] == s[1 + sign..] + rest;
      DigitRunStays(s[1 + sign..], rest);
    }
  }

  lemma NumberThen(t: string, rest: string)
    requires NumeralText(t) && (rest == "" || (!IsDigit(rest[0]) && !Continues(rest[0])))
    ensures EatNumber(t + rest) ==
      if Starts(rest, 'a') || Starts(rest, 't') then Eaten(Date(t), rest[1..])
      else if rest != "" && IsNumberSuffix(rest[0]) then Eaten(Num(t), rest[1..])
      else Eaten(Num(t), rest)
  {
    hide NumberRun;
    NumberRunStays(t, rest);
    assert (t + rest)[|t|..] == rest && (t + rest)[..|t|] == t;
  }

  lemma NumberBack(t: string, rest: string)
    requires NumeralText(t) && Stop(rest)
    ensures EatNumber(t + rest) == Eaten(Num(t), rest)
    ensures EatNumber(t + "d" + rest) == Eaten(Num(t), rest)
    ensures EatNumber(t + "t" + rest) == Eaten(Date(t), rest)
  {
    hide EatNumber, NumberRun;
    NumberThen(t, rest);
    NumberThen(t, "d" + rest);
    NumberThen(t, "t" + rest);
    assert t + "d" + rest == t + ("d" + rest) && t + "t" + rest == t + ("t" + rest);
    assert ("d" + rest)[1..] == rest && ("t" + rest)[1..] == rest;
  }

  /** A number with a suffix that only the server writes: the suffix is eaten too; `a` makes it a date as `t` does. */
  lemma SuffixedNumberBack(t: string, suffix: char, rest: string)
    requires NumeralText(t) && suffix in "bslfdcat"
    ensures EatValue(t + [suffix] + rest) == Some(Eaten(if suffix in "at" then Date(t) else Num(t), rest))
  {
    hide EatNumber, NumberRun;
    var behind := [suffix] + rest;
    NumberThen(t, behind);
    assert t + [suffix] + rest == t + behind && behind[1..] == rest;
    LeadsNumber(t + behind);
  }

  lemma {:induction false} RidRunStays(s: string, rest: string)
    requires RidRun(s) == |s| && (rest == "" || !(IsDigit(rest[0]) || rest[0] == '-'))
    ensures RidRun(s + rest) == |s|
    decreases |s|
  {
    if s == "" {
      assert s + rest == rest;
    } else {
      assert (s + rest)[1..] == s[1..] + rest;
      RidRunStays(s[1..], rest);
    }
  }

  lemma RidBack(cluster: string, position: string, rest: string)
    requires RidText(cluster) && RidText(position) && Stop(rest)
    ensures EatRid(cluster + ":" + position + rest) == Eaten(Rid(cluster, position), rest)
  {
    hide RidRun;
    var s, tail := cluster + ":" + position + rest, position + rest;
    assert s == cluster + (":" + tail);
    RidRunStays(cluster, ":" + tail);
    RidRunStays(position, rest);
    assert s[|cluster|..] == ":" + tail && s[|cluster| + 1..] == tail;
    assert tail[..|position|] == position && tail[|position|..] == rest;
  }

  lemma KeysStayNew(entries: seq<Field>, done: seq<Field>)
    requires entries != [] && DistinctKeys(entries) && NewKeys(entries, done)
    ensures DistinctKeys(entries[1..]) && !HasKey(done, entries[0].key)
    ensures NewKeys(entries[1..], done + [ReturnedField(entries[0])])
  {
    var next := done + [ReturnedField(entries[0])];
    forall i | 0 <= i < |entries[1..]|
      ensures !HasKey(next, entries[1..][i].key)
    {
      assert entries[1..][i] == entries[i + 1] && !HasKey(done, entries[i + 1].key);
      forall j | 0 <= j < |next| ensures next[j].key != entries[i + 1].key {
        if j < |done| {
          assert next[j] == done[j];
        }
      }
    }
  }

  // ---- the first character decides ---------------------------------------

  lemma Leads(t: string)
    ensures EatValue("[" + t) == EatArray(t, ']', [])
    ensures EatValue("{" + t) == EatMap(t, [])
    ensures EatValue("(" + t) == EatRecord(t)
    ensures EatValue("#" + t) == Some(EatRid(t))
    ensures EatValue("\"" + t) == Some(Eaten(Str(EatString(t).value), EatString(t).rest))
  {
    hide EatArray, EatMap, EatRecord, EatRid, EatString, EatNumber, Prefixed;
    assert ("[" + t)[1..] == t && ("{" + t)[1..] == t && ("(" + t)[1..] == t && ("#" + t)[1..] == t && ("\"" + t)[1..] == t;
  }

  lemma LeadsNumber(s: string)
    requires s != "" && (s[0] == '-' || IsDigit(s[0]))
    ensures EatValue(s) == Some(EatNumber(s))
  {
    hide EatArray, EatMap, EatRecord, EatRid, EatString, EatNumber, Prefixed;
  }

  lemma LeadsNothing(rest: string)
    requires Stop(rest)
    ensures EatValue(rest) == Some(Eaten(Null, rest))
  {
    hide EatArray, EatMap, EatRecord, EatRid, EatString, EatNumber;
  }

  lemma LeadsFlag(b: bool, rest: string)
    ensures EatValue((if b then "true" else "false") + rest) == Some(Eaten(Flag(b), rest))
  {
    hide EatArray, EatMap, EatRecord, EatRid, EatString, EatNumber;
    var s := (if b then "true" else "false") + rest;
    if b {
      assert s[..4] == "true" && s[4..] == rest;
    } else {
      assert s[..5] == "false" && s[5..] == rest;
    }
  }

  // ---- values ------------------------------------------------------------

  lemma TextBack(s: string, rest: string)
    ensures EatValue(PrintValue(Str(s)) + rest) == Some(Eaten(Str(s), rest))
  {
    hide EatValue, EatString, Escape;
    var text := Escape(s) + "\"" + rest;
    assert PrintValue(Str(s)) + rest == "\"" + text;
    Leads(text);
    StringBack(s, rest);
  }

  lemma NumeralBack(v: Val, rest: string)
    requires (v.Num? || v.Date?) && NumeralText(v.text) && Stop(rest)
    ensures EatValue(PrintValue(v) + rest) == Some(Eaten(v, rest))
  {
    hide EatValue, EatNumber, NumberRun, Stop;
    NumberBack(v.text, rest);
    LeadsNumber(PrintValue(v) + rest);
  }

  lemma IdentifierBack(cluster: string, position: string, rest: string)
    requires RidText(cluster) && RidText(position) && Stop(rest)
    ensures EatValue(PrintValue(Rid(cluster, position)) + rest) == Some(Eaten(Rid(cluster, position), rest))
  {
    hide EatValue, EatRid, RidText;
    var text := cluster + ":" + position + rest;
    assert PrintValue(Rid(cluster, position)) == "#" + cluster + ":" + position;
    assert PrintValue(Rid(cluster, position)) + rest == "#" + text;
    Leads(text);
    RidBack(cluster, position, rest);
  }

  /** What is eaten of a printed value in front of a delimiter, at any depth: its returned form, and all of its text. */
  lemma {:induction false} ValueBack(v: Val, rest: string)
    requires Printable(v) && Stop(rest)
    ensures EatValue(PrintValue(v) + rest) == Some(Eaten(Returned(v), rest))
    decreases v, 1
  {
    hide EatValue, NumeralText, RidText, PrintItems, PrintObject, Escape, PrintableItems, PrintableFields;
    match v
    case Null =>
      assert PrintValue(v) + rest == rest;
      LeadsNothing(rest);
    case Str(s) => TextBack(s, rest);
    case Num(_) => NumeralBack(v, rest);
    case Date(_) => NumeralBack(v, rest);
    case Flag(b) => LeadsFlag(b, rest);
    case Rid(c, p) => IdentifierBack(c, p, rest);
    case List(items) => ListBack(items, rest);
    case Map(entries) => MapBack(entries, rest);
    case Rec(cls, entries) => RecordBack(cls, entries, rest);
  }

  /** What is eaten of a printed item, which is printed as an object if it is one. */
  lemma {:induction false} ItemBack(v: Val, rest: string)
    requires Printable(v) && Stop(rest)
    ensures EatValue(PrintItem(v) + rest) == Some(Eaten(ReturnedItem(v), rest))
    decreases v, 2
  {
    hide EatValue, PrintIndexed, PrintValue, PrintableItems, Returned;
    match v
    case Date(t) => DateItemBack(t, rest);
    case List(items) => IndexedBack(items, rest);
    case _ =>
      ItemIsValue(v);
      ValueBack(v, rest);
  }

  lemma DateItemBack(t: string, rest: string)
    ensures EatValue(PrintItem(Date(t)) + rest) == Some(Eaten(Map([]), rest))
  {
    hide EatValue, EatField;
    var text := "}" + rest;
    assert PrintItem(Date(t)) + rest == "{" + text;
    Leads(text);
    assert text[1..] == rest;
  }

  /** What ends a list, and what ends a set, which only the server writes. */
  predicate Closes(c: char) {
    c == ']' || c == '>'
  }

  lemma {:induction false} ItemsBack(items: seq<Val>, close: char, rest: string)
    requires PrintableItems(items) && Stop(rest) && Closes(close)
    ensures EatArray(PrintItems(items) + [close] + rest, close, []) == Some(Eaten(Returned(List(items)), rest))
    decreases items, 3
  {
    hide EatValue, EatArray, PrintItem, PrintItems, Printable, ReturnedItems, MoreItems, Stop;
    if items == [] {
      NoItemsBack(close, rest);
    } else if items[0].Null? {
      ItemsSplit(items, close, rest);
      assert "" + MoreItems(items, close, rest) == MoreItems(items, close, rest);
      MoreItemsBack(items, [], close, rest);
      assert [] + ReturnedItems(items[1..]) == ReturnedItems(items[1..]);
    } else {
      FirstItemBack(items, close, rest);
    }
  }

  lemma {:induction false} ListBack(items: seq<Val>, rest: string)
    requires PrintableItems(items) && Stop(rest)
    ensures EatValue(PrintValue(List(items)) + rest) == Some(Eaten(Returned(List(items)), rest))
    decreases items, 4
  {
    hide EatValue, EatArray, PrintItems, Returned, Stop;
    var text := PrintItems(items) + "]" + rest;
    assert PrintValue(List(items)) + rest == "[" + text;
    Leads(text);
    ItemsBack(items, ']', rest);
  }

  /** A set is eaten as a list of its items. */
  lemma SetBack(items: seq<Val>, rest: string)
    requires PrintableItems(items) && Stop(rest)
    ensures EatValue("<" + PrintItems(items) + ">" + rest) == Some(Eaten(Returned(List(items)), rest))
  {
    hide EatValue, EatArray, PrintItems, Returned, Stop;
    var text := PrintItems(items) + ">" + rest;
    assert "<" + PrintItems(items) + ">" + rest == "<" + text;
    LeadsSet(text);
    ItemsBack(items, '>', rest);
  }

  lemma LeadsSet(t: string)
    ensures EatValue("<" + t) == EatArray(t, '>', [])
  {
    hide EatArray, EatMap, EatRecord, EatNumber, EatRid;
    assert ("<" + t)[1..] == t;
  }

  lemma NoItemsBack(close: char, rest: string)
    requires Closes(close)
    ensures EatArray(PrintItems([]) + [close] + rest, close, []) == Some(Eaten(List(ReturnedItems([])), rest))
  {
    var text := PrintItems([]) + [close] + rest;
    assert text == [close] + rest && text[1..] == rest;
  }

  /** How the text of a list goes on behind its first item. */
  function MoreItems(items: seq<Val>, close: char, rest: string): string
    requires items != []
  {
    if |items| == 1 then [close] + rest else "," + (PrintItems(items[1..]) + [close] + rest)
  }

  lemma ArrayTurn(close: char, s: string, v: Val, more: string, done: seq<Val>)
    requires s != "" && s[0] != ',' && s[0] != close && EatValue(s) == Some(Eaten(v, more)) && |more| < |s|
    ensures EatArray(s, close, done) == EatArray(more, close, done + [v])
  {
    hide EatValue;
  }

  lemma ArrayTurnAtComma(close: char, s: string, v: Val, more: string, done: seq<Val>)
    requires EatValue(s) == Some(Eaten(v, more))
    ensures EatArray("," + s, close, done) == EatArray(more, close, done + [v])
  {
    hide EatValue;
    assert ("," + s)[1..] == s;
  }

  lemma ItemsSplit(items: seq<Val>, close: char, rest: string)
    requires items != [] && Closes(close)
    ensures PrintItems(items) + [close] + rest == PrintItem(items[0]) + MoreItems(items, close, rest)
    ensures Stop(MoreItems(items, close, rest))
    ensures items[0].Null? ==> PrintItem(items[0]) == ""
  {
    hide PrintItem, PrintItems;
    PrintItemsHead(items);
    if |items| > 1 {
      Regroup(PrintItem(items[0]), ",", PrintItems(items[1..]) + [close], rest);
      Regroup(PrintItem(items[0]), ",", PrintItems(items[1..]), [close]);
    } else {
      Regroup(PrintItem(items[0]), [close], "", rest);
    }
    NullItem();
  }

  lemma NullItem()
    ensures PrintItem(Null) == ""
  {
  }

  lemma Regroup(a: string, b: string, c: string, d: string)
    ensures a + b + c + d == a + (b + (c + d)) == a + b + (c + d)
    ensures a + b + d == a + (b + d)
  {
  }

  lemma PrintItemsHead(items: seq<Val>)
    requires items != []
    ensures PrintItems(items) ==
      if |items| == 1 then PrintItem(items[0]) else PrintItem(items[0]) + "," + PrintItems(items[1..])
  {
    hide PrintItem;
    if |items| == 1 {
      assert items[1..] == [];
    }
  }

  lemma ItemIsValue(v: Val)
    requires !v.List? && !v.Date?
    ensures PrintItem(v) == PrintValue(v)
  {
    hide PrintObject;
  }

  lemma {:induction false} FirstItemBack(items: seq<Val>, close: char, rest: string)
    requires Closes(close) && items != [] && !items[0].Null? && PrintableItems(items) && Stop(rest)
    ensures EatArray(PrintItems(items) + [close] + rest, close, []) == Some(Eaten(List(ReturnedItems(items)), rest))
    decreases items, 2
  {
    hide EatValue, EatArray, PrintItems, PrintItem, ReturnedItem, Printable, MoreItems;
    var more, text := MoreItems(items, close, rest), PrintItems(items) + [close] + rest;
    ItemsSplit(items, close, rest);
    ItemBack(items[0], more);
    FirstCharOfItem(items[0]);
    assert text[0] == PrintItem(items[0])[0] && |more| < |text|;
    var first := ReturnedItem(items[0]);
    ArrayTurn(close, text, first, more, []);
    assert [] + [first] == [first];
    MoreItemsBack(items, [first], close, rest);
  }

  /** Behind an item come the others, each with a comma in front. */
  lemma {:induction false} MoreItemsBack(items: seq<Val>, done: seq<Val>, close: char, rest: string)
    requires Closes(close) && items != [] && PrintableItems(items[1..]) && Stop(rest)
    ensures EatArray(MoreItems(items, close, rest), close, done) == Some(Eaten(List(done + ReturnedItems(items[1..])), rest))
    decreases items, 1
  {
    hide EatValue, EatArray, PrintItems, PrintItem, ReturnedItem, Printable;
    var text := MoreItems(items, close, rest);
    if |items| == 1 {
      ListEnd(done, close, rest);
      assert items[1..] == [] && done + [] == done;
    } else {
      var tail := items[1..];
      var inner, more := PrintItems(tail) + [close] + rest, MoreItems(tail, close, rest);
      ItemsSplit(tail, close, rest);
      ItemBack(tail[0], more);
      var next := ReturnedItem(tail[0]);
      ArrayTurnAtComma(close, inner, next, more, done);
      MoreItemsBack(tail, done + [next], close, rest);
      assert done + [next] + ReturnedItems(tail[1..]) == done + ReturnedItems(tail);
    }
  }

  lemma ListEnd(done: seq<Val>, close: char, rest: string)
    requires Closes(close)
    ensures EatArray([close] + rest, close, done) == Some(Eaten(List(done), rest))
  {
    assert ([close] + rest)[1..] == rest;
  }

  /** What is printed for a value that is not null does not start like a delimiter or a space. */
  lemma FirstChar(v: Val)
    requires Printable(v) && !v.Null?
    ensures var p := PrintValue(v); p != "" && p[0] != ',' && !Closes(p[0]) && p[0] != ' '
  {
    hide PrintItems, PrintFields, PrintRecord, PrintMap, Escape, NumberRun, PrintIndexed;
  }

  lemma FirstCharOfItem(v: Val)
    requires Printable(v) && !v.Null?
    ensures var p := PrintItem(v); p != "" && p[0] != ',' && !Closes(p[0]) && p[0] != ' '
  {
    hide PrintValue, PrintIndexed, PrintRecord, PrintMap, Printable;
    if !v.List? && !v.Date? {
      ItemIsValue(v);
      FirstChar(v);
    }
  }

  // ---- fields ------------------------------------------------------------

  predicate GoodKey(key: string, isMap: bool) {
    if isMap then QuotedName(key) else PlainName(key)
  }

  lemma PrintFieldsHead(entries: seq<Field>, isMap: bool)
    requires entries != [] && PrintableFields(entries, isMap)
    ensures PrintFields(entries, isMap) ==
      if |entries| == 1 then PrintField(entries[0], isMap)
      else PrintField(entries[0], isMap) + "," + PrintFields(entries[1..], isMap)
  {
    hide PrintField, Printable;
    assert !Skipped(entries[0].key);
    if |entries| == 1 {
      assert entries[1..] == [];
    } else {
      assert !Skipped(entries[1..][0].key);
      assert !AllSkipped(entries[1..]);
    }
  }

  /** How the text of some fields goes on behind the first one. */
  function MoreFields(entries: seq<Field>, isMap: bool, end: string): string
    requires entries != []
  {
    if |entries| == 1 then end else "," + (PrintFields(entries[1..], isMap) + end)
  }

  lemma FieldsSplit(entries: seq<Field>, isMap: bool, end: string)
    requires entries != [] && PrintableFields(entries, isMap) && Stop(end)
    ensures PrintFields(entries, isMap) + end == PrintField(entries[0], isMap) + MoreFields(entries, isMap, end)
    ensures Stop(MoreFields(entries, isMap, end))
  {
    hide PrintField, PrintFields, Printable, PrintableFields;
    PrintFieldsHead(entries, isMap);
  }

  /** The printed key is eaten up to and with its colon. */
  lemma KeyBack(key: string, isMap: bool, text: string)
    requires GoodKey(key, isMap)
    ensures EatKey((if isMap then "\"" + key + "\"" else key) + ":" + text) == Eaten(key, text)
  {
    hide EatString, EatPlainKey;
    if isMap {
      var s := "\"" + key + "\"" + ":" + text;
      CleanStringBack(key, ":" + text);
      assert s[1..] == key + "\"" + (":" + text);
      assert (":" + text)[1..] == text;
    } else {
      PlainKeyBack(key, text);
    }
  }

  lemma {:induction false} FieldBack(e: Field, isMap: bool, more: string)
    requires GoodKey(e.key, isMap) && Printable(e.value) && Stop(more)
    ensures EatField(PrintField(e, isMap) + more) == Some(Eaten(ReturnedField(e), more))
    decreases e.value, 2
  {
    hide EatValue, EatKey, PrintValue, Printable, GoodKey, Returned;
    var value := PrintValue(e.value) + more;
    KeyBack(e.key, isMap, value);
    assert PrintField(e, isMap) + more == (if isMap then "\"" + e.key + "\"" else e.key) + ":" + value;
    ValueBack(e.value, more);
    if value == "" {
      EmptyIsNull(e.value);
      NullComesBack();
    }
  }

  lemma NullComesBack()
    ensures Returned(Null) == Null
  {
  }

  lemma EmptyIsNull(v: Val)
    requires Printable(v) && PrintValue(v) == ""
    ensures v.Null?
  {
    hide PrintValue, Printable;
    if !v.Null? {
      FirstChar(v);
    }
  }

  lemma MapTurn(s: string, e: Field, more: string, done: seq<Field>)
    requires EatField(s) == Some(Eaten(e, more)) && !HasKey(done, e.key)
    ensures |more| <= |s|
    ensures EatMap("," + s, done) == EatMap(more, done + [e])
    ensures s != "" && s[0] == '"' ==> EatMap(s, done) == EatMap(more, done + [e])
  {
    hide EatField, Set, HasKey;
    assert ("," + s)[1..] == s;
    SetNew(done, e.key, e.value);
  }

  lemma {:induction false} MapBack(entries: seq<Field>, rest: string)
    requires DistinctKeys(entries) && PrintableFields(entries, true) && Stop(rest)
    ensures EatValue(PrintValue(Map(entries)) + rest) == Some(Eaten(Returned(Map(entries)), rest))
    decreases entries, 4
  {
    hide EatValue, PrintFields, PrintField, PrintableFields, EatField, ReturnedFields, EatMap, MapClass, DistinctKeys, Stop;
    var end := "}" + rest;
    var text := PrintFields(entries, true) + end;
    NoClass(entries);
    assert PrintMap(entries) == "" + PrintFields(entries, true) == PrintFields(entries, true);
    Regroup("{", PrintFields(entries, true), "}", rest);
    assert PrintValue(Map(entries)) == "{" + PrintMap(entries) + "}";
    Leads(text);
    if entries == [] {
      NoMapFieldsBack(rest);
    } else {
      FirstMapFieldBack(entries, rest);
    }
  }

  lemma {:induction false} NoClass(entries: seq<Field>)
    requires PrintableFields(entries, true)
    ensures MapClass(entries) == ""
    decreases |entries|
  {
    hide Printable;
    if entries != [] {
      assert Skipped("@class");
      NoClass(entries[1..]);
    }
  }

  lemma NoFieldsPrinted(isMap: bool)
    ensures PrintFields([], isMap) == ""
  {
  }

  lemma NoMapFieldsBack(rest: string)
    ensures EatMap(PrintFields([], true) + ("}" + rest), []) == Some(Eaten(Map(ReturnedFields([])), rest))
  {
    hide EatField;
    MapEnd([], rest);
    assert "" + ("}" + rest) == "}" + rest;
  }

  lemma MapEnd(done: seq<Field>, rest: string)
    ensures EatMap("}" + rest, done) == Some(Eaten(Map(done), rest))
  {
    hide EatField;
    assert ("}" + rest)[1..] == rest;
  }

  lemma {:induction false} FirstMapFieldBack(entries: seq<Field>, rest: string)
    requires entries != [] && DistinctKeys(entries) && PrintableFields(entries, true) && Stop(rest)
    ensures EatMap(PrintFields(entries, true) + ("}" + rest), []) == Some(Eaten(Map(ReturnedFields(entries)), rest))
    decreases entries, 3
  {
    hide EatMap, EatField, PrintFields, DistinctKeys, QuotedName, PrintValue, Printable, Returned;
    var end := "}" + rest;
    var first, more, back := PrintField(entries[0], true), MoreFields(entries, true, end), ReturnedField(entries[0]);
    FieldsSplit(entries, true, end);
    assert entries[0].value < entries[0];
    FieldBack(entries[0], true, more);
    assert (first + more)[0] == '"';
    MapTurn(first + more, back, more, []);
    assert [] + [back] == [back];
    FirstKeyNew(entries);
    MoreMapBack(entries, [back], rest);
  }

  lemma FirstKeyNew(entries: seq<Field>)
    requires entries != [] && DistinctKeys(entries)
    ensures DistinctKeys(entries[1..]) && NewKeys(entries[1..], [ReturnedField(entries[0])])
  {
    KeysStayNew(entries, []);
    assert [] + [ReturnedField(entries[0])] == [ReturnedField(entries[0])];
  }

  lemma {:induction false} MoreMapBack(entries: seq<Field>, done: seq<Field>, rest: string)
    requires entries != [] && PrintableFields(entries[1..], true) && Stop(rest)
    requires DistinctKeys(entries[1..]) && NewKeys(entries[1..], done)
    ensures EatMap(MoreFields(entries, true, "}" + rest), done) ==
      Some(Eaten(Map(done + ReturnedFields(entries[1..])), rest))
    decreases entries, 2
  {
    hide EatField, EatMap, PrintFields, PrintField, DistinctKeys, NewKeys, QuotedName, Printable, HasKey, Returned;
    var end := "}" + rest;
    if |entries| == 1 {
      MapEnd(done, rest);
      assert entries[1..] == [] && done + [] == done;
    } else {
      var tail := entries[1..];
      var first, more, back := PrintField(tail[0], true), MoreFields(tail, true, end), ReturnedField(tail[0]);
      FieldsSplit(tail, true, end);
      assert tail[0].value < tail[0];
      FieldBack(tail[0], true, more);
      KeysStayNew(tail, done);
      MapTurn(first + more, back, more, done);
      MoreMapBack(tail, done + [back], rest);
      assert done + [back] + ReturnedFields(tail[1..]) == done + ReturnedFields(tail);
    }
  }

  // ---- a list inside a list ----------------------------------------------

  lemma {:induction false} NatTextIsDigits(i: nat)
    ensures NatText(i) != "" && forall k :: 0 <= k < |NatText(i)| ==> IsDigit(NatText(i)[k])
    decreases i
  {
    if i >= 10 {
      NatTextIsDigits(i / 10);
    }
  }

  /** Different indices are printed differently. */
  lemma {:induction false} NatTextDiffers(i: nat, j: nat)
    requires NatText(i) == NatText(j)
    ensures i == j
    decreases i
  {
    if i >= 10 || j >= 10 {
      NatTextIsDigits(i / 10);
      NatTextIsDigits(j / 10);
      LastDigit(i);
      LastDigit(j);
      if i >= 10 && j >= 10 {
        NatTextDiffers(i / 10, j / 10);
      }
    }
  }

  lemma LastDigit(i: nat)
    ensures i < 10 ==> |NatText(i)| == 1
    ensures i >= 10 ==> |NatText(i)| == |NatText(i / 10)| + 1 && NatText(i)[..|NatText(i)| - 1] == NatText(i / 10)
    ensures NatText(i)[|NatText(i)| - 1] == "0123456789"[i % 10]
  {
  }

  /** The keys of these entries are indices below i. */
  ghost predicate IndicesBelow(done: seq<Field>, i: nat) {
    forall k :: 0 <= k < |done| ==> exists j: nat :: j < i && done[k].key == NatText(j)
  }

  lemma NextIndexIsNew(done: seq<Field>, i: nat, v: Val)
    requires IndicesBelow(done, i)
    ensures !HasKey(done, NatText(i)) && IndicesBelow(done + [Entry(NatText(i), v)], i + 1)
    ensures QuotedName(NatText(i))
  {
    hide NatText;
    forall k | 0 <= k < |done| ensures done[k].key != NatText(i) {
      var j: nat :| j < i && done[k].key == NatText(j);
      if NatText(i) == NatText(j) {
        NatTextDiffers(i, j);
      }
    }
    NatTextIsDigits(i);
    assert forall c: char :: IsDigit(c) ==> c != '"' && c != '\\' && c != '@';
  }

  function MoreIndexed(items: seq<Val>, i: nat, end: string): string
    requires items != []
  {
    if |items| == 1 then end else "," + (PrintIndexed(items[1..], i + 1) + end)
  }

  lemma IndexedSplit(items: seq<Val>, i: nat, end: string)
    requires items != [] && Stop(end)
    ensures PrintIndexed(items, i) + end == PrintField(Entry(NatText(i), items[0]), true) + MoreIndexed(items, i, end)
    ensures Stop(MoreIndexed(items, i, end))
  {
    hide PrintValue, NatText, PrintIndexed;
    var field := PrintField(Entry(NatText(i), items[0]), true);
    assert field == "\"" + NatText(i) + "\":" + PrintValue(items[0]);
    IndexedHead(items, i);
    if |items| > 1 {
      Regroup(field, ",", PrintIndexed(items[1..], i + 1), end);
    }
  }

  lemma IndexedHead(items: seq<Val>, i: nat)
    requires items != []
    ensures PrintIndexed(items, i) ==
      var field := "\"" + NatText(i) + "\":" + PrintValue(items[0]);
      if |items| == 1 then field else field + "," + PrintIndexed(items[1..], i + 1)
  {
    hide PrintValue, NatText;
    if |items| == 1 {
      assert items[1..] == [];
    }
  }

  lemma {:induction false} IndexedBack(items: seq<Val>, rest: string)
    requires PrintableItems(items) && Stop(rest)
    ensures EatValue(PrintItem(List(items)) + rest) == Some(Eaten(Map(ReturnedIndexed(items, 0)), rest))
    decreases items, 5
  {
    hide EatValue, EatMap, EatField, PrintIndexed, PrintableItems, ReturnedIndexed, NatText, Stop;
    var end := "}" + rest;
    var text := PrintIndexed(items, 0) + end;
    assert PrintItem(List(items)) + rest == "{" + text;
    Leads(text);
    if items == [] {
      NoIndexedBack(rest);
    } else {
      FirstIndexedBack(items, rest);
    }
  }

  lemma NoIndexedBack(rest: string)
    ensures EatMap(PrintIndexed([], 0) + ("}" + rest), []) == Some(Eaten(Map(ReturnedIndexed([], 0)), rest))
  {
    hide EatMap;
    MapEnd([], rest);
    assert "" + ("}" + rest) == "}" + rest;
  }

  lemma {:induction false} FirstIndexedBack(items: seq<Val>, rest: string)
    requires items != [] && PrintableItems(items) && Stop(rest)
    ensures EatMap(PrintIndexed(items, 0) + ("}" + rest), []) == Some(Eaten(Map(ReturnedIndexed(items, 0)), rest))
    decreases items, 4
  {
    hide EatMap, EatField, PrintIndexed, PrintValue, Printable, NatText, QuotedName, Returned, HasKey, MoreIndexed;
    var end := "}" + rest;
    var e, more := Entry(NatText(0), items[0]), MoreIndexed(items, 0, end);
    IndexedSplit(items, 0, end);
    NextIndexIsNew([], 0, Returned(items[0]));
    FieldBack(e, true, more);
    assert (PrintField(e, true) + more)[0] == '"';
    MapTurn(PrintField(e, true) + more, ReturnedField(e), more, []);
    assert [] + [ReturnedField(e)] == [ReturnedField(e)];
    MoreIndexedBack(items, 0, [ReturnedField(e)], rest);
  }

  lemma {:induction false} MoreIndexedBack(items: seq<Val>, i: nat, done: seq<Field>, rest: string)
    requires items != [] && PrintableItems(items[1..]) && Stop(rest) && IndicesBelow(done, i + 1)
    ensures EatMap(MoreIndexed(items, i, "}" + rest), done) ==
      Some(Eaten(Map(done + ReturnedIndexed(items[1..], i + 1)), rest))
    decreases items, 3
  {
    hide EatMap, EatField, PrintIndexed, PrintField, Printable, NatText, QuotedName, Returned, HasKey, IndicesBelow;
    var end := "}" + rest;
    if |items| == 1 {
      MapEnd(done, rest);
      assert items[1..] == [] && done + [] == done;
    } else {
      var tail := items[1..];
      var e, more := Entry(NatText(i + 1), tail[0]), MoreIndexed(tail, i + 1, end);
      IndexedSplit(tail, i + 1, end);
      NextIndexIsNew(done, i + 1, Returned(tail[0]));
      FieldBack(e, true, more);
      MapTurn(PrintField(e, true) + more, ReturnedField(e), more, done);
      MoreIndexedBack(tail, i + 1, done + [ReturnedField(e)], rest);
      assert done + [ReturnedField(e)] + ReturnedIndexed(tail[1..], i + 2) == done + ReturnedIndexed(tail, i + 1);
    }
  }

  // ---- records -----------------------------------------------------------

  lemma RecordTurn(s: string, e: Field, more: string, cls: string, done: seq<Field>)
    requires EatField(s) == Some(Eaten(e, more)) && !HasKey(done, e.key)
    ensures EatRecordFields("," + s, cls, done) == EatRecordFields(more, cls, done + [e])
    ensures EatDocumentFields("," + s, cls, done) == EatDocumentFields(more, cls, done + [e])
  {
    hide EatField, Set, HasKey;
    assert ("," + s)[1..] == s;
    SetNew(done, e.key, e.value);
  }

  lemma RecordEnd(cls: string, done: seq<Field>, rest: string)
    ensures EatRecordFields(")" + rest, cls, done) == Some(Eaten(Rec(cls, done), rest))
    ensures EatDocumentFields("", cls, done) == Some(Rec(cls, done))
  {
    hide EatField;
    assert (")" + rest)[1..] == rest;
  }

  lemma {:induction false} MoreRecordBack(entries: seq<Field>, cls: string, done: seq<Field>, rest: string)
    requires entries != [] && PrintableFields(entries[1..], false) && Stop(rest)
    requires DistinctKeys(entries[1..]) && NewKeys(entries[1..], done)
    ensures var back := Rec(cls, done + ReturnedFields(entries[1..]));
      && EatRecordFields(MoreFields(entries, false, ")" + rest), cls, done) == Some(Eaten(back, rest))
      && EatDocumentFields(MoreFields(entries, false, ""), cls, done) == Some(back)
    decreases entries, 2
  {
    hide EatField, EatRecordFields, EatDocumentFields, PrintFields, PrintField, DistinctKeys, NewKeys, PlainName, Printable,
      HasKey, Returned;
    var end := ")" + rest;
    if |entries| == 1 {
      RecordEnd(cls, done, rest);
      assert entries[1..] == [] && done + [] == done;
    } else {
      var tail := entries[1..];
      var first, more, last := PrintField(tail[0], false), MoreFields(tail, false, end), MoreFields(tail, false, "");
      var back := ReturnedField(tail[0]);
      FieldsSplit(tail, false, end);
      FieldsSplit(tail, false, "");
      assert tail[0].value < tail[0];
      FieldBack(tail[0], false, more);
      FieldBack(tail[0], false, last);
      KeysStayNew(tail, done);
      RecordTurn(first + more, back, more, cls, done);
      RecordTurn(first + last, back, last, cls, done);
      MoreRecordBack(tail, cls, done + [back], rest);
      assert done + [back] + ReturnedFields(tail[1..]) == done + ReturnedFields(tail);
    }
  }

  /** The class name, if there is one, and the first key. */
  lemma FirstKeyBack(cls: string, key: string, value: string)
    requires (cls == "" || PlainName(cls)) && PlainName(key)
    ensures var text := ClassText(cls) + (key + ":" + value);
      && text != "" && text[0] != ' ' && text[0] != ')'
      && EatFirstKey(text) == if cls == "" then Eaten((key, false), value) else Eaten((cls, true), key + ":" + value)
    ensures EatKey(key + ":" + value) == Eaten(key, value)
  {
    hide EatPlainFirstKey, EatPlainKey, EatString;
    PlainKeyBack(key, value);
    if cls != "" {
      PlainKeyBack(cls, key + ":" + value);
      assert ClassText(cls) + (key + ":" + value) == cls + "@" + (key + ":" + value);
    } else {
      assert ClassText(cls) + (key + ":" + value) == key + ":" + value;
    }
  }

  /** The text of a record's fields, as far as its first key. */
  lemma RecordSplit(cls: string, entries: seq<Field>, end: string)
    requires entries != [] && PrintableFields(entries, false) && Stop(end)
    ensures var more := MoreFields(entries, false, end);
      && Stop(more)
      && PrintRecord(cls, entries) + end ==
           ClassText(cls) + (entries[0].key + ":" + (PrintValue(entries[0].value) + more))
  {
    hide PrintValue, Printable, PrintFields;
    FieldsSplit(entries, false, end);
    var value := PrintValue(entries[0].value);
    var more, fields := MoreFields(entries, false, end), PrintFields(entries, false);
    assert PrintField(entries[0], false) == entries[0].key + ":" + value;
    assert fields + end == entries[0].key + ":" + (value + more);
    assert PrintRecord(cls, entries) + end == ClassText(cls) + (fields + end);
  }

  lemma {:induction false} EmptyRecordBack(cls: string, rest: string)
    requires cls == "" || PlainName(cls)
    ensures EatRecord(PrintRecord(cls, []) + (")" + rest)) == Some(Eaten(Rec(cls, []), rest))
  {
    hide EatFirstValue, EatPlainFirstKey, EatString, EatKey;
    var end := ")" + rest;
    assert PrintRecord(cls, []) == ClassText(cls);
    assert end[1..] == rest;
    if cls == "" {
      assert PrintRecord(cls, []) + end == end;
    } else {
      var s := cls + "@" + end;
      PlainKeyBack(cls, end);
      assert s[0] == cls[0] && SkipSpaces(s) == s;
      assert EatFirstKey(s) == Eaten((cls, true), end);
    }
  }

  lemma {:induction false} RecordBack(cls: string, entries: seq<Field>, rest: string)
    requires Printable(Rec(cls, entries)) && Stop(rest)
    ensures EatValue(PrintValue(Rec(cls, entries)) + rest) == Some(Eaten(Returned(Rec(cls, entries)), rest))
    decreases entries, 4
  {
    hide EatValue, EatRecord, PrintRecord, DistinctKeys, PrintableFields, PlainName, Stop, ReturnedFields;
    var end := ")" + rest;
    var text := PrintRecord(cls, entries) + end;
    assert PrintValue(Rec(cls, entries)) + rest == "(" + text;
    Leads(text);
    if entries == [] {
      EmptyRecordBack(cls, rest);
      NothingReturned();
    } else {
      FullRecordBack(cls, entries, rest);
    }
  }

  lemma NothingReturned()
    ensures ReturnedFields([]) == []
  {
  }

  lemma {:induction false} FullRecordBack(cls: string, entries: seq<Field>, rest: string)
    requires entries != [] && Printable(Rec(cls, entries)) && Stop(rest)
    ensures EatRecord(PrintRecord(cls, entries) + (")" + rest)) ==
      Some(Eaten(Rec(cls, ReturnedFields(entries)), rest))
    decreases entries, 3
  {
    hide EatValue, EatFirstKey, EatKey, PrintRecord, PrintValue, DistinctKeys, PlainName, MoreFields, EatRecordFields,
      Returned;
    var e, more := entries[0], MoreFields(entries, false, ")" + rest);
    var value := PrintValue(e.value) + more;
    RecordSplit(cls, entries, ")" + rest);
    FirstKeyBack(cls, e.key, value);
    FirstKeyBack("", e.key, value);
    assert ClassText("") + (e.key + ":" + value) == e.key + ":" + value;
    ValueBack(e.value, more);
    FirstKeyNew(entries);
    MoreRecordBack(entries, cls, [ReturnedField(e)], rest);
  }

  /** `deserialize(serializeDocument(d))`, for every record with at least one field: its returned form. */
  lemma {:induction false} RecordRoundTrip(cls: string, entries: seq<Field>)
    requires entries != [] && Printable(Rec(cls, entries))
    ensures Deserialize(PrintRecord(cls, entries)) == Some(Returned(Rec(cls, entries)))
  {
    hide EatValue, EatFirstKey, EatKey, PrintRecord, PrintValue, DistinctKeys, PlainName, MoreFields, EatDocumentFields;
    var e, more := entries[0], MoreFields(entries, false, "");
    var value := PrintValue(e.value) + more;
    RecordSplit(cls, entries, "");
    assert PrintRecord(cls, entries) + "" == PrintRecord(cls, entries);
    FirstKeyBack(cls, e.key, value);
    ValueBack(e.value, more);
    FirstKeyNew(entries);
    MoreRecordBack(entries, cls, [ReturnedField(e)], "");
  }

  // ---- which values come back unchanged ----------------------------------

  /** At no depth does a list start with null or hold a date or a list. */
  predicate Kept(v: Val)
    decreases v
  {
    match v
    case List(items) => (items != [] ==> !items[0].Null?) && KeptItems(items)
    case Map(entries) => KeptFields(entries)
    case Rec(_, entries) => KeptFields(entries)
    case _ => true
  }

  predicate KeptItems(items: seq<Val>)
    decreases items
  {
    items == [] || (!items[0].Date? && !items[0].List? && Kept(items[0]) && KeptItems(items[1..]))
  }

  predicate KeptFields(entries: seq<Field>)
    decreases entries
  {
    entries == [] || (
      assert entries[0].value < entries[0];
      Kept(entries[0].value) && KeptFields(entries[1..]))
  }

  lemma {:induction false} UnchangedIff(v: Val)
    ensures Returned(v) == v <==> Kept(v)
    decreases v
  {
    match v
    case List(items) =>
      if items != [] && items[0].Null? {
        assert |ReturnedItems(items[1..])| != |items|;
      } else {
        ItemsUnchangedIff(items);
      }
    case Map(entries) => FieldsUnchangedIff(entries);
    case Rec(_, entries) => FieldsUnchangedIff(entries);
    case _ =>
  }

  lemma {:induction false} ItemsUnchangedIff(items: seq<Val>)
    ensures ReturnedItems(items) == items <==> KeptItems(items)
    decreases items
  {
    hide Returned, Kept;
    if items != [] {
      UnchangedIff(items[0]);
      ItemsUnchangedIff(items[1..]);
      assert items == [items[0]] + items[1..];
    }
  }

  lemma {:induction false} FieldsUnchangedIff(entries: seq<Field>)
    ensures ReturnedFields(entries) == entries <==> KeptFields(entries)
    decreases entries
  {
    hide Returned, Kept;
    if entries != [] {
      assert entries[0].value < entries[0];
      UnchangedIff(entries[0].value);
      FieldsUnchangedIff(entries[1..]);
      assert entries == [entries[0]] + entries[1..];
    }
  }

  /** A printed value is eaten as itself exactly when it is kept. */
  lemma ValueBackIff(v: Val, rest: string)
    requires Printable(v) && Stop(rest)
    ensures EatValue(PrintValue(v) + rest) == Some(Eaten(v, rest)) <==> Kept(v)
  {
    hide EatValue, PrintValue, Returned, Kept, Printable;
    ValueBack(v, rest);
    UnchangedIff(v);
  }

  lemma {:induction false} KeptItemsIff(items: seq<Val>)
    requires forall i :: 0 <= i < |items| ==> Kept(items[i])
    ensures KeptItems(items) <==> forall i :: 0 <= i < |items| ==> !items[i].List? && !items[i].Date?
    decreases |items|
  {
    hide Kept;
    if items != [] {
      var tail := items[1..];
      assert forall i :: 0 <= i < |tail| ==> tail[i] == items[i + 1];
      KeptItemsIff(tail);
      assert forall i :: 0 < i < |items| ==> items[i] == tail[i - 1];
    }
  }

  /** Of the lists whose items are kept, exactly those that do not start with null and hold no list and no date come back. */
  lemma ListBackIff(items: seq<Val>, rest: string)
    requires Printable(List(items)) && Stop(rest)
    requires forall i :: 0 <= i < |items| ==> Kept(items[i])
    ensures EatValue(PrintValue(List(items)) + rest) == Some(Eaten(List(items), rest)) <==>
      (items == [] || !items[0].Null?) && forall i :: 0 <= i < |items| ==> !items[i].List? && !items[i].Date?
  {
    hide EatValue, PrintValue, KeptItems, Printable;
    ValueBackIff(List(items), rest);
    KeptItemsIff(items);
    assert Kept(List(items)) <==> (items != [] ==> !items[0].Null?) && KeptItems(items);
  }

  /** A list that starts with null, and has nothing else against it, comes back without the null. */
  lemma NullHeadLost(items: seq<Val>, rest: string)
    requires items != [] && items[0].Null? && Printable(List(items)) && KeptItems(items[1..]) && Stop(rest)
    ensures EatValue(PrintValue(List(items)) + rest) == Some(Eaten(List(items[1..]), rest))
  {
    hide EatValue, PrintValue, KeptItems, Printable;
    ValueBack(List(items), rest);
    ItemsUnchangedIff(items[1..]);
  }

  /** A list with a null, a date and a list in it: the null is lost, the others become maps. */
  lemma ThreeWaysToChange(t: string)
    requires NumeralText(t)
    ensures var v := List([Null, Date(t), List([Flag(true)])]);
      Printable(v) && Returned(v) == List([Map([]), Map([Entry("0", Flag(true))])])
  {
    hide NumeralText;
    var inner := [Flag(true)];
    var items := [Null, Date(t), List(inner)];
    assert inner[1..] == [] && PrintableItems(inner);
    assert ReturnedIndexed(inner, 0) == [Entry("0", Flag(true))];
    var last := [List(inner)];
    assert items[1..] == [Date(t)] + last && ([Date(t)] + last)[1..] == last && last[1..] == [];
    assert PrintableItems(last);
    assert PrintableItems(items[1..]);
    assert ReturnedItems(last) == [Map([Entry("0", Flag(true))])];
    assert ReturnedItems(items[1..]) == [Map([])] + ReturnedItems(last);
    assert PrintableItems(items);
    assert Returned(List(items)) == List(ReturnedItems(items[1..]));
  }

  /**
   * A whole record comes back exactly when it has a field and all its values are kept; without a field it gains
   * one with an empty name.
   */
  lemma RecordRoundTripIff(cls: string, entries: seq<Field>)
    requires Printable(Rec(cls, entries))
    ensures Deserialize(PrintRecord(cls, entries)) == Some(Rec(cls, entries)) <==> entries != [] && Kept(Rec(cls, entries))
  {
    hide Deserialize, PrintRecord, PlainName, Returned, Kept;
    if entries == [] {
      NothingPrinted(cls);
    } else {
      RecordRoundTrip(cls, entries);
      UnchangedIff(Rec(cls, entries));
    }
  }

  lemma NothingPrinted(cls: string)
    requires cls == "" || PlainName(cls)
    ensures Deserialize(PrintRecord(cls, [])) == Some(Rec(cls, [Entry("", Null)]))
  {
    hide EatPlainFirstKey, EatString;
    NoFieldsPrinted(false);
    LeadsNothing("");
    assert EatKey("") == Eaten("", "");
    if cls == "" {
      assert PrintRecord(cls, []) == "";
      EmptyFirstKey();
    } else {
      PlainKeyBack(cls, "");
      assert PrintRecord(cls, []) == cls + "@" == cls + "@" + "";
    }
  }

  lemma EmptyFirstKey()
    ensures EatFirstKey("") == Eaten(("", false), "")
  {
  }
}
