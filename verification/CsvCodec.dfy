/** The loops of the text codec: results accumulate, the input is cut off at its front. */
module CsvCodec {
  import opened Options
  import opened CsvText
  import opened Entries
  import opened CsvRoundTrip

  // ---- printing ----------------------------------------------------------

  /** Each field with a comma behind it; the last comma is sliced off in the end. */
  method SerializeDocument(cls: string, entries: seq<Field>, isMap: bool) returns (result: string)
    ensures result == ClassText(cls) + PrintFields(entries, isMap)
  {
    hide PrintField, PrintFields, AllSkipped;
    result := "";
    for i := 0 to |entries|
      invariant result == WithCommas(entries[..i], isMap)
    {
      assert entries[..i + 1][..i] == entries[..i];
      if Skipped(entries[i].key) {
        continue;
      }
      result := result + PrintField(entries[i], isMap) + ",";
    }
    assert entries[..|entries|] == entries;
    CommasBetween(entries, isMap);
    if cls != "" {
      result := cls + "@" + result;
    }
    if |result| > 0 && result[|result| - 1] == ',' {
      result := result[..|result| - 1];
    }
  }

  function FieldWithComma(e: Field, isMap: bool): string {
    if Skipped(e.key) then "" else PrintField(e, isMap) + ","
  }

  function WithCommas(entries: seq<Field>, isMap: bool): string {
    if entries == [] then ""
    else WithCommas(entries[..|entries| - 1], isMap) + FieldWithComma(entries[|entries| - 1], isMap)
  }

  lemma {:induction false} CommasBetween(entries: seq<Field>, isMap: bool)
    ensures WithCommas(entries, isMap) == if AllSkipped(entries) then "" else PrintFields(entries, isMap) + ","
    ensures AllSkipped(entries) ==> PrintFields(entries, isMap) == ""
    decreases |entries|
  {
    hide PrintField, WithCommas;
    if entries == [] {
      assert WithCommas(entries, isMap) == "" by { NothingWithCommas(isMap); }
    } else {
      CommasBetween(entries[1..], isMap);
      CommasInFront(entries, isMap);
      assert entries == [entries[0]] + entries[1..];
    }
  }

  lemma NothingWithCommas(isMap: bool)
    ensures WithCommas([], isMap) == ""
  {
  }

  lemma {:induction false} CommasInFront(entries: seq<Field>, isMap: bool)
    requires entries != []
    ensures WithCommas(entries, isMap) == FieldWithComma(entries[0], isMap) + WithCommas(entries[1..], isMap)
    decreases |entries|
  {
    hide FieldWithComma;
    var front := entries[..|entries| - 1];
    if front != [] {
      CommasInFront(front, isMap);
      assert front[1..] == entries[1..][..|entries[1..]| - 1];
      assert entries[1..][|entries[1..]| - 1] == entries[|entries| - 1];
    }
  }

  method SerializeArray(items: seq<Val>) returns (result: string)
    ensures result == PrintValue(List(items))
  {
    hide PrintItem, PrintItems;
    result := "[";
    assert items[0..] == items;
    for i := 0 to |items|
      invariant result + PrintItems(items[i..]) == "[" + PrintItems(items)
    {
      PrintItemsHead(items[i..]);
      assert items[i..][1..] == items[i + 1..];
      result := result + PrintItem(items[i]);
      if i < |items| - 1 {
        result := result + ",";
      } else {
        assert items[i + 1..] == [];
        NoItemsPrinted();
      }
    }
    assert items[|items|..] == [];
    NoItemsPrinted();
    result := result + "]";
  }

  lemma NoItemsPrinted()
    ensures PrintItems([]) == ""
  {
  }

  // ---- eating ------------------------------------------------------------

  /** Characters already collected, in front of what is eaten next. */
  function Behind(collected: string, e: Eaten<string>): Eaten<string> {
    Eaten(collected + e.value, e.rest)
  }

  method ReadString(input: string) returns (e: Eaten<string>)
    ensures e == EatString(input)
  {
    var i, collected := 0, "";
    assert input[0..] == input && "" + EatString(input).value == EatString(input).value;
    while i < |input|
      invariant i <= |input|
      invariant EatString(input) == Behind(collected, EatString(input[i..]))
    {
      var c := input[i];
      assert collected + "" == collected;
      assert input[i..][1..] == input[i + 1..];
      if c == '\\' {
        if i + 1 == |input| {
          return Eaten(collected, "");
        }
        assert input[i..][2..] == input[i + 2..];
        assert collected + ([input[i + 1]] + EatString(input[i + 2..]).value) ==
          collected + [input[i + 1]] + EatString(input[i + 2..]).value;
        collected := collected + [input[i + 1]];
        i := i + 2;
      } else if c == '"' {
        return Eaten(collected, input[i + 1..]);
      } else {
        assert collected + ([c] + EatString(input[i + 1..]).value) == collected + [c] + EatString(input[i + 1..]).value;
        collected := collected + [c];
        i := i + 1;
      }
    }
    assert input[i..] == "" && collected + "" == collected;
    return Eaten(collected, "");
  }

  method ReadKey(input: string) returns (e: Eaten<string>)
    ensures e == EatKey(input)
  {
    if Starts(input, '"') {
      e := ReadString(input[1..]);
      return Eaten(e.value, Drop(e.rest, 1));
    }
    var i, collected := 0, "";
    assert input[0..] == input && "" + EatPlainKey(input).value == EatPlainKey(input).value;
    while i < |input| && input[i] != ':'
      invariant i <= |input|
      invariant EatPlainKey(input) == Behind(collected, EatPlainKey(input[i..]))
    {
      assert input[i..][1..] == input[i + 1..];
      assert collected + ([input[i]] + EatPlainKey(input[i + 1..]).value) ==
        collected + [input[i]] + EatPlainKey(input[i + 1..]).value;
      collected := collected + [input[i]];
      i := i + 1;
    }
    assert collected + "" == collected;
    return Eaten(collected, Drop(input, i + 1));
  }

  method ReadFirstKey(input: string) returns (e: Eaten<(string, bool)>)
    ensures e == EatFirstKey(input)
  {
    if Starts(input, '"') {
      var s := ReadString(input[1..]);
      return Eaten((s.value, false), Drop(s.rest, 1));
    }
    var i, collected, isClassName := 0, "", false;
    assert input[0..] == input && "" + EatPlainFirstKey(input).value.0 == EatPlainFirstKey(input).value.0;
    while i < |input| && input[i] != '@' && input[i] != ':'
      invariant i <= |input|
      invariant var later := EatPlainFirstKey(input[i..]);
        EatPlainFirstKey(input) == Eaten((collected + later.value.0, later.value.1), later.rest)
    {
      assert input[i..][1..] == input[i + 1..];
      assert collected + ([input[i]] + EatPlainFirstKey(input[i + 1..]).value.0) ==
        collected + [input[i]] + EatPlainFirstKey(input[i + 1..]).value.0;
      collected := collected + [input[i]];
      i := i + 1;
    }
    isClassName := i < |input| && input[i] == '@';
    assert collected + "" == collected;
    return Eaten((collected, isClassName), Drop(input, i + 1));
  }

  method ReadSpaces(s: string) returns (r: string)
    ensures r == SkipSpaces(s)
  {
    r := s;
    while Starts(r, ' ')
      invariant SkipSpaces(r) == SkipSpaces(s)
      decreases |r|
    {
      r := r[1..];
    }
  }

  /** `eatArray` and `eatSet`, which differ in the bracket that ends them. */
  method ReadArray(input: string, close: char) returns (e: Option<Eaten<Val>>)
    ensures e == EatArray(input, close, [])
    decreases |input|, 3
  {
    hide EatValue;
    var s, items: seq<Val> := input, [];
    while s != ""
      invariant |s| <= |input| && EatArray(input, close, []) == EatArray(s, close, items)
      decreases |s|
    {
      var t := s;
      if s[0] == ',' {
        t := s[1..];
      } else if s[0] == close {
        return Some(Eaten(List(items), s[1..]));
      }
      var v := ReadValue(t);
      if v.None? || |v.value.rest| >= |s| {
        return None;
      }
      s, items := v.value.rest, items + [v.value.value];
    }
    return Some(Eaten(List(items), ""));
  }

  /** A key and its value; at the end of the text the value is null. */
  method ReadField(s: string) returns (e: Option<Eaten<Field>>)
    ensures e == EatField(s)
    decreases |s|, 0
  {
    hide EatValue, EatKey;
    var key := ReadKey(s);
    if key.rest == "" {
      return Some(Eaten(Entry(key.value, Null), ""));
    }
    EmptyKey();
    var v := ReadValue(key.rest);
    if v.None? {
      return None;
    }
    return Some(Eaten(Entry(key.value, v.value.value), v.value.rest));
  }

  lemma EmptyKey()
    ensures EatKey("").rest == ""
  {
  }

  method ReadMap(input: string) returns (e: Option<Eaten<Val>>)
    ensures e == EatMap(input, [])
    decreases |input|, 1
  {
    hide EatField, Set;
    var s, entries: seq<Field> := input, [];
    while s != ""
      invariant |s| <= |input| && EatMap(input, []) == EatMap(s, entries)
      decreases |s|
    {
      if s[0] == ' ' {
        s := s[1..];
        continue;
      }
      if s[0] == '}' {
        return Some(Eaten(Map(entries), s[1..]));
      }
      var field := ReadField(if s[0] == ',' then s[1..] else s);
      if field.None? || |field.value.rest| >= |s| {
        return None;
      }
      s, entries := field.value.rest, Set(entries, field.value.value.key, field.value.value.value);
    }
    return Some(Eaten(Map(entries), ""));
  }

  method ReadRecordFields(input: string, cls: string, first: seq<Field>) returns (e: Option<Eaten<Val>>)
    ensures e == EatRecordFields(input, cls, first)
    decreases |input|, 1
  {
    hide EatField, Set;
    var s, entries := input, first;
    while s != ""
      invariant |s| <= |input| && EatRecordFields(input, cls, first) == EatRecordFields(s, cls, entries)
      decreases |s|
    {
      if s[0] == ' ' {
        s := s[1..];
        continue;
      }
      if s[0] == ')' {
        return Some(Eaten(Rec(cls, entries), s[1..]));
      }
      var field := ReadField(if s[0] == ',' then s[1..] else s);
      if field.None? || |field.value.rest| >= |s| {
        return None;
      }
      s, entries := field.value.rest, Set(entries, field.value.value.key, field.value.value.value);
    }
    return Some(Eaten(Rec(cls, entries), ""));
  }

  method ReadRecord(input: string) returns (e: Option<Eaten<Val>>)
    ensures e == EatRecord(input)
    decreases |input|, 4
  {
    hide EatValue, EatKey, EatFirstKey;
    var t := ReadSpaces(input);
    if Starts(t, ')') {
      return Some(Eaten(Rec("", []), t[1..]));
    }
    var first := ReadFirstKey(t);
    var cls, key, rest := "", first.value.0, first.rest;
    if first.value.1 {
      var u := ReadSpaces(first.rest);
      if Starts(u, ')') {
        return Some(Eaten(Rec(first.value.0, []), u[1..]));
      }
      var next := ReadKey(first.rest);
      cls, key, rest := first.value.0, next.value, next.rest;
    }
    var v := ReadValue(rest);
    if v.None? {
      return None;
    }
    e := ReadRecordFields(v.value.rest, cls, [Entry(key, v.value.value)]);
  }

  method ReadValue(input: string) returns (e: Option<Eaten<Val>>)
    ensures e == EatValue(input)
    decreases |input|, 2
  {
    hide EatArray, EatMap, EatRecord, EatString, EatRid, EatNumber, Prefixed;
    var t := ReadSpaces(input);
    if t == "" || t[0] == ',' {
      return Some(Eaten(Null, t));
    } else if t[0] == '"' {
      var s := ReadString(t[1..]);
      return Some(Eaten(Str(s.value), s.rest));
    } else if t[0] == '[' {
      e := ReadArray(t[1..], ']');
    } else if t[0] == '<' {
      e := ReadArray(t[1..], '>');
    } else if t[0] == '{' {
      e := ReadMap(t[1..]);
    } else if t[0] == '(' {
      e := ReadRecord(t[1..]);
    } else {
      e := EatValue(input);
    }
  }

  method ReadDocument(input: string) returns (record: Option<Val>)
    ensures record == Deserialize(input)
  {
    hide EatValue, EatKey, EatFirstKey, EatField, Set;
    var first := ReadFirstKey(input);
    var cls, key, rest := "", first.value.0, first.rest;
    if first.value.1 {
      var next := ReadKey(first.rest);
      cls, key, rest := first.value.0, next.value, next.rest;
    }
    var v := ReadValue(rest);
    if v.None? {
      return None;
    }
    var entries := [Entry(key, v.value.value)];
    rest := v.value.rest;
    while Starts(rest, ',')
      invariant Deserialize(input) == EatDocumentFields(rest, cls, entries)
      decreases |rest|
    {
      var field := ReadField(rest[1..]);
      if field.None? {
        return None;
      }
      rest, entries := field.value.rest, Set(entries, field.value.value.key, field.value.value.value);
    }
    return Some(Rec(cls, entries));
  }

  /** A record printed and eaten: itself, exactly when it has a field and all its values are kept. */
  method PrintThenEat(cls: string, entries: seq<Field>) returns (text: string, back: Option<Val>)
    requires Printable(Rec(cls, entries))
    ensures back == Deserialize(text)
    ensures entries != [] ==> back == Some(Returned(Rec(cls, entries)))
    ensures back == Some(Rec(cls, entries)) <==> entries != [] && Kept(Rec(cls, entries))
  {
    hide Printable, PrintFields, Deserialize, Kept, Returned;
    text := SerializeDocument(cls, entries, false);
    assert text == PrintRecord(cls, entries);
    back := ReadDocument(text);
    RecordRoundTripIff(cls, entries);
    if entries != [] {
      RecordRoundTrip(cls, entries);
    }
  }
}
