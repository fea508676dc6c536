/** The text format of protocol 33: what a record is printed as, and how the text is eaten. */
module CsvText {
  import opened Options
  import opened Entries

  /**
   * Numbers, dates and the halves of an identifier stand as the text JavaScript prints them as; `Rec` is an
   * object whose "@type" is "d", `cls` its "@class" or "".
   */
  datatype Val =
    | Null
    | Flag(b: bool)
    | Num(text: string)
    | Date(text: string)
    | Str(s: string)
    | Rid(cluster: string, position: string)
    | List(items: seq<Val>)
    | Map(entries: seq<Field>)
    | Rec(cls: string, entries: seq<Field>)

  type Field = Entry<string, Val>

  // ---- printing ----------------------------------------------------------

  function Escape(s: string): string {
    if s == "" then ""
    else (if s[0] == '\\' then "\\\\" else if s[0] == '"' then "\\\"" else [s[0]]) + Escape(s[1..])
  }

  function NatText(n: nat): string {
    if n < 10 then ["0123456789"[n]] else NatText(n / 10) + ["0123456789"[n % 10]]
  }

  function PrintValue(v: Val): string
    decreases v, 1
  {
    match v
    case Str(s) => "\"" + Escape(s) + "\""
    case Num(text) => if '.' in text then text + "d" else text
    case Flag(b) => if b then "true" else "false"
    case Date(text) => text + "t"
    case List(items) => "[" + PrintItems(items) + "]"
    case Null => ""
    case _ => PrintObject(v)
  }

  /** An identifier, a record in parentheses, or anything else as a map: a date has no keys, an array its indices. */
  function PrintObject(v: Val): string
    decreases v, 0
  {
    match v
    case Rid(cluster, position) => "#" + cluster + ":" + position
    case Rec(cls, entries) => "(" + PrintRecord(cls, entries) + ")"
    case Map(entries) => "{" + PrintMap(entries) + "}"
    case List(items) => "{" + PrintIndexed(items, 0) + "}"
    case _ => "{}"
  }

  /** Objects in an array are printed as objects, whatever they are. */
  function PrintItem(v: Val): string
    decreases v, 2
  {
    if v.Rid? || v.Rec? || v.Map? || v.List? || v.Date? then PrintObject(v) else PrintValue(v)
  }

  function PrintItems(items: seq<Val>): string
    decreases items
  {
    if items == [] then ""
    else PrintItem(items[0]) + (if |items| > 1 then "," else "") + PrintItems(items[1..])
  }

  function PrintIndexed(items: seq<Val>, i: nat): string
    decreases items
  {
    if items == [] then ""
    else "\"" + NatText(i) + "\":" + PrintValue(items[0]) + (if |items| > 1 then "," else "") + PrintIndexed(items[1..], i + 1)
  }

  /** A field and its value; the keys of a map are put in quotes as they are. */
  function PrintField(e: Field, isMap: bool): string
    decreases e
  {
    (if isMap then "\"" + e.key + "\"" else e.key) + ":" + PrintValue(e.value)
  }

  /** Fields whose names start with "@" are left out; a comma behind each but the last. */
  function PrintFields(entries: seq<Field>, isMap: bool): string
    decreases entries, 0
  {
    if entries == [] then ""
    else if Skipped(entries[0].key) then PrintFields(entries[1..], isMap)
    else
      PrintField(entries[0], isMap) + (if AllSkipped(entries[1..]) then "" else ",") + PrintFields(entries[1..], isMap)
  }

  predicate Skipped(key: string) {
    key != "" && key[0] == '@'
  }

  predicate AllSkipped(entries: seq<Field>) {
    forall i :: 0 <= i < |entries| ==> Skipped(entries[i].key)
  }

  function ClassText(cls: string): string {
    if cls != "" then cls + "@" else ""
  }

  function PrintRecord(cls: string, entries: seq<Field>): string
    decreases entries, 1
  {
    ClassText(cls) + PrintFields(entries, false)
  }

  /** The value of "@class" as JavaScript turns it into text; objects, arrays and dates are not modelled there. */
  function MapClass(entries: seq<Field>): string {
    if entries == [] then ""
    else if entries[0].key == "@class" then
      match entries[0].value
      case Str(s) => s
      case Num(text) => text
      case Flag(b) => if b then "true" else "false"
      case Null => "null"
      case Rid(cluster, position) => "#" + cluster + ":" + position
      case _ => ""
    else MapClass(entries[1..])
  }

  /** A map with a class has it in front, as a record does; its reader does not expect it there. */
  function PrintMap(entries: seq<Field>): string
    decreases entries, 1
  {
    ClassText(MapClass(entries)) + PrintFields(entries, true)
  }

  // ---- eating ------------------------------------------------------------

  datatype Eaten<T> = Eaten(value: T, rest: string)

  function Drop(s: string, n: nat): string {
    if n <= |s| then s[n..] else ""
  }

  predicate Starts(s: string, c: char) {
    s != "" && s[0] == c
  }

  function EatString(s: string): (e: Eaten<string>)
    ensures |e.rest| <= |s| && (s != "" ==> |e.rest| < |s|)
  {
    if s == "" then Eaten("", "")
    else if s[0] == '\\' then
      if |s| == 1 then Eaten("", "") else var e := EatString(s[2..]); Eaten([s[1]] + e.value, e.rest)
    else if s[0] == '"' then Eaten("", s[1..])
    else var e := EatString(s[1..]); Eaten([s[0]] + e.value, e.rest)
  }

  /** Everything up to a colon, or to the end. */
  function EatPlainKey(s: string): (e: Eaten<string>)
    ensures |e.rest| <= |s| && (s != "" ==> |e.rest| < |s|)
  {
    if s == "" then Eaten("", "")
    else if s[0] == ':' then Eaten("", s[1..])
    else var e := EatPlainKey(s[1..]); Eaten([s[0]] + e.value, e.rest)
  }

  function EatKey(s: string): (e: Eaten<string>)
    ensures |e.rest| <= |s| && (s != "" ==> |e.rest| < |s|)
  {
    if Starts(s, '"') then var e := EatString(s[1..]); Eaten(e.value, Drop(e.rest, 1)) else EatPlainKey(s)
  }

  /** A name and whether it was a class name, up to an "@", a colon, or the end. */
  function EatPlainFirstKey(s: string): (e: Eaten<(string, bool)>)
    ensures |e.rest| <= |s| && (s != "" ==> |e.rest| < |s|)
  {
    if s == "" then Eaten(("", false), "")
    else if s[0] == '@' then Eaten(("", true), s[1..])
    else if s[0] == ':' then Eaten(("", false), s[1..])
    else var e := EatPlainFirstKey(s[1..]); Eaten(([s[0]] + e.value.0, e.value.1), e.rest)
  }

  function EatFirstKey(s: string): (e: Eaten<(string, bool)>)
    ensures |e.rest| <= |s| && (s != "" ==> |e.rest| < |s|)
  {
    if Starts(s, '"') then var e := EatString(s[1..]); Eaten((e.value, false), Drop(e.rest, 1))
    else EatPlainFirstKey(s)
  }

  predicate IsDigit(c: char) {
    '0' <= c <= '9'
  }

  function DigitRun(s: string): (n: nat)
    ensures n <= |s|
  {
    if s == "" || !IsDigit(s[0]) then 0 else 1 + DigitRun(s[1..])
  }

  function SignRun(s: string): (n: nat)
    ensures n <= |s|
  {
    if Starts(s, '-') || Starts(s, '+') then 1 else 0
  }

  /** The digits, and with a point the digits behind it; 0 when there is no number. */
  function MantissaRun(s: string): (n: nat)
    ensures n <= |s|
  {
    var whole := DigitRun(s);
    var fraction := if Starts(s[whole..], '.') then DigitRun(s[whole + 1..]) else 0;
    if fraction > 0 then whole + 1 + fraction else whole
  }

  function ExponentRun(s: string): (n: nat)
    ensures n <= |s|
  {
    if Starts(s, 'e') || Starts(s, 'E') then
      var sign := SignRun(s[1..]);
      var digits := DigitRun(s[1 + sign..]);
      if digits > 0 then 1 + sign + digits else 0
    else 0
  }

  /** How much of the text the pattern of a number matches. */
  function NumberRun(s: string): (n: nat)
    ensures n <= |s|
  {
    var sign := SignRun(s);
    var mantissa := MantissaRun(s[sign..]);
    if mantissa == 0 then 0 else sign + mantissa + ExponentRun(s[sign + mantissa..])
  }

  predicate IsNumberSuffix(c: char) {
    c == 'b' || c == 's' || c == 'l' || c == 'f' || c == 'd' || c == 'c'
  }

  /** A number, with its suffix; without any digit it is 0 and nothing is eaten. */
  function EatNumber(s: string): (e: Eaten<Val>)
    ensures |e.rest| <= |s|
  {
    var n := NumberRun(s);
    var text, rest := if n == 0 then "0" else s[..n], s[n..];
    if Starts(rest, 'a') || Starts(rest, 't') then Eaten(Date(text), rest[1..])
    else if rest != "" && IsNumberSuffix(rest[0]) then Eaten(Num(text), rest[1..])
    else Eaten(Num(text), rest)
  }

  function RidRun(s: string): (n: nat)
    ensures n <= |s|
  {
    if s == "" || !(IsDigit(s[0]) || s[0] == '-') then 0 else 1 + RidRun(s[1..])
  }

  function EatRid(s: string): (e: Eaten<Val>)
    ensures |e.rest| <= |s|
  {
    var n := RidRun(s);
    if Starts(s[n..], ':') then
      var m := RidRun(s[n + 1..]);
      Eaten(Rid(s[..n], s[n + 1..][..m]), s[n + 1..][m..])
    else Eaten(Rid("", s[..n]), s[n..])
  }

  function SkipSpaces(s: string): (r: string)
    ensures |r| <= |s| && !Starts(r, ' ')
  {
    if Starts(s, ' ') then SkipSpaces(s[1..]) else s
  }

  predicate Prefixed(s: string, word: string) {
    |word| <= |s| && s[..|word|] == word
  }

  /**
   * A value and the text behind it. `None`: the source never comes back, or the text holds a link bag or
   * base 64, which are not modelled.
   */
  function EatValue(s: string): (e: Option<Eaten<Val>>)
    ensures e.Some? ==> |e.value.rest| <= |s|
    decreases |s|, 2
  {
    var t := SkipSpaces(s);
    if t == "" || t[0] == ',' then Some(Eaten(Null, t))
    else if t[0] == '"' then var e := EatString(t[1..]); Some(Eaten(Str(e.value), e.rest))
    else if t[0] == '#' then Some(EatRid(t[1..]))
    else if t[0] == '[' then EatArray(t[1..], ']', [])
    else if t[0] == '<' then EatArray(t[1..], '>', [])
    else if t[0] == '{' then EatMap(t[1..], [])
    else if t[0] == '(' then EatRecord(t[1..])
    else if t[0] == '%' || t[0] == '_' then None
    else if t[0] == '-' || IsDigit(t[0]) then Some(EatNumber(t))
    else if Prefixed(t, "null") then Some(Eaten(Null, t[4..]))
    else if Prefixed(t, "true") then Some(Eaten(Flag(true), t[4..]))
    else if Prefixed(t, "false") then Some(Eaten(Flag(false), t[5..]))
    else Some(Eaten(Null, t))
  }

  /** A turn of the loop that eats nothing is repeated for ever. */
  function EatArray(s: string, close: char, items: seq<Val>): (e: Option<Eaten<Val>>)
    ensures e.Some? ==> |e.value.rest| <= |s|
    decreases |s|, 3
  {
    if s == "" then Some(Eaten(List(items), ""))
    else if s[0] != ',' && s[0] == close then Some(Eaten(List(items), s[1..]))
    else
      var t := if s[0] == ',' then s[1..] else s;
      match EatValue(t)
      case None => None
      case Some(e) => if |e.rest| < |s| then EatArray(e.rest, close, items + [e.value]) else None
  }

  function EatMap(s: string, entries: seq<Field>): (e: Option<Eaten<Val>>)
    ensures e.Some? ==> |e.value.rest| <= |s|
    decreases |s|, 1
  {
    if s == "" then Some(Eaten(Map(entries), ""))
    else if s[0] == ' ' then EatMap(s[1..], entries)
    else if s[0] == '}' then Some(Eaten(Map(entries), s[1..]))
    else
      match EatField(if s[0] == ',' then s[1..] else s)
      case None => None
      case Some(e) => if |e.rest| < |s| then EatMap(e.rest, Set(entries, e.value.key, e.value.value)) else None
  }

  /** A key and its value; at the end of the text the value is null. */
  function EatField(s: string): (e: Option<Eaten<Field>>)
    ensures e.Some? ==> |e.value.rest| <= |s|
    ensures e.Some? && s != "" ==> |e.value.rest| < |s|
    decreases |s|, 0
  {
    var key := EatKey(s);
    if key.rest == "" then Some(Eaten(Entry(key.value, Null), ""))
    else
      match EatValue(key.rest)
      case None => None
      case Some(v) => Some(Eaten(Entry(key.value, v.value), v.rest))
  }

  function EatRecordFields(s: string, cls: string, entries: seq<Field>): (e: Option<Eaten<Val>>)
    ensures e.Some? ==> |e.value.rest| <= |s|
    decreases |s|, 1
  {
    if s == "" then Some(Eaten(Rec(cls, entries), ""))
    else if s[0] == ' ' then EatRecordFields(s[1..], cls, entries)
    else if s[0] == ')' then Some(Eaten(Rec(cls, entries), s[1..]))
    else
      match EatField(if s[0] == ',' then s[1..] else s)
      case None => None
      case Some(e) =>
        if |e.rest| < |s| then EatRecordFields(e.rest, cls, Set(entries, e.value.key, e.value.value)) else None
  }

  /** The first value, then the other fields. */
  function EatFirstValue(s: string, cls: string, key: string): (e: Option<Eaten<Val>>)
    ensures e.Some? ==> |e.value.rest| <= |s|
    decreases |s|, 4
  {
    match EatValue(s)
    case None => None
    case Some(v) => EatRecordFields(v.rest, cls, [Entry(key, v.value)])
  }

  function EatRecord(s: string): (e: Option<Eaten<Val>>)
    ensures e.Some? ==> |e.value.rest| <= |s|
    decreases |s|, 5
  {
    var t := SkipSpaces(s);
    if Starts(t, ')') then Some(Eaten(Rec("", []), t[1..]))
    else
      var first := EatFirstKey(t);
      if first.value.1 then
        var u := SkipSpaces(first.rest);
        if Starts(u, ')') then Some(Eaten(Rec(first.value.0, []), u[1..]))
        else
          var key := EatKey(first.rest);
          EatFirstValue(key.rest, first.value.0, key.value)
      else EatFirstValue(first.rest, "", first.value.0)
  }

  /** The remaining fields of the whole text; it ends where no comma follows. */
  function EatDocumentFields(s: string, cls: string, entries: seq<Field>): Option<Val>
    decreases |s|
  {
    if !Starts(s, ',') then Some(Rec(cls, entries))
    else
      match EatField(s[1..])
      case None => None
      case Some(e) => EatDocumentFields(e.rest, cls, Set(entries, e.value.key, e.value.value))
  }

  /** `deserialize` */
  function Deserialize(s: string): Option<Val> {
    var first := EatFirstKey(s);
    var key := if first.value.1 then EatKey(first.rest) else Eaten(first.value.0, first.rest);
    match EatValue(key.rest)
    case None => None
    case Some(v) => EatDocumentFields(v.rest, if first.value.1 then first.value.0 else "", [Entry(key.value, v.value)])
  }
}
