/** What a WHERE text says of a record, with the parameters sent along, and when that is what its entries ask for. */
module WhereRows {
  import opened Options
  import opened WhereClause
  import opened WhereExactly
  import opened WhereScan
  import LongText

  /** A record: the values of its fields; a field that is not set, or null, is absent. */
  type Row = map<string, Literal>

  /** How an operator compares the value of a field with a parameter. */
  type Compare = (string, Option<Literal>, Literal) -> bool

  function At(row: Row, key: string): Option<Literal> {
    if key in row then Some(row[key]) else None
  }

  // ---- what an object asks for -------------------------------------------

  /** A value is compared under the sign; null asks for a field that is not set, or set under a negative sign. */
  predicate Met(row: Row, f: Field, sign: string, compare: Compare) {
    if f.value.Some? then compare(sign, At(row, f.key), f.value.value)
    else if sign == "!=" || sign == "<>" || sign == "NOT" then f.key in row
    else f.key !in row
  }

  predicate Meets(row: Row, fields: seq<Field>, sign: string, compare: Compare) {
    forall f :: f in fields ==> Met(row, f, sign, compare)
  }

  // ---- what a text says --------------------------------------------------

  /** A compiled comparison, as the server reads it. */
  predicate Holds(c: Comparison, row: Row, params: Params, compare: Compare)
    requires !c.Raw?
  {
    match c
    case IsNull(key) => key !in row
    case IsNotNull(key) => key in row
    case Compare(key, sign, name) => name in params && compare(sign, At(row, key), params[name])
  }

  function Holding(text: seq<Token>, row: Row, params: Params, compare: Compare): set<Comparison> {
    set x | x in text && x.Atom? && !x.c.Raw? && Holds(x.c, row, params, compare) :: x.c
  }

  /** The text reads, and is true of the record. */
  predicate TrueOf(text: seq<Token>, row: Row, params: Params, compare: Compare) {
    var truth := Holding(text, row, params, compare);
    Reads(text, truth) && Value(text, truth)
  }

  // ---- one object --------------------------------------------------------

  /** Each parameter of an object has the value of its field. */
  predicate FieldsBound(fields: seq<Field>, index: nat, params: Params) {
    fields == [] || (
      if fields[0].value.None? then FieldsBound(fields[1..], index, params)
      else
        && At(params, ParamName(fields[0].key, index)) == fields[0].value
        && FieldsBound(fields[1..], index + 1, params))
  }

  lemma {:induction false} BoundMeansMet(fields: seq<Field>, sign: string, index: nat, row: Row, params: Params,
                                         compare: Compare)
    requires FieldsBound(fields, index, params)
    ensures forall c :: c in Comparisons(fields, sign, index) ==> !c.Raw?
    ensures Meets(row, fields, sign, compare) <==>
      forall c :: c in Comparisons(fields, sign, index) ==> Holds(c, row, params, compare)
    decreases |fields|
  {
    hide ParamName;
    if fields != [] {
      var f, next := fields[0], index + if fields[0].value.Some? then 1 else 0;
      BoundMeansMet(fields[1..], sign, next, row, params, compare);
      var first := FieldComparison(f, sign, index);
      assert Holds(first, row, params, compare) <==> Met(row, f, sign, compare);
      assert forall c :: c in Comparisons(fields, sign, index) <==> c == first || c in Comparisons(fields[1..], sign, next);
      assert forall g :: g in fields <==> g == f || g in fields[1..];
    }
  }

  lemma {:induction false} NoneRaw(fields: seq<Field>, sign: string, index: nat)
    ensures forall c :: c in Comparisons(fields, sign, index) ==> !c.Raw?
    decreases |fields|
  {
    hide ParamName;
    if fields != [] {
      NoneRaw(fields[1..], sign, index + if fields[0].value.Some? then 1 else 0);
    }
  }

  lemma {:induction false} JoinAndAtoms(cs: seq<Comparison>)
    ensures Atoms(JoinAnd(cs)) == set c | c in cs
    decreases |cs|
  {
    if |cs| == 1 {
      assert JoinAnd(cs)[0] == Atom(cs[0]);
    } else if |cs| > 1 {
      JoinAndAtoms(cs[1..]);
      var rest := JoinAnd(cs[1..]);
      AtomsOfSum([Atom(cs[0]), And], rest);
      assert [Atom(cs[0]), And][0].Atom?;
      assert Atoms([Atom(cs[0]), And]) == {cs[0]};
      assert forall c :: c in cs <==> c == cs[0] || c in cs[1..];
    }
  }

  lemma AtomsOfSum(s: seq<Token>, t: seq<Token>)
    ensures Atoms(s + t) == Atoms(s) + Atoms(t)
  {
    forall c ensures c in Atoms(s + t) <==> c in Atoms(s) + Atoms(t) {
      assert c in Atoms(s + t) <==> Atom(c) in s + t;
      assert c in Atoms(s) <==> Atom(c) in s;
      assert c in Atoms(t) <==> Atom(c) in t;
    }
  }

  lemma ObjectAtoms(cs: seq<Comparison>)
    requires cs != []
    ensures ObjectText(cs).Some? && Atoms(ObjectText(cs).value) == set c | c in cs
  {
    JoinAndAtoms(cs);
    if |cs| > 1 {
      AtomsOfSum([Open] + JoinAnd(cs), [Close]);
      AtomsOfSum([Open], JoinAnd(cs));
      assert Atoms([Open]) == {} && Atoms([Close]) == {};
    }
  }

  function TextOf(fields: seq<Field>, sign: string, index: nat): seq<Token>
    requires fields != []
  {
    ConditionText(Fields(fields, sign), index).value
  }

  /** The compiled object is true of a record when all its comparisons hold. */
  lemma TrueWhenAllHold(fields: seq<Field>, sign: string, index: nat, row: Row, params: Params, compare: Compare)
    requires fields != []
    ensures forall c :: c in Comparisons(fields, sign, index) ==> !c.Raw?
    ensures TrueOf(TextOf(fields, sign, index), row, params, compare) <==>
      forall c :: c in Comparisons(fields, sign, index) ==> Holds(c, row, params, compare)
  {
    hide Expr, Term, Comparisons, Holds, ObjectText, Atoms;
    var cs := Comparisons(fields, sign, index);
    ObjectAtoms(cs);
    var text := ObjectText(cs).value;
    var truth := Holding(text, row, params, compare);
    NoneRaw(fields, sign, index);
    ObjectMeans(cs, truth);
    TightReads(text, truth);
    forall c | c in cs ensures c in truth <==> Holds(c, row, params, compare) {
      AtomIn(text, c);
    }
  }

  lemma AtomIn(text: seq<Token>, c: Comparison)
    ensures c in Atoms(text) <==> Atom(c) in text
  {
  }

  /** With every parameter bound to the value of its field, the object says what it asks for. */
  lemma ObjectOnRow(fields: seq<Field>, sign: string, index: nat, row: Row, params: Params, compare: Compare)
    requires fields != [] && FieldsBound(fields, index, params)
    ensures TrueOf(TextOf(fields, sign, index), row, params, compare) <==> Meets(row, fields, sign, compare)
  {
    TrueWhenAllHold(fields, sign, index, row, params, compare);
    BoundMeansMet(fields, sign, index, row, params, compare);
  }

  /** The fields of a JavaScript object have different keys. */
  predicate DistinctKeys(fields: seq<Field>) {
    forall i, j :: 0 <= i < j < |fields| ==> fields[i].key != fields[j].key
  }

  lemma {:induction false} Unbound(fields: seq<Field>, sign: string, index: nat, params: Params)
    returns (k: nat, name: string)
    requires !FieldsBound(fields, index, params)
    ensures k < |fields| && fields[k].value.Some? && At(params, name) != fields[k].value
    ensures Comparisons(fields, sign, index)[k] == Compare(fields[k].key, sign, name)
    decreases |fields|
  {
    hide ParamName;
    var f := fields[0];
    if f.value.Some? && At(params, ParamName(f.key, index)) != f.value {
      k, name := 0, ParamName(f.key, index);
    } else {
      var i;
      i, name := Unbound(fields[1..], sign, index + if f.value.Some? then 1 else 0, params);
      k := i + 1;
    }
  }

  /** One record, and one way to compare, for which a wrong parameter shows. */
  lemma WrongParameterShows(fields: seq<Field>, sign: string, index: nat, params: Params)
    returns (row: Row, compare: Compare)
    requires DistinctKeys(fields) && !FieldsBound(fields, index, params)
    ensures Meets(row, fields, sign, compare)
    ensures fields != [] && !TrueOf(TextOf(fields, sign, index), row, params, compare)
  {
    hide Comparisons, FieldsBound, ParamName, TrueOf;
    assert fields != [] by {
      if fields == [] {
        NothingUnbound(index, params);
      }
    }
    var k, name := Unbound(fields, sign, index, params);
    var bad := fields[k].key;
    var wrong := At(params, name);
    var negative := sign == "!=" || sign == "<>" || sign == "NOT";
    row := map f | f in fields && (f.value.Some? || negative) :: f.key := Number(if f.key == bad then 1 else 0);
    compare := (s, x, v) => !(x == Some(Number(1)) && wrong == Some(v));
    forall f | f in fields ensures Met(row, f, sign, compare) {
      if f.value.Some? {
        assert f.key in row;
        if f.key == bad {
          OneField(fields, f, fields[k]);
        }
      } else {
        NullKey(fields, f);
      }
    }
    assert fields[k] in fields && bad in row;
    TrueWhenAllHold(fields, sign, index, row, params, compare);
    var c := Comparisons(fields, sign, index)[k];
    assert c in Comparisons(fields, sign, index) && !Holds(c, row, params, compare);
  }

  lemma OneField(fields: seq<Field>, f: Field, g: Field)
    requires DistinctKeys(fields) && f in fields && g in fields && f.key == g.key
    ensures f == g
  {
    var i, j :| 0 <= i < |fields| && 0 <= j < |fields| && fields[i] == f && fields[j] == g;
    if i < j || j < i {
      assert false;
    }
  }

  lemma NullKey(fields: seq<Field>, f: Field)
    requires DistinctKeys(fields) && f in fields && f.value.None?
    ensures forall g :: g in fields && g.value.Some? ==> g.key != f.key
  {
    forall g | g in fields && g.value.Some? ensures g.key != f.key {
      if g.key == f.key {
        OneField(fields, f, g);
      }
    }
  }

  lemma NothingUnbound(index: nat, params: Params)
    ensures FieldsBound([], index, params)
  {
  }

  /** The compiled object is true of exactly the records that meet it, however values compare. */
  ghost predicate SaysWhatItAsks(fields: seq<Field>, sign: string, index: nat, params: Params)
    requires fields != []
  {
    forall row: Row, compare: Compare ::
      TrueOf(TextOf(fields, sign, index), row, params, compare) <==> Meets(row, fields, sign, compare)
  }

  lemma ObjectOnRowIff(fields: seq<Field>, sign: string, index: nat, params: Params)
    requires fields != [] && DistinctKeys(fields)
    ensures SaysWhatItAsks(fields, sign, index, params) <==> FieldsBound(fields, index, params)
  {
    hide FieldsBound, TrueOf, Meets;
    if FieldsBound(fields, index, params) {
      forall row: Row, compare: Compare
        ensures TrueOf(TextOf(fields, sign, index), row, params, compare) <==> Meets(row, fields, sign, compare)
      {
        ObjectOnRow(fields, sign, index, row, params, compare);
      }
    } else {
      var row, compare := WrongParameterShows(fields, sign, index, params);
      assert Meets(row, fields, sign, compare) && !TrueOf(TextOf(fields, sign, index), row, params, compare);
    }
  }

  // ---- names that clash --------------------------------------------------

  /** No parameter is given two values. */
  predicate Consistent(bs: seq<Binding>) {
    forall i, j :: 0 <= i < j < |bs| && bs[i].name == bs[j].name ==> bs[i].value == bs[j].value
  }

  predicate AllBound(bs: seq<Binding>, params: Params) {
    forall i :: 0 <= i < |bs| ==> At(params, bs[i].name) == Some(bs[i].value)
  }

  /** Parameters keep their values exactly when none is given two. */
  lemma {:induction false} BoundIff(params: Params, bs: seq<Binding>)
    ensures AllBound(bs, Bind(params, bs)) <==> Consistent(bs)
    decreases |bs|
  {
    if |bs| > 0 {
      var front, last := bs[..|bs| - 1], bs[|bs| - 1];
      assert bs == front + [last];
      BindMore(params, front, [last]);
      BindOne(Bind(params, front), last);
      BoundIff(params, front);
      if Consistent(bs) {
        assert Consistent(front);
        forall i | 0 <= i < |bs| ensures At(Bind(params, bs), bs[i].name) == Some(bs[i].value) {
          if i < |front| {
            assert At(Bind(params, front), front[i].name) == Some(front[i].value);
          }
        }
      } else {
        var i, j :| 0 <= i < j < |bs| && bs[i].name == bs[j].name && bs[i].value != bs[j].value;
        assert !(At(Bind(params, bs), bs[i].name) == Some(bs[i].value) && At(Bind(params, bs), bs[j].name) == Some(bs[j].value));
      }
    }
  }

  lemma BindOne(params: Params, b: Binding)
    ensures Bind(params, [b]) == params[b.name := b.value]
  {
    assert |[b][1..]| == 0;
  }

  lemma {:induction false} FieldsBoundIff(fields: seq<Field>, index: nat, params: Params)
    ensures FieldsBound(fields, index, params) <==> AllBound(Bindings(fields, index), params)
    decreases |fields|
  {
    hide ParamName;
    if fields != [] {
      var f := fields[0];
      if f.value.None? {
        FieldsBoundIff(fields[1..], index, params);
      } else {
        FieldsBoundIff(fields[1..], index + 1, params);
        var first := Binding(ParamName(f.key, index), f.value.value);
        BoundMore([first], Bindings(fields[1..], index + 1), params);
        assert AllBound([first], params) <==> At(params, [first][0].name) == f.value;
      }
    }
  }

  lemma BoundMore(bs: seq<Binding>, more: seq<Binding>, params: Params)
    ensures AllBound(bs + more, params) <==> AllBound(bs, params) && AllBound(more, params)
  {
    if AllBound(bs + more, params) {
      forall i | 0 <= i < |bs| ensures At(params, bs[i].name) == Some(bs[i].value) {
        assert (bs + more)[i] == bs[i];
      }
      forall i | 0 <= i < |more| ensures At(params, more[i].name) == Some(more[i].value) {
        assert (bs + more)[|bs| + i] == more[i];
      }
    }
  }

  /** An object compiled on its own says what it asks for exactly when no two of its parameters clash. */
  lemma ObjectRightIff(fields: seq<Field>, sign: string, index: nat, before: Params)
    requires fields != [] && DistinctKeys(fields)
    ensures SaysWhatItAsks(fields, sign, index, Bind(before, Bindings(fields, index))) <==>
      Consistent(Bindings(fields, index))
  {
    hide SaysWhatItAsks, Bind, Bindings, Consistent, AllBound;
    var bs := Bindings(fields, index);
    ObjectOnRowIff(fields, sign, index, Bind(before, bs));
    FieldsBoundIff(fields, index, Bind(before, bs));
    BoundIff(before, bs);
  }

  /** Every object of a list says what it asks for. */
  ghost predicate EachSaysWhatItAsks(entries: seq<Entry>, index: nat, params: Params)
    decreases |entries|
  {
    |entries| == 0 || (
      var c := entries[0].condition;
      && (c.Fields? && c.fields != [] ==> SaysWhatItAsks(c.fields, c.sign, index, params))
      && EachSaysWhatItAsks(entries[1..], ParamAfter(entries[0], index), params))
  }

  predicate AllDistinctKeys(entries: seq<Entry>) {
    forall i :: 0 <= i < |entries| && entries[i].condition.Fields? ==> DistinctKeys(entries[i].condition.fields)
  }

  lemma {:induction false} EachBoundIff(entries: seq<Entry>, index: nat, params: Params)
    requires AllDistinctKeys(entries)
    ensures EachSaysWhatItAsks(entries, index, params) <==> AllBound(AllBindings(entries, index), params)
    decreases |entries|
  {
    hide SaysWhatItAsks, Bindings, AllBound, DistinctKeys;
    if |entries| > 0 {
      var c, next := entries[0].condition, ParamAfter(entries[0], index);
      EachBoundIff(entries[1..], next, params);
      BoundMore(ConditionBindings(c, index), AllBindings(entries[1..], next), params);
      NothingToBind(index, params);
      if c.Fields? {
        FieldsBoundIff(c.fields, index, params);
        if c.fields != [] {
          ObjectOnRowIff(c.fields, c.sign, index, params);
        }
      }
    } else {
      NothingToBind(index, params);
    }
  }

  lemma NothingToBind(index: nat, params: Params)
    ensures Bindings([], index) == [] && AllBound([], params)
  {
  }

  /** With the parameters a whole list adds, every object says what it asks for exactly when no parameter is given two values. */
  lemma EachRightIff(entries: seq<Entry>, index: nat, before: Params)
    requires AllDistinctKeys(entries)
    ensures EachSaysWhatItAsks(entries, index, Bind(before, AllBindings(entries, index))) <==>
      Consistent(AllBindings(entries, index))
  {
    hide EachSaysWhatItAsks, AllBindings, AllBound, Consistent, Bind;
    var bs := AllBindings(entries, index);
    EachBoundIff(entries, index, Bind(before, bs));
    BoundIff(before, bs);
  }

  // ---- the whole text ----------------------------------------------------

  /** The truth of a text's compiled comparisons is told by the record; that of the caller's own texts is open. */
  ghost predicate Tells(text: seq<Token>, row: Row, params: Params, compare: Compare, truth: set<Comparison>) {
    forall c :: c in Atoms(text) && !c.Raw? ==> (c in truth <==> Holds(c, row, params, compare))
  }

  /** What a condition asks of a record. */
  function Asks(c: Condition, row: Row, compare: Compare, truth: set<Comparison>): Option<bool>
    requires c.Text? ==> Reads(c.tokens, truth)
  {
    match c
    case Missing => None
    case Text(t) => Some(Value(t, truth))
    case Fields(fields, sign) => if fields == [] then None else Some(Meets(row, fields, sign, compare))
  }

  /** The left fold of what the entries ask of a record. */
  function AllAsk(v: Option<bool>, entries: seq<Entry>, row: Row, compare: Compare, truth: set<Comparison>): Option<bool>
    requires AllRead(entries, truth)
    decreases |entries|
  {
    if |entries| == 0 then v
    else AllAsk(Joined(v, entries[0].op, Asks(entries[0].condition, row, compare, truth)), entries[1..], row, compare, truth)
  }

  ghost predicate ToldBy(atoms: set<Comparison>, row: Row, params: Params, compare: Compare, truth: set<Comparison>) {
    forall c :: c in atoms && !c.Raw? ==> (c in truth <==> Holds(c, row, params, compare))
  }

  lemma EntryOnRow(e: Entry, index: nat, row: Row, params: Params, compare: Compare, truth: set<Comparison>)
    requires e.condition.Text? ==> Reads(e.condition.tokens, truth)
    requires AllBound(ConditionBindings(e.condition, index), params)
    requires ToldBy(EntryAtoms(e, index), row, params, compare, truth)
    ensures Says(e.condition, index, truth) == Asks(e.condition, row, compare, truth)
  {
    hide Holds, Reads, Value, Meets, Comparisons, ObjectText, Atoms;
    if e.condition.Fields? && e.condition.fields != [] {
      var Fields(fields, sign) := e.condition;
      var cs := Comparisons(fields, sign, index);
      FieldsBoundIff(fields, index, params);
      BoundMeansMet(fields, sign, index, row, params, compare);
      ObjectAtoms(cs);
      assert forall c :: c in cs ==> c in EntryAtoms(e, index);
    }
  }

  lemma {:induction false} FoldOnRow(v: Option<bool>, index: nat, entries: seq<Entry>, row: Row, params: Params,
                                     compare: Compare, truth: set<Comparison>)
    requires AllRead(entries, truth) && AllBound(AllBindings(entries, index), params)
    requires ToldBy(AtomsFrom(index, entries), row, params, compare, truth)
    ensures Meaning(v, index, entries, truth) == AllAsk(v, entries, row, compare, truth)
    decreases |entries|
  {
    hide AllBound, EntryAtoms, Holds, ConditionBindings, Asks, Says, Joined, Reads;
    if |entries| > 0 {
      var e, next := entries[0], ParamAfter(entries[0], index);
      BoundMore(ConditionBindings(e.condition, index), AllBindings(entries[1..], next), params);
      EntryOnRow(e, index, row, params, compare, truth);
      FoldOnRow(Joined(v, e.op, Asks(e.condition, row, compare, truth)), next, entries[1..], row, params, compare, truth);
    }
  }

  lemma PushKeepsAtoms(b: Builder, op: Op, t: seq<Token>)
    requires |b.parts| > 0 ==> b.op.Some?
    ensures Atoms(Flatten(b.parts)) + Atoms(t) <= Atoms(Flatten(Push(b, op, t).parts))
    ensures Push(b, op, t).op.Some?
  {
    hide Flatten, Atoms;
    var s := Flatten(b.parts);
    if |b.parts| == 0 {
      NoParts(b.parts);
      if b.op == Some(op) {
        FlattenMore(b.parts, [op.Sign()], t);
        AtomsOfSum(s + [op.Sign()], t);
      } else {
        PushedAlone(b.parts, t);
      }
    } else {
      PushedText(b, op, t);
      AtomsOfSum([Open], s);
      AtomsOfSum([Open] + s, [Close]);
      AtomsOfSum(s, [op.Sign()]);
      AtomsOfSum([Open] + s + [Close], [op.Sign()]);
      AtomsOfSum((if b.op == Some(op) then s else [Open] + s + [Close]) + [op.Sign()], t);
    }
  }

  lemma NoParts(parts: seq<seq<Token>>)
    requires |parts| == 0
    ensures Atoms(Flatten(parts)) == {}
  {
  }

  /** The text has the comparisons of all its entries. */
  lemma {:induction false} ReduceKeepsAtoms(b: Builder, entries: seq<Entry>)
    requires |b.parts| > 0 ==> b.op.Some?
    ensures Atoms(Flatten(b.parts)) + AtomsFrom(b.param, entries) <= Atoms(Flatten(Reduce(b, entries).parts))
    decreases |entries|
  {
    hide Flatten, Atoms, Push, ConditionText;
    if |entries| > 0 {
      var e := entries[0];
      var t := ConditionText(e.condition, b.param);
      if e.condition.Missing? {
        MissingSaysNothing(e.condition, b.param, {});
      }
      if t.Some? {
        var next := b.(param := ParamAfter(e, b.param));
        PushKeepsAtoms(next, e.op, t.value);
        PushSetsOp(next, e.op, t.value);
      }
      ReduceKeepsAtoms(Next(b, e), entries[1..]);
    }
  }

  /**
   * The whole WHERE: for lists joined safely whose parameters do not clash, the text is true of a record, with the
   * parameters sent along, exactly when the left fold of what the entries ask of that record is.
   */
  lemma WhereOnRow(entries: seq<Entry>, index: nat, before: Params, row: Row, compare: Compare, truth: set<Comparison>)
    requires AllRead(entries, {}) && SafeEntries(None, true, false, entries)
    requires Consistent(AllBindings(entries, index))
    requires Tells(Flatten(Reduce(Builder(None, [], index), entries).parts), row,
                   Bind(before, AllBindings(entries, index)), compare, truth)
    ensures AllRead(entries, truth)
    ensures Means(Reduce(Builder(None, [], index), entries), AllAsk(None, entries, row, compare, truth), truth)
  {
    hide Reduce, Meaning, AllAsk, Safe, SafeEntries, Means, Reads, Consistent, AllBound, AllBindings, Bind, Atoms, Flatten;
    var b, bs := Builder(None, [], index), AllBindings(entries, index);
    SafeIffScan(b, entries);
    SafeAgrees(b, entries, truth);
    NothingMeant(index, truth);
    TextMeansFold(b, None, entries, truth);
    ReduceKeepsAtoms(b, entries);
    BoundIff(before, bs);
    FoldOnRow(None, index, entries, row, Bind(before, bs), compare, truth);
  }

  lemma NothingMeant(index: nat, truth: set<Comparison>)
    ensures Means(Builder(None, [], index), None, truth)
  {
  }

  // ---- which names clash -------------------------------------------------

  predicate EndsInDigit(s: string) {
    s != "" && '0' <= s[|s| - 1] <= '9'
  }

  /** No key with a value ends in a digit, once everything but letters and digits is dropped. */
  predicate NoDigitAtTheEnd(fields: seq<Field>) {
    forall i :: 0 <= i < |fields| && fields[i].value.Some? ==> !EndsInDigit(Paramify(fields[i].key))
  }

  lemma Boundary(a: string, d: string, b: string, e: string)
    requires a + d == b + e && LongText.AllDigits(e, 10)
    ensures |a| > |b| ==> EndsInDigit(a)
  {
    if |a| > |b| {
      var k := |a| - 1;
      assert (a + d)[k] == a[k] && (b + e)[k] == e[k - |b|];
      assert LongText.IsDigit(e[k - |b|], 10);
    }
  }

  /** Keys that do not end in a digit never share a parameter. */
  lemma NamesDiffer(key: string, i: nat, other: string, j: nat)
    requires !EndsInDigit(Paramify(key)) && !EndsInDigit(Paramify(other))
    requires ParamName(key, i) == ParamName(other, j)
    ensures i == j
  {
    var a, b := "param" + Paramify(key), "param" + Paramify(other);
    var d, e := LongText.Digits(i, 10), LongText.Digits(j, 10);
    LongText.DigitsRoundTrip(i, 10);
    LongText.DigitsRoundTrip(j, 10);
    NameHead(Paramify(key));
    NameHead(Paramify(other));
    Boundary(a, d, b, e);
    Boundary(b, e, a, d);
    assert d == (a + d)[|a|..] == (b + e)[|b|..] == e;
  }

  lemma NameHead(s: string)
    requires !EndsInDigit(s)
    ensures !EndsInDigit("param" + s)
  {
    var t := "param" + s;
    assert t[|t| - 1] == if s == "" then 'm' else s[|s| - 1];
  }

  /** The parameters of an object are numbered from the index on. */
  lemma {:induction false} NameAt(fields: seq<Field>, index: nat, i: nat) returns (key: string)
    requires i < |Bindings(fields, index)|
    ensures Bindings(fields, index)[i].name == ParamName(key, index + i)
    ensures NoDigitAtTheEnd(fields) ==> !EndsInDigit(Paramify(key))
    decreases |fields|
  {
    hide ParamName, EndsInDigit;
    if fields[0].value.None? {
      key := NameAt(fields[1..], index, i);
    } else if i == 0 {
      key := fields[0].key;
    } else {
      key := NameAt(fields[1..], index + 1, i - 1);
    }
  }

  lemma {:induction false} BindingsCount(fields: seq<Field>, index: nat)
    ensures |Bindings(fields, index)| == ParamsOf(fields)
    decreases |fields|
  {
    if fields != [] {
      BindingsCount(fields[1..], index + if fields[0].value.Some? then 1 else 0);
    }
  }

  lemma {:induction false} NameAmongAll(entries: seq<Entry>, index: nat, i: nat) returns (key: string)
    requires i < |AllBindings(entries, index)|
    requires forall k :: 0 <= k < |entries| && entries[k].condition.Fields? ==> NoDigitAtTheEnd(entries[k].condition.fields)
    ensures AllBindings(entries, index)[i].name == ParamName(key, index + i) && !EndsInDigit(Paramify(key))
    decreases |entries|
  {
    hide ParamName, EndsInDigit, Bindings, NoDigitAtTheEnd;
    var c := entries[0].condition;
    var own := ConditionBindings(c, index);
    if c.Fields? {
      BindingsCount(c.fields, index);
    }
    if i < |own| {
      key := NameAt(c.fields, index, i);
    } else {
      key := NameAmongAll(entries[1..], ParamAfter(entries[0], index), i - |own|);
    }
  }

  /** Lists of objects none of whose keys ends in a digit have no clash. */
  lemma NoClash(entries: seq<Entry>, index: nat)
    requires forall k :: 0 <= k < |entries| && entries[k].condition.Fields? ==> NoDigitAtTheEnd(entries[k].condition.fields)
    ensures Consistent(AllBindings(entries, index))
  {
    hide ParamName, EndsInDigit, AllBindings;
    var bs := AllBindings(entries, index);
    forall i, j | 0 <= i < j < |bs| ensures bs[i].name != bs[j].name {
      var k := NameAmongAll(entries, index, i);
      var l := NameAmongAll(entries, index, j);
      if ParamName(k, index + i) == ParamName(l, index + j) {
        NamesDiffer(k, index + i, l, index + j);
      }
    }
  }

  /** "a1" with index 0 and "a" with index 10 share a parameter: the object compares "a1" with the value of "a". */
  lemma NamesClash(fields: seq<Field>, sign: string, before: Params)
    requires |fields| == 11 && DistinctKeys(fields) && forall i :: 0 <= i < 11 ==> fields[i].value.Some?
    requires fields[0].key == "a1" && fields[10].key == "a" && fields[0].value != fields[10].value
    ensures !SaysWhatItAsks(fields, sign, 0, Bind(before, Bindings(fields, 0)))
  {
    hide SaysWhatItAsks, Bind;
    ObjectRightIff(fields, sign, 0, before);
    ValueAt(fields, 0, 0);
    ValueAt(fields, 0, 10);
    SameName();
  }

  lemma SameName()
    ensures ParamName("a1", 0) == ParamName("a", 10) == "parama10"
  {
    assert Paramify("a") == "a" && Paramify("a1") == "a1";
    assert LongText.Digits(1, 10) == "1" && LongText.Digits(0, 10) == "0";
  }

  /** A parameter's name keeps the letters and digits of the key, one after the other, and only those. */
  lemma {:induction false} ParamifyKeeps(key: string, more: string, c: char)
    ensures Paramify(key + more) == Paramify(key) + Paramify(more)
    ensures Paramify([c]) == if 'A' <= c <= 'Z' || 'a' <= c <= 'z' || '0' <= c <= '9' then [c] else ""
    decreases |key|
  {
    hide Paramify, LetterOrDigit;
    OneLetter(c);
    if key == "" {
      assert key + more == more && "" + Paramify(more) == Paramify(more);
    } else {
      FirstLetter(key);
      FirstLetter(key + more);
      assert (key + more)[0] == key[0] && (key + more)[1..] == key[1..] + more;
      ParamifyKeeps(key[1..], more, c);
    }
  }

  lemma FirstLetter(key: string)
    requires key != ""
    ensures Paramify(key) == (if LetterOrDigit(key[0]) then [key[0]] else "") + Paramify(key[1..])
  {
  }

  lemma OneLetter(c: char)
    ensures Paramify([c]) == if 'A' <= c <= 'Z' || 'a' <= c <= 'z' || '0' <= c <= '9' then [c] else ""
    ensures Paramify("") == ""
  {
    assert [c][1..] == "" && Paramify("") == "";
  }

  lemma {:induction false} ValueAt(fields: seq<Field>, index: nat, i: nat)
    requires i < |fields| && forall k :: 0 <= k < |fields| ==> fields[k].value.Some?
    ensures |Bindings(fields, index)| == |fields|
    ensures Bindings(fields, index)[i] == Binding(ParamName(fields[i].key, index + i), fields[i].value.value)
    decreases |fields|
  {
    hide ParamName;
    if |fields| > 1 {
      ValueAt(fields[1..], index + 1, if i > 0 then i - 1 else 0);
    }
  }

  /** `where(x).or(y).and(z)`, token by token. */
  lemma ThreeEntries(x: Token, y: Token, z: Token, index: nat)
    ensures var entries := [Entry(AndOp, Text([x])), Entry(OrOp, Text([y])), Entry(AndOp, Text([z]))];
      Flatten(Reduce(Builder(None, [], index), entries).parts) == [Open, Open, x, Close, Or, y, Close, And, z]
  {
    hide Flatten, Push, Reduce;
    var b := Builder(None, [], index);
    ThreePushed(b, x, y, z);
    ReduceThree(b, Entry(AndOp, Text([x])), Entry(OrOp, Text([y])), Entry(AndOp, Text([z])));
  }

  lemma ReduceThree(b: Builder, one: Entry, two: Entry, three: Entry)
    ensures Reduce(b, [one, two, three]) == Next(Next(Next(b, one), two), three)
  {
    hide Next;
    var b2 := Next(Next(b, one), two);
    assert [one, two, three][1..] == [two, three] && [two, three][1..] == [three];
    assert Reduce(b2, [three]) == Reduce(Next(b2, three), [three][1..]) == Next(b2, three);
  }

  /** The second entry closes a group around the first, the third around both. */
  lemma ThreePushed(b: Builder, x: Token, y: Token, z: Token)
    requires b.op.None? && |b.parts| == 0
    ensures Flatten(Push(Push(Push(b, AndOp, [x]), OrOp, [y]), AndOp, [z]).parts) ==
      [Open, Open, x, Close, Or, y, Close, And, z]
  {
    hide Flatten, Push;
    var b1 := Push(b, AndOp, [x]);
    var b2 := Push(b1, OrOp, [y]);
    FirstPush(b, AndOp, [x]);
    PushedText(b1, OrOp, [y]);
    PushSetsOp(b1, OrOp, [y]);
    PushedText(b2, AndOp, [z]);
    assert Flatten(b2.parts) == [Open, x, Close, Or, y];
  }

  lemma FirstPush(b: Builder, op: Op, t: seq<Token>)
    requires b.op.None? && |b.parts| == 0
    ensures var c := Push(b, op, t); Flatten(c.parts) == t && |c.parts| == 1 && c.op == Some(op) && c.param == b.param
  {
    hide Flatten;
    PushedAlone(b.parts, t);
  }
}
