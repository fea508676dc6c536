/** Where clauses: entries joined by AND and OR become one text, which the server reads with AND binding tighter. */
module WhereClause {
  import opened Options
  import LongText

  /** `Raw` is a comparison in a text of the caller's own; `Compare` names the parameter it compares with. */
  datatype Comparison =
    | Raw(text: string)
    | IsNull(key: string)
    | IsNotNull(key: string)
    | Compare(key: string, sign: string, param: string)

  datatype Token = Atom(c: Comparison) | And | Or | Open | Close

  datatype Op = AndOp | OrOp {
    function Sign(): Token {
      if AndOp? then And else Or
    }
  }

  // ---- reading a text ----------------------------------------------------

  datatype Reading = Bad | Reading(value: bool, rest: seq<Token>)

  /** An operand: one comparison or a text in parentheses. `truth` holds the comparisons that are true. */
  function Factor(s: seq<Token>, truth: set<Comparison>): (r: Reading)
    ensures r.Reading? ==> |r.rest| < |s|
    decreases |s|, 0
  {
    if s == [] then Bad
    else if s[0].Atom? then Reading(s[0].c in truth, s[1..])
    else if s[0].Open? then
      var inner := Expr(s[1..], truth);
      if inner.Reading? && inner.rest != [] && inner.rest[0].Close? then inner.(rest := inner.rest[1..]) else Bad
    else Bad
  }

  /** Operands joined by AND. */
  function Term(s: seq<Token>, truth: set<Comparison>): (r: Reading)
    ensures r.Reading? ==> |r.rest| < |s|
    decreases |s|, 1
  {
    var first := Factor(s, truth);
    if first.Reading? && first.rest != [] && first.rest[0].And? then
      var others := Term(first.rest[1..], truth);
      if others.Reading? then others.(value := first.value && others.value) else Bad
    else first
  }

  /** Terms joined by OR. */
  function Expr(s: seq<Token>, truth: set<Comparison>): (r: Reading)
    ensures r.Reading? ==> |r.rest| < |s|
    decreases |s|, 2
  {
    var first := Term(s, truth);
    if first.Reading? && first.rest != [] && first.rest[0].Or? then
      var others := Expr(first.rest[1..], truth);
      if others.Reading? then others.(value := first.value || others.value) else Bad
    else first
  }

  /** The whole text reads as an expression. */
  predicate Reads(s: seq<Token>, truth: set<Comparison>) {
    Expr(s, truth).Reading? && Expr(s, truth).rest == []
  }

  function Value(s: seq<Token>, truth: set<Comparison>): bool
    requires Reads(s, truth)
  {
    Expr(s, truth).value
  }

  /** No OR outside parentheses: the whole text reads as one term. */
  predicate Tight(s: seq<Token>, truth: set<Comparison>) {
    Term(s, truth).Reading? && Term(s, truth).rest == []
  }

  // ---- reading goes on where a text ends ---------------------------------

  lemma {:induction false} FactorExtends(s: seq<Token>, more: seq<Token>, truth: set<Comparison>)
    requires Factor(s, truth).Reading?
    ensures var r := Factor(s, truth); Factor(s + more, truth) == Reading(r.value, r.rest + more)
    decreases |s|, 0
  {
    assert (s + more)[1..] == s[1..] + more;
    if s[0].Open? {
      ExprExtends(s[1..], more, truth);
    }
  }

  lemma {:induction false} TermExtends(s: seq<Token>, more: seq<Token>, truth: set<Comparison>)
    requires Term(s, truth).Reading?
    requires Term(s, truth).rest != [] || more == [] || !more[0].And?
    ensures var r := Term(s, truth); Term(s + more, truth) == Reading(r.value, r.rest + more)
    decreases |s|, 1
  {
    hide Factor;
    var first := Factor(s, truth);
    FactorExtends(s, more, truth);
    if first.rest != [] && first.rest[0].And? {
      assert (first.rest + more)[1..] == first.rest[1..] + more;
      TermExtends(first.rest[1..], more, truth);
    }
  }

  lemma {:induction false} ExprExtends(s: seq<Token>, more: seq<Token>, truth: set<Comparison>)
    requires Expr(s, truth).Reading?
    requires Expr(s, truth).rest != [] || more == [] || !(more[0].And? || more[0].Or?)
    ensures var r := Expr(s, truth); Expr(s + more, truth) == Reading(r.value, r.rest + more)
    decreases |s|, 2
  {
    hide Term;
    var first := Term(s, truth);
    TermExtends(s, more, truth);
    if first.rest != [] && first.rest[0].Or? {
      assert (first.rest + more)[1..] == first.rest[1..] + more;
      ExprExtends(first.rest[1..], more, truth);
    }
  }

  // ---- joining texts -----------------------------------------------------

  lemma {:induction false} TightReads(s: seq<Token>, truth: set<Comparison>)
    requires Tight(s, truth)
    ensures Reads(s, truth) && Value(s, truth) == Term(s, truth).value
  {
  }

  /** Two tight texts joined by AND are tight, and mean the conjunction. */
  lemma {:induction false} JoinedByAnd(s: seq<Token>, t: seq<Token>, truth: set<Comparison>)
    requires Tight(s, truth) && Tight(t, truth)
    ensures Tight(s + [And] + t, truth)
    ensures Term(s + [And] + t, truth).value == (Term(s, truth).value && Term(t, truth).value)
    decreases |s|
  {
    hide Factor;
    var first, all := Factor(s, truth), s + [And] + t;
    assert all == s + ([And] + t);
    FactorExtends(s, [And] + t, truth);
    var rest := first.rest + ([And] + t);
    if first.rest == [] {
      assert rest == [And] + t && rest[1..] == t;
    } else {
      assert rest[1..] == first.rest[1..] + [And] + t;
      JoinedByAnd(first.rest[1..], t, truth);
    }
  }

  /** Two texts joined by OR mean the disjunction. */
  lemma {:induction false} JoinedByOr(s: seq<Token>, t: seq<Token>, truth: set<Comparison>)
    requires Reads(s, truth) && Reads(t, truth)
    ensures Reads(s + [Or] + t, truth)
    ensures Value(s + [Or] + t, truth) == (Value(s, truth) || Value(t, truth))
    decreases |s|
  {
    hide Term;
    var first, all := Term(s, truth), s + [Or] + t;
    assert all == s + ([Or] + t);
    TermExtends(s, [Or] + t, truth);
    var rest := first.rest + ([Or] + t);
    if first.rest == [] {
      assert rest == [Or] + t && rest[1..] == t;
    } else {
      assert rest[1..] == first.rest[1..] + [Or] + t;
      JoinedByOr(first.rest[1..], t, truth);
    }
  }

  /** A text in parentheses is tight and means what it meant. */
  lemma {:induction false} InParentheses(s: seq<Token>, truth: set<Comparison>)
    requires Reads(s, truth)
    ensures Tight([Open] + s + [Close], truth)
    ensures Term([Open] + s + [Close], truth).value == Value(s, truth)
  {
    var all := [Open] + s + [Close];
    assert all[1..] == s + [Close];
    ExprExtends(s, [Close], truth);
    assert ([] + [Close])[1..] == [];
  }

  // ---- the compiler ------------------------------------------------------

  datatype Literal = Number(n: int) | Words(s: string) | Flag(b: bool)

  /** A field of an object and its value; `None` is null. */
  datatype Field = Field(key: string, value: Option<Literal>)

  /** A condition: `null`, a text of the caller's own, or an object whose fields are compared. */
  datatype Condition = Missing | Text(tokens: seq<Token>) | Fields(fields: seq<Field>, sign: string)

  datatype Entry = Entry(op: Op, condition: Condition)

  predicate LetterOrDigit(c: char) {
    'A' <= c <= 'Z' || 'a' <= c <= 'z' || '0' <= c <= '9'
  }

  /** The letters and digits of a key. */
  function Paramify(key: string): string {
    if key == "" then ""
    else (if LetterOrDigit(key[0]) then [key[0]] else "") + Paramify(key[1..])
  }

  function ParamName(key: string, index: nat): string {
    "param" + Paramify(key) + LongText.Digits(index, 10)
  }

  function FieldComparison(f: Field, sign: string, index: nat): Comparison {
    if f.value.Some? then Compare(f.key, sign, ParamName(f.key, index))
    else if sign in {"!=", "<>", "NOT"} then IsNotNull(f.key)
    else IsNull(f.key)
  }

  function ParamsOf(fields: seq<Field>): nat {
    if fields == [] then 0 else (if fields[0].value.Some? then 1 else 0) + ParamsOf(fields[1..])
  }

  /** The comparisons of an object; every value that is not null takes the next parameter. */
  function Comparisons(fields: seq<Field>, sign: string, index: nat): (cs: seq<Comparison>)
    ensures |cs| == |fields|
  {
    if fields == [] then []
    else
      [FieldComparison(fields[0], sign, index)] +
      Comparisons(fields[1..], sign, index + if fields[0].value.Some? then 1 else 0)
  }

  /** A parameter and its value. */
  datatype Binding = Binding(name: string, value: Literal)

  type Params = map<string, Literal>

  function Bindings(fields: seq<Field>, index: nat): seq<Binding> {
    if fields == [] then []
    else if fields[0].value.None? then Bindings(fields[1..], index)
    else [Binding(ParamName(fields[0].key, index), fields[0].value.value)] + Bindings(fields[1..], index + 1)
  }

  function ConditionBindings(c: Condition, index: nat): seq<Binding> {
    if c.Fields? then Bindings(c.fields, index) else []
  }

  function AllBindings(entries: seq<Entry>, index: nat): seq<Binding>
    decreases |entries|
  {
    if |entries| == 0 then []
    else
      var c := entries[0].condition;
      ConditionBindings(c, index) +
      AllBindings(entries[1..], index + if c.Fields? then ParamsOf(c.fields) else 0)
  }

  /** `addParam` for each of them: a parameter of the same name is replaced. */
  function Bind(params: Params, bs: seq<Binding>): Params
    decreases |bs|
  {
    if |bs| == 0 then params else Bind(params[bs[0].name := bs[0].value], bs[1..])
  }

  lemma {:induction false} BindMore(params: Params, bs: seq<Binding>, more: seq<Binding>)
    ensures Bind(params, bs + more) == Bind(Bind(params, bs), more)
    decreases |bs|
  {
    if |bs| == 0 {
      assert bs + more == more;
    } else {
      assert (bs + more)[0] == bs[0] && (bs + more)[1..] == bs[1..] + more;
      BindMore(params[bs[0].name := bs[0].value], bs[1..], more);
    }
  }

  function JoinAnd(cs: seq<Comparison>): seq<Token> {
    if cs == [] then [] else if |cs| == 1 then [Atom(cs[0])] else [Atom(cs[0]), And] + JoinAnd(cs[1..])
  }

  /** `_objectToCondition`: nothing, one comparison, or several in parentheses. */
  function ObjectText(cs: seq<Comparison>): Option<seq<Token>> {
    if |cs| == 0 then None
    else if |cs| == 1 then Some([Atom(cs[0])])
    else Some([Open] + JoinAnd(cs) + [Close])
  }

  function ConditionText(c: Condition, param: nat): Option<seq<Token>> {
    match c
    case Missing => None
    case Text(t) => Some(t)
    case Fields(fields, sign) => ObjectText(Comparisons(fields, sign, param))
  }

  /** The accumulator: the operator in force, the parts to be joined by spaces, and the next parameter. */
  datatype Builder = Builder(op: Option<Op>, parts: seq<seq<Token>>, param: nat)

  function Flatten(parts: seq<seq<Token>>): seq<Token>
    decreases |parts|
  {
    if |parts| == 0 then [] else Flatten(parts[..|parts| - 1]) + parts[|parts| - 1]
  }

  function Push(b: Builder, op: Op, t: seq<Token>): Builder {
    if b.op.None? then b.(op := Some(op), parts := b.parts + [t])
    else if b.op == Some(op) then b.(parts := b.parts + [[op.Sign()], t])
    else if |b.parts| == 0 then b.(op := Some(op), parts := b.parts + [t])
    else b.(op := Some(op), parts := [[Open] + Flatten(b.parts) + [Close], [op.Sign()], t])
  }

  function Next(b: Builder, e: Entry): Builder {
    if e.condition.Missing? then b.(op := Some(e.op))
    else
      var param := b.param + if e.condition.Fields? then ParamsOf(e.condition.fields) else 0;
      match ConditionText(e.condition, b.param)
      case None => b.(param := param)
      case Some(t) => Push(b.(param := param), e.op, t)
  }

  function Reduce(b: Builder, entries: seq<Entry>): Builder
    decreases |entries|
  {
    if |entries| == 0 then b else Reduce(Next(b, entries[0]), entries[1..])
  }

  /** The reduction as the source runs it, with the parameters it adds. */
  method BuildWhere(entries: seq<Entry>, param: nat, params: Params)
    returns (text: seq<Token>, next: nat, bound: Params)
    ensures var b := Reduce(Builder(None, [], param), entries); text == Flatten(b.parts) && next == b.param
    ensures bound == Bind(params, AllBindings(entries, param))
  {
    hide Flatten, Bind, ConditionText, ConditionBindings, ParamsOf, AllBindings;
    var op: Option<Op>, parts: seq<seq<Token>> := None, [];
    next, bound := param, params;
    assert entries[0..] == entries;
    for i := 0 to |entries|
      invariant Reduce(Builder(op, parts, next), entries[i..]) == Reduce(Builder(None, [], param), entries)
      invariant Bind(bound, AllBindings(entries[i..], next)) == Bind(params, AllBindings(entries, param))
    {
      var Entry(entryOp, condition) := entries[i];
      assert entries[i..][0] == entries[i] && entries[i..][1..] == entries[i + 1..];
      NextBindings(entries[i..], next, bound);
      var before := next;
      if condition.Missing? {
        op := Some(entryOp);
      } else {
        var t;
        t, next, bound := ToCondition(condition, before, bound);
        if t.Some? {
          if op.None? {
            op, parts := Some(entryOp), parts + [t.value];
          } else if op == Some(entryOp) {
            parts := parts + [[entryOp.Sign()], t.value];
          } else if |parts| == 0 {
            op, parts := Some(entryOp), parts + [t.value];
          } else {
            op, parts := Some(entryOp), [[Open] + Flatten(parts) + [Close], [entryOp.Sign()], t.value];
          }
        }
      }
    }
    NothingBound(next, bound);
    text := Flatten(parts);
  }

  lemma NextBindings(entries: seq<Entry>, index: nat, params: Params)
    requires |entries| > 0
    ensures var c := entries[0].condition;
      var next := index + if c.Fields? then ParamsOf(c.fields) else 0;
      Bind(params, AllBindings(entries, index)) ==
        Bind(Bind(params, ConditionBindings(c, index)), AllBindings(entries[1..], next))
    ensures entries[0].condition.Missing? ==> Bind(params, ConditionBindings(entries[0].condition, index)) == params
  {
    var c := entries[0].condition;
    BindMore(params, ConditionBindings(c, index),
      AllBindings(entries[1..], index + if c.Fields? then ParamsOf(c.fields) else 0));
  }

  lemma NothingBound(index: nat, params: Params)
    ensures Bind(params, AllBindings([], index)) == params
  {
  }

  method ToCondition(condition: Condition, param: nat, params: Params)
    returns (t: Option<seq<Token>>, next: nat, bound: Params)
    ensures t == ConditionText(condition, param)
    ensures next == param + if condition.Fields? then ParamsOf(condition.fields) else 0
    ensures bound == Bind(params, ConditionBindings(condition, param))
  {
    t, next, bound := None, param, params;
    match condition
    case Missing =>
    case Text(tokens) => t := Some(tokens);
    case Fields(fields, sign) =>
      t, next, bound := ObjectToCondition(fields, sign, param, params);
  }

  /** `_objectToCondition` */
  method ObjectToCondition(fields: seq<Field>, sign: string, param: nat, params: Params)
    returns (t: Option<seq<Token>>, next: nat, bound: Params)
    ensures t == ObjectText(Comparisons(fields, sign, param))
    ensures next == param + ParamsOf(fields)
    ensures bound == Bind(params, Bindings(fields, param))
  {
    hide ParamName, Bind, FieldComparison, ParamsOf, Comparisons, Bindings, ObjectText;
    next, bound := param, params;
    var cs: seq<Comparison> := [];
    assert fields[0..] == fields;
    for i := 0 to |fields|
      invariant cs + Comparisons(fields[i..], sign, next) == Comparisons(fields, sign, param)
      invariant next + ParamsOf(fields[i..]) == param + ParamsOf(fields)
      invariant Bind(bound, Bindings(fields[i..], next)) == Bind(params, Bindings(fields, param))
    {
      var f := fields[i];
      assert fields[i..][0] == f && fields[i..][1..] == fields[i + 1..];
      OneMore(fields[i..], sign, next, bound);
      cs := cs + [FieldComparison(f, sign, next)];
      if f.value.Some? {
        bound := bound[ParamName(f.key, next) := f.value.value];
        next := next + 1;
      }
    }
    NoMore(sign, next, bound);
    assert fields[|fields|..] == [] && cs + [] == cs;
    t := ObjectText(cs);
  }

  lemma NoMore(sign: string, index: nat, params: Params)
    ensures Comparisons([], sign, index) == [] && ParamsOf([]) == 0 && Bind(params, Bindings([], index)) == params
  {
  }

  lemma OneMore(fields: seq<Field>, sign: string, index: nat, params: Params)
    requires fields != []
    ensures var f := fields[0]; var next := index + if f.value.Some? then 1 else 0;
      && Comparisons(fields, sign, index) == [FieldComparison(f, sign, index)] + Comparisons(fields[1..], sign, next)
      && index + ParamsOf(fields) == next + ParamsOf(fields[1..])
      && Bind(params, Bindings(fields, index)) ==
        Bind(if f.value.Some? then params[ParamName(f.key, index) := f.value.value] else params,
          Bindings(fields[1..], next))
  {
    hide ParamName, FieldComparison;
    if fields[0].value.Some? {
      assert Bindings(fields, index)[1..] == Bindings(fields[1..], index + 1);
    }
  }

  // ---- the text means the fold -------------------------------------------

  /** What a condition says; nothing for `null` and for an object without fields. */
  function Says(c: Condition, param: nat, truth: set<Comparison>): Option<bool>
    requires c.Text? ==> Reads(c.tokens, truth)
  {
    match c
    case Missing => None
    case Text(t) => Some(Value(t, truth))
    case Fields(fields, sign) =>
      if fields == [] then None
      else Some(forall x :: x in Comparisons(fields, sign, param) ==> x in truth)
  }

  function Joined(v: Option<bool>, op: Op, w: Option<bool>): Option<bool> {
    if v.None? then w
    else if w.None? then v
    else Some(if op.AndOp? then v.value && w.value else v.value || w.value)
  }

  predicate AllRead(entries: seq<Entry>, truth: set<Comparison>) {
    forall i :: 0 <= i < |entries| && entries[i].condition.Text? ==> Reads(entries[i].condition.tokens, truth)
  }

  /** The left fold of the entries: each condition joined to what the ones before it say. */
  function Meaning(v: Option<bool>, param: nat, entries: seq<Entry>, truth: set<Comparison>): Option<bool>
    requires AllRead(entries, truth)
    decreases |entries|
  {
    if |entries| == 0 then v
    else
      var e := entries[0];
      var next := param + if e.condition.Fields? then ParamsOf(e.condition.fields) else 0;
      Meaning(Joined(v, e.op, Says(e.condition, param, truth)), next, entries[1..], truth)
  }

  /** A condition joined so that the text still reads as it was meant: AND needs tight texts on both sides. */
  predicate JoinsSafely(b: Builder, op: Op, t: seq<Token>, truth: set<Comparison>) {
    && (b.op == Some(op) ==> |b.parts| > 0 && (op.AndOp? ==> Tight(Flatten(b.parts), truth) && Tight(t, truth)))
    && (b.op.Some? && b.op != Some(op) && |b.parts| > 0 && op.AndOp? ==> Tight(t, truth))
    && (b.op.None? ==> |b.parts| == 0)
  }

  predicate Safe(b: Builder, entries: seq<Entry>, truth: set<Comparison>)
    decreases |entries|
  {
    |entries| == 0 || (
      var t := ConditionText(entries[0].condition, b.param);
      && (t.Some? ==> JoinsSafely(b, entries[0].op, t.value, truth))
      && Safe(Next(b, entries[0]), entries[1..], truth))
  }

  predicate Means(b: Builder, v: Option<bool>, truth: set<Comparison>) {
    if |b.parts| == 0 then v.None?
    else v.Some? && Reads(Flatten(b.parts), truth) && Value(Flatten(b.parts), truth) == v.value
  }

  lemma FlattenMore(parts: seq<seq<Token>>, x: seq<Token>, y: seq<Token>)
    ensures Flatten(parts + [x]) == Flatten(parts) + x
    ensures Flatten(parts + [x, y]) == Flatten(parts) + x + y
  {
    assert (parts + [x])[..|parts|] == parts;
    assert (parts + [x, y])[..|parts| + 1] == parts + [x];
  }

  lemma PushMeans(b: Builder, op: Op, t: seq<Token>, v: Option<bool>, w: bool, truth: set<Comparison>)
    requires Means(b, v, truth) && JoinsSafely(b, op, t, truth)
    requires Reads(t, truth) && Value(t, truth) == w
    ensures Means(Push(b, op, t), Joined(v, op, Some(w)), truth)
  {
    hide Expr, Term, Flatten, Reads, Value, Tight;
    if |b.parts| == 0 {
      PushedAlone(b.parts, t);
    } else if b.op == Some(op) {
      FlattenMore(b.parts, [op.Sign()], t);
      JoinMeans(Flatten(b.parts), op, t, truth);
    } else {
      var grouped := [Open] + Flatten(b.parts) + [Close];
      InParentheses(Flatten(b.parts), truth);
      TightReads(grouped, truth);
      JoinMeans(grouped, op, t, truth);
      PushedAlone([], grouped);
      FlattenMore([grouped], [op.Sign()], t);
      assert [grouped] + [[op.Sign()], t] == [grouped, [op.Sign()], t];
    }
  }

  lemma PushedAlone(parts: seq<seq<Token>>, t: seq<Token>)
    requires |parts| == 0
    ensures Flatten(parts + [t]) == t && parts + [t] == [t]
  {
    FlattenMore(parts, t, []);
  }

  lemma JoinMeans(s: seq<Token>, op: Op, t: seq<Token>, truth: set<Comparison>)
    requires Reads(s, truth) && Reads(t, truth)
    requires op.AndOp? ==> Tight(s, truth) && Tight(t, truth)
    ensures Reads(s + [op.Sign()] + t, truth)
    ensures Some(Value(s + [op.Sign()] + t, truth)) == Joined(Some(Value(s, truth)), op, Some(Value(t, truth)))
  {
    hide Expr, Term;
    if op.AndOp? {
      JoinedByAnd(s, t, truth);
      TightReads(s, truth);
      TightReads(t, truth);
      TightReads(s + [And] + t, truth);
    } else {
      JoinedByOr(s, t, truth);
    }
  }

  lemma {:induction false} JoinAndMeans(cs: seq<Comparison>, truth: set<Comparison>)
    requires cs != []
    ensures Tight(JoinAnd(cs), truth)
    ensures Term(JoinAnd(cs), truth).value <==> forall x :: x in cs ==> x in truth
    decreases |cs|
  {
    if |cs| > 1 {
      JoinAndMeans(cs[1..], truth);
      var all := JoinAnd(cs);
      assert all[1..] == [And] + JoinAnd(cs[1..]) && all[1..][1..] == JoinAnd(cs[1..]);
      assert forall x :: x in cs <==> x == cs[0] || x in cs[1..];
    }
  }

  /** The text of an object is tight and says that all its comparisons hold. */
  lemma ObjectMeans(cs: seq<Comparison>, truth: set<Comparison>)
    requires cs != []
    ensures ObjectText(cs).Some? && Tight(ObjectText(cs).value, truth)
    ensures Term(ObjectText(cs).value, truth).value <==> forall x :: x in cs ==> x in truth
  {
    hide Expr, Term;
    JoinAndMeans(cs, truth);
    if |cs| > 1 {
      TightReads(JoinAnd(cs), truth);
      InParentheses(JoinAnd(cs), truth);
    }
  }

  lemma TextSays(c: Condition, param: nat, truth: set<Comparison>)
    requires c.Text? ==> Reads(c.tokens, truth)
    ensures var t, w := ConditionText(c, param), Says(c, param, truth);
      && (t.Some? <==> w.Some?)
      && (t.Some? ==> Reads(t.value, truth) && Value(t.value, truth) == w.value)
  {
    hide Expr, Term;
    if c.Fields? && c.fields != [] {
      var cs := Comparisons(c.fields, c.sign, param);
      ObjectMeans(cs, truth);
      TightReads(ObjectText(cs).value, truth);
    }
  }

  /**
   * For every list of entries joined safely, the text read with AND binding tighter than OR says, for every
   * truth of its comparisons, what the left fold of the entries says. Objects without fields say nothing.
   */
  lemma {:induction false} TextMeansFold(b: Builder, v: Option<bool>, entries: seq<Entry>, truth: set<Comparison>)
    requires AllRead(entries, truth) && Means(b, v, truth) && Safe(b, entries, truth)
    ensures Means(Reduce(b, entries), Meaning(v, b.param, entries, truth), truth)
    decreases |entries|
  {
    hide Means, Push, JoinsSafely, Reads, Value, ConditionText, Says;
    if |entries| > 0 {
      NextMeans(b, v, entries[0], truth);
      TextMeansFold(Next(b, entries[0]), Joined(v, entries[0].op, Says(entries[0].condition, b.param, truth)),
        entries[1..], truth);
    }
  }

  lemma NextMeans(b: Builder, v: Option<bool>, e: Entry, truth: set<Comparison>)
    requires e.condition.Text? ==> Reads(e.condition.tokens, truth)
    requires Means(b, v, truth)
    requires ConditionText(e.condition, b.param).Some? ==>
      JoinsSafely(b, e.op, ConditionText(e.condition, b.param).value, truth)
    ensures Means(Next(b, e), Joined(v, e.op, Says(e.condition, b.param, truth)), truth)
    ensures Next(b, e).param == b.param + if e.condition.Fields? then ParamsOf(e.condition.fields) else 0
  {
    hide Means, JoinsSafely, Reads, Value, ConditionText, Says;
    TextSays(e.condition, b.param, truth);
    var param := b.param + if e.condition.Fields? then ParamsOf(e.condition.fields) else 0;
    SameParts(b, e.op, param, v, truth);
    if ConditionText(e.condition, b.param).Some? {
      PushMeans(b.(param := param), e.op, ConditionText(e.condition, b.param).value, v,
        Says(e.condition, b.param, truth).value, truth);
    }
    if e.condition.Missing? {
      MissingSaysNothing(e.condition, b.param, truth);
    }
  }

  lemma MissingSaysNothing(c: Condition, param: nat, truth: set<Comparison>)
    requires c.Missing?
    ensures ConditionText(c, param).None? && Says(c, param, truth).None?
  {
  }

  lemma SameParts(b: Builder, op: Op, param: nat, v: Option<bool>, truth: set<Comparison>)
    requires Means(b, v, truth)
    ensures Means(b.(op := Some(op)), v, truth) && Means(b.(param := param), v, truth)
    ensures forall o, t :: JoinsSafely(b, o, t, truth) ==> JoinsSafely(b.(param := param), o, t, truth)
  {
  }

  // ---- entries as the builder methods make them --------------------------

  /** No `null` conditions, and texts of the caller's own have no OR outside parentheses. */
  predicate Plain(entries: seq<Entry>, truth: set<Comparison>) {
    forall i :: 0 <= i < |entries| ==>
      !entries[i].condition.Missing? && (entries[i].condition.Text? ==> Tight(entries[i].condition.tokens, truth))
  }

  predicate Grouped(b: Builder, truth: set<Comparison>) {
    && (b.op.None? <==> |b.parts| == 0)
    && (b.op == Some(AndOp) ==> Tight(Flatten(b.parts), truth))
  }

  lemma PushStaysGrouped(b: Builder, op: Op, t: seq<Token>, truth: set<Comparison>)
    requires Grouped(b, truth) && Tight(t, truth) && (|b.parts| > 0 ==> Reads(Flatten(b.parts), truth))
    ensures JoinsSafely(b, op, t, truth) && Grouped(Push(b, op, t), truth)
  {
    hide Expr, Term, Flatten, Tight, Reads;
    var s := Flatten(b.parts);
    if |b.parts| == 0 {
      PushedAlone(b.parts, t);
    } else if b.op == Some(op) {
      FlattenMore(b.parts, [op.Sign()], t);
      if op.AndOp? {
        JoinedByAnd(s, t, truth);
      }
    } else {
      var grouped := [Open] + s + [Close];
      InParentheses(s, truth);
      PushedAlone([], grouped);
      FlattenMore([grouped], [op.Sign()], t);
      assert [grouped] + [[op.Sign()], t] == [grouped, [op.Sign()], t];
      if op.AndOp? {
        JoinedByAnd(grouped, t, truth);
      }
    }
  }

  lemma {:induction false} PlainIsSafe(b: Builder, v: Option<bool>, entries: seq<Entry>, truth: set<Comparison>)
    requires Plain(entries, truth) && Grouped(b, truth) && Means(b, v, truth)
    ensures AllRead(entries, truth) && Safe(b, entries, truth)
    decreases |entries|
  {
    hide Push, Expr, Term;
    forall i | 0 <= i < |entries| && entries[i].condition.Text?
      ensures Reads(entries[i].condition.tokens, truth)
    {
      TightReads(entries[i].condition.tokens, truth);
    }
    if |entries| > 0 {
      var e := entries[0];
      var t := ConditionText(e.condition, b.param);
      if t.Some? {
        if e.condition.Fields? {
          ObjectMeans(Comparisons(e.condition.fields, e.condition.sign, b.param), truth);
        }
        PushStaysGrouped(b, e.op, t.value, truth);
        var param := b.param + if e.condition.Fields? then ParamsOf(e.condition.fields) else 0;
        PushStaysGrouped(b.(param := param), e.op, t.value, truth);
      }
      NextMeans(b, v, e, truth);
      PlainIsSafe(Next(b, e), Joined(v, e.op, Says(e.condition, b.param, truth)), entries[1..], truth);
    }
  }

  /**
   * For conditions that are not null and whose own texts have no bare OR, the WHERE text says what the left fold
   * of the entries says, for every truth of the comparisons; no text means that no entry said anything.
   */
  lemma WhereMeansFold(entries: seq<Entry>, param: nat, truth: set<Comparison>)
    requires Plain(entries, truth)
    ensures AllRead(entries, truth)
    ensures Means(Reduce(Builder(None, [], param), entries), Meaning(None, param, entries, truth), truth)
  {
    hide Reduce, Meaning;
    PlainIsSafe(Builder(None, [], param), None, entries, truth);
    TextMeansFold(Builder(None, [], param), None, entries, truth);
  }
}
