/** The other direction: entries joined unsafely are misread under some truth of their comparisons. */
module WhereExactly {
  import opened Options
  import opened WhereClause

  function Atoms(s: seq<Token>): set<Comparison> {
    set x | x in s && x.Atom? :: x.c
  }

  // ---- what a reading depends on -----------------------------------------

  lemma {:induction false} FactorAgrees(s: seq<Token>, p: set<Comparison>, q: set<Comparison>)
    ensures var r, u := Factor(s, p), Factor(s, q); (r.Bad? <==> u.Bad?) && (r.Reading? ==> r.rest == u.rest)
    decreases |s|, 0
  {
    if s != [] && s[0].Open? {
      ExprAgrees(s[1..], p, q);
    }
  }

  lemma {:induction false} TermAgrees(s: seq<Token>, p: set<Comparison>, q: set<Comparison>)
    ensures var r, u := Term(s, p), Term(s, q); (r.Bad? <==> u.Bad?) && (r.Reading? ==> r.rest == u.rest)
    decreases |s|, 1
  {
    hide Factor;
    FactorAgrees(s, p, q);
    var r := Factor(s, p);
    if r.Reading? && r.rest != [] {
      TermAgrees(r.rest[1..], p, q);
    }
  }

  /** How a text is divided does not depend on what is true. */
  lemma {:induction false} ExprAgrees(s: seq<Token>, p: set<Comparison>, q: set<Comparison>)
    ensures var r, u := Expr(s, p), Expr(s, q); (r.Bad? <==> u.Bad?) && (r.Reading? ==> r.rest == u.rest)
    decreases |s|, 2
  {
    hide Term;
    TermAgrees(s, p, q);
    var r := Term(s, p);
    if r.Reading? && r.rest != [] {
      ExprAgrees(r.rest[1..], p, q);
    }
  }

  /** Comparisons all true make an operand true, comparisons all false make it false; so for terms and texts. */
  lemma {:induction false} FactorAll(s: seq<Token>, truth: set<Comparison>)
    requires Factor(s, truth).Reading?
    ensures Atoms(Factor(s, truth).rest) <= Atoms(s)
    ensures Atoms(s) <= truth ==> Factor(s, truth).value
    ensures Atoms(s) !! truth ==> !Factor(s, truth).value
    decreases |s|, 0
  {
    AtomsOfTail(s);
    if s[0].Open? {
      ExprAll(s[1..], truth);
      AtomsOfTail(Expr(s[1..], truth).rest);
    }
  }

  lemma {:induction false} TermAll(s: seq<Token>, truth: set<Comparison>)
    requires Term(s, truth).Reading?
    ensures Atoms(Term(s, truth).rest) <= Atoms(s)
    ensures Atoms(s) <= truth ==> Term(s, truth).value
    ensures Atoms(s) !! truth ==> !Term(s, truth).value
    decreases |s|, 1
  {
    hide Factor, Atoms;
    FactorAll(s, truth);
    var r := Factor(s, truth);
    if r.rest != [] && r.rest[0].And? {
      AtomsOfTail(r.rest);
      TermAll(r.rest[1..], truth);
    }
  }

  lemma {:induction false} ExprAll(s: seq<Token>, truth: set<Comparison>)
    requires Expr(s, truth).Reading?
    ensures Atoms(Expr(s, truth).rest) <= Atoms(s)
    ensures Atoms(s) <= truth ==> Expr(s, truth).value
    ensures Atoms(s) !! truth ==> !Expr(s, truth).value
    decreases |s|, 2
  {
    hide Term, Atoms;
    TermAll(s, truth);
    var r := Term(s, truth);
    if r.rest != [] && r.rest[0].Or? {
      AtomsOfTail(r.rest);
      ExprAll(r.rest[1..], truth);
    }
  }

  lemma AtomsOfTail(s: seq<Token>)
    requires s != []
    ensures Atoms(s[1..]) <= Atoms(s)
    ensures s[0].Atom? ==> s[0].c in Atoms(s)
  {
    forall c | c in Atoms(s[1..]) ensures c in Atoms(s) {
      var x :| x in s[1..] && x.Atom? && x.c == c;
      assert x in s;
    }
  }

  // ---- AND between any two texts -----------------------------------------

  /** The first term of a joined text goes on into the second text when the first text is tight. */
  lemma {:induction false} TermJoins(s: seq<Token>, t: seq<Token>, truth: set<Comparison>)
    requires Tight(s, truth) && Term(t, truth).Reading?
    ensures Term(s + [And] + t, truth) ==
      Reading(Term(s, truth).value && Term(t, truth).value, Term(t, truth).rest)
    decreases |s|
  {
    hide Factor;
    var first := Factor(s, truth);
    assert s + [And] + t == s + ([And] + t);
    FactorExtends(s, [And] + t, truth);
    var rest := first.rest + ([And] + t);
    if first.rest == [] {
      assert rest == [And] + t && rest[1..] == t;
    } else {
      assert rest[1..] == first.rest[1..] + [And] + t;
      TermJoins(first.rest[1..], t, truth);
    }
  }

  /** Any two texts joined by AND make a text; it is true when the first is and all comparisons of the second are. */
  lemma {:induction false} AndReads(s: seq<Token>, t: seq<Token>, truth: set<Comparison>)
    requires Reads(s, truth) && Reads(t, truth)
    ensures Reads(s + [And] + t, truth)
    ensures Value(s, truth) && Atoms(t) <= truth ==> Value(s + [And] + t, truth)
    ensures !Tight(s, truth) && Term(s, truth).value ==> Value(s + [And] + t, truth)
    ensures Tight(s, truth) && !Tight(t, truth) && Atoms(t) <= truth ==> Value(s + [And] + t, truth)
    decreases |s|
  {
    hide Term;
    var first := Term(s, truth);
    if first.rest == [] {
      TermJoins(s, t, truth);
      TermAll(t, truth);
      var r := Term(t, truth).rest;
      if r != [] {
        AtomsOfTail(r);
        ExprAll(r[1..], truth);
      }
    } else {
      var all := s + [And] + t;
      assert all == s + ([And] + t);
      TermExtends(s, [And] + t, truth);
      var rest := first.rest + ([And] + t);
      assert rest[1..] == first.rest[1..] + [And] + t;
      AndReads(first.rest[1..], t, truth);
    }
  }

  // ---- entries that share no comparison ----------------------------------

  function EntryAtoms(e: Entry, param: nat): set<Comparison> {
    match ConditionText(e.condition, param)
    case None => {}
    case Some(t) => Atoms(t)
  }

  function ParamAfter(e: Entry, param: nat): nat {
    param + if e.condition.Fields? then ParamsOf(e.condition.fields) else 0
  }

  function AtomsFrom(param: nat, entries: seq<Entry>): set<Comparison>
    decreases |entries|
  {
    if |entries| == 0 then {} else EntryAtoms(entries[0], param) + AtomsFrom(ParamAfter(entries[0], param), entries[1..])
  }

  /** No comparison occurs in two entries. */
  predicate Apart(param: nat, entries: seq<Entry>)
    decreases |entries|
  {
    |entries| == 0 || (
      var next := ParamAfter(entries[0], param);
      EntryAtoms(entries[0], param) !! AtomsFrom(next, entries[1..]) && Apart(next, entries[1..]))
  }

  /** Truth that makes what AND joins true and what OR joins false. */
  predicate Steered(param: nat, entries: seq<Entry>, truth: set<Comparison>)
    decreases |entries|
  {
    |entries| == 0 || (
      && (entries[0].op.AndOp? ==> EntryAtoms(entries[0], param) <= truth)
      && (entries[0].op.OrOp? ==> EntryAtoms(entries[0], param) !! truth)
      && Steered(ParamAfter(entries[0], param), entries[1..], truth))
  }

  function AndAtoms(param: nat, entries: seq<Entry>): (a: set<Comparison>)
    ensures a <= AtomsFrom(param, entries)
    decreases |entries|
  {
    if |entries| == 0 then {}
    else
      (if entries[0].op.AndOp? then EntryAtoms(entries[0], param) else {}) +
      AndAtoms(ParamAfter(entries[0], param), entries[1..])
  }

  lemma {:induction false} AndAtomsSteer(param: nat, entries: seq<Entry>, truth: set<Comparison>)
    requires Apart(param, entries) && truth * AtomsFrom(param, entries) == AndAtoms(param, entries)
    ensures Steered(param, entries, truth)
    decreases |entries|
  {
    hide EntryAtoms;
    if |entries| > 0 {
      var next := ParamAfter(entries[0], param);
      var own, later := EntryAtoms(entries[0], param), AtomsFrom(next, entries[1..]);
      assert truth * later == AndAtoms(next, entries[1..]);
      AndAtomsSteer(next, entries[1..], truth);
    }
  }

  // ---- a wrong text stays wrong ------------------------------------------

  /** What the text built so far says. */
  ghost predicate SaysSo(b: Builder, v: bool, truth: set<Comparison>) {
    |b.parts| > 0 && Reads(Flatten(b.parts), truth) && Value(Flatten(b.parts), truth) == v
  }

  lemma PushedText(b: Builder, op: Op, t: seq<Token>)
    requires |b.parts| > 0 && b.op.Some?
    ensures |Push(b, op, t).parts| > 0
    ensures var s := Flatten(b.parts);
      Flatten(Push(b, op, t).parts) == (if b.op == Some(op) then s else [Open] + s + [Close]) + [op.Sign()] + t
  {
    hide Flatten;
    FlattenMore(b.parts, [op.Sign()], t);
    var grouped := [Open] + Flatten(b.parts) + [Close];
    PushedAlone([], grouped);
    FlattenMore([grouped], [op.Sign()], t);
    assert [grouped] + [[op.Sign()], t] == [grouped, [op.Sign()], t];
  }

  lemma PushStaysTrue(b: Builder, op: Op, t: seq<Token>, truth: set<Comparison>)
    requires SaysSo(b, true, truth) && b.op.Some? && Reads(t, truth) && (op.AndOp? ==> Atoms(t) <= truth)
    ensures SaysSo(Push(b, op, t), true, truth)
  {
    hide Expr, Term, Flatten, Atoms;
    var s := Flatten(b.parts);
    InParentheses(s, truth);
    TightReads([Open] + s + [Close], truth);
    var front := if b.op == Some(op) then s else [Open] + s + [Close];
    PushedText(b, op, t);
    if op.AndOp? {
      AndReads(front, t, truth);
    } else {
      JoinedByOr(front, t, truth);
    }
  }

  lemma {:induction false} StaysWrong(b: Builder, entries: seq<Entry>, truth: set<Comparison>)
    requires AllRead(entries, truth) && Steered(b.param, entries, truth)
    requires b.op.Some? && SaysSo(b, true, truth)
    ensures SaysSo(Reduce(b, entries), true, truth)
    ensures Meaning(Some(false), b.param, entries, truth) == Some(false)
    decreases |entries|
  {
    hide Expr, SaysSo, Push, Reads, Value, Atoms;
    if |entries| > 0 {
      var e := entries[0];
      var t := ConditionText(e.condition, b.param);
      TextSays(e.condition, b.param, truth);
      var next := b.(param := ParamAfter(e, b.param));
      SameText(b, e.op, next.param, truth);
      if e.condition.Missing? {
        MissingSaysNothing(e.condition, b.param, truth);
      }
      if t.Some? {
        ReadAll(t.value, truth);
        PushStaysTrue(next, e.op, t.value, truth);
        PushSetsOp(next, e.op, t.value);
      }
      StaysWrong(Next(b, e), entries[1..], truth);
    }
  }

  lemma SameText(b: Builder, op: Op, param: nat, truth: set<Comparison>)
    requires SaysSo(b, true, truth)
    ensures SaysSo(b.(param := param), true, truth) && SaysSo(b.(op := Some(op)), true, truth)
  {
  }

  lemma ReadAll(t: seq<Token>, truth: set<Comparison>)
    requires Reads(t, truth)
    ensures Atoms(t) <= truth ==> Value(t, truth)
    ensures Atoms(t) !! truth ==> !Value(t, truth)
  {
    ExprAll(t, truth);
  }

  lemma PushSetsOp(b: Builder, op: Op, t: seq<Token>)
    ensures Push(b, op, t).op == Some(op) && Push(b, op, t).param == b.param
  {
  }

  /** An AND next to a bare OR: some truth makes the text true although one side is false. */
  lemma MisjoinedText(b: Builder, t: seq<Token>, truth: set<Comparison>)
    requires |b.parts| > 0 && b.op.Some? && Reads(Flatten(b.parts), truth) && Reads(t, truth)
    requires
      if b.op == Some(AndOp) && !Tight(Flatten(b.parts), truth)
      then Atoms(Flatten(b.parts)) <= truth && Atoms(t) !! truth
      else !Tight(t, truth) && Atoms(t) <= truth && Atoms(Flatten(b.parts)) !! truth
    ensures SaysSo(Push(b, AndOp, t), true, truth)
    ensures !(Value(Flatten(b.parts), truth) && Value(t, truth))
  {
    hide Expr, Flatten, Atoms;
    var s := Flatten(b.parts);
    InParentheses(s, truth);
    TightReads([Open] + s + [Close], truth);
    PushedText(b, AndOp, t);
    ReadAll(s, truth);
    ReadAll(t, truth);
    if b.op == Some(AndOp) && !Tight(s, truth) {
      FirstTermReads(s, truth);
      TermAll(s, truth);
    }
    AndReads(if b.op == Some(AndOp) then s else [Open] + s + [Close], t, truth);
  }

  lemma FirstTermReads(s: seq<Token>, truth: set<Comparison>)
    requires Reads(s, truth)
    ensures Term(s, truth).Reading?
  {
    hide Term;
  }

  // ---- exactly the safe entries are read as they were meant --------------

  lemma ShapesAgree(s: seq<Token>, truth: set<Comparison>)
    ensures Reads(s, truth) <==> Reads(s, {})
    ensures Tight(s, truth) <==> Tight(s, {})
  {
    hide Expr, Term;
    ExprAgrees(s, truth, {});
    TermAgrees(s, truth, {});
  }

  lemma {:induction false} SafeAgrees(b: Builder, entries: seq<Entry>, truth: set<Comparison>)
    ensures AllRead(entries, truth) <==> AllRead(entries, {})
    ensures Safe(b, entries, truth) <==> Safe(b, entries, {})
    decreases |entries|
  {
    hide Reads, Tight, Next, ConditionText, Flatten;
    forall s ensures (Reads(s, truth) <==> Reads(s, {})) && (Tight(s, truth) <==> Tight(s, {})) {
      ShapesAgree(s, truth);
    }
    if |entries| > 0 {
      SafeAgrees(Next(b, entries[0]), entries[1..], truth);
    }
  }

  ghost function Said(b: Builder, truth: set<Comparison>): Option<bool>
    requires |b.parts| > 0 ==> Reads(Flatten(b.parts), truth)
  {
    if |b.parts| == 0 then None else Some(Value(Flatten(b.parts), truth))
  }

  ghost predicate Readable(b: Builder) {
    |b.parts| > 0 ==> b.op.Some? && Reads(Flatten(b.parts), {})
  }

  /** The text does not say, under this truth, what the fold of the entries says. */
  ghost predicate Misread(b: Builder, entries: seq<Entry>, truth: set<Comparison>) {
    && AllRead(entries, truth)
    && (|b.parts| > 0 ==> Reads(Flatten(b.parts), truth))
    && !Means(Reduce(b, entries), Meaning(Said(b, truth), b.param, entries, truth), truth)
  }

  /** The atoms of a longer text come from the text and from the condition joined to it. */
  lemma PushedAtoms(b: Builder, op: Op, t: seq<Token>)
    requires if |b.parts| == 0 then b.op != Some(op) else b.op.Some?
    ensures Atoms(Flatten(Push(b, op, t).parts)) <= Atoms(Flatten(b.parts)) + Atoms(t)
    ensures Push(b, op, t).op.Some? && |Push(b, op, t).parts| > 0
  {
    hide Flatten;
    if |b.parts| == 0 {
      PushedAlone(b.parts, t);
    } else {
      PushedText(b, op, t);
    }
  }

  lemma SafeEntry(b: Builder, e: Entry)
    requires Readable(b) && (e.condition.Text? ==> Reads(e.condition.tokens, {}))
    requires ConditionText(e.condition, b.param).Some? ==>
      JoinsSafely(b, e.op, ConditionText(e.condition, b.param).value, {})
    ensures Readable(Next(b, e)) && Next(b, e).param == ParamAfter(e, b.param)
    ensures Atoms(Flatten(Next(b, e).parts)) <= Atoms(Flatten(b.parts)) + EntryAtoms(e, b.param)
  {
    hide Push, Reads, Value, Flatten, Atoms, Says, ConditionText, Tight;
    NextMeans(b, Said(b, {}), e, {});
    if e.condition.Missing? {
      MissingSaysNothing(e.condition, b.param, {});
    }
    if ConditionText(e.condition, b.param).Some? {
      PushedAtoms(b.(param := ParamAfter(e, b.param)), e.op, ConditionText(e.condition, b.param).value);
    }
  }

  lemma MisreadBefore(b: Builder, entries: seq<Entry>, truth: set<Comparison>)
    requires |entries| > 0 && Readable(b) && AllRead(entries, {})
    requires ConditionText(entries[0].condition, b.param).Some? ==>
      JoinsSafely(b, entries[0].op, ConditionText(entries[0].condition, b.param).value, {})
    requires Misread(Next(b, entries[0]), entries[1..], truth)
    ensures Misread(b, entries, truth)
  {
    hide Push, Reads, Tight, Value, Flatten, Says, ConditionText;
    var e := entries[0];
    ShapesAgree(Flatten(b.parts), truth);
    forall s ensures (Reads(s, truth) <==> Reads(s, {})) && (Tight(s, truth) <==> Tight(s, {})) {
      ShapesAgree(s, truth);
    }
    NextMeans(b, Said(b, truth), e, truth);
    assert Said(Next(b, e), truth) == Joined(Said(b, truth), e.op, Says(e.condition, b.param, truth));
  }

  // ---- a text that starts with an operator -------------------------------

  /** Parentheses, possibly none, and then an operator. */
  predicate Broken(s: seq<Token>) {
    s != [] && (s[0].And? || s[0].Or? || (s[0].Open? && Broken(s[1..])))
  }

  lemma {:induction false} BrokenIsBad(s: seq<Token>, truth: set<Comparison>)
    requires Broken(s)
    ensures Factor(s, truth).Bad? && Term(s, truth).Bad? && Expr(s, truth).Bad?
    decreases |s|
  {
    if s[0].Open? {
      BrokenIsBad(s[1..], truth);
    }
  }

  lemma {:induction false} BrokenGrows(s: seq<Token>, more: seq<Token>)
    requires Broken(s)
    ensures Broken(s + more) && Broken([Open] + s + more)
    decreases |s|
  {
    assert ([Open] + s + more)[1..] == s + more;
    if s[0].Open? {
      assert (s + more)[1..] == s[1..] + more;
      BrokenGrows(s[1..], more);
    }
  }

  lemma {:induction false} StaysBroken(b: Builder, entries: seq<Entry>)
    requires |b.parts| > 0 && b.op.Some? && Broken(Flatten(b.parts))
    ensures var r := Reduce(b, entries); |r.parts| > 0 && Broken(Flatten(r.parts))
    decreases |entries|
  {
    hide Push, Flatten, Broken, ConditionText;
    if |entries| > 0 {
      var e := entries[0];
      var t := ConditionText(e.condition, b.param);
      if t.Some? {
        var s, next := Flatten(b.parts), b.(param := ParamAfter(e, b.param));
        PushedText(next, e.op, t.value);
        PushSetsOp(next, e.op, t.value);
        BrokenGrows(s, [e.op.Sign()] + t.value);
        BrokenGrows(s, [Close] + [e.op.Sign()] + t.value);
        assert s + [e.op.Sign()] + t.value == s + ([e.op.Sign()] + t.value);
        assert [Open] + s + [Close] + [e.op.Sign()] + t.value == [Open] + s + ([Close] + [e.op.Sign()] + t.value);
      }
      StaysBroken(Next(b, e), entries[1..]);
    }
  }

  /** After a null condition and nothing else, the same operator starts the text. */
  lemma OperatorFirst(b: Builder, entries: seq<Entry>, truth: set<Comparison>)
    requires |entries| > 0 && |b.parts| == 0 && b.op == Some(entries[0].op) && AllRead(entries, truth)
    requires !entries[0].condition.Missing? && ConditionText(entries[0].condition, b.param).Some?
    ensures Misread(b, entries, truth)
  {
    hide Reads, ConditionText, Meaning;
    var e := entries[0];
    var t := ConditionText(e.condition, b.param).value;
    var next := Next(b, e);
    FlattenMore([], [e.op.Sign()], t);
    assert b.parts + [[e.op.Sign()], t] == [] + [[e.op.Sign()], t] == next.parts;
    assert Flatten(next.parts)[0] == e.op.Sign();
    StaysBroken(next, entries[1..]);
    NotRead(Flatten(Reduce(b, entries).parts), truth);
  }

  lemma NotRead(s: seq<Token>, truth: set<Comparison>)
    requires Broken(s)
    ensures !Reads(s, truth)
  {
    BrokenIsBad(s, truth);
  }

  /** The first unsafe entry: its own comparisons or those before it are true, later ones neutral. */
  lemma UnsafeEntry(b: Builder, entries: seq<Entry>) returns (truth: set<Comparison>)
    requires |entries| > 0 && AllRead(entries, {}) && Readable(b)
    requires Apart(b.param, entries) && Atoms(Flatten(b.parts)) !! AtomsFrom(b.param, entries)
    requires ConditionText(entries[0].condition, b.param).Some? &&
      !JoinsSafely(b, entries[0].op, ConditionText(entries[0].condition, b.param).value, {})
    ensures Misread(b, entries, truth)
  {
    hide Push, Reads, Tight, Value, Flatten, Atoms, ConditionText, Says;
    var e := entries[0];
    if e.condition.Missing? {
      MissingSaysNothing(e.condition, b.param, {});
    }
    if |b.parts| == 0 {
      truth := {};
      OperatorFirst(b, entries, truth);
      return;
    }
    var s, t := Flatten(b.parts), ConditionText(e.condition, b.param).value;
    var next := ParamAfter(e, b.param);
    var own := if b.op == Some(AndOp) && !Tight(s, {}) then Atoms(s) else Atoms(t);
    truth := own + AndAtoms(next, entries[1..]);
    ShapesAgree(s, truth);
    ShapesAgree(t, truth);
    SafeAgrees(b, entries, truth);
    TextSays(e.condition, b.param, truth);
    MisjoinedText(b.(param := next), t, truth);
    PushSetsOp(b.(param := next), e.op, t);
    assert truth * AtomsFrom(next, entries[1..]) == AndAtoms(next, entries[1..]);
    AndAtomsSteer(next, entries[1..], truth);
    StaysWrong(Next(b, e), entries[1..], truth);
  }

  lemma {:induction false} UnsafeIsMisread(b: Builder, entries: seq<Entry>) returns (truth: set<Comparison>)
    requires AllRead(entries, {}) && Readable(b) && !Safe(b, entries, {})
    requires Apart(b.param, entries) && Atoms(Flatten(b.parts)) !! AtomsFrom(b.param, entries)
    ensures Misread(b, entries, truth)
    decreases |entries|
  {
    hide Push, Means, Atoms, Reads, Tight, Value, Flatten, ConditionText;
    var e := entries[0];
    var t := ConditionText(e.condition, b.param);
    if t.Some? && !JoinsSafely(b, e.op, t.value, {}) {
      truth := UnsafeEntry(b, entries);
    } else {
      SafeEntry(b, e);
      truth := UnsafeIsMisread(Next(b, e), entries[1..]);
      MisreadBefore(b, entries, truth);
    }
  }

  /**
   * For entries that share no comparison: the text says what the left fold says, whatever is true, exactly when
   * no AND stands next to a bare OR and no operator in front of everything.
   */
  lemma MeansFoldIffSafe(entries: seq<Entry>, param: nat)
    requires AllRead(entries, {}) && Apart(param, entries)
    ensures var b := Builder(None, [], param);
      Safe(b, entries, {}) <==>
      forall truth :: AllRead(entries, truth) && Means(Reduce(b, entries), Meaning(None, param, entries, truth), truth)
  {
    hide Reduce, Meaning, Reads;
    var b := Builder(None, [], param);
    if Safe(b, entries, {}) {
      forall truth
        ensures AllRead(entries, truth) && Means(Reduce(b, entries), Meaning(None, param, entries, truth), truth)
      {
        SafeAgrees(b, entries, truth);
        TextMeansFold(b, None, entries, truth);
      }
    } else {
      var truth := UnsafeIsMisread(b, entries);
      assert !Means(Reduce(b, entries), Meaning(None, param, entries, truth), truth);
    }
  }

  /** `where(a).or(b)`, a null condition, `and(c)`. */
  function WithNull(a: Comparison, b: Comparison, c: Comparison): seq<Entry> {
    [Entry(AndOp, Text([Atom(a)])), Entry(OrOp, Text([Atom(b)])), Entry(AndOp, Missing), Entry(AndOp, Text([Atom(c)]))]
  }

  /** A null condition replaces the operator without closing the group: with only `a` true the text is true, the fold false. */
  lemma NullKeepsGroupOpen(a: Comparison, b: Comparison, c: Comparison)
    requires a != b && b != c && a != c
    ensures var r := Reduce(Builder(None, [], 0), WithNull(a, b, c)); SaysSo(r, true, {a})
    ensures AllRead(WithNull(a, b, c), {a}) && Meaning(None, 0, WithNull(a, b, c), {a}) == Some(false)
  {
    hide Flatten, Expr, Term;
    var entries := WithNull(a, b, c);
    OneReads(a, {a});
    OneReads(b, {a});
    OneReads(c, {a});
    var b1 := Next(Builder(None, [], 0), entries[0]);
    PushedAlone([], [Atom(a)]);
    var b2 := Next(b1, entries[1]);
    PushStaysTrue(b1, OrOp, [Atom(b)], {a});
    var b3 := Next(b2, entries[2]);
    var b4 := Next(b3, entries[3]);
    assert entries[1..][1..] == entries[2..] && entries[2..][1..] == entries[3..] && |entries[3..][1..]| == 0;
    assert Reduce(Builder(None, [], 0), entries) == Reduce(b2, entries[2..]) == Reduce(b4, entries[3..][1..]);
    var front := [Open] + [Atom(a)] + [Close];
    InParentheses([Atom(a)], {a});
    TightReads(front, {a});
    PushedText(b1, OrOp, [Atom(b)]);
    PushedText(b3, AndOp, [Atom(c)]);
    LooseLeft(front, [Atom(b)], [Atom(c)], {a});
    assert Meaning(None, 0, entries, {a}) == Meaning(Some(true), 0, entries[2..], {a});
    assert Meaning(Some(true), 0, entries[2..], {a}) == Meaning(Some(true), 0, entries[3..], {a});
    assert Says(entries[3].condition, 0, {a}) == Some(false) && entries[3..][0] == entries[3];
    assert Meaning(Some(true), 0, entries[3..], {a}) == Meaning(Some(false), 0, entries[3..][1..], {a});
  }

  lemma OneReads(c: Comparison, truth: set<Comparison>)
    ensures Tight([Atom(c)], truth) && Reads([Atom(c)], truth) && (Value([Atom(c)], truth) <==> c in truth)
  {
    assert [Atom(c)][1..] == [];
  }

  /** "s OR t AND u" is true when s is. */
  lemma LooseLeft(s: seq<Token>, t: seq<Token>, u: seq<Token>, truth: set<Comparison>)
    requires Tight(s, truth) && Tight(t, truth) && Tight(u, truth) && Value(s, truth)
    requires Reads(s, truth)
    ensures Reads(s + [Or] + t + [And] + u, truth) && Value(s + [Or] + t + [And] + u, truth)
  {
    hide Expr, Term;
    JoinedByAnd(t, u, truth);
    TightReads(t + [And] + u, truth);
    JoinedByOr(s, t + [And] + u, truth);
    assert s + [Or] + (t + [And] + u) == s + [Or] + t + [And] + u;
  }
}
