/** Safe entries told from the entries alone: one scan with the operator in force and whether an OR stands bare. */
module WhereScan {
  import opened Options
  import opened WhereClause
  import opened WhereExactly

  // ---- a bare OR, token by token -----------------------------------------

  /** An OR outside all parentheses, `depth` of which are open. */
  predicate BareOr(s: seq<Token>, depth: nat) {
    s != [] &&
    match s[0]
    case Or => depth == 0 || BareOr(s[1..], depth)
    case Open => BareOr(s[1..], depth + 1)
    case Close => BareOr(s[1..], if depth > 0 then depth - 1 else 0)
    case _ => BareOr(s[1..], depth)
  }

  lemma {:induction false} FactorSkips(s: seq<Token>, depth: nat)
    requires Factor(s, {}).Reading?
    ensures BareOr(s, depth) <==> BareOr(Factor(s, {}).rest, depth)
    decreases |s|, 0
  {
    if s[0].Open? {
      ExprSkips(s[1..], depth + 1);
    }
  }

  lemma {:induction false} TermSkips(s: seq<Token>, depth: nat)
    requires Term(s, {}).Reading?
    ensures BareOr(s, depth) <==> BareOr(Term(s, {}).rest, depth)
    decreases |s|, 1
  {
    hide Factor;
    var first := Factor(s, {});
    FactorSkips(s, depth);
    if first.rest != [] && first.rest[0].And? {
      TermSkips(first.rest[1..], depth);
    }
  }

  lemma {:induction false} ExprSkips(s: seq<Token>, depth: nat)
    requires Expr(s, {}).Reading? && depth > 0
    ensures BareOr(s, depth) <==> BareOr(Expr(s, {}).rest, depth)
    decreases |s|, 2
  {
    hide Term;
    var first := Term(s, {});
    TermSkips(s, depth);
    if first.rest != [] && first.rest[0].Or? {
      ExprSkips(first.rest[1..], depth);
    }
  }

  /** A text that reads is one term exactly when it has no bare OR. */
  lemma TightIff(s: seq<Token>)
    requires Reads(s, {})
    ensures Tight(s, {}) <==> !BareOr(s, 0)
  {
    hide Term;
    TermSkips(s, 0);
  }

  // ---- the scan ----------------------------------------------------------

  predicate SaysNothing(c: Condition) {
    c.Missing? || (c.Fields? && c.fields == [])
  }

  predicate HasBareOr(c: Condition) {
    c.Text? && BareOr(c.tokens, 0)
  }

  /**
   * No AND next to a bare OR, no operator in front of everything. `op` is the operator in force, `empty` says that
   * nothing is joined yet, `bare` that what is joined has an OR outside parentheses.
   */
  predicate SafeEntries(op: Option<Op>, empty: bool, bare: bool, entries: seq<Entry>)
    decreases |entries|
  {
    |entries| == 0 || (
      var Entry(own, c) := entries[0];
      if SaysNothing(c) then SafeEntries(if c.Missing? then Some(own) else op, empty, bare, entries[1..])
      else if empty then op != Some(own) && SafeEntries(Some(own), false, HasBareOr(c), entries[1..])
      else
        && (own.AndOp? ==> !HasBareOr(c) && (op == Some(AndOp) ==> !bare))
        && SafeEntries(Some(own), false, own.OrOp?, entries[1..]))
  }

  /** Texts joined by OR have a bare OR. */
  lemma OrIsLoose(s: seq<Token>, t: seq<Token>)
    requires Reads(s, {}) && Reads(t, {})
    ensures !Tight(s + [Or] + t, {})
  {
    hide Term;
    FirstTermReads(s, {});
    assert s + [Or] + t == s + ([Or] + t);
    TermExtends(s, [Or] + t, {});
  }

  /** Whether the longer text has a bare OR. */
  lemma PushedTight(b: Builder, op: Op, t: seq<Token>)
    requires Readable(b) && Reads(t, {}) && JoinsSafely(b, op, t, {})
    ensures |Push(b, op, t).parts| > 0 && Push(b, op, t).op == Some(op)
    ensures Tight(Flatten(Push(b, op, t).parts), {}) <==> if |b.parts| == 0 then Tight(t, {}) else op.AndOp?
  {
    hide Expr, Term, Flatten, Tight, Reads;
    if |b.parts| == 0 {
      PushedAlone(b.parts, t);
    } else {
      var s := Flatten(b.parts);
      var grouped := [Open] + s + [Close];
      PushedText(b, op, t);
      InParentheses(s, {});
      TightReads(grouped, {});
      var front := if b.op == Some(op) then s else grouped;
      if op.AndOp? {
        JoinedByAnd(front, t, {});
      } else {
        OrIsLoose(front, t);
      }
    }
  }

  lemma ConditionReads(c: Condition, param: nat)
    requires c.Text? ==> Reads(c.tokens, {})
    ensures var t := ConditionText(c, param);
      && (t.None? <==> SaysNothing(c))
      && (t.Some? ==> Reads(t.value, {}) && (Tight(t.value, {}) <==> !HasBareOr(c)))
  {
    hide Expr, Term;
    if c.Text? {
      TightIff(c.tokens);
    }
    if c.Fields? && c.fields != [] {
      ObjectMeans(Comparisons(c.fields, c.sign, param), {});
      TightReads(ConditionText(c, param).value, {});
    }
  }

  ghost predicate Loose(b: Builder) {
    |b.parts| > 0 && !Tight(Flatten(b.parts), {})
  }

  /** The scan of the entries decides what the builder's text decides. */
  lemma {:induction false} SafeIffScan(b: Builder, entries: seq<Entry>)
    requires Readable(b) && AllRead(entries, {}) && (b.op.None? ==> |b.parts| == 0)
    ensures Safe(b, entries, {}) <==> SafeEntries(b.op, |b.parts| == 0, Loose(b), entries)
    decreases |entries|
  {
    hide Push, Reads, Tight, Flatten, ConditionText, HasBareOr, Expr, Term;
    if |entries| > 0 {
      var e := entries[0];
      var t := ConditionText(e.condition, b.param);
      ConditionReads(e.condition, b.param);
      if t.None? || JoinsSafely(b, e.op, t.value, {}) {
        SafeEntry(b, e);
        if t.Some? {
          var next := b.(param := ParamAfter(e, b.param));
          PushedTight(next, e.op, t.value);
        }
        SafeIffScan(Next(b, e), entries[1..]);
      }
    }
  }

  /**
   * For entries that share no comparison: the text says what the left fold says, whatever is true, exactly when the
   * scan of the entries finds no AND next to a bare OR and no operator in front of everything.
   */
  lemma MeansFoldIff(entries: seq<Entry>, param: nat)
    requires AllRead(entries, {}) && Apart(param, entries)
    ensures SafeEntries(None, true, false, entries) <==>
      forall truth :: AllRead(entries, truth) &&
        Means(Reduce(Builder(None, [], param), entries), Meaning(None, param, entries, truth), truth)
  {
    hide Reduce, Meaning, Reads, Safe, SafeEntries, Means;
    SafeIffScan(Builder(None, [], param), entries);
    MeansFoldIffSafe(entries, param);
  }
}
