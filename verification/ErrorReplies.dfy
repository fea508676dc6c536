/** Replies that carry an error: what is read, where it lands, and what the operation is left with. */
module ErrorReplies {
  import opened Bytes
  import opened Values
  import opened ReadMachine
  import opened ReplyParser
  import opened Refinement

  /** One slot of a parse. */
  lemma NextSlot(slots: seq<Slot>, m: Fields, b: seq<Byte>, v: Value, n: nat)
    requires slots != [] && CanRead(slots[0].kind, b)
    requires ReadValue(slots[0].kind, b) == v && ReadSize(slots[0].kind, b) == n
    ensures ParseSlots(slots, m, b) == Advance(ParseSlots(slots[1..], m[slots[0].name := v], b[n..]), n)
  {
  }

  lemma SlotCases(slots: seq<Slot>, m: Fields, b: seq<Byte>)
    requires slots != []
    ensures ParseSlots(slots, m, b) ==
      if CanRead(slots[0].kind, b) then
        Advance(ParseSlots(slots[1..], m[slots[0].name := ReadValue(slots[0].kind, b)], b[ReadSize(slots[0].kind, b)..]),
                ReadSize(slots[0].kind, b))
      else Short
  {
    hide CanRead, ReadValue, ReadSize;
  }

  lemma NoSlots(m: Fields, b: seq<Byte>)
    ensures ParseSlots([], m, b) == Done(m, 0)
  {
  }

  /** Reading slots into fields that are already there only adds to them. */
  lemma {:induction false} SlotsMerge(slots: seq<Slot>, m: Fields, b: seq<Byte>)
    ensures var p, q := ParseSlots(slots, m, b), ParseSlots(slots, map[], b);
      p == if q.Done? then Done(m + q.value, q.used) else Short
    decreases |slots|
  {
    hide CanRead, ReadValue, ReadSize;
    if slots == [] {
      assert m + map[] == m;
    } else if CanRead(slots[0].kind, b) {
      var name, v, n := slots[0].name, ReadValue(slots[0].kind, b), ReadSize(slots[0].kind, b);
      var one: Fields := map[name := v];
      SlotsMerge(slots[1..], m[name := v], b[n..]);
      SlotsMerge(slots[1..], one, b[n..]);
      var q := ParseSlots(slots[1..], map[], b[n..]);
      if q.Done? {
        assert m[name := v] + q.value == m + (one + q.value);
      }
    }
  }

  lemma {:induction false} SlotsPresent(slots: seq<Slot>, m: Fields, b: seq<Byte>)
    ensures var p := ParseSlots(slots, m, b);
      p.Done? ==> m.Keys <= p.value.Keys && forall s :: s in slots ==> s.name in p.value
    decreases |slots|
  {
    hide CanRead, ReadValue, ReadSize;
    if slots != [] && CanRead(slots[0].kind, b) {
      SlotsPresent(slots[1..], m[slots[0].name := ReadValue(slots[0].kind, b)], b[ReadSize(slots[0].kind, b)..]);
    }
  }

  // ---- the tree below the status object ----------------------------------

  /** The status object `s` at `home`, its error `e`, and the error's list of previous exceptions. */
  function Tree(s: Fields, e: Fields, previous: seq<Value>): Value {
    Obj(s["error" := Obj(e["previous" := Arr(previous)])])
  }

  function ErrorRef(home: Ref): Ref {
    Below(home, Name("error"))
  }

  function PreviousRef(home: Ref, i: nat): Ref {
    Below(Below(ErrorRef(home), Name("previous")), Index(i))
  }

  lemma TreePlaces(roots: seq<Value>, home: Ref, s: Fields, e: Fields, previous: seq<Value>)
    requires Live(roots, home)
    ensures var t := Store(roots, home, Tree(s, e, previous));
      && Live(t, home) && Load(t, home) == Tree(s, e, previous)
      && Live(t, ErrorRef(home)) && Load(t, ErrorRef(home)) == Obj(e["previous" := Arr(previous)])
  {
    hide Load, Store, Live;
    StoreThenLoad(roots, home, Tree(s, e, previous), Undefined);
    StoreBelow(Store(roots, home, Tree(s, e, previous)), home, Name("error"), Undefined);
  }

  lemma TreeError(roots: seq<Value>, home: Ref, s: Fields, e: Fields, previous: seq<Value>, e2: Fields, previous2: seq<Value>)
    requires Live(roots, home)
    ensures var t := Store(roots, home, Tree(s, e, previous));
      Store(t, ErrorRef(home), Obj(e2["previous" := Arr(previous2)])) == Store(roots, home, Tree(s, e2, previous2))
  {
    hide Load, Store, Live;
    TreePlaces(roots, home, s, e, previous);
    var t := Store(roots, home, Tree(s, e, previous));
    var w := Obj(e2["previous" := Arr(previous2)]);
    StoreBelow(t, home, Name("error"), w);
    StoreThenLoad(roots, home, Tree(s, e, previous), Tree(s, e2, previous2));
    assert s["error" := Obj(e["previous" := Arr(previous)])]["error" := w] == s["error" := w];
  }

  lemma TreePrevious(roots: seq<Value>, home: Ref, s: Fields, e: Fields, previous: seq<Value>, i: nat, w: Value)
    requires Live(roots, home) && i < |previous|
    ensures var t := Store(roots, home, Tree(s, e, previous));
      && Live(t, PreviousRef(home, i)) && Load(t, PreviousRef(home, i)) == previous[i]
      && Store(t, PreviousRef(home, i), w) == Store(roots, home, Tree(s, e, previous[i := w]))
  {
    hide Load, Store, Live;
    TreePlaces(roots, home, s, e, previous);
    var t := Store(roots, home, Tree(s, e, previous));
    var list := Below(ErrorRef(home), Name("previous"));
    StoreBelow(t, ErrorRef(home), Name("previous"), Arr(previous[i := w]));
    StoreBelow(t, list, Index(i), w);
    var e1 := e["previous" := Arr(previous)];
    assert e1["previous" := Arr(previous[i := w])] == e["previous" := Arr(previous[i := w])];
    TreeError(roots, home, s, e, previous, e, previous[i := w]);
  }

  // ---- reading one exception ---------------------------------------------

  lemma {:induction false} SlotsAppend(slots: seq<Slot>, last: Slot, m: Fields, b: seq<Byte>)
    ensures ParseSlots(slots + [last], m, b) ==
      var p := ParseSlots(slots, m, b);
      if p.Done? then Advance(ParseSlots([last], p.value, b[p.used..]), p.used) else Short
    decreases |slots|
  {
    hide CanRead, ReadValue, ReadSize, ParseSlots;
    if slots == [] {
      NoSlots(m, b);
      assert slots + [last] == [last];
      assert b[0..] == b;
    } else {
      assert (slots + [last])[0] == slots[0] && (slots + [last])[1..] == slots[1..] + [last];
      SlotCases(slots, m, b);
      SlotCases(slots + [last], m, b);
      if CanRead(slots[0].kind, b) {
        var n := ReadSize(slots[0].kind, b);
        var m1 := m[slots[0].name := ReadValue(slots[0].kind, b)];
        SlotsAppend(slots[1..], last, m1, b[n..]);
        var q := ParseSlots(slots[1..], m1, b[n..]);
        if q.Done? {
          assert b[n..][q.used..] == b[n + q.used..];
        }
      }
    }
  }

  lemma SlotKeys(slots: seq<Slot>, m: Fields, b: seq<Byte>, name: string)
    requires name !in m && forall s :: s in slots ==> s.name != name
    ensures var p := ParseSlots(slots, m, b); p.Done? ==> name !in p.value
    decreases |slots|
  {
    hide CanRead, ReadValue, ReadSize;
    if slots != [] && CanRead(slots[0].kind, b) {
      SlotKeys(slots[1..], m[slots[0].name := ReadValue(slots[0].kind, b)], b[ReadSize(slots[0].kind, b)..], name);
    }
  }

  lemma LastRead(st: OpState, b: seq<Byte>, kind: Kind, name: string, after: After, rest: seq<ReadOp>)
    requires Ready(st) && st.readOps == [Read(kind, name, after)] + rest
    ensures !CanRead(kind, b) ==> Blocks(st, b)
    ensures CanRead(kind, b) ==>
      Reaches(st, b, AfterRead(Fill(st, rest, Context(st).fields[name := ReadValue(kind, b)]), name, after), ReadSize(kind, b))
  {
    hide Run, AfterRead, CanRead, ReadValue, ReadSize, Load, Store, Live, Weight;
    OneTurn(st, b);
    assert st.readOps[1..] == rest;
    if CanRead(kind, b) {
      SetFieldFills(st.(readOps := rest), name, ReadValue(kind, b));
    }
  }

  /** Plain reads and then one with a closure. */
  lemma SlotsThen(st: OpState, b: seq<Byte>, slots: seq<Slot>, last: Slot, after: After, rest: seq<ReadOp>)
    requires Ready(st) && st.readOps == SlotReads(slots) + ([Read(last.kind, last.name, after)] + rest)
    ensures var p := ParseSlots(slots + [last], map[], b);
      && (p.Short? ==> Blocks(st, b))
      && (p.Done? ==>
            Reaches(st, b, AfterRead(Fill(st, rest, Context(st).fields + p.value), last.name, after), p.used))
  {
    hide Run, CanRead, ReadValue, ReadSize, AfterRead, Load, Store, Live;
    var ops := [Read(last.kind, last.name, after)] + rest;
    RunSlots(st, b, slots, ops);
    SlotsAppend(slots, last, Context(st).fields, b);
    SlotsMerge(slots + [last], Context(st).fields, b);
    var p := ParseSlots(slots, Context(st).fields, b);
    if p.Done? {
      FillAgain(st, ops, p.value, ops, p.value);
      var s := Fill(st, ops, p.value);
      LastRead(s, b[p.used..], last.kind, last.name, after, rest);
      if CanRead(last.kind, b[p.used..]) {
        var v := ReadValue(last.kind, b[p.used..]);
        FillAgain(st, ops, p.value, rest, p.value[last.name := v]);
        assert [last][1..] == [];
        Onward(st, b, s, p.used, AfterRead(Fill(st, rest, p.value[last.name := v]), last.name, after), ReadSize(last.kind, b[p.used..]));
      } else {
        assert [last][0] == last;
      }
    }
  }

  /** Getting somewhere in two legs; a leg that blocks blocks the whole. */
  lemma Onward(s: OpState, b: seq<Byte>, t: OpState, n: nat, u: OpState, k: nat)
    requires Reaches(s, b, t, n)
    ensures Reaches(t, b[n..], u, k) ==> Reaches(s, b, u, n + k)
    ensures Blocks(t, b[n..]) ==> Blocks(s, b)
  {
    hide Run;
    if Reaches(t, b[n..], u, k) {
      TwoLegs(s, b, t, n, u, k);
    }
  }

  lemma RunException(st: OpState, b: seq<Byte>, error: Ref, rest: seq<ReadOp>)
    requires Ready(st) && st.readOps == ErrorItem(error) + rest
    ensures var p := ParseSlots(EXCEPTION_SLOTS, map[], b);
      && (p.Short? ==> Blocks(st, b))
      && (p.Done? ==>
            Reaches(st, b, AfterHasMore(Fill(st, rest, Context(st).fields + p.value), error, Obj(p.value).Field("hasMore").Truthy()), p.used))
  {
    hide Run, CanRead, ReadValue, ReadSize, Load, Store, Live, Weight, ParseSlots, AfterHasMore;
    var slots, last := [Slot(StringK, "type"), Slot(StringK, "message")], Slot(ByteK, "hasMore");
    assert EXCEPTION_SLOTS == slots + [last];
    assert slots[1..] == [Slot(StringK, "message")] && slots[1..][1..] == [];
    assert st.readOps == SlotReads(slots) + ([Read(ByteK, "hasMore", MoreErrors(error))] + rest);
    SlotsThen(st, b, slots, last, MoreErrors(error), rest);
    var p := ParseSlots(EXCEPTION_SLOTS, map[], b);
    if p.Done? {
      SlotsPresent(EXCEPTION_SLOTS, map[], b);
      assert last in EXCEPTION_SLOTS;
      var m := Context(st).fields + p.value;
      FillAgain(st, rest, m, rest, m);
    }
  }

  /** The stack trace goes to whatever is on top of the stack, which the queued `pop` then removes. */
  lemma RunTrace(st: OpState, b: seq<Byte>)
    requires Ready(st) && st.readOps == [Read(BytesK, "javaStackTrace", LastError)]
    ensures var p := ParseSlots([Slot(BytesK, "javaStackTrace")], map[], b);
      && (p.Short? ==> Blocks(st, b))
      && (p.Done? ==> Reaches(st, b, PopStack(Fill(st, [], Context(st).fields + p.value)), p.used))
  {
    hide Run, CanRead, ReadValue, ReadSize, Load, Store, Live, Weight;
    var last := Slot(BytesK, "javaStackTrace");
    assert [] + [last] == [last];
    assert st.readOps == SlotReads([]) + ([Read(last.kind, last.name, LastError)] + []);
    SlotsThen(st, b, [], last, LastError, []);
    var p := ParseSlots([last], map[], b);
    if p.Done? {
      var s := Fill(st, [], Context(st).fields + p.value);
      assert s.readOps + [Nop(Pop)] == [Nop(Pop)] + [];
      RunPop(Queue(s, [Nop(Pop)]), b[p.used..], []);
      Onward(st, b, Queue(s, [Nop(Pop)]), p.used, PopStack(s), 0);
    }
  }

  // ---- the chain, once it is read into its own objects -------------------

  /** The third and later exceptions fill the objects made for them; the trace joins the last. */
  function OwnObjects(c: Chain): seq<Value>
    requires |c.exceptions| > 0
    decreases |c.exceptions|
  {
    if |c.exceptions| == 1 then [Obj(c.exceptions[0] + c.trace)]
    else [Obj(c.exceptions[0])] + OwnObjects(Chain(c.exceptions[1..], c.trace))
  }

  /** The state while exception i + 1 is read into the last element of the list. */
  function OnPrevious(base: seq<Ref>, roots: seq<Value>, home: Ref, s: Fields, e: Fields, before: seq<Value>,
                      ops: seq<ReadOp>, r: Fields): OpState {
    OpState(Reading, ops, base + [PreviousRef(home, |before|)], Store(roots, home, Tree(s, e, before + [Obj(r)])))
  }

  lemma OnPreviousFills(base: seq<Ref>, roots: seq<Value>, home: Ref, s: Fields, e: Fields, before: seq<Value>,
                        ops: seq<ReadOp>, r: Fields, ops2: seq<ReadOp>, r2: Fields)
    requires Live(roots, home)
    ensures var st := OnPrevious(base, roots, home, s, e, before, ops, r);
      && Ready(st) && Context(st) == Obj(r)
      && Fill(st, ops2, r2) == OnPrevious(base, roots, home, s, e, before, ops2, r2)
      && PopStack(st) == OpState(Reading, ops, base, Store(roots, home, Tree(s, e, before + [Obj(r)])))
  {
    hide Load, Store, Live;
    TreePrevious(roots, home, s, e, before + [Obj(r)], |before|, Obj(r2));
    assert (before + [Obj(r)])[|before| := Obj(r2)] == before + [Obj(r2)];
    assert (base + [PreviousRef(home, |before|)])[..|base|] == base;
  }

  /** One more exception: an empty object joins the list and replaces the top of the stack. */
  lemma OneMore(st: OpState, roots: seq<Value>, home: Ref, s: Fields, e: Fields, previous: seq<Value>, below: seq<Ref>, r: Ref)
    requires Live(roots, home) && st.status == Reading
    requires st.roots == Store(roots, home, Tree(s, e, previous)) && st.stack == below + [r]
    ensures AfterHasMore(st, ErrorRef(home), true) ==
      OnPrevious(below, roots, home, s, e, previous, st.readOps + ErrorItem(ErrorRef(home)), map[])
  {
    hide Load, Store, Live;
    TreePlaces(roots, home, s, e, previous);
    var e1 := e["previous" := Arr(previous)];
    assert e1["previous" := Arr(previous + [Obj(map[])])] == e["previous" := Arr(previous + [Obj(map[])])];
    TreeError(roots, home, s, e, previous, e, previous + [Obj(map[])]);
    assert (below + [r])[..|below|] == below;
  }

  lemma {:induction false} RunChain(base: seq<Ref>, roots: seq<Value>, home: Ref, s: Fields, e: Fields, before: seq<Value>,
                                    b: seq<Byte>)
    requires Live(roots, home)
    ensures var st := OnPrevious(base, roots, home, s, e, before, ErrorItem(ErrorRef(home)), map[]);
      var p := ParseChain(b);
      && (p.Short? ==> Blocks(st, b))
      && (p.Done? ==>
            Reaches(st, b, OpState(Reading, [], base, Store(roots, home, Tree(s, e, before + OwnObjects(p.value)))), p.used))
    decreases |b|
  {
    hide Run, Load, Store, Live, AfterHasMore, Weight, ParseSlots, ParseChain;
    var error := ErrorRef(home);
    var st := OnPrevious(base, roots, home, s, e, before, ErrorItem(error), map[]);
    var p := ParseSlots(EXCEPTION_SLOTS, map[], b);
    ChainCases(b);
    assert st.readOps == ErrorItem(error) + [];
    OnPreviousFills(base, roots, home, s, e, before, ErrorItem(error), map[], [], if p.Done? then p.value else map[]);
    RunException(st, b, error, []);
    if p.Done? {
      assert map[] + p.value == p.value;
      var n, rest := p.used, b[p.used..];
      var filled := OnPrevious(base, roots, home, s, e, before, [], p.value);
      OnPreviousFills(base, roots, home, s, e, before, [], p.value, [], p.value);
      var now := before + [Obj(p.value)];
      if Obj(p.value).Field("hasMore").Truthy() {
        OneMore(filled, roots, home, s, e, now, base, PreviousRef(home, |before|));
        assert [] + ErrorItem(error) == ErrorItem(error);
        RunChain(base, roots, home, s, e, now, rest);
        var q := ParseChain(rest);
        if q.Done? {
          var c := Chain([p.value] + q.value.exceptions, q.value.trace);
          assert c.exceptions[1..] == q.value.exceptions;
          assert before + OwnObjects(c) == now + OwnObjects(q.value);
        }
        Onward(st, b, OnPrevious(base, roots, home, s, e, now, ErrorItem(error), map[]), n,
          OpState(Reading, [], base, Store(roots, home, Tree(s, e, if q.Done? then now + OwnObjects(q.value) else []))),
          if q.Done? then q.used else 0);
      } else {
        EndChain(st, base, roots, home, s, e, before, b, n, p.value);
      }
    }
  }

  lemma EndChain(st: OpState, base: seq<Ref>, roots: seq<Value>, home: Ref, s: Fields, e: Fields, before: seq<Value>,
                 b: seq<Byte>, n: nat, r: Fields)
    requires Live(roots, home) && n <= |b|
    requires Reaches(st, b, AfterHasMore(OnPrevious(base, roots, home, s, e, before, [], r), ErrorRef(home), false), n)
    ensures var p := ParseSlots([Slot(BytesK, "javaStackTrace")], map[], b[n..]);
      && (p.Short? ==> Blocks(st, b))
      && (p.Done? ==>
            Reaches(st, b, OpState(Reading, [], base, Store(roots, home, Tree(s, e, before + [Obj(r + p.value)]))), n + p.used))
  {
    hide Run, Load, Store, Live, Weight, ParseSlots;
    var trace := [Read(BytesK, "javaStackTrace", LastError)];
    var t := OnPrevious(base, roots, home, s, e, before, trace, r);
    assert [] + trace == trace;
    var p := ParseSlots([Slot(BytesK, "javaStackTrace")], map[], b[n..]);
    OnPreviousFills(base, roots, home, s, e, before, trace, r, [], if p.Done? then r + p.value else r);
    RunTrace(t, b[n..]);
    if p.Done? {
      OnPreviousFills(base, roots, home, s, e, before, [], r + p.value, [], r);
    }
    Onward(st, b, t, n, OpState(Reading, [], base, Store(roots, home, Tree(s, e, before + [Obj(if p.Done? then r + p.value else r)]))),
      if p.Done? then p.used else 0);
  }

  // ---- the second exception: the queued `pop` has already uncovered the status object

  function OnStatus(base: seq<Ref>, roots: seq<Value>, home: Ref, s: Fields, e: Fields, previous: seq<Value>,
                    ops: seq<ReadOp>): OpState {
    OpState(Reading, ops, base + [home], Store(roots, home, Tree(s, e, previous)))
  }

  lemma OnStatusFills(base: seq<Ref>, roots: seq<Value>, home: Ref, s: Fields, e: Fields, previous: seq<Value>,
                      ops: seq<ReadOp>, ops2: seq<ReadOp>, x: Fields)
    requires Live(roots, home) && "error" !in x
    ensures var st := OnStatus(base, roots, home, s, e, previous, ops);
      && Ready(st)
      && Fill(st, ops2, Context(st).fields + x) == OnStatus(base, roots, home, s + x, e, previous, ops2)
      && PopStack(st) == OpState(Reading, ops, base, Store(roots, home, Tree(s, e, previous)))
  {
    hide Load, Store, Live;
    TreePlaces(roots, home, s, e, previous);
    var error := Obj(e["previous" := Arr(previous)]);
    assert s["error" := error] + x == (s + x)["error" := error];
    StoreThenLoad(roots, home, Tree(s, e, previous), Tree(s + x, e, previous));
    assert (base + [home])[..|base|] == base;
  }

  /** Where the chain behind the first exception ends up. */
  function Landed(s: Fields, e: Fields, c: Chain): Value
    requires |c.exceptions| > 0
  {
    if |c.exceptions| == 1 then Tree(s + c.exceptions[0] + c.trace, e, [Obj(map[])])
    else Tree(s + c.exceptions[0], e, [Obj(map[])] + OwnObjects(Chain(c.exceptions[1..], c.trace)))
  }

  lemma TraceOnStatus(base: seq<Ref>, roots: seq<Value>, home: Ref, s: Fields, e: Fields, previous: seq<Value>, b: seq<Byte>)
    requires Live(roots, home)
    ensures var st := OnStatus(base, roots, home, s, e, previous, [Read(BytesK, "javaStackTrace", LastError)]);
      var p := ParseSlots([Slot(BytesK, "javaStackTrace")], map[], b);
      && (p.Short? ==> Blocks(st, b))
      && (p.Done? ==> Reaches(st, b, OpState(Reading, [], base, Store(roots, home, Tree(s + p.value, e, previous))), p.used))
  {
    hide Run, Load, Store, Live, ParseSlots;
    var slots := [Slot(BytesK, "javaStackTrace")];
    var ops := [Read(BytesK, "javaStackTrace", LastError)];
    var p := ParseSlots(slots, map[], b);
    SlotKeys(slots, map[], b, "error");
    OnStatusFills(base, roots, home, s, e, previous, ops, [], if p.Done? then p.value else map[]);
    RunTrace(OnStatus(base, roots, home, s, e, previous, ops), b);
    if p.Done? {
      OnStatusFills(base, roots, home, s + p.value, e, previous, [], [], map[]);
    }
  }

  lemma RunSecond(base: seq<Ref>, roots: seq<Value>, home: Ref, s: Fields, e: Fields, b: seq<Byte>)
    requires Live(roots, home)
    ensures var st := OnStatus(base, roots, home, s, e, [Obj(map[])], ErrorItem(ErrorRef(home)));
      var p := ParseChain(b);
      && (p.Short? ==> Blocks(st, b))
      && (p.Done? ==> Reaches(st, b, OpState(Reading, [], base, Store(roots, home, Landed(s, e, p.value))), p.used))
  {
    hide Run, Load, Store, Live, AfterHasMore, Weight, ParseSlots, ParseChain, OwnObjects;
    var error, previous := ErrorRef(home), [Obj(map[])];
    var st := OnStatus(base, roots, home, s, e, previous, ErrorItem(error));
    var p := ParseSlots(EXCEPTION_SLOTS, map[], b);
    ChainCases(b);
    ExceptionKeys(b);
    assert st.readOps == ErrorItem(error) + [];
    OnStatusFills(base, roots, home, s, e, previous, ErrorItem(error), [], if p.Done? then p.value else map[]);
    RunException(st, b, error, []);
    if p.Done? {
      if Obj(p.value).Field("hasMore").Truthy() {
        SecondOfMany(st, base, roots, home, s + p.value, e, b, p.used);
        var q := ParseChain(b[p.used..]);
        if q.Done? {
          assert ([p.value] + q.value.exceptions)[1..] == q.value.exceptions;
        }
      } else {
        SecondAndLast(st, base, roots, home, s + p.value, e, b, p.used);
      }
    }
  }

  lemma SecondOfMany(st: OpState, base: seq<Ref>, roots: seq<Value>, home: Ref, s: Fields, e: Fields, b: seq<Byte>, n: nat)
    requires Live(roots, home) && n <= |b|
    requires Reaches(st, b, AfterHasMore(OnStatus(base, roots, home, s, e, [Obj(map[])], []), ErrorRef(home), true), n)
    ensures var p := ParseChain(b[n..]);
      && (p.Short? ==> Blocks(st, b))
      && (p.Done? ==>
            Reaches(st, b, OpState(Reading, [], base, Store(roots, home, Tree(s, e, [Obj(map[])] + OwnObjects(p.value)))), n + p.used))
  {
    hide Run, Load, Store, Live, AfterHasMore, Weight, ParseChain, OwnObjects;
    var error, previous := ErrorRef(home), [Obj(map[])];
    OneMore(OnStatus(base, roots, home, s, e, previous, []), roots, home, s, e, previous, base, home);
    assert [] + ErrorItem(error) == ErrorItem(error);
    RunChain(base, roots, home, s, e, previous, b[n..]);
    var q := ParseChain(b[n..]);
    Onward(st, b, OnPrevious(base, roots, home, s, e, previous, ErrorItem(error), map[]), n,
      OpState(Reading, [], base, Store(roots, home, Tree(s, e, if q.Done? then previous + OwnObjects(q.value) else []))),
      if q.Done? then q.used else 0);
  }

  lemma SecondAndLast(st: OpState, base: seq<Ref>, roots: seq<Value>, home: Ref, s: Fields, e: Fields, b: seq<Byte>, n: nat)
    requires Live(roots, home) && n <= |b|
    requires Reaches(st, b, AfterHasMore(OnStatus(base, roots, home, s, e, [Obj(map[])], []), ErrorRef(home), false), n)
    ensures var p := ParseSlots([Slot(BytesK, "javaStackTrace")], map[], b[n..]);
      && (p.Short? ==> Blocks(st, b))
      && (p.Done? ==>
            Reaches(st, b, OpState(Reading, [], base, Store(roots, home, Tree(s + p.value, e, [Obj(map[])]))), n + p.used))
  {
    hide Run, Load, Store, Live, AfterHasMore, Weight, ParseSlots;
    var trace := [Read(BytesK, "javaStackTrace", LastError)];
    LastOne(OnStatus(base, roots, home, s, e, [Obj(map[])], []), ErrorRef(home));
    assert [] + trace == trace;
    TraceOnStatus(base, roots, home, s, e, [Obj(map[])], b[n..]);
    var q := ParseSlots([Slot(BytesK, "javaStackTrace")], map[], b[n..]);
    Onward(st, b, OnStatus(base, roots, home, s, e, [Obj(map[])], trace), n,
      OpState(Reading, [], base, Store(roots, home, Tree(if q.Done? then s + q.value else s, e, [Obj(map[])]))),
      if q.Done? then q.used else 0);
  }

  lemma LastOne(st: OpState, error: Ref)
    ensures AfterHasMore(st, error, false) == st.(readOps := st.readOps + [Read(BytesK, "javaStackTrace", LastError)])
  {}

  // ---- the error frame ---------------------------------------------------

  function OnError(base: seq<Ref>, roots: seq<Value>, home: Ref, s: Fields, e: Fields, ops: seq<ReadOp>): OpState {
    OpState(Reading, ops, base + [home] + [ErrorRef(home)], Store(roots, home, Tree(s, e, [])))
  }

  lemma OnErrorFills(base: seq<Ref>, roots: seq<Value>, home: Ref, s: Fields, e: Fields, ops: seq<ReadOp>,
                     ops2: seq<ReadOp>, x: Fields)
    requires Live(roots, home) && "previous" !in x
    ensures var st := OnError(base, roots, home, s, e, ops);
      && Ready(st)
      && Fill(st, ops2, Context(st).fields + x) == OnError(base, roots, home, s, e + x, ops2)
      && PopStack(st) == OnStatus(base, roots, home, s, e, [], ops)
  {
    hide Load, Store, Live;
    TreePlaces(roots, home, s, e, []);
    assert e["previous" := Arr([])] + x == (e + x)["previous" := Arr([])];
    TreeError(roots, home, s, e, [], e + x, []);
    assert (base + [home] + [ErrorRef(home)])[..|base| + 1] == base + [home];
  }

  lemma RunErrorStart(base: seq<Ref>, roots: seq<Value>, home: Ref, s: Fields, b: seq<Byte>)
    requires Live(roots, home) && Load(roots, home) == Obj(s)
    ensures var error := ErrorRef(home);
      Reaches(OpState(Reading, [ReadError("error")], base + [home], roots), b,
        OnError(base, roots, home, s, map[], SlotReads(ERROR_SLOTS) + (ErrorItem(error) + [Nop(Pop)])), 0)
  {
    var st := OpState(Reading, [ReadError("error")], base + [home], roots);
    OneTurn(st, b);
    assert st.readOps[1..] == [];
    SetFieldFills(st.(readOps := []), "error", Obj(map["previous" := Arr([])]));
    var none: Fields := map[];
    assert none["previous" := Arr([])] == map["previous" := Arr([])];
    ErrorReads();
    assert [Read(IntK, "code", Plain), Read(IntK, "identifier", Plain), Read(ByteK, "id", Plain)] +
      ErrorItem(ErrorRef(home)) + [Nop(Pop)] == SlotReads(ERROR_SLOTS) + (ErrorItem(ErrorRef(home)) + [Nop(Pop)]);
  }

  lemma ErrorReads()
    ensures SlotReads(ERROR_SLOTS) ==
      [Read(IntK, "code", Plain), Read(IntK, "identifier", Plain), Read(ByteK, "id", Plain)]
  {
    assert ERROR_SLOTS[1..] == [Slot(IntK, "identifier"), Slot(ByteK, "id")];
    assert ERROR_SLOTS[1..][1..] == [Slot(ByteK, "id")];
    assert ERROR_SLOTS[1..][1..][1..] == [];
    assert SlotReads(ERROR_SLOTS[1..][1..]) == [Read(ByteK, "id", Plain)];
  }

  /** One unfolding of ParseChain. */
  lemma ChainCases(b: seq<Byte>)
    ensures var p := ParseSlots(EXCEPTION_SLOTS, map[], b);
      && (p.Short? ==> ParseChain(b).Short?)
      && (p.Done? && Obj(p.value).Field("hasMore").Truthy() ==>
            var q := ParseChain(b[p.used..]);
            ParseChain(b) == if q.Done? then Done(Chain([p.value] + q.value.exceptions, q.value.trace), p.used + q.used) else Short)
      && (p.Done? && !Obj(p.value).Field("hasMore").Truthy() ==>
            var q := ParseSlots([Slot(BytesK, "javaStackTrace")], map[], b[p.used..]);
            ParseChain(b) == if q.Done? then Done(Chain([p.value], q.value), p.used + q.used) else Short)
  {
    hide CanRead, ReadValue, ReadSize, ParseSlots;
  }

  lemma ExceptionKeys(b: seq<Byte>)
    ensures var p := ParseSlots(EXCEPTION_SLOTS, map[], b); p.Done? ==> "error" !in p.value && "previous" !in p.value
  {
    SlotKeys(EXCEPTION_SLOTS, map[], b, "error");
    SlotKeys(EXCEPTION_SLOTS, map[], b, "previous");
  }

  /** The status object once the error frame is read. */
  function RefusedStatus(s: Fields, r: Refusal): Value
    requires |r.chain.exceptions| > 0
  {
    var x := r.chain.exceptions;
    if |x| == 1 then Tree(s + r.chain.trace, r.head + x[0], [])
    else Landed(s, r.head + x[0], Chain(x[1..], r.chain.trace))
  }

  lemma RunFirst(base: seq<Ref>, roots: seq<Value>, home: Ref, s: Fields, head: Fields, b: seq<Byte>)
    requires Live(roots, home)
    ensures var st := OnError(base, roots, home, s, head, ErrorItem(ErrorRef(home)) + [Nop(Pop)]);
      var p := ParseChain(b);
      && (p.Short? ==> Blocks(st, b))
      && (p.Done? ==>
            Reaches(st, b, OpState(Reading, [], base, Store(roots, home, RefusedStatus(s, Refusal(head, p.value)))), p.used))
  {
    hide Run, Load, Store, Live, AfterHasMore, Weight, ParseSlots, ParseChain, Landed;
    var error := ErrorRef(home);
    var st := OnError(base, roots, home, s, head, ErrorItem(error) + [Nop(Pop)]);
    var p := ParseSlots(EXCEPTION_SLOTS, map[], b);
    ChainCases(b);
    ExceptionKeys(b);
    OnErrorFills(base, roots, home, s, head, st.readOps, [Nop(Pop)], if p.Done? then p.value else map[]);
    RunException(st, b, error, [Nop(Pop)]);
    if p.Done? {
      var rest, x := b[p.used..], p.value;
      if Obj(x).Field("hasMore").Truthy() {
        FirstOfMany(st, base, roots, home, s, head + x, b, p.used);
        var q := ParseChain(rest);
        if q.Done? {
          assert ([x] + q.value.exceptions)[1..] == q.value.exceptions;
        }
      } else {
        OnlyOne(st, base, roots, home, s, head + x, b, p.used);
      }
    }
  }

  lemma FirstOfMany(st: OpState, base: seq<Ref>, roots: seq<Value>, home: Ref, s: Fields, e: Fields, b: seq<Byte>, n: nat)
    requires Live(roots, home) && n <= |b|
    requires Reaches(st, b, AfterHasMore(OnError(base, roots, home, s, e, [Nop(Pop)]), ErrorRef(home), true), n)
    ensures var p := ParseChain(b[n..]);
      && (p.Short? ==> Blocks(st, b))
      && (p.Done? ==> Reaches(st, b, OpState(Reading, [], base, Store(roots, home, Landed(s, e, p.value))), n + p.used))
  {
    hide Run, Load, Store, Live, AfterHasMore, Weight, ParseChain;
    var error := ErrorRef(home);
    OneMore(OnError(base, roots, home, s, e, [Nop(Pop)]), roots, home, s, e, [], base + [home], error);
    var more := OnPrevious(base + [home], roots, home, s, e, [], [Nop(Pop)] + ErrorItem(error), map[]);
    var next := OnStatus(base, roots, home, s, e, [Obj(map[])], ErrorItem(error));
    OnPreviousFills(base + [home], roots, home, s, e, [], ErrorItem(error), map[], [], map[]);
    RunPop(more, b[n..], ErrorItem(error));
    assert [] + [Obj(map[])] == [Obj(map[])];
    assert PopStack(more.(readOps := ErrorItem(error))) == next;
    TwoLegs(st, b, more, n, next, 0);
    RunSecond(base, roots, home, s, e, b[n..]);
    var p := ParseChain(b[n..]);
    Onward(st, b, next, n, OpState(Reading, [], base, Store(roots, home, if p.Done? then Landed(s, e, p.value) else Null)),
      if p.Done? then p.used else 0);
  }

  lemma OnlyOne(st: OpState, base: seq<Ref>, roots: seq<Value>, home: Ref, s: Fields, e: Fields, b: seq<Byte>, n: nat)
    requires Live(roots, home) && n <= |b|
    requires Reaches(st, b, AfterHasMore(OnError(base, roots, home, s, e, [Nop(Pop)]), ErrorRef(home), false), n)
    ensures var p := ParseSlots([Slot(BytesK, "javaStackTrace")], map[], b[n..]);
      && (p.Short? ==> Blocks(st, b))
      && (p.Done? ==> Reaches(st, b, OpState(Reading, [], base, Store(roots, home, Tree(s + p.value, e, []))), n + p.used))
  {
    hide Run, Load, Store, Live, AfterHasMore, Weight, ParseSlots;
    var trace := [Read(BytesK, "javaStackTrace", LastError)];
    var one := OnError(base, roots, home, s, e, [Nop(Pop)] + trace);
    LastOne(OnError(base, roots, home, s, e, [Nop(Pop)]), ErrorRef(home));
    var next := OnStatus(base, roots, home, s, e, [], trace);
    OnErrorFills(base, roots, home, s, e, trace, [], map[]);
    RunPop(one, b[n..], trace);
    TwoLegs(st, b, one, n, next, 0);
    TraceOnStatus(base, roots, home, s, e, [], b[n..]);
    var p := ParseSlots([Slot(BytesK, "javaStackTrace")], map[], b[n..]);
    Onward(st, b, next, n, OpState(Reading, [], base, Store(roots, home, Tree(if p.Done? then s + p.value else s, e, []))),
      if p.Done? then p.used else 0);
  }

  /**
   * A refusal, whatever was queued and however long the chain: the loop takes exactly the error frame,
   * has no read left, and the stack is what it was below the status object.
   */
  lemma RunRefusal(base: seq<Ref>, roots: seq<Value>, home: Ref, s: Fields, b: seq<Byte>)
    requires Live(roots, home) && Load(roots, home) == Obj(s)
    ensures var st := OpState(Reading, [ReadError("error")], base + [home], roots);
      var p := ParseRefusal(b);
      && (p.Short? ==> Blocks(st, b))
      && (p.Done? ==> Reaches(st, b, OpState(Reading, [], base, Store(roots, home, RefusedStatus(s, p.value))), p.used))
  {
    hide Run, Load, Store, Live, Weight, ParseSlots, ParseChain;
    var st := OpState(Reading, [ReadError("error")], base + [home], roots);
    var later := ErrorItem(ErrorRef(home)) + [Nop(Pop)];
    var st1 := OnError(base, roots, home, s, map[], SlotReads(ERROR_SLOTS) + later);
    RunErrorStart(base, roots, home, s, b);
    assert b[0..] == b;
    OnErrorFills(base, roots, home, s, map[], SlotReads(ERROR_SLOTS) + later, later, map[]);
    RunSlots(st1, b, ERROR_SLOTS, later);
    SlotsMerge(ERROR_SLOTS, Context(st1).fields, b);
    SlotKeys(ERROR_SLOTS, map[], b, "previous");
    var h := ParseSlots(ERROR_SLOTS, map[], b);
    Onward(st, b, st1, 0, st1, 0);
    if h.Done? {
      OnErrorFills(base, roots, home, s, map[], SlotReads(ERROR_SLOTS) + later, later, h.value);
      assert map[] + h.value == h.value;
      var st2 := OnError(base, roots, home, s, h.value, later);
      TwoLegs(st, b, st1, 0, st2, h.used);
      RunFirst(base, roots, home, s, h.value, b[h.used..]);
      var p := ParseChain(b[h.used..]);
      Onward(st, b, st2, h.used,
        OpState(Reading, [], base, Store(roots, home, if p.Done? then RefusedStatus(s, Refusal(h.value, p.value)) else Null)),
        if p.Done? then p.used else 0);
    }
  }
}
