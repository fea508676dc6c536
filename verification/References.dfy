/** Replacing record identifiers by the records themselves: trees of objects become a graph, in place. */
module References {
  import opened Options
  import opened CreatedRecords

  /** A JavaScript object; `rid` is its "@rid" and does not change here. */
  class Thing {
    const rid: Option<Rid>
    var fields: seq<Field>

    constructor (rid: Option<Rid>, fields: seq<Field>)
      ensures this.rid == rid && this.fields == fields
    {
      this.rid, this.fields := rid, fields;
    }
  }

  /** `Plain` is anything that is not an object: text, numbers, null. */
  datatype Val = Plain(n: int) | Ref(rid: Rid) | Obj(o: Thing) | Arr(items: seq<Val>)

  datatype Field = Field(key: string, value: Val)

  predicate IsMeta(key: string) {
    |key| > 0 && key[0] == '@'
  }

  predicate ValidRid(rid: Rid) {
    rid != Rid(-1, -1)
  }

  // ---- what a value becomes ----------------------------------------------

  function Resolved(v: Val, collated: map<Rid, Thing>): Val
    decreases v
  {
    match v
    case Ref(r) => if r in collated then Obj(collated[r]) else v
    case Arr(items) => Arr(ResolvedAll(items, collated))
    case _ => v
  }

  function ResolvedAll(items: seq<Val>, collated: map<Rid, Thing>): (r: seq<Val>)
    ensures |r| == |items|
    decreases items
  {
    if items == [] then [] else [Resolved(items[0], collated)] + ResolvedAll(items[1..], collated)
  }

  function ResolvedField(f: Field, collated: map<Rid, Thing>): Field {
    if IsMeta(f.key) then f else f.(value := Resolved(f.value, collated))
  }

  function ResolvedFields(fields: seq<Field>, collated: map<Rid, Thing>): (r: seq<Field>)
    ensures |r| == |fields|
    ensures forall i :: 0 <= i < |r| ==> r[i] == ResolvedField(fields[i], collated)
  {
    if fields == [] then [] else [ResolvedField(fields[0], collated)] + ResolvedFields(fields[1..], collated)
  }

  // ---- the shape of the input --------------------------------------------

  /** Which objects hang where: an object has a subtree for each field, an array one for each element. */
  datatype Tree = Leaf | Branch(o: Thing, subtrees: seq<Tree>) | Row(elements: seq<Tree>)

  ghost function Things(t: Tree): set<Thing>
    decreases t
  {
    match t
    case Leaf => {}
    case Branch(o, ts) => {o} + ThingsIn(ts)
    case Row(ts) => ThingsIn(ts)
  }

  ghost function ThingsIn(ts: seq<Tree>): set<Thing>
    decreases ts
  {
    if ts == [] then {} else Things(ts[0]) + ThingsIn(ts[1..])
  }

  /** The objects of a tree but for an object at its root. */
  ghost function Below(t: Tree): set<Thing> {
    match t
    case Branch(_, ts) => ThingsIn(ts)
    case _ => Things(t)
  }

  /** No object hangs in two places. */
  ghost predicate Simple(t: Tree)
    decreases t
  {
    match t
    case Leaf => true
    case Branch(o, ts) => o !in ThingsIn(ts) && SimpleAll(ts)
    case Row(ts) => SimpleAll(ts)
  }

  ghost predicate SimpleAll(ts: seq<Tree>)
    decreases ts
  {
    ts == [] || (Simple(ts[0]) && SimpleAll(ts[1..]) && Things(ts[0]) !! ThingsIn(ts[1..]))
  }

  /** The value looks like the tree. */
  ghost predicate Shows(v: Val, t: Tree)
    reads Things(t)
    decreases t
  {
    match t
    case Leaf => v.Plain? || v.Ref?
    case Branch(o, ts) => v == Obj(o) && FieldsShow(o.fields, ts)
    case Row(ts) => v.Arr? && AllShow(v.items, ts)
  }

  ghost predicate AllShow(items: seq<Val>, ts: seq<Tree>)
    reads ThingsIn(ts)
    decreases ts
  {
    |items| == |ts| && (ts == [] || (Shows(items[0], ts[0]) && AllShow(items[1..], ts[1..])))
  }

  /** Fields that start with "@" are not looked at. */
  ghost predicate FieldsShow(fields: seq<Field>, ts: seq<Tree>)
    reads ThingsIn(ts)
    decreases ts
  {
    |fields| == |ts| && (ts == [] || (
      && (if IsMeta(fields[0].key) then ts[0].Leaf? else Shows(fields[0].value, ts[0]))
      && FieldsShow(fields[1..], ts[1..])))
  }

  /** Different records have different identifiers, but for #-1:-1. */
  ghost predicate OwnNames(things: set<Thing>) {
    forall o, p :: o in things && p in things && o != p && o.rid.Some? && o.rid == p.rid ==> !ValidRid(o.rid.value)
  }

  ghost predicate Unseen(things: set<Thing>, seen: map<Rid, Thing>) {
    forall o :: o in things && o.rid.Some? && ValidRid(o.rid.value) ==> o.rid.value !in seen
  }

  ghost predicate SeenOnly(seen: map<Rid, Thing>, before: map<Rid, Thing>, things: set<Thing>) {
    forall r :: r in seen ==> r in before || exists o :: o in things && o.rid == Some(r)
  }

  // ---- the replacer ------------------------------------------------------

  class Replacer {
    const collated: map<Rid, Thing>
    var seen: map<Rid, Thing>

    constructor (collated: map<Rid, Thing>)
      ensures this.collated == collated && seen == map[]
    {
      this.collated, seen := collated, map[];
    }

    /** A record whose identifier was met before gives way to the one met first. */
    predicate Met(v: Val)
      reads this
    {
      v.Obj? && v.o.rid.Some? && ValidRid(v.o.rid.value) && v.o.rid.value in seen
    }

    /** Walk through a value and put records in place of the identifiers that name them. */
    method ReplaceRecordIds(v: Val, ghost t: Tree, ghost all: set<Thing>) returns (r: Val)
      requires Things(t) <= all
      requires Shows(v, t) && Simple(t) && OwnNames(Things(t)) && Unseen(Below(t), seen)
      modifies this`seen, Things(t)
      ensures old(Met(v)) ==> r == Obj(old(seen)[v.o.rid.value]) && seen == old(seen)
      ensures old(Met(v)) ==> forall o :: o in Things(t) ==> o.fields == old(o.fields)
      ensures !old(Met(v)) ==> r == Resolved(v, collated)
      ensures !old(Met(v)) ==> forall values :: StandsFor(collated, values) ==> Replaced(v, r, values)
      ensures !old(Met(v)) ==> forall o :: o in Things(t) ==> o.fields == ResolvedFields(old(o.fields), collated)
      ensures SeenOnly(seen, old(seen), Things(t))
      decreases t, 0
    {
      hide StandsFor, Replaced;
      ResolvedStands(v, collated);
      match v
      case Plain(_) => return v;
      case Arr(items) =>
        var mapped := ReplaceAll(items, t.elements, all);
        ResolvedStands(v, collated);
        return Arr(mapped);
      case Ref(rid) =>
        if rid in collated {
          return Obj(collated[rid]);
        }
        return v;
      case Obj(o) =>
        if o.rid.Some? {
          if o.rid.value in seen && ValidRid(o.rid.value) {
            return Obj(seen[o.rid.value]);
          }
          seen := seen[o.rid.value := o];
        }
        ReplaceFields(o, t.subtrees, all);
        ResolvedStands(v, collated);
        return v;
    }

    /** `map(replaceRecordIds)` */
    method ReplaceAll(items: seq<Val>, ghost ts: seq<Tree>, ghost all: set<Thing>) returns (r: seq<Val>)
      requires ThingsIn(ts) <= all
      requires AllShow(items, ts) && SimpleAll(ts) && OwnNames(ThingsIn(ts)) && Unseen(ThingsIn(ts), seen)
      modifies this`seen, ThingsIn(ts)
      ensures r == ResolvedAll(items, collated)
      ensures forall o :: o in ThingsIn(ts) ==> o.fields == ResolvedFields(old(o.fields), collated)
      ensures SeenOnly(seen, old(seen), ThingsIn(ts))
      decreases ts, 1
    {
      if items == [] {
        return [];
      }
      assert Below(ts[0]) <= Things(ts[0]);
      var first := ReplaceRecordIds(items[0], ts[0], all);
      var others := ReplaceAll(items[1..], ts[1..], all);
      return [first] + others;
    }

    /** One field: an identifier, an array or an object in it is replaced; names that start with "@" are left alone. */
    method ReplaceKey(o: Thing, i: nat, ghost t: Tree, ghost all: set<Thing>)
      requires i < |o.fields| && Things(t) <= all && o !in Things(t)
      requires if IsMeta(o.fields[i].key) then t.Leaf? else Shows(o.fields[i].value, t)
      requires Simple(t) && OwnNames(Things(t)) && Unseen(Things(t), seen)
      modifies this`seen, o, Things(t)
      ensures o.fields == old(o.fields)[i := ResolvedField(old(o.fields)[i], collated)]
      ensures forall p :: p in Things(t) ==> p.fields == ResolvedFields(old(p.fields), collated)
      ensures SeenOnly(seen, old(seen), Things(t))
      decreases t, 1
    {
      hide Resolved, ResolvedFields;
      var field := o.fields[i];
      if !IsMeta(field.key) {
        assert Below(t) <= Things(t);
        var value := ReplaceRecordIds(field.value, t, all);
        o.fields := o.fields[i := Field(field.key, value)];
      }
    }

    method ReplaceFields(o: Thing, ghost ts: seq<Tree>, ghost all: set<Thing>)
      requires ThingsIn(ts) <= all
      requires FieldsShow(o.fields, ts) && o !in ThingsIn(ts)
      requires SimpleAll(ts) && OwnNames(ThingsIn(ts)) && Unseen(ThingsIn(ts), seen)
      modifies this`seen, o, ThingsIn(ts)
      ensures o.fields == ResolvedFields(old(o.fields), collated)
      ensures forall p :: p in ThingsIn(ts) ==> p.fields == ResolvedFields(old(p.fields), collated)
      ensures SeenOnly(seen, old(seen), ThingsIn(ts))
      decreases ts, 1
    {
      hide Resolved, ResolvedFields, SimpleAll, ThingsIn, OwnNames, SeenOnly, Unseen, Shows, Simple, ResolvedField,
        FieldsShow, Things, Below, IsMeta;
      ghost var fields, done: set<Thing> := o.fields, {};
      var i, total := 0, |o.fields|;
      SameLength(fields, ts);
      NothingSeen(seen);
      assert fields[..0] == [] && fields[0..] == fields && ts[0..] == ts;
      while i < total
        invariant i <= total == |fields| == |ts|
        invariant o.fields == ResolvedFields(fields[..i], collated) + fields[i..]
        invariant done + ThingsIn(ts[i..]) == ThingsIn(ts) && done !! ThingsIn(ts[i..])
        invariant SimpleAll(ts[i..]) && FieldsShow(fields[i..], ts[i..]) && Unseen(ThingsIn(ts[i..]), seen)
        invariant forall p :: p in ThingsIn(ts[i..]) ==> p.fields == old(p.fields)
        invariant forall p :: p in done ==> p.fields == ResolvedFields(old(p.fields), collated)
        invariant SeenOnly(seen, old(seen), done)
      {
        TreesFrom(ts, i);
        FieldsFrom(fields, ts, i);
        FewerNames(Things(ts[i]), ThingsIn(ts));
        FewerUnseen(Things(ts[i]), ThingsIn(ts[i..]), seen);
        NextResolved(fields, i, collated);
        ghost var met := seen;
        ReplaceKey(o, i, ts[i], all);
        SeenMore(old(seen), met, seen, done, Things(ts[i]), ThingsIn(ts[i + 1..]), ThingsIn(ts));
        done := done + Things(ts[i]);
        i := i + 1;
      }
      assert fields[..total] == fields && fields[total..] == [] && ts[total..] == [];
      NoThings();
    }
  }

  lemma TreesFrom(ts: seq<Tree>, i: nat)
    requires i < |ts| && SimpleAll(ts[i..])
    ensures Simple(ts[i]) && SimpleAll(ts[i + 1..]) && Things(ts[i]) !! ThingsIn(ts[i + 1..])
    ensures ThingsIn(ts[i..]) == Things(ts[i]) + ThingsIn(ts[i + 1..])
    ensures ts[i..][0] == ts[i] && ts[i..][1..] == ts[i + 1..]
  {
    assert ts[i..][1..] == ts[i + 1..];
  }

  lemma FieldsFrom(fields: seq<Field>, ts: seq<Tree>, i: nat)
    requires i < |fields| == |ts| && FieldsShow(fields[i..], ts[i..])
    ensures if IsMeta(fields[i].key) then ts[i].Leaf? else Shows(fields[i].value, ts[i])
    ensures FieldsShow(fields[i + 1..], ts[i + 1..])
  {
    hide Shows;
    assert fields[i..][0] == fields[i] && fields[i..][1..] == fields[i + 1..];
    assert ts[i..][0] == ts[i] && ts[i..][1..] == ts[i + 1..];
  }

  lemma NoThings()
    ensures ThingsIn([]) == {}
  {
  }

  lemma FewerUnseen(few: set<Thing>, many: set<Thing>, seen: map<Rid, Thing>)
    requires Unseen(many, seen) && few <= many
    ensures Unseen(few, seen)
  {
  }

  lemma NothingSeen(seen: map<Rid, Thing>)
    ensures SeenOnly(seen, seen, {})
  {
  }

  /** Walking through some trees leaves the objects of the others unseen, since their names differ. */
  lemma SeenMore(before: map<Rid, Thing>, met: map<Rid, Thing>, seen: map<Rid, Thing>,
                 done: set<Thing>, now: set<Thing>, later: set<Thing>, all: set<Thing>)
    requires SeenOnly(met, before, done) && SeenOnly(seen, met, now) && Unseen(now + later, met)
    requires now !! later && now + later <= all && OwnNames(all)
    ensures SeenOnly(seen, before, done + now) && Unseen(later, seen)
  {
  }

  lemma FewerNames(few: set<Thing>, many: set<Thing>)
    requires OwnNames(many) && few <= many
    ensures OwnNames(few)
  {
  }

  lemma {:induction false} SameLength(fields: seq<Field>, ts: seq<Tree>)
    requires FieldsShow(fields, ts)
    ensures |fields| == |ts|
  {
  }

  lemma NextResolved(fields: seq<Field>, i: nat, collated: map<Rid, Thing>)
    requires i < |fields|
    ensures var now := ResolvedFields(fields[..i], collated) + fields[i..];
      && now[i] == fields[i]
      && now[i := ResolvedField(fields[i], collated)] == ResolvedFields(fields[..i + 1], collated) + fields[i + 1..]
  {
    hide ResolvedField, ResolvedFields;
    var done, x := ResolvedFields(fields[..i], collated), ResolvedField(fields[i], collated);
    assert ResolvedFields(fields[..i + 1], collated) == done + [x];
    assert (done + fields[i..])[i := x] == done + [x] + fields[i + 1..];
  }

  // ---- whole result sets -------------------------------------------------

  /** The first record with an identifier stands for it. */
  function Collate(m: map<Rid, Thing>, values: seq<Val>): map<Rid, Thing>
    decreases |values|
  {
    if values == [] then m
    else
      var v := values[0];
      var next := if v.Obj? && v.o.rid.Some? && v.o.rid.value !in m then m[v.o.rid.value := v.o] else m;
      Collate(next, values[1..])
  }

  predicate Names(v: Val, r: Rid) {
    v.Obj? && v.o.rid == Some(r)
  }

  predicate IsFirst(values: seq<Val>, i: nat, r: Rid)
    requires i < |values|
  {
    Names(values[i], r) && forall j :: 0 <= j < i ==> !Names(values[j], r)
  }

  /** The first record of a list that has an identifier. */
  function FirstNamed(values: seq<Val>, r: Rid): (o: Option<Thing>)
    ensures o.Some? <==> exists i :: 0 <= i < |values| && Names(values[i], r)
    ensures o.Some? ==> exists i :: 0 <= i < |values| && values[i] == Obj(o.value) && IsFirst(values, i, r)
  {
    if values == [] then None
    else if Names(values[0], r) then Some(values[0].o)
    else
      var o := FirstNamed(values[1..], r);
      assert forall i :: 0 < i < |values| ==> values[i] == values[1..][i - 1];
      assert forall i :: 0 <= i < |values[1..]| ==> values[1..][i] == values[i + 1];
      assert forall i :: 0 <= i < |values[1..]| && IsFirst(values[1..], i, r) ==> IsFirst(values, i + 1, r);
      o
  }

  /** For each identifier, what is collated already stays, otherwise the first record of the list is taken. */
  lemma {:induction false} CollateHolds(m: map<Rid, Thing>, values: seq<Val>, r: Rid)
    ensures r in m ==> r in Collate(m, values) && Collate(m, values)[r] == m[r]
    ensures r !in m ==> (r in Collate(m, values) <==> FirstNamed(values, r).Some?)
    ensures r !in m && r in Collate(m, values) ==> Some(Collate(m, values)[r]) == FirstNamed(values, r)
    decreases |values|
  {
    if values != [] {
      var v := values[0];
      var next := if v.Obj? && v.o.rid.Some? && v.o.rid.value !in m then m[v.o.rid.value := v.o] else m;
      CollateHolds(next, values[1..], r);
    }
  }

  /** The map gives each identifier of a listed record the first record that has it, and nothing else. */
  ghost predicate StandsFor(collated: map<Rid, Thing>, values: seq<Val>) {
    forall r :: if r in collated then FirstNamed(values, r) == Some(collated[r]) else FirstNamed(values, r).None?
  }

  lemma {:induction false} FirstOfSum(s: seq<Val>, t: seq<Val>, r: Rid)
    ensures FirstNamed(s + t, r) == if FirstNamed(s, r).Some? then FirstNamed(s, r) else FirstNamed(t, r)
    decreases |s|
  {
    if s == [] {
      assert s + t == t;
    } else {
      assert (s + t)[0] == s[0] && (s + t)[1..] == s[1..] + t;
      FirstOfSum(s[1..], t, r);
    }
  }

  /** The listed records and then the preloaded ones: the first with an identifier stands for it. */
  lemma CollatedStand(records: seq<Val>, preloaded: seq<Val>)
    ensures StandsFor(Collate(Collate(map[], records), preloaded), records + preloaded)
  {
    hide FirstNamed, Collate;
    var c := Collate(map[], records);
    forall r ensures
      if r in Collate(c, preloaded) then FirstNamed(records + preloaded, r) == Some(Collate(c, preloaded)[r])
      else FirstNamed(records + preloaded, r).None?
    {
      CollateHolds(map[], records, r);
      CollateHolds(c, preloaded, r);
      FirstOfSum(records, preloaded, r);
    }
  }

  method CollateRecords(m: map<Rid, Thing>, values: seq<Val>) returns (collated: map<Rid, Thing>)
    ensures collated == Collate(m, values)
    ensures m == map[] ==> StandsFor(collated, values)
  {
    collated := m;
    assert values[0..] == values;
    for i := 0 to |values|
      invariant Collate(collated, values[i..]) == Collate(m, values)
    {
      assert values[i..][0] == values[i] && values[i..][1..] == values[i + 1..];
      if values[i].Obj? && values[i].o.rid.Some? && values[i].o.rid.value !in collated {
        collated := collated[values[i].o.rid.value := values[i].o];
      }
    }
    if m == map[] {
      CollatedStand(values, []);
      assert values + [] == values;
    }
  }

  // ---- every identifier of a listed record becomes that record -----------

  /**
   * What was `v` is now `w`, told from the list alone: an identifier is the first listed record that has it, an array
   * is an array of the same length with each element replaced, and anything else is what it was.
   */
  ghost predicate Replaced(v: Val, w: Val, values: seq<Val>)
    decreases v
  {
    match v
    case Ref(r) => w == if FirstNamed(values, r).Some? then Obj(FirstNamed(values, r).value) else v
    case Arr(items) =>
      w.Arr? && |w.items| == |items| && forall i :: 0 <= i < |items| ==> Replaced(items[i], w.items[i], values)
    case _ => w == v
  }

  /** Field by field: same keys, values replaced but for those of keys that start with "@". */
  ghost predicate FieldsReplaced(before: seq<Field>, after: seq<Field>, values: seq<Val>) {
    |after| == |before| && forall i :: 0 <= i < |before| ==>
      && after[i].key == before[i].key
      && if IsMeta(before[i].key) then after[i].value == before[i].value
         else Replaced(before[i].value, after[i].value, values)
  }

  lemma {:induction false} ResolvedReplaces(v: Val, collated: map<Rid, Thing>, values: seq<Val>)
    requires StandsFor(collated, values)
    ensures Replaced(v, Resolved(v, collated), values)
    decreases v
  {
    hide FirstNamed;
    if v.Arr? {
      var after := ResolvedAll(v.items, collated);
      forall i | 0 <= i < |v.items| ensures Replaced(v.items[i], after[i], values) {
        ResolvedAt(v.items, collated, i);
        ResolvedReplaces(v.items[i], collated, values);
      }
    }
  }

  lemma {:induction false} ResolvedAt(items: seq<Val>, collated: map<Rid, Thing>, i: nat)
    requires i < |items|
    ensures ResolvedAll(items, collated)[i] == Resolved(items[i], collated)
    decreases i
  {
    if i > 0 {
      ResolvedAt(items[1..], collated, i - 1);
    }
  }

  lemma ResolvedStands(v: Val, collated: map<Rid, Thing>)
    ensures forall values :: StandsFor(collated, values) ==> Replaced(v, Resolved(v, collated), values)
  {
    hide StandsFor, Replaced, Resolved;
    forall values | StandsFor(collated, values) ensures Replaced(v, Resolved(v, collated), values) {
      ResolvedReplaces(v, collated, values);
    }
  }

  lemma ItemsStand(items: seq<Val>, collated: map<Rid, Thing>, values: seq<Val>)
    requires StandsFor(collated, values)
    ensures Replaced(Arr(items), Arr(ResolvedAll(items, collated)), values)
  {
    ResolvedReplaces(Arr(items), collated, values);
  }

  lemma FieldsStand(fields: seq<Field>, collated: map<Rid, Thing>, values: seq<Val>)
    requires StandsFor(collated, values)
    ensures FieldsReplaced(fields, ResolvedFields(fields, collated), values)
  {
    hide Replaced, Resolved, StandsFor;
    forall i | 0 <= i < |fields| && !IsMeta(fields[i].key)
      ensures Replaced(fields[i].value, Resolved(fields[i].value, collated), values)
    {
      ResolvedReplaces(fields[i].value, collated, values);
    }
  }

  /** Whether an identifier occurs in a value, in an array at any depth. */
  predicate Mentions(v: Val, r: Rid)
    decreases v
  {
    match v
    case Ref(q) => q == r
    case Arr(items) => SomeMention(items, r)
    case _ => false
  }

  predicate SomeMention(items: seq<Val>, r: Rid)
    decreases items
  {
    items != [] && (Mentions(items[0], r) || SomeMention(items[1..], r))
  }

  /** Identifiers of listed records are gone, all others are still there. */
  lemma {:induction false} OnlyUnlistedLeft(v: Val, collated: map<Rid, Thing>, r: Rid)
    ensures Mentions(Resolved(v, collated), r) <==> Mentions(v, r) && r !in collated
    decreases v
  {
    if v.Arr? {
      OnlyUnlistedLeftIn(v.items, collated, r);
    }
  }

  lemma {:induction false} OnlyUnlistedLeftIn(items: seq<Val>, collated: map<Rid, Thing>, r: Rid)
    ensures SomeMention(ResolvedAll(items, collated), r) <==> SomeMention(items, r) && r !in collated
    decreases items
  {
    if items != [] {
      OnlyUnlistedLeft(items[0], collated, r);
      OnlyUnlistedLeftIn(items[1..], collated, r);
    }
  }

  /** No field mentions a listed record, but for fields whose keys start with "@". */
  ghost predicate FieldsNoneListed(fields: seq<Field>, values: seq<Val>) {
    forall i, r :: 0 <= i < |fields| && !IsMeta(fields[i].key) && FirstNamed(values, r).Some? ==>
      !Mentions(fields[i].value, r)
  }

  ghost predicate NoneListed(things: set<Thing>, values: seq<Val>)
    reads things
  {
    forall o :: o in things ==> FieldsNoneListed(o.fields, values)
  }

  lemma ResolvedNoneListed(fields: seq<Field>, collated: map<Rid, Thing>, values: seq<Val>)
    requires StandsFor(collated, values)
    ensures FieldsNoneListed(ResolvedFields(fields, collated), values)
  {
    hide Resolved, Mentions, ResolvedFields, FirstNamed;
    var done := ResolvedFields(fields, collated);
    forall i, r | 0 <= i < |done| && !IsMeta(done[i].key) && r in collated
      ensures !Mentions(done[i].value, r)
    {
      OnlyUnlistedLeft(fields[i].value, collated, r);
    }
  }

  method Overwrite(a: array<Val>, values: seq<Val>)
    requires |values| == a.Length
    modifies a
    ensures a[..] == values
  {
    for i := 0 to a.Length
      invariant a[..i] == values[..i]
    {
      a[i] := values[i];
    }
  }

  /**
   * `resolveReferences` on lists of records that are trees with identifiers of their own: in every object, at
   * any depth, each identifier of a listed record has become the first listed record that has it, and nothing else
   * has changed.
   */
  method ResolveReferences(records: array<Val>, preloaded: seq<Val>, ghost rts: seq<Tree>, ghost pts: seq<Tree>,
                           ghost all: set<Thing>)
    requires all == ThingsIn(rts) + ThingsIn(pts) && ThingsIn(rts) !! ThingsIn(pts)
    requires AllShow(records[..], rts) && AllShow(preloaded, pts) && SimpleAll(rts) && SimpleAll(pts) && OwnNames(all)
    requires forall i :: 0 <= i < records.Length ==> !records[i].Arr?
    modifies records, all
    ensures var c := Collate(Collate(map[], old(records[..])), preloaded);
      && StandsFor(c, old(records[..]) + preloaded)
      && records[..] == ResolvedAll(old(records[..]), c)
      && (forall o :: o in all ==> o.fields == ResolvedFields(old(o.fields), c))
      && NoneListed(all, old(records[..]) + preloaded)
    ensures Replaced(Arr(old(records[..])), Arr(records[..]), old(records[..]) + preloaded)
    ensures forall o :: o in all ==> FieldsReplaced(old(o.fields), o.fields, old(records[..]) + preloaded)
  {
    hide Resolved, ResolvedAll, ResolvedFields, SimpleAll, Mentions, Things, ThingsIn, Shows, AllShow, Collate, OwnNames,
      SeenOnly, Unseen, FirstNamed, Replaced, FieldsReplaced, FieldsNoneListed, StandsFor;
    ghost var listed := records[..] + preloaded;
    CollatedStand(records[..], preloaded);
    var collated := CollateRecords(map[], records[..]);
    collated := CollateRecords(collated, preloaded);
    var replacer := new Replacer(collated);
    FewerNames(ThingsIn(pts), all);
    FewerNames(ThingsIn(rts), all);
    NothingUnseen(all);
    FewerUnseen(ThingsIn(pts), all, map[]);
    assert ThingsIn(pts) + ThingsIn(rts) == all;
    var _ := replacer.ReplaceAll(preloaded, pts, all);
    NothingSeen(map[]);
    SeenMore(map[], map[], replacer.seen, {}, ThingsIn(pts), ThingsIn(rts), all);
    var replaced := replacer.ReplaceAll(records[..], rts, all);
    Overwrite(records, replaced);
    ItemsStand(old(records[..]), collated, listed);
    forall o | o in all
      ensures FieldsReplaced(old(o.fields), o.fields, listed) && FieldsNoneListed(o.fields, listed)
    {
      FieldsStand(old(o.fields), collated, listed);
      ResolvedNoneListed(old(o.fields), collated, listed);
    }
  }

  lemma NothingUnseen(things: set<Thing>)
    ensures Unseen(things, map[])
  {
  }
}
