/** The JavaScript values a reply is read into, and references to objects nested inside them. */
module Values {
  import opened Bytes

  /**
   * `Text` keeps its UTF-8 bytes. `Decoded` stands for the record the deserializer makes of `content`;
   * Documents models that deserializer.
   */
  datatype Value =
    | Undefined
    | Null
    | Num(n: Int64)
    | Bool(b: bool)
    | Chr(code: Byte)
    | Raw(bytes: seq<Byte>)
    | Text(utf8: seq<Byte>)
    | Rid(cluster: int, position: int)
    | Decoded(kind: int, content: seq<Byte>)
    | ProtocolError
    | Arr(items: seq<Value>)
    | Obj(fields: map<string, Value>)
  {
    /** The conversion JavaScript applies in a condition. */
    predicate Truthy() {
      match this
      case Undefined => false
      case Null => false
      case Num(n) => n != 0
      case Bool(b) => b
      case Text(u) => u != []
      case _ => true
    }

    function Field(name: string): Value {
      if Obj? && name in fields then fields[name] else Undefined
    }
  }

  datatype Key = Name(name: string) | Index(index: nat)

  /** A reference to an object: the root it hangs from and the way down from there. */
  datatype Ref = Ref(root: nat, path: seq<Key>)

  function Child(v: Value, k: Key): Value {
    match (v, k)
    case (Obj(m), Name(f)) => if f in m then m[f] else Undefined
    case (Arr(xs), Index(i)) => if i < |xs| then xs[i] else Undefined
    case _ => Undefined
  }

  predicate CanHold(v: Value, k: Key) {
    (v.Obj? && k.Name?) || (v.Arr? && k.Index? && k.index < |v.items|)
  }

  function WithChild(v: Value, k: Key, w: Value): Value {
    if !CanHold(v, k) then v
    else if v.Obj? then Obj(v.fields[k.name := w]) else Arr(v.items[k.index := w])
  }

  function Get(v: Value, path: seq<Key>): Value
    decreases |path|
  {
    if path == [] then v else Get(Child(v, path[0]), path[1..])
  }

  /** Whether the path leads to a place that can be read and written. */
  predicate Has(v: Value, path: seq<Key>)
    decreases |path|
  {
    path == [] || (CanHold(v, path[0]) && Has(Child(v, path[0]), path[1..]))
  }

  function Put(v: Value, path: seq<Key>, w: Value): Value
    decreases |path|
  {
    if path == [] then w else WithChild(v, path[0], Put(Child(v, path[0]), path[1..], w))
  }

  /** What is put at a place is found there, and a second write replaces the first. */
  lemma {:induction false} PutThenGet(v: Value, path: seq<Key>, w: Value, w2: Value)
    requires Has(v, path)
    ensures Has(Put(v, path, w), path)
    ensures Get(Put(v, path, w), path) == w
    ensures Put(Put(v, path, w), path, w2) == Put(v, path, w2)
    decreases |path|
  {
    if path != [] {
      PutThenGet(Child(v, path[0]), path[1..], w, w2);
      var c := Put(Child(v, path[0]), path[1..], w);
      assert Child(WithChild(v, path[0], c), path[0]) == c;
      var c2 := Put(c, path[1..], w2);
      assert WithChild(WithChild(v, path[0], c), path[0], c2) == WithChild(v, path[0], c2);
    }
  }

  /** A place one step further down. */
  lemma {:induction false} OneStepDown(v: Value, path: seq<Key>, k: Key, w: Value)
    ensures Get(v, path + [k]) == Child(Get(v, path), k)
    ensures Has(v, path) ==> (Has(v, path + [k]) <==> CanHold(Get(v, path), k))
    ensures Has(v, path) ==> Put(v, path + [k], w) == Put(v, path, WithChild(Get(v, path), k, w))
    decreases |path|
  {
    if path == [] {
      assert [k][1..] == [];
    } else {
      assert (path + [k])[0] == path[0];
      assert (path + [k])[1..] == path[1..] + [k];
      OneStepDown(Child(v, path[0]), path[1..], k, w);
    }
  }

  /** Writing back what is there changes nothing. */
  lemma {:induction false} PutBack(v: Value, path: seq<Key>)
    requires Get(v, path) != Undefined
    ensures Put(v, path, Get(v, path)) == v
    decreases |path|
  {
    if path != [] {
      var c := Child(v, path[0]);
      if c == Undefined {
        UndefinedInside(path[1..]);
      }
      PutBack(c, path[1..]);
      assert WithChild(v, path[0], c) == v;
    }
  }

  lemma {:induction false} UndefinedInside(path: seq<Key>)
    ensures Get(Undefined, path) == Undefined
    decreases |path|
  {
    if path != [] {
      UndefinedInside(path[1..]);
    }
  }

  // ---- references into several roots ------------------------------------

  predicate Live(roots: seq<Value>, r: Ref) {
    r.root < |roots| && Has(roots[r.root], r.path)
  }

  function Load(roots: seq<Value>, r: Ref): Value {
    if r.root < |roots| then Get(roots[r.root], r.path) else Undefined
  }

  function Store(roots: seq<Value>, r: Ref, w: Value): seq<Value> {
    if r.root < |roots| then roots[r.root := Put(roots[r.root], r.path, w)] else roots
  }

  function Below(r: Ref, k: Key): Ref {
    Ref(r.root, r.path + [k])
  }

  /** `context[field] = w`; assigning to something that is not an object has no effect here. */
  function Assign(roots: seq<Value>, r: Ref, field: string, w: Value): seq<Value> {
    var c := Load(roots, r);
    if c.Obj? then Store(roots, r, Obj(c.fields[field := w])) else roots
  }

  lemma StoreThenLoad(roots: seq<Value>, r: Ref, w: Value, w2: Value)
    requires Live(roots, r)
    ensures Live(Store(roots, r, w), r)
    ensures Load(Store(roots, r, w), r) == w
    ensures Store(Store(roots, r, w), r, w2) == Store(roots, r, w2)
  {
    PutThenGet(roots[r.root], r.path, w, w2);
  }

  lemma StoreBelow(roots: seq<Value>, r: Ref, k: Key, w: Value)
    requires Live(roots, r) && CanHold(Load(roots, r), k)
    ensures Live(roots, Below(r, k))
    ensures Load(roots, Below(r, k)) == Child(Load(roots, r), k)
    ensures Store(roots, Below(r, k), w) == Store(roots, r, WithChild(Load(roots, r), k, w))
  {
    OneStepDown(roots[r.root], r.path, k, w);
  }
}
