/** Giving created records the identifiers the server chose: records change while the search for them goes on. */
module CreatedRecords {
  import opened Options

  datatype Rid = Rid(cluster: int, position: int)

  /** What a record carries besides its fields. */
  datatype Meta = Meta(rid: Option<Rid>, version: int)

  /** One line of the server's answer. */
  datatype Created = Created(tmp: Rid, rid: Rid, version: int)

  predicate Covers<R>(h: map<R, Meta>, records: seq<R>) {
    forall r :: r in records ==> r in h
  }

  predicate Matches(m: Meta, result: Created) {
    m.rid == Some(result.tmp) || m.rid == Some(result.rid)
  }

  /** The first record that has the temporary identifier or has the final one already; their number if there is none. */
  function FirstMatch<R>(h: map<R, Meta>, records: seq<R>, result: Created): (n: nat)
    requires Covers(h, records)
    ensures n <= |records|
    ensures n < |records| ==> Matches(h[records[n]], result)
    ensures forall i :: 0 <= i < n ==> !Matches(h[records[i]], result)
  {
    if records == [] || Matches(h[records[0]], result) then 0
    else 1 + FirstMatch(h, records[1..], result)
  }

  function Renamed<R>(h: map<R, Meta>, r: R, result: Created): map<R, Meta>
    requires r in h
  {
    if h[r].rid == Some(result.tmp) then h[r := Meta(Some(result.rid), result.version)] else h
  }

  function ApplyOne<R>(h: map<R, Meta>, records: seq<R>, result: Created): (out: (map<R, Meta>, Option<R>))
    requires Covers(h, records)
    ensures Covers(out.0, records) && out.0.Keys == h.Keys
  {
    var n := FirstMatch(h, records, result);
    if n == |records| then (h, None) else (Renamed(h, records[n], result), Some(records[n]))
  }

  function ApplyAll<R>(h: map<R, Meta>, records: seq<R>, results: seq<Created>): (out: (map<R, Meta>, seq<Option<R>>))
    requires Covers(h, records)
    ensures out.0.Keys == h.Keys && |out.1| == |results|
    decreases |results|
  {
    if results == [] then (h, [])
    else
      var (h1, found) := ApplyOne(h, records, results[0]);
      var (h2, others) := ApplyAll(h1, records, results[1..]);
      (h2, [found] + others)
  }

  // ---- every record gets its own identifier ------------------------------

  predicate OwnRids<R>(h: map<R, Meta>, records: seq<R>)
    requires Covers(h, records)
  {
    forall r, q :: r in records && q in records && r != q ==> h[r].rid != h[q].rid
  }

  /** The server maps different temporary identifiers to different new ones, none of which is known yet. */
  predicate FreshMapping<R>(h: map<R, Meta>, records: seq<R>, results: seq<Created>)
    requires Covers(h, records)
  {
    && (forall i, j :: 0 <= i < j < |results| ==> results[i].tmp != results[j].tmp && results[i].rid != results[j].rid)
    && (forall i, j :: 0 <= i < |results| && 0 <= j < |results| ==> results[i].rid != results[j].tmp)
    && (forall i, r :: 0 <= i < |results| && r in records ==> h[r].rid != Some(results[i].rid))
  }

  predicate Named<R>(h: map<R, Meta>, records: seq<R>, result: Created)
    requires Covers(h, records)
  {
    exists r :: r in records && h[r].rid == Some(result.tmp)
  }

  lemma FirstMatchIs<R>(h: map<R, Meta>, records: seq<R>, result: Created, r: R)
    requires Covers(h, records) && r in records && Matches(h[r], result)
    requires forall q :: q in records && q != r ==> !Matches(h[q], result)
    ensures FirstMatch(h, records, result) < |records| && records[FirstMatch(h, records, result)] == r
  {
    var i :| 0 <= i < |records| && records[i] == r;
    var n := FirstMatch(h, records, result);
    if n < |records| {
      assert records[n] in records;
    }
  }

  /** Renaming one record leaves the others ready for the rest of the answer. */
  lemma OneRenamed<R>(h: map<R, Meta>, records: seq<R>, results: seq<Created>)
    requires Covers(h, records) && results != [] && OwnRids(h, records) && FreshMapping(h, records, results)
    ensures var (h1, found) := ApplyOne(h, records, results[0]);
      && OwnRids(h1, records) && FreshMapping(h1, records, results[1..])
      && (forall r :: r in records && h[r].rid != Some(results[0].tmp) ==> h1[r] == h[r])
      && (forall r :: r in records && h[r].rid == Some(results[0].tmp) ==>
            found == Some(r) && h1[r] == Meta(Some(results[0].rid), results[0].version))
      && (found.Some? ==> found.value in records && h[found.value].rid == Some(results[0].tmp))
  {
    var n := FirstMatch(h, records, results[0]);
    if n < |records| {
      assert records[n] in records;
    }
    forall r | r in records && h[r].rid == Some(results[0].tmp)
      ensures n < |records| && records[n] == r
    {
      FirstMatchIs(h, records, results[0], r);
    }
  }

  /**
   * When records have different identifiers and the mapping is fresh, line k of the answer goes to exactly the
   * record that had its temporary identifier, and no other record changes.
   */
  lemma {:induction false} EachItsOwn<R>(h: map<R, Meta>, records: seq<R>, results: seq<Created>)
    requires Covers(h, records) && OwnRids(h, records) && FreshMapping(h, records, results)
    ensures var (h2, out) := ApplyAll(h, records, results);
      && (forall k, r :: 0 <= k < |results| && r in records && h[r].rid == Some(results[k].tmp) ==>
            out[k] == Some(r) && h2[r] == Meta(Some(results[k].rid), results[k].version))
      && (forall r :: r in records && (forall k :: 0 <= k < |results| ==> h[r].rid != Some(results[k].tmp)) ==>
            h2[r] == h[r])
      && (forall k :: 0 <= k < |results| && out[k].Some? ==>
            out[k].value in records && h[out[k].value].rid == Some(results[k].tmp))
    decreases |results|
  {
    hide ApplyOne, OwnRids, FreshMapping;
    if results != [] {
      var (h1, found) := ApplyOne(h, records, results[0]);
      var (h2, out) := ApplyAll(h, records, results);
      OneRenamed(h, records, results);
      EachItsOwn(h1, records, results[1..]);
      TmpsDiffer(h, records, results);
      assert forall k :: 0 < k < |results| ==> results[k] == results[1..][k - 1];
    }
  }

  lemma TmpsDiffer<R>(h: map<R, Meta>, records: seq<R>, results: seq<Created>)
    requires Covers(h, records) && FreshMapping(h, records, results)
    ensures forall k :: 0 < k < |results| ==> results[k].tmp != results[0].tmp
    ensures forall k :: 0 <= k < |results| ==> results[0].rid != results[k].tmp
  {
  }

  // ---- applying the answer again -----------------------------------------

  /** Every line of the answer has found its record, and its temporary identifier is gone. */
  predicate Settled<R>(h: map<R, Meta>, records: seq<R>, results: seq<Created>, out: seq<Option<R>>)
    requires Covers(h, records)
  {
    && |out| == |results|
    && (forall k :: 0 <= k < |results| ==>
          out[k].Some? && out[k].value in records && h[out[k].value].rid == Some(results[k].rid))
    && (forall k, r :: 0 <= k < |results| && r in records && Matches(h[r], results[k]) ==> Some(r) == out[k])
  }

  lemma FirstMatchInFront<R>(h: map<R, Meta>, records: seq<R>, more: seq<R>, result: Created)
    requires Covers(h, records + more) && Covers(h, records) && FirstMatch(h, records, result) < |records|
    ensures FirstMatch(h, records + more, result) == FirstMatch(h, records, result)
  {
    assert forall i :: 0 <= i < |records| ==> (records + more)[i] == records[i];
  }

  /** A settled answer changes nothing and finds the same records, also in a longer list. */
  lemma {:induction false} SettledStays<R>(h: map<R, Meta>, records: seq<R>, more: seq<R>, results: seq<Created>,
                                           out: seq<Option<R>>)
    requires Covers(h, records + more) && Covers(h, records) && Settled(h, records, results, out)
    requires forall k :: 0 <= k < |results| ==> results[k].tmp != results[k].rid
    ensures ApplyAll(h, records + more, results) == (h, out)
    decreases |results|
  {
    if results != [] {
      var r := out[0].value;
      assert forall q :: q in records && q != r ==> !Matches(h[q], results[0]);
      FirstMatchIs(h, records, results[0], r);
      FirstMatchInFront(h, records, more, results[0]);
      assert Settled(h, records, results[1..], out[1..]);
      SettledStays(h, records, more, results[1..], out[1..]);
      assert [out[0]] + out[1..] == out;
    }
  }

  /**
   * When every line finds its record, applying the answer once more, to the same list or a longer one, returns
   * the same records and changes nothing.
   */
  lemma ApplyAgain<R>(h: map<R, Meta>, records: seq<R>, more: seq<R>, results: seq<Created>)
    requires Covers(h, records) && Covers(h, records + more) && OwnRids(h, records) && FreshMapping(h, records, results)
    requires forall k :: 0 <= k < |results| ==> Named(h, records, results[k])
    ensures var (h2, out) := ApplyAll(h, records, results);
      ApplyAll(h2, records + more, results) == (h2, out)
  {
    var (h2, out) := ApplyAll(h, records, results);
    EachItsOwn(h, records, results);
    TmpsAreNotRids(h, records, results);
    AnswerSettles(h, records, results);
    SettledStays(h2, records, more, results, out);
  }

  lemma TmpsAreNotRids<R>(h: map<R, Meta>, records: seq<R>, results: seq<Created>)
    requires Covers(h, records) && FreshMapping(h, records, results)
    ensures forall i, j :: 0 <= i < |results| && 0 <= j < |results| ==> results[i].rid != results[j].tmp
    ensures forall i, j :: 0 <= i < |results| && 0 <= j < |results| && i != j ==>
      results[i].tmp != results[j].tmp && results[i].rid != results[j].rid
  {
  }

  lemma AnswerSettles<R>(h: map<R, Meta>, records: seq<R>, results: seq<Created>)
    requires Covers(h, records) && OwnRids(h, records) && FreshMapping(h, records, results)
    requires forall k :: 0 <= k < |results| ==> Named(h, records, results[k])
    ensures var (h2, out) := ApplyAll(h, records, results); Settled(h2, records, results, out)
  {
    var (h2, out) := ApplyAll(h, records, results);
    EachItsOwn(h, records, results);
    TmpsAreNotRids(h, records, results);
    forall k | 0 <= k < |results|
      ensures out[k].Some? && out[k].value in records && h2[out[k].value].rid == Some(results[k].rid)
    {
      assert Named(h, records, results[k]);
      var r :| r in records && h[r].rid == Some(results[k].tmp);
    }
    forall k, r | 0 <= k < |results| && r in records && Matches(h2[r], results[k])
      ensures Some(r) == out[k]
    {
      if j :| 0 <= j < |results| && h[r].rid == Some(results[j].tmp) {
        assert h2[r].rid == Some(results[j].rid);
      }
    }
  }
}
