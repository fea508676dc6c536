/** The transaction object: it numbers new records, flushes what is pending and applies the server's answer. */
module Transactions {
  import opened Options
  import opened TransactionRuns
  import opened CreatedRecords

  class Record {
    var rid: Option<Rid>
    var version: int

    constructor (rid: Option<Rid>, version: int)
      ensures this.rid == rid && this.version == version
    {
      this.rid, this.version := rid, version;
    }
  }

  ghost function Snapshot(records: seq<Record>): (h: map<Record, Meta>)
    reads records
    ensures Covers(h, records)
  {
    map r | r in records :: Meta(r.rid, r.version)
  }

  /** The record a line of the answer found, or one made for it. */
  ghost predicate Stands(item: Record, found: Option<Record>, result: Created)
    reads item
  {
    if found.Some? then item == found.value else item.rid == Some(result.rid) && item.version == result.version
  }

  /** Search the records for one line of the answer; the first that matches is renamed on the spot. */
  method ApplyLine(result: Created, creates: seq<Record>) returns (item: Record)
    requires forall r :: r in creates ==> r.rid.Some?
    modifies creates
    ensures var (h, found) := ApplyOne(old(Snapshot(creates)), creates, result);
      Snapshot(creates) == h && Stands(item, found, result) && (found.None? ==> fresh(item))
  {
    var total := |creates|;
    for i := 0 to total
      invariant Snapshot(creates) == old(Snapshot(creates))
      invariant forall j :: 0 <= j < i ==> !Matches(Snapshot(creates)[creates[j]], result)
    {
      item := creates[i];
      assert item in creates;
      if item.rid.value == result.tmp {
        ghost var h := Snapshot(creates);
        assert FirstMatch(h, creates, result) == i;
        item.rid := Some(result.rid);
        item.version := result.version;
        assert Snapshot(creates) == h[item := Meta(item.rid, item.version)];
        return;
      }
      if item.rid.value == result.rid {
        assert FirstMatch(Snapshot(creates), creates, result) == i;
        return;
      }
    }
    assert FirstMatch(Snapshot(creates), creates, result) == total;
    item := new Record(Some(result.rid), result.version);
  }

  /** `applyCreated`: every line in turn, on records the lines before it may have renamed. */
  method ApplyCreated(results: seq<Created>, creates: seq<Record>) returns (items: seq<Record>)
    requires forall r :: r in creates ==> r.rid.Some?
    modifies creates
    ensures var (h, found) := ApplyAll(old(Snapshot(creates)), creates, results);
      && Snapshot(creates) == h && |items| == |results|
      && forall k :: 0 <= k < |results| ==>
           Stands(items[k], found[k], results[k]) && (found[k].None? ==> fresh(items[k]))
  {
    hide ApplyOne;
    items := [];
    ghost var all := ApplyAll(Snapshot(creates), creates, results);
    assert results[0..] == results && all.1[0..] == all.1;
    for i := 0 to |results|
      invariant |items| == i && all.0.Keys == Snapshot(creates).Keys
      invariant forall r :: r in creates ==> r.rid.Some?
      invariant (all.0, all.1[i..]) == ApplyAll(Snapshot(creates), creates, results[i..])
      invariant forall k :: 0 <= k < i ==>
        Stands(items[k], all.1[k], results[k]) && (all.1[k].None? ==> fresh(items[k]) && items[k] !in creates)
    {
      ghost var h := Snapshot(creates);
      KeepsRids(h, creates, results[i]);
      var item := ApplyLine(results[i], creates);
      assert results[i..][1..] == results[i + 1..] && all.1[i..][1..] == all.1[i + 1..];
      items := items + [item];
    }
  }

  lemma KeepsRids(h: map<Record, Meta>, records: seq<Record>, result: Created)
    requires Covers(h, records)
    requires forall r :: r in records ==> h[r].rid.Some?
    ensures forall r :: r in records ==> ApplyOne(h, records, result).0[r].rid.Some?
  {
  }

  /** The arrays that new records are pushed to. A flush under way keeps them when others have taken their place. */
  class PendingLists {
    var creates: seq<Record>
    var updates: seq<Record>

    constructor ()
      ensures creates == [] && updates == []
    {
      creates, updates := [], [];
    }
  }

  /** What goes on when an answer comes, with the arrays that were captured. */
  datatype Promised =
    | FlushOf(held: PendingLists)
    | CommitOf(held: PendingLists, changes: Records<Record>)
    | CommitSent

  ghost function HeldLists(promised: seq<Promised>): set<PendingLists> {
    set i | 0 <= i < |promised| && !promised[i].CommitSent? :: promised[i].held
  }

  ghost function ContentOf(p: PendingLists): Records<Record>
    reads p
  {
    Records(p.creates, p.updates)
  }

  ghost function HeldOf(p: PendingLists, current: PendingLists): Held<Record>
    reads p
  {
    if p == current then Current else Replaced(ContentOf(p))
  }

  ghost function AwaitedOf(p: Promised, current: PendingLists): Awaited<Record>
    reads if p.CommitSent? then {} else {p.held}
  {
    match p
    case FlushOf(held) => Flushing(HeldOf(held, current))
    case CommitOf(held, changes) => Preparing(HeldOf(held, current), changes)
    case CommitSent => Committing
  }

  ghost function AllAwaited(promised: seq<Promised>, current: PendingLists): (ws: seq<Awaited<Record>>)
    reads HeldLists(promised)
    ensures |ws| == |promised| && forall i :: 0 <= i < |ws| ==> ws[i] == AwaitedOf(promised[i], current)
  {
    if |promised| == 0 then []
    else
      assert forall i :: 0 <= i < |promised| && !promised[i].CommitSent? ==> promised[i].held in HeldLists(promised);
      assert forall i :: 0 <= i < |promised[1..]| ==> promised[1..][i] == promised[i + 1];
      [AwaitedOf(promised[0], current)] + AllAwaited(promised[1..], current)
  }

  lemma SameAwaited(promised: seq<Promised>, current: PendingLists, ws: seq<Awaited<Record>>)
    requires |ws| == |promised| && forall i :: 0 <= i < |ws| ==> ws[i] == AwaitedOf(promised[i], current)
    ensures AllAwaited(promised, current) == ws
  {
  }

  /** Behind new arrays, a flush under way that captured the old ones holds arrays that were replaced. */
  lemma NowOutdated(promised: seq<Promised>, before: PendingLists, now: PendingLists)
    requires forall i :: 0 <= i < |promised| && !promised[i].CommitSent? ==> promised[i].held != now
    ensures AllAwaited(promised, now) == AllOutdated(AllAwaited(promised, before), ContentOf(before))
  {
    var ws, held := AllAwaited(promised, now), AllOutdated(AllAwaited(promised, before), ContentOf(before));
    forall i | 0 <= i < |promised| ensures ws[i] == held[i] {
      assert ws[i] == AwaitedOf(promised[i], now);
      assert held[i] == Outdated(AwaitedOf(promised[i], before), ContentOf(before));
    }
  }

  class DatabaseTx {
    var pos: int
    var begun: bool
    var pending: PendingLists
    var deletes: seq<Record>
    var finalCreated: seq<Record>
    var finalUpdated: seq<Record>
    var finalDeleted: seq<Record>
    var wire: seq<Message<Record>>
    var awaiting: seq<Promised>
    /** Every record given a temporary identifier so far. */
    ghost var numbered: seq<Record>

    ghost function State(): Tx<Record>
      reads this, pending, HeldLists(awaiting)
    {
      Tx(begun, ContentOf(pending), deletes, Records(finalCreated, finalUpdated), finalDeleted, wire,
         AllAwaited(awaiting, pending))
    }

    /** Numbered records have temporary identifiers, each its own, down to the last one given. */
    ghost predicate Numbered()
      reads this, numbered
    {
      && pos <= -1
      && (forall r :: r in numbered ==>
            r.rid.Some? && r.rid.value.cluster == -1 && pos <= r.rid.value.position < -1)
      && OwnRids(Snapshot(numbered), numbered)
    }

    constructor ()
      ensures State() == NewTx() && Numbered() && numbered == []
    {
      pos, begun, awaiting := -1, false, [];
      pending := new PendingLists();
      deletes := [];
      finalCreated, finalUpdated, finalDeleted := [], [], [];
      wire, numbered := [], [];
    }

    /** The next temporary identifier, below all given before. */
    method Number(record: Record)
      modifies this`pos, this`numbered, record`rid
      ensures pos == old(pos) - 1 && numbered == old(numbered) + [record]
      ensures record.rid == Some(Rid(-1, pos))
      ensures old(Numbered()) ==> Numbered()
    {
      pos := pos - 1;
      record.rid := Some(Rid(-1, pos));
      numbered := numbered + [record];
    }

    /** A new record gets the next temporary identifier and waits to be sent; so may a record created before. */
    method Create(record: Record)
      modifies this`pos, pending`creates, this`numbered, record`rid
      ensures State() == Next(old(State()), Add(Creates, record))
      ensures old(Numbered()) ==> Numbered()
      ensures numbered == old(numbered) + [record]
      ensures record.rid == Some(Rid(-1, old(pos) - 1))
    {
      hide AllAwaited, HeldLists, Numbered;
      ghost var ws := AllAwaited(awaiting, pending);
      Number(record);
      pending.creates := pending.creates + [record];
      SameAwaited(awaiting, pending, ws);
    }

    /** A record without an identifier cannot be updated; the source throws. */
    method Update(record: Record) returns (ok: bool)
      modifies pending`updates
      ensures ok <==> record.rid.Some?
      ensures State() == if ok then Next(old(State()), Add(Updates, record)) else old(State())
    {
      if record.rid.None? {
        return false;
      }
      ghost var ws := AllAwaited(awaiting, pending);
      pending.updates := pending.updates + [record];
      SameAwaited(awaiting, pending, ws);
      return true;
    }

    method Delete(record: Record) returns (ok: bool)
      modifies this`deletes
      ensures ok <==> record.rid.Some?
      ensures State() == if ok then Next(old(State()), TransactionRuns.Delete(record)) else old(State())
    {
      if record.rid.None? {
        return false;
      }
      deletes := deletes + [record];
      return true;
    }

    predicate PendingChanges()
      reads this, pending
    {
      |pending.creates| > 0 || |pending.updates| > 0 || |deletes| > 0
    }

    method SendChanges()
      modifies this`wire
      ensures wire == old(wire) + [RecordBatch(ContentOf(pending), deletes)]
    {
      wire := wire + [RecordBatch(Records(pending.creates, pending.updates), deletes)];
    }

    method SendBegin()
      modifies this`wire
      ensures wire == old(wire) + [TxBegin(ContentOf(pending), deletes)]
    {
      wire := wire + [TxBegin(Records(pending.creates, pending.updates), deletes)];
    }

    /** The message of a flush, if there is anything to say. */
    method StartFlush() returns (sent: bool)
      modifies this`wire
      ensures sent == Sends(old(State()))
      ensures wire == old(wire) + if sent then [Send(old(State()))] else []
    {
      if PendingChanges() {
        if begun {
          SendChanges();
        } else {
          SendBegin();
        }
        return true;
      } else if !begun {
        SendBegin();
        return true;
      }
      return false;
    }

    /** Also while other answers are awaited. */
    method Flush()
      modifies this`wire, this`awaiting
      ensures State() == Next(old(State()), TransactionRuns.Flush)
    {
      hide AllAwaited, Send, Sends, HeldLists;
      var sent := StartFlush();
      if sent {
        awaiting := awaiting + [FlushOf(pending)];
        OneMoreAwaited(old(awaiting), FlushOf(pending), pending);
      }
    }

    /** New arrays; the old ones stay with the flushes that captured them. */
    method ReplaceLists()
      modifies this`pending
      ensures fresh(pending) && ContentOf(pending) == Records([], [])
      ensures AllAwaited(awaiting, pending) == AllOutdated(old(AllAwaited(awaiting, pending)), old(ContentOf(pending)))
    {
      hide AllAwaited, AllOutdated, HeldLists;
      pending := new PendingLists();
      NowOutdated(awaiting, old(pending), pending);
    }

    /** The answer to a flush moves what the captured arrays hold now to the final lists; new arrays take their place. */
    method FlushAnswered(held: PendingLists)
      requires |awaiting| > 0 && !awaiting[0].CommitSent? && held == awaiting[0].held
      modifies this`begun, this`pending, this`finalCreated, this`finalUpdated, this`finalDeleted, this`awaiting
      ensures State() == Flushed(old(State()), old(HeldOf(held, pending)))
      ensures fresh(pending)
    {
      hide AllAwaited, AllOutdated, HeldLists, Outdated;
      begun := true;
      finalCreated := finalCreated + held.creates;
      finalUpdated := finalUpdated + held.updates;
      finalDeleted := finalDeleted + deletes;
      RestAwaited(awaiting, pending);
      awaiting := awaiting[1..];
      ReplaceLists();
    }

    method SendCommit(changes: Records<Record>)
      modifies this`finalCreated, this`finalUpdated, this`wire, this`awaiting
      ensures State() == Finalize(old(State()), changes)
    {
      hide AllAwaited, HeldLists;
      finalCreated := finalCreated + changes.creates;
      finalUpdated := finalUpdated + changes.updates;
      wire := wire + [TxCommit];
      awaiting := awaiting + [CommitSent];
      OneMoreAwaited(old(awaiting), CommitSent, pending);
    }

    method Commit(changes: Records<Record>)
      modifies this`wire, this`awaiting, this`finalCreated, this`finalUpdated
      ensures State() == Next(old(State()), TransactionRuns.Commit(changes))
    {
      hide AllAwaited, Send, Sends, HeldLists, Finalize;
      var sent := StartFlush();
      if sent {
        awaiting := awaiting + [CommitOf(pending, changes)];
        OneMoreAwaited(old(awaiting), CommitOf(pending, changes), pending);
      } else {
        assert wire == old(wire);
        assert State() == old(State());
        SendCommit(changes);
      }
    }

    /** The answer that comes next, whatever it answers. */
    method Answered()
      modifies this`begun, this`pending, this`finalCreated, this`finalUpdated, this`finalDeleted, this`awaiting, this`wire
      ensures State() == Next(old(State()), Answer)
    {
      hide AllAwaited, HeldLists, Flushed, Finalize;
      if |awaiting| == 0 {
        return;
      }
      RestAwaited(awaiting, pending);
      match awaiting[0]
      case FlushOf(held) => FlushAnswered(held);
      case CommitOf(held, changes) =>
        FlushAnswered(held);
        SendCommit(changes);
      case CommitSent =>
        awaiting := awaiting[1..];
    }

    /** The answer to a commit names the records that were created. */
    method CommitAnswered(results: seq<Created>) returns (created: seq<Record>)
      requires |awaiting| > 0 && awaiting[0].CommitSent?
      requires forall r :: r in finalCreated ==> r.rid.Some?
      modifies this`awaiting, finalCreated
      ensures State() == Next(old(State()), Answer)
      ensures var (h, found) := ApplyAll(old(Snapshot(finalCreated)), finalCreated, results);
        && Snapshot(finalCreated) == h && |created| == |results|
        && forall k :: 0 <= k < |results| ==> Stands(created[k], found[k], results[k])
    {
      hide ApplyAll, OwnRids, Covers, AllAwaited, HeldLists;
      RestAwaited(awaiting, pending);
      awaiting := awaiting[1..];
      created := ApplyCreated(results, finalCreated);
    }
  }

  lemma OneMoreAwaited(promised: seq<Promised>, p: Promised, current: PendingLists)
    ensures AllAwaited(promised + [p], current) == AllAwaited(promised, current) + [AwaitedOf(p, current)]
  {
  }

  lemma RestAwaited(promised: seq<Promised>, current: PendingLists)
    requires |promised| > 0
    ensures AllAwaited(promised[1..], current) == AllAwaited(promised, current)[1..]
    ensures AllAwaited(promised, current)[0] == AwaitedOf(promised[0], current)
  {
  }

  /**
   * Numbered records, a server that maps temporary identifiers to distinct permanent ones: every record created
   * ends with the identifier the server chose for it, and applying the answer again changes nothing.
   */
  lemma CreatedRecordsGetTheirRids(h: map<Record, Meta>, records: seq<Record>, results: seq<Created>)
    requires Covers(h, records) && OwnRids(h, records)
    requires forall r :: r in records ==> h[r].rid.Some? && h[r].rid.value.position < -1
    requires forall k :: 0 <= k < |results| ==> results[k].tmp.position < -1 <= results[k].rid.position
    requires forall i, j :: 0 <= i < j < |results| ==> results[i].tmp != results[j].tmp && results[i].rid != results[j].rid
    ensures var (h2, found) := ApplyAll(h, records, results);
      && (forall k, r :: 0 <= k < |results| && r in records && h[r].rid == Some(results[k].tmp) ==>
            found[k] == Some(r) && h2[r] == Meta(Some(results[k].rid), results[k].version))
      && (forall k :: 0 <= k < |results| && found[k].Some? ==> found[k].value in records)
      && ((forall k :: 0 <= k < |results| ==> Named(h, records, results[k])) ==>
            ApplyAll(h2, records, results) == (h2, found))
  {
    hide ApplyOne;
    assert FreshMapping(h, records, results);
    EachItsOwn(h, records, results);
    if forall k :: 0 <= k < |results| ==> Named(h, records, results[k]) {
      assert records + [] == records;
      ApplyAgain(h, records, [], results);
    }
  }
}
