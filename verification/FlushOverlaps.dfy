/**
 * Flushes that overlap. Every answer to a flush replaces the lists that records are added to, but moves the lists that
 * its own flush took; two flushes that took the same lists move them twice, and lists that no flush took are lost.
 */
module FlushOverlaps {
  import opened TransactionRuns

  /**
   * The lists replaced so far, oldest first, and for each flush sent the place of the lists it took among them and
   * what they held when it was sent.
   */
  datatype History<R> = History(lists: seq<Records<R>>, taken: seq<nat>, sent: seq<Records<R>>)

  function NewHistory<R>(): History<R> {
    History([], [], [])
  }

  function Track<R>(s: Tx<R>, h: History<R>, step: Step<R>): History<R> {
    if Starts(step) && Sends(s) then h.(taken := h.taken + [|h.lists|], sent := h.sent + [s.pending])
    else if step.Answer? && Clears(s) then h.(lists := h.lists + [s.pending])
    else h
  }

  function HistoryOf<R>(s: Tx<R>, h: History<R>, steps: seq<Step<R>>): History<R>
    decreases |steps|
  {
    if |steps| == 0 then h else HistoryOf(Next(s, steps[0]), Track(s, h, steps[0]), steps[1..])
  }

  // ---- the flushes under way and the history -----------------------------

  function HeldIn<R>(h: History<R>, place: nat): Held<R> {
    if place < |h.lists| then Replaced(h.lists[place]) else Current
  }

  /** A flush takes the lists of its time: its place is not above its own number, nor above that of the lists now. */
  predicate Ordered<R>(h: History<R>) {
    |h.lists| <= |h.taken| && forall i :: 0 <= i < |h.taken| ==> h.taken[i] <= i && h.taken[i] <= |h.lists|
  }

  ghost predicate Linked<R>(s: Tx<R>, h: History<R>) {
    var held, n := HeldBy(s.awaiting), |h.lists|;
    && Ordered(h)
    && |held| == |h.taken| - n
    && forall j :: 0 <= j < |held| ==> held[j] == HeldIn(h, h.taken[n + j])
  }

  lemma {:induction false} HeldByOutdated<R>(ws: seq<Awaited<R>>, records: Records<R>)
    ensures var held, after := HeldBy(ws), HeldBy(AllOutdated(ws, records));
      && |after| == |held|
      && forall j :: 0 <= j < |held| ==> after[j] == if held[j].Current? then Replaced(records) else held[j]
    decreases |ws|
  {
    if |ws| > 0 {
      HeldByOutdated(ws[1..], records);
      var all := AllOutdated(ws, records);
      assert all[1..] == AllOutdated(ws[1..], records);
      assert all[0] == Outdated(ws[0], records);
    }
  }

  lemma StartLinked<R>(s: Tx<R>, h: History<R>, step: Step<R>)
    requires Linked(s, h) && Starts(step)
    ensures Linked(Next(s, step), Track(s, h, step))
  {
    hide HeldBy, Send;
    HeldByMore(s.awaiting, Flushing(Current));
    if step.Commit? {
      HeldByMore(s.awaiting, Preparing(Current, step.changes));
    }
    HeldByMore(s.awaiting, Committing);
  }

  lemma AnswerLinked<R>(s: Tx<R>, h: History<R>)
    requires Linked(s, h)
    ensures Linked(Next(s, Answer), Track(s, h, Answer))
  {
    hide HeldBy, AllOutdated;
    if Clears(s) {
      FlushLinked(s, h);
      var rest := AllOutdated(s.awaiting[1..], s.pending);
      HeldByMore(rest, Committing);
    } else if |s.awaiting| > 0 {
      HeldByRest(s.awaiting);
    }
  }

  lemma FlushLinked<R>(s: Tx<R>, h: History<R>)
    requires Linked(s, h) && Clears(s)
    ensures var held, n := HeldBy(AllOutdated(s.awaiting[1..], s.pending)), |h.lists|;
      var next := h.(lists := h.lists + [s.pending]);
      && |h.taken| > n && s.awaiting[0].held == HeldIn(h, h.taken[n])
      && Ordered(next) && |held| == |h.taken| - n - 1
      && forall j :: 0 <= j < |held| ==> held[j] == HeldIn(next, h.taken[n + 1 + j])
  {
    hide HeldBy, AllOutdated;
    var n, before := |h.lists|, HeldBy(s.awaiting);
    HeldByOutdated(s.awaiting[1..], s.pending);
    RestHeld(s);
    var next := h.(lists := h.lists + [s.pending]);
    var held := HeldBy(AllOutdated(s.awaiting[1..], s.pending));
    assert before[0] == HeldIn(h, h.taken[n + 0]);
    forall j | 0 <= j < |held| ensures held[j] == HeldIn(next, h.taken[n + 1 + j]) {
      assert before[j + 1] == HeldBy(s.awaiting[1..])[j];
      assert before[j + 1] == HeldIn(h, h.taken[n + (j + 1)]);
    }
  }

  lemma RestHeld<R>(s: Tx<R>)
    requires Clears(s)
    ensures HeldBy(s.awaiting) == [s.awaiting[0].held] + HeldBy(s.awaiting[1..])
  {
  }

  // ---- what the final and pending lists hold -----------------------------

  /** Everything in the lists that were replaced. */
  ghost function Contents<R>(lists: seq<Records<R>>, kind: Kind): multiset<R> {
    if |lists| == 0 then multiset{} else Contents(lists[..|lists| - 1], kind) + multiset(lists[|lists| - 1].At(kind))
  }

  /** What the first n answers moved to the final list. */
  ghost function Moved<R>(h: History<R>, n: nat, kind: Kind): multiset<R>
    requires Ordered(h) && n <= |h.lists|
  {
    if n == 0 then multiset{} else Moved(h, n - 1, kind) + multiset(h.lists[h.taken[n - 1]].At(kind))
  }

  /** What a commit supplies when it is about to be sent. */
  function SuppliedBy<R>(s: Tx<R>, step: Step<R>, kind: Kind): seq<R> {
    if step.Add? then [] else RecordedBy(s, step, kind)
  }

  function Supplied<R>(s: Tx<R>, steps: seq<Step<R>>, kind: Kind): seq<R>
    decreases |steps|
  {
    if |steps| == 0 then [] else SuppliedBy(s, steps[0], kind) + Supplied(Next(s, steps[0]), steps[1..], kind)
  }

  ghost predicate Accounts<R>(s: Tx<R>, h: History<R>, kind: Kind, supplied: multiset<R>, recorded: multiset<R>) {
    && Linked(s, h)
    && multiset(s.final.At(kind)) == Moved(h, |h.lists|, kind) + supplied
    && recorded == Contents(h.lists, kind) + multiset(s.pending.At(kind)) + supplied
  }

  lemma {:induction false} MovedStays<R>(h: History<R>, h2: History<R>, n: nat, kind: Kind)
    requires Ordered(h) && Ordered(h2) && n <= |h.lists| && h.lists <= h2.lists && h.taken <= h2.taken
    ensures Moved(h2, n, kind) == Moved(h, n, kind)
  {
    if n > 0 {
      MovedStays(h, h2, n - 1, kind);
    }
  }

  lemma StartAccounts<R>(s: Tx<R>, h: History<R>, step: Step<R>, kind: Kind, supplied: multiset<R>, recorded: multiset<R>)
    requires Accounts(s, h, kind, supplied, recorded) && Starts(step)
    ensures Accounts(Next(s, step), Track(s, h, step), kind,
      supplied + multiset(SuppliedBy(s, step, kind)), recorded + multiset(RecordedBy(s, step, kind)))
  {
    hide HeldBy, Contents, Moved, Linked, Send, Sends;
    StartLinked(s, h, step);
    LinkedIsOrdered(s, h);
    LinkedIsOrdered(Next(s, step), Track(s, h, step));
    MovedStays(h, Track(s, h, step), |h.lists|, kind);
  }

  lemma LinkedIsOrdered<R>(s: Tx<R>, h: History<R>)
    requires Linked(s, h)
    ensures Ordered(h)
  {
  }

  lemma AddAccounts<R>(s: Tx<R>, h: History<R>, step: Step<R>, kind: Kind, supplied: multiset<R>, recorded: multiset<R>)
    requires Accounts(s, h, kind, supplied, recorded) && (step.Add? || step.Delete?)
    ensures Accounts(Next(s, step), Track(s, h, step), kind,
      supplied + multiset(SuppliedBy(s, step, kind)), recorded + multiset(RecordedBy(s, step, kind)))
  {
    hide HeldBy, Contents, Moved;
  }

  lemma FlushAccounts<R>(s: Tx<R>, h: History<R>, kind: Kind, supplied: multiset<R>, recorded: multiset<R>)
    requires Accounts(s, h, kind, supplied, recorded) && Clears(s)
    ensures var next, t := h.(lists := h.lists + [s.pending]), Flushed(s, s.awaiting[0].held);
      && Ordered(next)
      && multiset(t.final.At(kind)) == Moved(next, |next.lists|, kind) + supplied
      && recorded == Contents(next.lists, kind) + supplied && |t.pending.At(kind)| == 0
  {
    hide HeldBy, Contents, AllOutdated, Linked, Moved;
    var next, n := h.(lists := h.lists + [s.pending]), |h.lists|;
    LinkedIsOrdered(s, h);
    FlushLinked(s, h);
    MovedStays(h, next, n, kind);
    OneMoved(next, n, kind);
    ContentsMore(h.lists, s.pending, kind);
    var held := s.awaiting[0].held;
    assert Taken(s, held) == next.lists[h.taken[n]];
  }

  lemma OneMoved<R>(h: History<R>, n: nat, kind: Kind)
    requires Ordered(h) && n < |h.lists|
    ensures Moved(h, n + 1, kind) == Moved(h, n, kind) + multiset(h.lists[h.taken[n]].At(kind))
  {
  }

  lemma ContentsMore<R>(lists: seq<Records<R>>, list: Records<R>, kind: Kind)
    ensures Contents(lists + [list], kind) == Contents(lists, kind) + multiset(list.At(kind))
  {
    assert (lists + [list])[..|lists|] == lists;
  }

  lemma AnswerAccounts<R>(s: Tx<R>, h: History<R>, kind: Kind, supplied: multiset<R>, recorded: multiset<R>)
    requires Accounts(s, h, kind, supplied, recorded)
    ensures Accounts(Next(s, Answer), Track(s, h, Answer), kind,
      supplied + multiset(SuppliedBy(s, Answer, kind)), recorded + multiset(RecordedBy(s, Answer, kind)))
  {
    hide HeldBy, Contents, AllOutdated, Linked, Moved, Flushed;
    AnswerLinked(s, h);
    if Clears(s) {
      FlushAccounts(s, h, kind, supplied, recorded);
      var t, next, more := Flushed(s, s.awaiting[0].held), h.(lists := h.lists + [s.pending]), SuppliedBy(s, Answer, kind);
      assert RecordedBy(s, Answer, kind) == more;
      AnsweredLists(s, kind);
      MoreInBoth(t.final.At(kind), more, Moved(next, |next.lists|, kind), supplied);
    }
  }

  /** What an answer to a flush leaves: what the flush leaves, and the changes of a commit. */
  lemma AnsweredLists<R>(s: Tx<R>, kind: Kind)
    requires Clears(s)
    ensures var t, u := Flushed(s, s.awaiting[0].held), Next(s, Answer);
      && u.final.At(kind) == t.final.At(kind) + SuppliedBy(s, Answer, kind)
      && u.pending == t.pending
  {
    hide AllOutdated;
  }

  lemma MoreInBoth<R>(final: seq<R>, more: seq<R>, moved: multiset<R>, supplied: multiset<R>)
    requires multiset(final) == moved + supplied
    ensures multiset(final + more) == moved + (supplied + multiset(more))
  {
  }

  lemma StepAccounts<R>(s: Tx<R>, h: History<R>, step: Step<R>, kind: Kind, supplied: multiset<R>, recorded: multiset<R>)
    requires Accounts(s, h, kind, supplied, recorded)
    ensures Accounts(Next(s, step), Track(s, h, step), kind,
      supplied + multiset(SuppliedBy(s, step, kind)), recorded + multiset(RecordedBy(s, step, kind)))
  {
    hide Next, Track, Accounts, SuppliedBy, RecordedBy;
    match step
    case Answer => AnswerAccounts(s, h, kind, supplied, recorded);
    case Flush => StartAccounts(s, h, step, kind, supplied, recorded);
    case Commit(_) => StartAccounts(s, h, step, kind, supplied, recorded);
    case _ => AddAccounts(s, h, step, kind, supplied, recorded);
  }

  lemma {:induction false} RunAccounts<R>(s: Tx<R>, h: History<R>, steps: seq<Step<R>>, kind: Kind,
                                          supplied: multiset<R>, recorded: multiset<R>)
    requires Accounts(s, h, kind, supplied, recorded)
    ensures Accounts(RunSteps(s, steps), HistoryOf(s, h, steps), kind,
      supplied + multiset(Supplied(s, steps, kind)), recorded + multiset(Recorded(s, steps, kind)))
    decreases |steps|
  {
    hide Next, Track, Accounts, SuppliedBy, RecordedBy;
    if |steps| > 0 {
      var step, next := steps[0], Next(s, steps[0]);
      var more, noted := supplied + multiset(SuppliedBy(s, step, kind)), recorded + multiset(RecordedBy(s, step, kind));
      StepAccounts(s, h, step, kind, supplied, recorded);
      RunAccounts(next, Track(s, h, step), steps[1..], kind, more, noted);
      assert more + multiset(Supplied(next, steps[1..], kind)) == supplied + multiset(Supplied(s, steps, kind));
      assert noted + multiset(Recorded(next, steps[1..], kind)) == recorded + multiset(Recorded(s, steps, kind));
    } else {
      NothingMore(s, steps, kind);
      assert supplied + multiset(Supplied(s, steps, kind)) == supplied;
      assert recorded + multiset(Recorded(s, steps, kind)) == recorded;
    }
  }

  lemma NothingMore<R>(s: Tx<R>, steps: seq<Step<R>>, kind: Kind)
    requires |steps| == 0
    ensures |Supplied(s, steps, kind)| == 0 == |Recorded(s, steps, kind)|
  {
  }

  /** The history of a transaction from its start. */
  function Past<R>(steps: seq<Step<R>>): History<R> {
    HistoryOf(NewTx(), NewHistory(), steps)
  }

  /**
   * Over every run, whatever overlaps. The final list holds, for each flush that was answered, the lists it took, and
   * what the commits supplied. What was recorded is in the lists that were replaced, or pending, or supplied.
   */
  lemma FinalHolds<R>(steps: seq<Step<R>>, kind: Kind)
    ensures var t, h := RunSteps(NewTx(), steps), Past(steps);
      var supplied := multiset(Supplied(NewTx(), steps, kind));
      && Ordered(h)
      && multiset(t.final.At(kind)) == Moved(h, |h.lists|, kind) + supplied
      && multiset(Recorded(NewTx(), steps, kind)) == Contents(h.lists, kind) + multiset(t.pending.At(kind)) + supplied
  {
    hide RunSteps, HistoryOf, Supplied, Recorded;
    FirstAccounts<R>(kind);
    RunAccounts(NewTx<R>(), NewHistory<R>(), steps, kind, multiset{}, multiset{});
    var supplied, recorded := multiset(Supplied(NewTx<R>(), steps, kind)), multiset(Recorded(NewTx<R>(), steps, kind));
    assert multiset{} + supplied == supplied && multiset{} + recorded == recorded;
    LinkedIsOrdered(RunSteps(NewTx<R>(), steps), Past(steps));
  }

  lemma FirstAccounts<R>(kind: Kind)
    ensures Accounts(NewTx<R>(), NewHistory<R>(), kind, multiset{}, multiset{})
  {
  }

  // ---- when every record is kept once ------------------------------------

  /** Every list that was replaced with a record in it was taken by exactly one of the flushes answered. */
  ghost predicate TakenOnce<R>(h: History<R>, kind: Kind)
    requires Ordered(h)
  {
    forall k :: 0 <= k < |h.lists| && |h.lists[k].At(kind)| > 0 ==> multiset(h.taken[..|h.lists|])[k] == 1
  }

  lemma {:induction false} OneListInside<R>(lists: seq<Records<R>>, kind: Kind, k: nat, r: R)
    requires k < |lists|
    ensures multiset(lists[k].At(kind))[r] <= Contents(lists, kind)[r]
    decreases |lists|
  {
    if k < |lists| - 1 {
      OneListInside(lists[..|lists| - 1], kind, k, r);
    }
  }

  lemma {:induction false} TwoListsInside<R>(lists: seq<Records<R>>, kind: Kind, j: nat, k: nat, r: R)
    requires j < k < |lists|
    ensures multiset(lists[j].At(kind))[r] + multiset(lists[k].At(kind))[r] <= Contents(lists, kind)[r]
    decreases |lists|
  {
    var front := lists[..|lists| - 1];
    if k < |lists| - 1 {
      TwoListsInside(front, kind, j, k, r);
    } else {
      OneListInside(front, kind, j, r);
    }
  }

  ghost function Count<R>(h: History<R>, kind: Kind, k: nat, r: R): nat
    requires k < |h.lists|
  {
    multiset(h.lists[k].At(kind))[r]
  }

  /** The copies of a record in the first m lists, each list counted as often as `times` says. */
  ghost function Weighted<R>(h: History<R>, times: multiset<nat>, m: nat, kind: Kind, r: R): nat
    requires m <= |h.lists|
  {
    if m == 0 then 0 else Weighted(h, times, m - 1, kind, r) + times[m - 1] * Count(h, kind, m - 1, r)
  }

  lemma {:induction false} OneTimeMore<R>(h: History<R>, times: multiset<nat>, m: nat, kind: Kind, r: R, place: nat)
    requires m <= |h.lists| && place < |h.lists|
    ensures Weighted(h, times + multiset{place}, m, kind, r) ==
      Weighted(h, times, m, kind, r) + if place < m then Count(h, kind, place, r) else 0
    decreases m
  {
    hide Count;
    if m > 0 {
      OneTimeMore(h, times, m - 1, kind, r, place);
      if place == m - 1 {
        assert (times[place] + 1) * Count(h, kind, place, r) == times[place] * Count(h, kind, place, r) + Count(h, kind, place, r);
      }
    }
  }

  lemma {:induction false} NoTimes<R>(h: History<R>, m: nat, kind: Kind, r: R)
    requires m <= |h.lists|
    ensures Weighted(h, multiset{}, m, kind, r) == 0
  {
    if m > 0 {
      NoTimes(h, m - 1, kind, r);
    }
  }

  /** What was moved, list by list: each as often as it was taken. */
  lemma {:induction false} MovedWeighted<R>(h: History<R>, n: nat, kind: Kind, r: R)
    requires Ordered(h) && n <= |h.lists|
    ensures Moved(h, n, kind)[r] == Weighted(h, multiset(h.taken[..n]), |h.lists|, kind, r)
    decreases n
  {
    hide Moved, Weighted;
    if n == 0 {
      NoneMoved(h, kind);
      NoTimes(h, |h.lists|, kind, r);
      assert multiset(h.taken[..0]) == multiset{};
    } else {
      var place := h.taken[n - 1];
      MovedWeighted(h, n - 1, kind, r);
      OneMoved(h, n - 1, kind);
      OneTimeMore(h, multiset(h.taken[..n - 1]), |h.lists|, kind, r, place);
      assert h.taken[..n] == h.taken[..n - 1] + [place];
      assert multiset(h.taken[..n]) == multiset(h.taken[..n - 1]) + multiset{place};
    }
  }

  lemma NoneMoved<R>(h: History<R>, kind: Kind)
    requires Ordered(h)
    ensures Moved(h, 0, kind) == multiset{}
  {
  }

  lemma {:induction false} OnceWeighted<R>(h: History<R>, m: nat, kind: Kind, r: R)
    requires Ordered(h) && m <= |h.lists| && TakenOnce(h, kind)
    ensures Weighted(h, multiset(h.taken[..|h.lists|]), m, kind, r) == Contents(h.lists[..m], kind)[r]
    decreases m
  {
    hide Contents, Weighted, TakenOnce;
    if m > 0 {
      OnceWeighted(h, m - 1, kind, r);
      assert h.lists[..m] == h.lists[..m - 1] + [h.lists[m - 1]];
      ContentsMore(h.lists[..m - 1], h.lists[m - 1], kind);
      OneListOnce(h, m - 1, kind, r);
    } else {
      assert Contents(h.lists[..0], kind) == multiset{} by { NoContents(h.lists[..0], kind); }
      assert Weighted(h, multiset(h.taken[..|h.lists|]), 0, kind, r) == 0 by { NoWeight(h, multiset(h.taken[..|h.lists|]), kind, r); }
    }
  }

  lemma NoContents<R>(lists: seq<Records<R>>, kind: Kind)
    requires |lists| == 0
    ensures Contents(lists, kind) == multiset{}
  {
  }

  lemma NoWeight<R>(h: History<R>, times: multiset<nat>, kind: Kind, r: R)
    ensures Weighted(h, times, 0, kind, r) == 0
  {
  }

  lemma OneListOnce<R>(h: History<R>, k: nat, kind: Kind, r: R)
    requires Ordered(h) && k < |h.lists| && TakenOnce(h, kind)
    ensures var times := multiset(h.taken[..|h.lists|]);
      Weighted(h, times, k + 1, kind, r) == Weighted(h, times, k, kind, r) + multiset(h.lists[k].At(kind))[r]
  {
    var times := multiset(h.taken[..|h.lists|]);
    if |h.lists[k].At(kind)| > 0 {
      assert times[k] == 1;
    } else {
      assert Count(h, kind, k, r) == 0;
    }
  }

  /** A record that stands once in one list is moved as often as that list was taken. */
  lemma {:induction false} OneWeighted<R>(h: History<R>, times: multiset<nat>, m: nat, kind: Kind, k: nat, r: R)
    requires k < |h.lists| && m <= |h.lists| && multiset(h.lists[k].At(kind))[r] == 1
    requires forall j :: 0 <= j < |h.lists| && j != k ==> r !in h.lists[j].At(kind)
    ensures Weighted(h, times, m, kind, r) == if k < m then times[k] else 0
    decreases m
  {
    if m > 0 {
      OneWeighted(h, times, m - 1, kind, k, r);
      assert Count(h, kind, m - 1, r) == if k == m - 1 then 1 else 0;
    }
  }

  lemma OnlyThere<R>(h: History<R>, kind: Kind, k: nat, r: R)
    requires k < |h.lists| && r in h.lists[k].At(kind) && Contents(h.lists, kind)[r] <= 1
    ensures multiset(h.lists[k].At(kind))[r] == 1 == Contents(h.lists, kind)[r]
    ensures forall j :: 0 <= j < |h.lists| && j != k ==> r !in h.lists[j].At(kind)
  {
    hide Contents;
    OneListInside(h.lists, kind, k, r);
    forall j | 0 <= j < |h.lists| && j != k ensures r !in h.lists[j].At(kind) {
      if j < k {
        TwoListsInside(h.lists, kind, j, k, r);
      } else {
        TwoListsInside(h.lists, kind, k, j, r);
      }
    }
  }

  lemma SameCounts<R>(a: multiset<R>, b: multiset<R>)
    requires forall r :: a[r] == b[r]
    ensures a == b
  {
  }

  lemma OnceIsMoved<R>(h: History<R>, kind: Kind)
    requires Ordered(h) && TakenOnce(h, kind)
    ensures Moved(h, |h.lists|, kind) == Contents(h.lists, kind)
  {
    hide Contents, Moved, Weighted;
    var moved, contents := Moved(h, |h.lists|, kind), Contents(h.lists, kind);
    assert h.lists[..|h.lists|] == h.lists;
    forall r ensures moved[r] == contents[r] {
      MovedWeighted(h, |h.lists|, kind, r);
      OnceWeighted(h, |h.lists|, kind, r);
    }
    SameCounts(moved, contents);
  }

  lemma MovedIsOnce<R>(h: History<R>, kind: Kind)
    requires Ordered(h) && forall r :: Contents(h.lists, kind)[r] <= 1
    requires Moved(h, |h.lists|, kind) == Contents(h.lists, kind)
    ensures TakenOnce(h, kind)
  {
    hide Contents, Moved, Weighted;
    var times := multiset(h.taken[..|h.lists|]);
    forall k | 0 <= k < |h.lists| && |h.lists[k].At(kind)| > 0 ensures times[k] == 1 {
      var r := h.lists[k].At(kind)[0];
      OnlyThere(h, kind, k, r);
      MovedWeighted(h, |h.lists|, kind, r);
      OneWeighted(h, times, |h.lists|, kind, k, r);
    }
  }

  /**
   * Over every run, whatever overlaps: if every list that was replaced with a record in it was taken by exactly one of
   * the flushes answered, the final and the pending list together hold every record as often as it was recorded. For
   * records that are each recorded once it is only then.
   */
  lemma KeptOnceIff<R>(steps: seq<Step<R>>, kind: Kind)
    ensures Ordered(Past(steps))
    ensures var recorded := multiset(Recorded(NewTx(), steps, kind));
      var kept := multiset(FinalThenPending(RunSteps(NewTx(), steps), kind)) == recorded;
      && (TakenOnce(Past(steps), kind) ==> kept)
      && ((forall r :: recorded[r] <= 1) ==> (kept <==> TakenOnce(Past(steps), kind)))
  {
    hide RunSteps, Past, Recorded, Supplied, Moved, Contents, TakenOnce;
    FinalHolds(steps, kind);
    var t, h := RunSteps(NewTx<R>(), steps), Past(steps);
    var recorded := multiset(Recorded(NewTx<R>(), steps, kind));
    var moved, contents := Moved(h, |h.lists|, kind), Contents(h.lists, kind);
    var pending, supplied := multiset(t.pending.At(kind)), multiset(Supplied(NewTx<R>(), steps, kind));
    assert multiset(FinalThenPending(t, kind)) == moved + supplied + pending;
    Cancelled(moved, contents, pending, supplied);
    if TakenOnce(h, kind) {
      OnceIsMoved(h, kind);
    }
    if moved == contents && forall r :: recorded[r] <= 1 {
      forall r ensures contents[r] <= 1 {
        assert contents[r] <= recorded[r];
      }
      MovedIsOnce(h, kind);
    }
  }

  lemma Cancelled<R>(a: multiset<R>, b: multiset<R>, c: multiset<R>, d: multiset<R>)
    ensures a + d + c == b + c + d <==> a == b
  {
    if a + d + c == b + c + d {
      forall r ensures a[r] == b[r] {
        assert (a + d + c)[r] == (b + c + d)[r];
      }
    }
  }

  // ---- when every record is sent once ------------------------------------

  function ListAt<R>(s: Tx<R>, h: History<R>, place: nat): Records<R> {
    if place < |h.lists| then h.lists[place] else s.pending
  }

  /** What the flushes carried, one after the other. */
  ghost function AllSent<R>(sent: seq<Records<R>>, kind: Kind): multiset<R> {
    if |sent| == 0 then multiset{} else AllSent(sent[..|sent| - 1], kind) + multiset(sent[|sent| - 1].At(kind))
  }

  /** Each flush carried the front of the lists it took; nothing else was sent. */
  ghost predicate Carried<R>(s: Tx<R>, h: History<R>, kind: Kind) {
    && |h.sent| == |h.taken|
    && (forall i :: 0 <= i < |h.taken| ==> h.taken[i] <= |h.lists| && h.sent[i].At(kind) <= ListAt(s, h, h.taken[i]).At(kind))
    && multiset(Sent(s.wire, kind)) == AllSent(h.sent, kind)
  }

  lemma AllSentMore<R>(sent: seq<Records<R>>, records: Records<R>, kind: Kind)
    ensures AllSent(sent + [records], kind) == AllSent(sent, kind) + multiset(records.At(kind))
  {
    assert (sent + [records])[..|sent|] == sent;
  }

  lemma StartCarried<R>(s: Tx<R>, h: History<R>, step: Step<R>, kind: Kind)
    requires Carried(s, h, kind) && Starts(step)
    ensures Carried(Next(s, step), Track(s, h, step), kind)
  {
    hide Sent, AllSent, Sends;
    SentOneMore(s.wire, Send(s), kind);
    SentOneMore(s.wire, TxCommit, kind);
    AllSentMore(h.sent, s.pending, kind);
  }

  lemma RestCarried<R>(s: Tx<R>, h: History<R>, step: Step<R>, kind: Kind)
    requires Carried(s, h, kind) && !Starts(step)
    ensures Carried(Next(s, step), Track(s, h, step), kind)
  {
    hide Sent, AllSent, AllOutdated;
    SentOneMore(s.wire, TxCommit, kind);
  }

  lemma {:induction false} RunCarried<R>(s: Tx<R>, h: History<R>, steps: seq<Step<R>>, kind: Kind)
    requires Carried(s, h, kind)
    ensures Carried(RunSteps(s, steps), HistoryOf(s, h, steps), kind)
    decreases |steps|
  {
    hide Next, Track, Carried;
    if |steps| > 0 {
      if Starts(steps[0]) {
        StartCarried(s, h, steps[0], kind);
      } else {
        RestCarried(s, h, steps[0], kind);
      }
      RunCarried(Next(s, steps[0]), Track(s, h, steps[0]), steps[1..], kind);
    }
  }

  /** How many of the first n flushes carried the record at a place of a list. */
  function TimesSent<R>(h: History<R>, n: nat, kind: Kind, list: nat, at: nat): nat
    requires n <= |h.taken| && |h.sent| == |h.taken|
  {
    if n == 0 then 0
    else TimesSent(h, n - 1, kind, list, at) + if h.taken[n - 1] == list && at < |h.sent[n - 1].At(kind)| then 1 else 0
  }

  /** Every record in a list that was replaced went out with exactly one flush. */
  ghost predicate SentOnce<R>(h: History<R>, kind: Kind)
    requires |h.sent| == |h.taken|
  {
    forall list, at :: 0 <= list < |h.lists| && 0 <= at < |h.lists[list].At(kind)| ==>
      TimesSent(h, |h.taken|, kind, list, at) == 1
  }

  lemma OnceInside<R>(xs: seq<R>, front: seq<R>, at: nat)
    requires front <= xs && at < |xs| && multiset(xs)[xs[at]] == 1
    ensures multiset(front)[xs[at]] == if at < |front| then 1 else 0
  {
    var back := xs[|front|..];
    assert xs == front + back;
    if at < |front| {
      assert xs[at] in front;
    } else {
      assert back[at - |front|] == xs[at] && xs[at] in back;
    }
  }

  /** A record that stands once in one list was sent as often as its place was. */
  lemma {:induction false} SentAsPlaced<R>(h: History<R>, n: nat, kind: Kind, list: nat, at: nat)
    requires |h.sent| == |h.taken| && n <= |h.taken| && list < |h.lists| && at < |h.lists[list].At(kind)|
    requires forall i :: 0 <= i < n ==> h.taken[i] < |h.lists| && h.sent[i].At(kind) <= h.lists[h.taken[i]].At(kind)
    requires var r := h.lists[list].At(kind)[at];
      multiset(h.lists[list].At(kind))[r] == 1 && forall j :: 0 <= j < |h.lists| && j != list ==> r !in h.lists[j].At(kind)
    ensures AllSent(h.sent[..n], kind)[h.lists[list].At(kind)[at]] == TimesSent(h, n, kind, list, at)
    decreases n
  {
    hide AllSent;
    if n == 0 {
      NothingSent(h.sent[..0], kind);
    } else {
      SentAsPlaced(h, n - 1, kind, list, at);
      var r, front, place := h.lists[list].At(kind)[at], h.sent[n - 1].At(kind), h.taken[n - 1];
      assert h.sent[..n] == h.sent[..n - 1] + [h.sent[n - 1]];
      AllSentMore(h.sent[..n - 1], h.sent[n - 1], kind);
      if place == list {
        OnceInside(h.lists[list].At(kind), front, at);
      } else {
        assert r !in front;
      }
    }
  }

  lemma NothingSent<R>(sent: seq<Records<R>>, kind: Kind)
    requires |sent| == 0
    ensures AllSent(sent, kind) == multiset{}
  {
  }

  lemma {:induction false} NeverSent<R>(h: History<R>, n: nat, kind: Kind, r: R)
    requires |h.sent| == |h.taken| && n <= |h.taken|
    requires forall i :: 0 <= i < n ==> h.taken[i] < |h.lists| && h.sent[i].At(kind) <= h.lists[h.taken[i]].At(kind)
    requires forall j :: 0 <= j < |h.lists| ==> r !in h.lists[j].At(kind)
    ensures AllSent(h.sent[..n], kind)[r] == 0
    decreases n
  {
    hide AllSent;
    if n == 0 {
      NothingSent(h.sent[..0], kind);
    } else {
      NeverSent(h, n - 1, kind, r);
      assert h.sent[..n] == h.sent[..n - 1] + [h.sent[n - 1]];
      AllSentMore(h.sent[..n - 1], h.sent[n - 1], kind);
      assert r !in h.sent[n - 1].At(kind);
    }
  }

  lemma {:induction false} InNoList<R>(lists: seq<Records<R>>, kind: Kind, r: R)
    requires forall k :: 0 <= k < |lists| ==> r !in lists[k].At(kind)
    ensures Contents(lists, kind)[r] == 0
    decreases |lists|
  {
    if |lists| > 0 {
      var front := lists[..|lists| - 1];
      assert forall k :: 0 <= k < |front| ==> front[k] == lists[k];
      InNoList(front, kind, r);
    }
  }

  lemma SentIsContents<R>(h: History<R>, kind: Kind)
    requires |h.sent| == |h.taken| && forall r :: Contents(h.lists, kind)[r] <= 1
    requires forall i :: 0 <= i < |h.taken| ==> h.taken[i] < |h.lists| && h.sent[i].At(kind) <= h.lists[h.taken[i]].At(kind)
    ensures AllSent(h.sent, kind) == Contents(h.lists, kind) <==> SentOnce(h, kind)
  {
    hide Contents, AllSent, TimesSent;
    var sent, contents, n := AllSent(h.sent, kind), Contents(h.lists, kind), |h.taken|;
    assert h.sent[..n] == h.sent;
    forall list, at | 0 <= list < |h.lists| && 0 <= at < |h.lists[list].At(kind)|
      ensures var r := h.lists[list].At(kind)[at]; contents[r] == 1 && sent[r] == TimesSent(h, n, kind, list, at)
    {
      OnlyThere(h, kind, list, h.lists[list].At(kind)[at]);
      SentAsPlaced(h, n, kind, list, at);
    }
    if SentOnce(h, kind) {
      forall r ensures sent[r] == contents[r] {
        if list :| 0 <= list < |h.lists| && r in h.lists[list].At(kind) {
          var at :| 0 <= at < |h.lists[list].At(kind)| && h.lists[list].At(kind)[at] == r;
        } else {
          InNoList(h.lists, kind, r);
          NeverSent(h, n, kind, r);
        }
      }
      SameCounts(sent, contents);
    }
  }

  lemma {:induction false} AddedAndSupplied<R>(s: Tx<R>, steps: seq<Step<R>>, kind: Kind)
    ensures multiset(Recorded(s, steps, kind)) == multiset(Added(steps, kind)) + multiset(Supplied(s, steps, kind))
    decreases |steps|
  {
    hide Next;
    if |steps| > 0 {
      var next := Next(s, steps[0]);
      AddedAndSupplied(next, steps[1..], kind);
      assert Recorded(s, steps, kind) == RecordedBy(s, steps[0], kind) + Recorded(next, steps[1..], kind);
      assert Added(steps, kind) == AddedBy(steps[0], kind) + Added(steps[1..], kind);
      assert Supplied(s, steps, kind) == SuppliedBy(s, steps[0], kind) + Supplied(next, steps[1..], kind);
    }
  }

  /**
   * Over every run, whatever overlaps, whose flushes have been answered, of records each added once: what was sent and
   * what is pending are the records added, exactly once each, if and only if every record in a list that was replaced
   * went out with exactly one flush.
   */
  lemma SentOnceIff<R>(steps: seq<Step<R>>, kind: Kind)
    requires |HeldBy(RunSteps(NewTx(), steps).awaiting)| == 0
    requires forall r :: multiset(Added(steps, kind))[r] <= 1
    ensures |Past(steps).sent| == |Past(steps).taken|
    ensures var t := RunSteps(NewTx(), steps);
      multiset(Sent(t.wire, kind) + t.pending.At(kind)) == multiset(Added(steps, kind)) <==> SentOnce(Past(steps), kind)
  {
    hide RunSteps, HistoryOf, Recorded, Supplied, Added, Moved, Contents, SentOnce, AllSent, Sent, HeldBy;
    var t, h := RunSteps(NewTx<R>(), steps), Past(steps);
    FirstCarried<R>(kind);
    RunCarried(NewTx<R>(), NewHistory<R>(), steps, kind);
    FinalHolds(steps, kind);
    AllTaken(steps, kind);
    AddedAndSupplied(NewTx<R>(), steps, kind);
    var added, pending := multiset(Added(steps, kind)), multiset(t.pending.At(kind));
    var contents, supplied := Contents(h.lists, kind), multiset(Supplied(NewTx<R>(), steps, kind));
    AddedIs(added, contents, pending, supplied);
    SentIsContents(h, kind);
    assert multiset(Sent(t.wire, kind) + t.pending.At(kind)) == AllSent(h.sent, kind) + pending;
    Cancelled(AllSent(h.sent, kind), contents, pending, multiset{});
  }

  lemma AddedIs<R>(added: multiset<R>, contents: multiset<R>, pending: multiset<R>, supplied: multiset<R>)
    requires added + supplied == contents + pending + supplied && forall r :: added[r] <= 1
    ensures added == contents + pending && forall r :: contents[r] <= 1
  {
    forall r ensures added[r] == contents[r] + pending[r] {
      assert (added + supplied)[r] == (contents + pending + supplied)[r];
    }
    SameCounts(added, contents + pending);
  }

  lemma FirstCarried<R>(kind: Kind)
    ensures Carried(NewTx<R>(), NewHistory<R>(), kind)
  {
  }

  /** With no flush under way every flush took lists that have been replaced. */
  lemma AllTaken<R>(steps: seq<Step<R>>, kind: Kind)
    requires |HeldBy(RunSteps(NewTx(), steps).awaiting)| == 0
    ensures var h := Past(steps); forall i :: 0 <= i < |h.taken| ==> h.taken[i] < |h.lists|
  {
    hide RunSteps, HistoryOf, Recorded, Supplied, Moved, Contents, HeldBy;
    FirstAccounts<R>(kind);
    RunAccounts(NewTx<R>(), NewHistory<R>(), steps, kind, multiset{}, multiset{});
  }

  // ---- two flushes that take the same lists ------------------------------

  const NONE: Records<nat> := Records([], [])

  /** A record is created and two flushes are started; the answer to the first has come. */
  const TWO_FLUSHES: seq<Step<nat>> := [Add(Creates, 7), Flush, Flush, Answer]

  function OneAnswered(): Tx<nat> {
    var list: Records<nat> := Records([7], []);
    Tx(true, NONE, [], list, [], [TxBegin(list, [])] + [TxBegin(list, [])], [Flushing(Replaced(list))])
  }

  lemma AfterOneAnswer()
    ensures RunSteps(NewTx(), TWO_FLUSHES) == OneAnswered()
  {
    hide RunSteps, AllOutdated;
    FourSteps(NewTx<nat>(), Add(Creates, 7), Flush, Flush, Answer);
    var list: Records<nat> := Records([7], []);
    var t1: Tx<nat> := Tx(false, list, [], NONE, [], [], []);
    assert Next(NewTx<nat>(), Add(Creates, 7)) == t1;
    var t2: Tx<nat> := Tx(false, list, [], NONE, [], [TxBegin(list, [])], [Flushing(Current)]);
    assert Next(t1, Flush) == t2;
    var t3: Tx<nat> :=
      Tx(false, list, [], NONE, [], [TxBegin(list, [])] + [TxBegin(list, [])], [Flushing(Current)] + [Flushing(Current)]);
    assert Next(t2, Flush) == t3;
    assert t3.awaiting[1..] == [Flushing(Current)];
    assert AllOutdated([Flushing(Current)], list) == [Flushing(Replaced(list))];
    assert Next(t3, Answer) == OneAnswered();
  }

  /** The answer to the second flush moves the record again; one recorded in between is then in no list. */
  lemma TakenTwice()
    ensures var t := RunSteps(NewTx(), TWO_FLUSHES + [Answer]);
      t.final.creates == [7, 7] && t.pending.creates == []
    ensures var t := RunSteps(NewTx(), TWO_FLUSHES + [Add(Creates, 8)] + [Answer]);
      t.final.creates == [7, 7] && t.pending.creates == []
  {
    hide RunSteps, AllOutdated;
    AfterOneAnswer();
    RunInTwo(NewTx<nat>(), TWO_FLUSHES, [Answer]);
    OneStep(OneAnswered(), Answer);
    RunInTwo(NewTx<nat>(), TWO_FLUSHES, [Add(Creates, 8)]);
    OneStep(OneAnswered(), Add(Creates, 8));
    RunInTwo(NewTx<nat>(), TWO_FLUSHES + [Add(Creates, 8)], [Answer]);
    OneStep(Next(OneAnswered(), Add(Creates, 8)), Answer);
  }
}
