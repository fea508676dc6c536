/** Runs of a transaction: what is pending, what went over the wire, and what the transaction believes went. */
module TransactionRuns {

  /** The two kinds of pending records; they are treated alike. */
  datatype Kind = Creates | Updates

  datatype Records<R> = Records(creates: seq<R>, updates: seq<R>) {
    function At(kind: Kind): seq<R> {
      match kind case Creates => creates case Updates => updates
    }

    function Plus(more: Records<R>): Records<R> {
      Records(creates + more.creates, updates + more.updates)
    }

    function With(kind: Kind, r: R): Records<R> {
      match kind
      case Creates => this.(creates := creates + [r])
      case Updates => this.(updates := updates + [r])
    }
  }

  datatype Message<R> =
    | TxBegin(records: Records<R>, deletes: seq<R>)
    | RecordBatch(records: Records<R>, deletes: seq<R>)
    | TxCommit
  {
    function Part(kind: Kind): seq<R> {
      if TxCommit? then [] else records.At(kind)
    }

    function Deleted(): seq<R> {
      if TxCommit? then [] else deletes
    }
  }

  /** The lists a flush took: those that records are added to still, or lists replaced since, with what they hold. */
  datatype Held<R> = Current | Replaced(records: Records<R>)

  /** An answer that is awaited: to a flush, to the flush a commit starts with, or to the commit itself. */
  datatype Awaited<R> = Flushing(held: Held<R>) | Preparing(held: Held<R>, changes: Records<R>) | Committing {
    predicate IsFlush() {
      !Committing?
    }
  }

  /** The answers come in the order of the messages; `awaiting` holds those that have not come. */
  datatype Tx<R> = Tx(
    begun: bool,
    pending: Records<R>,
    deletes: seq<R>,
    final: Records<R>,
    finalDeleted: seq<R>,
    wire: seq<Message<R>>,
    awaiting: seq<Awaited<R>>)

  function NewTx<R>(): Tx<R> {
    Tx(false, Records([], []), [], Records([], []), [], [], [])
  }

  datatype Step<R> = Add(kind: Kind, record: R) | Delete(record: R) | Flush | Commit(changes: Records<R>) | Answer

  predicate HasChanges<R>(s: Tx<R>) {
    |s.pending.creates| > 0 || |s.pending.updates| > 0 || |s.deletes| > 0
  }

  /** A flush sends nothing only when the transaction has begun and nothing is pending. */
  predicate Sends<R>(s: Tx<R>) {
    !s.begun || HasChanges(s)
  }

  /** The message that begins the transaction, or one more batch. */
  function Send<R>(s: Tx<R>): Message<R> {
    if s.begun then RecordBatch(s.pending, s.deletes) else TxBegin(s.pending, s.deletes)
  }

  function Finalize<R>(s: Tx<R>, changes: Records<R>): Tx<R> {
    s.(final := s.final.Plus(changes), wire := s.wire + [TxCommit], awaiting := s.awaiting + [Committing])
  }

  function Taken<R>(s: Tx<R>, held: Held<R>): Records<R> {
    if held.Current? then s.pending else held.records
  }

  function Outdated<R>(w: Awaited<R>, records: Records<R>): Awaited<R> {
    if w.IsFlush() && w.held.Current? then w.(held := Replaced(records)) else w
  }

  function AllOutdated<R>(ws: seq<Awaited<R>>, records: Records<R>): (r: seq<Awaited<R>>)
    ensures |r| == |ws| && forall i :: 0 <= i < |ws| ==> r[i] == Outdated(ws[i], records)
  {
    if |ws| == 0 then [] else [Outdated(ws[0], records)] + AllOutdated(ws[1..], records)
  }

  /**
   * The answer to a flush: the lists it took count as sent, whatever they hold by now, and new ones replace those
   * that records were added to, which need not be the same. The deletes are not cleared.
   */
  function Flushed<R>(s: Tx<R>, held: Held<R>): Tx<R>
    requires |s.awaiting| > 0
  {
    s.(begun := true,
       pending := Records([], []),
       final := s.final.Plus(Taken(s, held)),
       finalDeleted := s.finalDeleted + s.deletes,
       awaiting := AllOutdated(s.awaiting[1..], s.pending))
  }

  function Next<R>(s: Tx<R>, step: Step<R>): Tx<R> {
    match step
    case Add(kind, r) => s.(pending := s.pending.With(kind, r))
    case Delete(r) => s.(deletes := s.deletes + [r])
    case Flush =>
      if Sends(s) then s.(wire := s.wire + [Send(s)], awaiting := s.awaiting + [Flushing(Current)]) else s
    case Commit(changes) =>
      if Sends(s) then s.(wire := s.wire + [Send(s)], awaiting := s.awaiting + [Preparing(Current, changes)])
      else Finalize(s, changes)
    case Answer =>
      if |s.awaiting| == 0 then s
      else
        match s.awaiting[0]
        case Flushing(held) => Flushed(s, held)
        case Preparing(held, changes) => Finalize(Flushed(s, held), changes)
        case Committing => s.(awaiting := s.awaiting[1..])
  }

  function RunSteps<R>(s: Tx<R>, steps: seq<Step<R>>): Tx<R>
    decreases |steps|
  {
    if steps == [] then s else RunSteps(Next(s, steps[0]), steps[1..])
  }

  lemma {:induction false} RunInTwo<R>(s: Tx<R>, steps: seq<Step<R>>, more: seq<Step<R>>)
    ensures RunSteps(s, steps + more) == RunSteps(RunSteps(s, steps), more)
    decreases |steps|
  {
    hide Next;
    if steps == [] {
      assert steps + more == more;
    } else {
      assert (steps + more)[0] == steps[0] && (steps + more)[1..] == steps[1..] + more;
      RunInTwo(Next(s, steps[0]), steps[1..], more);
    }
  }

  lemma OneStep<R>(s: Tx<R>, step: Step<R>)
    ensures RunSteps(s, [step]) == Next(s, step)
  {
    assert |[step][1..]| == 0;
  }

  predicate Starts<R>(step: Step<R>) {
    step.Flush? || step.Commit?
  }

  /** No flush or commit is started while an answer is awaited. */
  predicate Alone<R>(s: Tx<R>, step: Step<R>) {
    Starts(step) ==> |s.awaiting| == 0
  }

  predicate NoOverlap<R>(s: Tx<R>, steps: seq<Step<R>>)
    decreases |steps|
  {
    |steps| == 0 || (Alone(s, steps[0]) && NoOverlap(Next(s, steps[0]), steps[1..]))
  }

  /** The answer that comes next is one to a flush. */
  predicate Clears<R>(s: Tx<R>) {
    |s.awaiting| > 0 && s.awaiting[0].IsFlush()
  }

  // ---- one begin, then batches and commits -------------------------------

  predicate WellOpened<R>(s: Tx<R>) {
    && |s.awaiting| <= 1
    && if |s.wire| == 0 then !s.begun && |s.awaiting| == 0
       else
         && s.wire[0].TxBegin?
         && (forall k :: 0 < k < |s.wire| ==> !s.wire[k].TxBegin?)
         && (s.begun || Clears(s))
  }

  lemma {:induction false} StaysWellOpened<R>(s: Tx<R>, steps: seq<Step<R>>)
    requires WellOpened(s) && NoOverlap(s, steps)
    ensures WellOpened(RunSteps(s, steps))
    decreases |steps|
  {
    if steps != [] {
      StaysWellOpened(Next(s, steps[0]), steps[1..]);
    }
  }

  /** Over every run without overlapping flushes the wire holds one begin, in front of everything else. */
  lemma OneBegin<R>(steps: seq<Step<R>>)
    requires NoOverlap(NewTx(), steps)
    ensures var wire := RunSteps(NewTx(), steps).wire;
      wire == [] || (wire[0].TxBegin? && forall k :: 0 < k < |wire| ==> !wire[k].TxBegin?)
  {
    StaysWellOpened(NewTx<R>(), steps);
  }

  function Begins<R>(wire: seq<Message<R>>): nat {
    if |wire| == 0 then 0 else Begins(wire[..|wire| - 1]) + if wire[|wire| - 1].TxBegin? then 1 else 0
  }

  /** How many flushes and commits are started before the first answer to one of them. */
  function Early<R>(started: bool, steps: seq<Step<R>>): nat
    decreases |steps|
  {
    if |steps| == 0 || (started && steps[0].Answer?) then 0
    else (if Starts(steps[0]) then 1 else 0) + Early(started || Starts(steps[0]), steps[1..])
  }

  lemma BeginsOneMore<R>(wire: seq<Message<R>>, m: Message<R>)
    ensures Begins(wire + [m]) == Begins(wire) + if m.TxBegin? then 1 else 0
  {
    assert (wire + [m])[..|wire|] == wire;
  }

  lemma StepBegins<R>(s: Tx<R>, step: Step<R>)
    ensures Begins(Next(s, step).wire) == Begins(s.wire) + if !s.begun && Starts(step) then 1 else 0
    ensures Next(s, step).begun <==> s.begun || (step.Answer? && Clears(s))
  {
    hide Begins;
    BeginsOneMore(s.wire, Send(s));
    BeginsOneMore(s.wire, TxCommit);
  }

  lemma {:induction false} BeginsStay<R>(s: Tx<R>, steps: seq<Step<R>>)
    requires s.begun
    ensures Begins(RunSteps(s, steps).wire) == Begins(s.wire)
    decreases |steps|
  {
    hide Next, Begins;
    if steps != [] {
      StepBegins(s, steps[0]);
      BeginsStay(Next(s, steps[0]), steps[1..]);
    }
  }

  predicate Unopened<R>(s: Tx<R>) {
    !s.begun && forall i :: 0 <= i < |s.awaiting| ==> s.awaiting[i].IsFlush()
  }

  lemma {:induction false} EarlyBegins<R>(s: Tx<R>, steps: seq<Step<R>>)
    requires Unopened(s)
    ensures Begins(RunSteps(s, steps).wire) == Begins(s.wire) + Early(|s.awaiting| > 0, steps)
    decreases |steps|
  {
    hide Begins, AllOutdated;
    if steps != [] {
      var next := Next(s, steps[0]);
      StepBegins(s, steps[0]);
      if next.begun {
        BeginsStay(next, steps[1..]);
      } else {
        EarlyBegins(next, steps[1..]);
      }
    }
  }

  /**
   * Over every run, whatever overlaps: a begin is sent for each flush and commit started before the first answer, so
   * there is one begin exactly when one of them was.
   */
  lemma BeginsAreEarly<R>(steps: seq<Step<R>>)
    ensures Begins(RunSteps(NewTx(), steps).wire) == Early(false, steps)
  {
    EarlyBegins(NewTx<R>(), steps);
  }

  predicate NoCommit<R>(steps: seq<Step<R>>) {
    forall i :: 0 <= i < |steps| ==> !steps[i].Commit?
  }

  predicate OnlyRecords<R>(steps: seq<Step<R>>) {
    forall i :: 0 <= i < |steps| ==> steps[i].Add? || steps[i].Delete?
  }

  /** A begin and then batches, none of them a commit's. */
  predicate Uncommitted<R>(s: Tx<R>) {
    && WellOpened(s)
    && (forall k :: 0 <= k < |s.wire| ==> !s.wire[k].TxCommit?)
    && (forall i :: 0 <= i < |s.awaiting| ==> s.awaiting[i].Flushing?)
  }

  lemma {:induction false} StaysUncommitted<R>(s: Tx<R>, steps: seq<Step<R>>)
    requires Uncommitted(s) && NoOverlap(s, steps) && NoCommit(steps)
    ensures Uncommitted(RunSteps(s, steps))
    decreases |steps|
  {
    if steps != [] {
      StaysUncommitted(Next(s, steps[0]), steps[1..]);
    }
  }

  lemma {:induction false} OverlapInTwo<R>(s: Tx<R>, steps: seq<Step<R>>, step: Step<R>)
    requires NoOverlap(s, steps + [step])
    ensures NoOverlap(s, steps) && Alone(RunSteps(s, steps), step)
    decreases |steps|
  {
    hide Next;
    if steps == [] {
      assert steps + [step] == [step];
    } else {
      assert (steps + [step])[0] == steps[0] && (steps + [step])[1..] == steps[1..] + [step];
      OverlapInTwo(Next(s, steps[0]), steps[1..], step);
    }
  }

  lemma {:induction false} RecordsOnly<R>(s: Tx<R>, steps: seq<Step<R>>)
    requires OnlyRecords(steps)
    ensures var t := RunSteps(s, steps); t.wire == s.wire && t.awaiting == s.awaiting
    decreases |steps|
  {
    if steps != [] {
      RecordsOnly(Next(s, steps[0]), steps[1..]);
    }
  }

  /** One begin, then batches, then one commit. */
  predicate IsWhole<R>(wire: seq<Message<R>>) {
    && |wire| >= 2 && wire[0].TxBegin? && wire[|wire| - 1].TxCommit?
    && forall k :: 0 < k < |wire| - 1 ==> wire[k].RecordBatch?
  }

  /**
   * A transaction from its start to the answer that ends the flush of its commit, whatever is recorded meanwhile: the
   * wire holds one begin, then batches only, and the commit comes last.
   */
  lemma CommitComesLast<R>(steps: seq<Step<R>>, changes: Records<R>, later: seq<Step<R>>)
    requires NoCommit(steps) && OnlyRecords(later) && NoOverlap(NewTx(), steps + [Commit(changes)])
    ensures IsWhole(RunSteps(NewTx(), steps + [Commit(changes)] + later + [Answer]).wire)
  {
    hide RunSteps, Next, NoOverlap, OnlyRecords, NoCommit;
    var before := RunSteps(NewTx(), steps);
    OverlapInTwo(NewTx(), steps, Commit(changes));
    StaysUncommitted(NewTx(), steps);
    RunInTwo(NewTx(), steps, [Commit(changes)]);
    OneStep(before, Commit(changes));
    var started := Next(before, Commit(changes));
    RunInTwo(NewTx(), steps + [Commit(changes)], later);
    RecordsOnly(started, later);
    var waiting := RunSteps(started, later);
    RunInTwo(NewTx(), steps + [Commit(changes)] + later, [Answer]);
    OneStep(waiting, Answer);
    CommitIsSent(before, changes, waiting);
  }

  lemma CommitIsSent<R>(before: Tx<R>, changes: Records<R>, waiting: Tx<R>)
    requires Uncommitted(before) && |before.awaiting| == 0
    requires var started := Next(before, Commit(changes)); waiting.wire == started.wire && waiting.awaiting == started.awaiting
    ensures IsWhole(Next(waiting, Answer).wire)
  {
  }

  // ---- what the transaction believes it sent -----------------------------

  function AddedBy<R>(step: Step<R>, kind: Kind): seq<R> {
    if step.Add? && step.kind == kind then [step.record] else []
  }

  /** What a step records: the record added, or those a commit supplies when it is about to be sent. */
  function RecordedBy<R>(s: Tx<R>, step: Step<R>, kind: Kind): seq<R> {
    match step
    case Commit(changes) => if Sends(s) then [] else changes.At(kind)
    case Answer => if |s.awaiting| > 0 && s.awaiting[0].Preparing? then s.awaiting[0].changes.At(kind) else []
    case _ => AddedBy(step, kind)
  }

  function Recorded<R>(s: Tx<R>, steps: seq<Step<R>>, kind: Kind): seq<R>
    decreases |steps|
  {
    if steps == [] then [] else RecordedBy(s, steps[0], kind) + Recorded(Next(s, steps[0]), steps[1..], kind)
  }

  function FinalThenPending<R>(s: Tx<R>, kind: Kind): seq<R> {
    s.final.At(kind) + s.pending.At(kind)
  }

  /** The lists that the flushes under way took. */
  function HeldBy<R>(ws: seq<Awaited<R>>): seq<Held<R>> {
    if |ws| == 0 then [] else (if ws[0].IsFlush() then [ws[0].held] else []) + HeldBy(ws[1..])
  }

  lemma {:induction false} HeldByMore<R>(ws: seq<Awaited<R>>, w: Awaited<R>)
    ensures HeldBy(ws + [w]) == HeldBy(ws) + if w.IsFlush() then [w.held] else []
    decreases |ws|
  {
    if |ws| == 0 {
      assert ws + [w] == [w] && |[w][1..]| == 0;
    } else {
      assert (ws + [w])[0] == ws[0] && (ws + [w])[1..] == ws[1..] + [w];
      HeldByMore(ws[1..], w);
    }
  }

  /** No flush is started while another is under way; the commit itself may be. */
  predicate FlushesApart<R>(s: Tx<R>, steps: seq<Step<R>>)
    decreases |steps|
  {
    |steps| == 0 || (
      && (Starts(steps[0]) && Sends(s) ==> |HeldBy(s.awaiting)| == 0)
      && FlushesApart(Next(s, steps[0]), steps[1..]))
  }

  /** The flush under way, if there is one, took the lists that records are added to. */
  predicate UpToDate<R>(s: Tx<R>) {
    var held := HeldBy(s.awaiting);
    |held| == 0 || (|held| == 1 && held[0].Current?)
  }

  lemma NoneOutdated<R>(ws: seq<Awaited<R>>, records: Records<R>)
    requires |HeldBy(ws)| == 0
    ensures AllOutdated(ws, records) == ws
    decreases |ws|
  {
    if |ws| > 0 {
      NoneOutdated(ws[1..], records);
    }
  }

  lemma HeldByRest<R>(ws: seq<Awaited<R>>)
    requires |ws| > 0
    ensures |HeldBy(ws)| == |HeldBy(ws[1..])| + if ws[0].IsFlush() then 1 else 0
    ensures ws[0].IsFlush() ==> HeldBy(ws)[0] == ws[0].held
    ensures !ws[0].IsFlush() ==> HeldBy(ws) == HeldBy(ws[1..])
  {
  }

  lemma StartRecords<R>(s: Tx<R>, step: Step<R>, kind: Kind)
    requires UpToDate(s) && Starts(step) && (Sends(s) ==> |HeldBy(s.awaiting)| == 0)
    ensures UpToDate(Next(s, step))
    ensures FinalThenPending(Next(s, step), kind) == FinalThenPending(s, kind) + RecordedBy(s, step, kind)
  {
    hide HeldBy, Send;
    HeldByMore(s.awaiting, Flushing(Current));
    if step.Commit? {
      HeldByMore(s.awaiting, Preparing(Current, step.changes));
    }
    HeldByMore(s.awaiting, Committing);
  }

  lemma AnswerRecords<R>(s: Tx<R>, kind: Kind)
    requires UpToDate(s)
    ensures UpToDate(Next(s, Answer))
    ensures FinalThenPending(Next(s, Answer), kind) == FinalThenPending(s, kind) + RecordedBy(s, Answer, kind)
  {
    hide HeldBy, AllOutdated;
    if |s.awaiting| > 0 {
      HeldByRest(s.awaiting);
      if s.awaiting[0].IsFlush() {
        NoneOutdated(s.awaiting[1..], s.pending);
        HeldByMore(s.awaiting[1..], Committing);
      }
    }
  }

  lemma StepRecords<R>(s: Tx<R>, step: Step<R>, kind: Kind)
    requires UpToDate(s) && (Starts(step) && Sends(s) ==> |HeldBy(s.awaiting)| == 0)
    ensures UpToDate(Next(s, step))
    ensures FinalThenPending(Next(s, step), kind) == FinalThenPending(s, kind) + RecordedBy(s, step, kind)
  {
    hide HeldBy, Sends;
    match step
    case Answer => AnswerRecords(s, kind);
    case Add(_, _) =>
    case Delete(_) =>
    case _ => StartRecords(s, step, kind);
  }

  /**
   * Over every run whose flushes are apart, whatever else overlaps: the final list and then the pending one hold every
   * record once, in order. What happens when flushes overlap is in FlushOverlaps.
   */
  lemma {:induction false} FinalAndPending<R>(s: Tx<R>, steps: seq<Step<R>>, kind: Kind)
    requires UpToDate(s) && FlushesApart(s, steps)
    ensures FinalThenPending(RunSteps(s, steps), kind) == FinalThenPending(s, kind) + Recorded(s, steps, kind)
    decreases |steps|
  {
    hide Next, FinalThenPending, RecordedBy, UpToDate, HeldBy;
    if steps == [] {
      assert Recorded(s, steps, kind) == [];
    } else {
      var next := Next(s, steps[0]);
      StepRecords(s, steps[0], kind);
      FinalAndPending(next, steps[1..], kind);
      assert Recorded(s, steps, kind) == RecordedBy(s, steps[0], kind) + Recorded(next, steps[1..], kind);
    }
  }

  // ---- what was sent -----------------------------------------------------

  /** What was sent, message after message. */
  function Sent<R>(wire: seq<Message<R>>, kind: Kind): seq<R> {
    if |wire| == 0 then [] else Sent(wire[..|wire| - 1], kind) + wire[|wire| - 1].Part(kind)
  }

  lemma SentOneMore<R>(wire: seq<Message<R>>, m: Message<R>, kind: Kind)
    ensures Sent(wire + [m], kind) == Sent(wire, kind) + m.Part(kind)
  {
    assert (wire + [m])[..|wire|] == wire;
  }

  /** The records added, in order. */
  function Added<R>(steps: seq<Step<R>>, kind: Kind): seq<R> {
    if steps == [] then []
    else AddedBy(steps[0], kind) + Added(steps[1..], kind)
  }

  /** How many records were added while the answer to a flush was awaited. */
  function Late<R>(s: Tx<R>, steps: seq<Step<R>>, kind: Kind): nat
    decreases |steps|
  {
    if steps == [] then 0
    else
      (if Clears(s) then |AddedBy(steps[0], kind)| else 0) +
      Late(Next(s, steps[0]), steps[1..], kind)
  }

  /** While a flush is awaited its records are still pending, and the last on the wire; `OnTheWay` counts them. */
  ghost predicate Accounted<R>(s: Tx<R>, kind: Kind) {
    && |s.awaiting| <= 1
    && (Clears(s) ==>
          s.awaiting[0].held.Current? && |s.wire| > 0 && s.wire[|s.wire| - 1].Part(kind) <= s.pending.At(kind))
  }

  ghost function OnTheWay<R>(s: Tx<R>, kind: Kind): (n: nat)
    requires Accounted(s, kind)
    ensures n <= |s.pending.At(kind)|
  {
    if Clears(s) then |s.wire[|s.wire| - 1].Part(kind)| else 0
  }

  /** Everything sent and, behind it, everything that was not. */
  ghost function Account<R>(s: Tx<R>, kind: Kind): seq<R>
    requires Accounted(s, kind)
  {
    Sent(s.wire, kind) + s.pending.At(kind)[OnTheWay(s, kind)..]
  }

  /** The records that the next answer will drop without their having been sent. */
  ghost function Doomed<R>(s: Tx<R>, kind: Kind): nat
    requires Accounted(s, kind)
  {
    if Clears(s) then |s.pending.At(kind)| - OnTheWay(s, kind) else 0
  }

  lemma AddAccount<R>(s: Tx<R>, step: Step<R>, kind: Kind)
    requires Accounted(s, kind) && step.Add?
    ensures var t, own := Next(s, step), AddedBy(step, kind);
      && Accounted(t, kind)
      && Account(t, kind) == Account(s, kind) + own
      && Doomed(t, kind) == Doomed(s, kind) + if Clears(s) then |own| else 0
  {
  }

  lemma SendAccount<R>(s: Tx<R>, step: Step<R>, kind: Kind)
    requires Accounted(s, kind) && (step.Flush? || step.Commit?) && Alone(s, step)
    ensures var t := Next(s, step);
      Accounted(t, kind) && Account(t, kind) == Account(s, kind) && Doomed(s, kind) == 0 == Doomed(t, kind)
  {
    if Sends(s) {
      SentOneMore(s.wire, Send(s), kind);
    } else {
      SentOneMore(s.wire, TxCommit, kind);
    }
  }

  lemma AnswerAccount<R>(s: Tx<R>, kind: Kind)
    requires Accounted(s, kind)
    ensures var t := Next(s, Answer);
      && Accounted(t, kind) && Doomed(t, kind) == 0
      && |Account(t, kind)| == |Account(s, kind)| - Doomed(s, kind)
      && (Doomed(s, kind) == 0 ==> Account(t, kind) == Account(s, kind))
  {
    hide Sent;
    SentOneMore(s.wire, TxCommit, kind);
  }

  /** What a run does to the account: it grows by the added records, less those that came late. */
  lemma {:induction false} RunAccount<R>(s: Tx<R>, steps: seq<Step<R>>, kind: Kind)
    requires Accounted(s, kind) && NoOverlap(s, steps)
    ensures var t := RunSteps(s, steps);
      && Accounted(t, kind)
      && |Account(t, kind)| + Doomed(s, kind) + Late(s, steps, kind) ==
           |Account(s, kind)| + |Added(steps, kind)| + Doomed(t, kind)
      && (Doomed(s, kind) + Late(s, steps, kind) == 0 ==> Account(t, kind) == Account(s, kind) + Added(steps, kind))
    decreases |steps|
  {
    hide Account, Doomed, Next, Accounted, AddedBy;
    if steps == [] {
      assert Added(steps, kind) == [] && Account(s, kind) + [] == Account(s, kind);
    } else {
      var step := steps[0];
      StepAccount(s, step, kind);
      RunAccount(Next(s, step), steps[1..], kind);
      assert Added(steps, kind) == AddedBy(step, kind) + Added(steps[1..], kind);
    }
  }

  lemma StepAccount<R>(s: Tx<R>, step: Step<R>, kind: Kind)
    requires Accounted(s, kind) && Alone(s, step)
    ensures var t := Next(s, step);
      && Accounted(t, kind)
      && |Account(t, kind)| + Doomed(s, kind) + (if Clears(s) then |AddedBy(step, kind)| else 0) ==
           |Account(s, kind)| + |AddedBy(step, kind)| + Doomed(t, kind)
      && (Doomed(s, kind) == 0 && (Clears(s) ==> AddedBy(step, kind) == []) ==>
            Doomed(t, kind) == 0 && Account(t, kind) == Account(s, kind) + AddedBy(step, kind))
  {
    hide Account, Doomed, Next, Accounted;
    match step
    case Add(_, _) => AddAccount(s, step, kind);
    case Delete(_) => DeleteAccount(s, step, kind);
    case Answer => AnswerAccount(s, kind);
    case _ => SendAccount(s, step, kind);
  }

  lemma DeleteAccount<R>(s: Tx<R>, step: Step<R>, kind: Kind)
    requires Accounted(s, kind) && step.Delete?
    ensures var t := Next(s, step);
      Accounted(t, kind) && Account(t, kind) == Account(s, kind) && Doomed(t, kind) == Doomed(s, kind)
  {
  }

  /**
   * Over every run whose flushes do not overlap and have been answered: what was sent and what is pending are
   * the records added, once each and in order, exactly when none was added between a flush and its answer.
   */
  lemma SentIff<R>(steps: seq<Step<R>>, kind: Kind)
    requires NoOverlap(NewTx(), steps) && !Clears(RunSteps(NewTx(), steps))
    ensures var t := RunSteps(NewTx(), steps);
      Sent(t.wire, kind) + t.pending.At(kind) == Added(steps, kind) <==> Late(NewTx(), steps, kind) == 0
  {
    RunAccount(NewTx<R>(), steps, kind);
  }

  /** A record created while a flush is under way is never sent, though the final list holds it. */
  lemma LateRecordIsLost()
    ensures var t := RunSteps(NewTx<nat>(), [Flush, Add(Creates, 7), Answer]);
      t.wire == [TxBegin(Records([], []), [])] && t.pending.creates == [] && t.final.creates == [7]
  {
    var steps: seq<Step<nat>> := [Flush, Add(Creates, 7), Answer];
    assert steps[1..] == [Add(Creates, 7), Answer] && steps[1..][1..] == [Answer] && steps[1..][1..][1..] == [];
  }

  // ---- deletes -----------------------------------------------------------
  // Overlapping flushes need no care here: no answer replaces the deletes, since it clears a field of another name.

  /** Every message carries, again, all the deletes of the messages before it. */
  ghost predicate PilesUp<R>(s: Tx<R>) {
    && (forall k :: 0 <= k < |s.wire| && !s.wire[k].TxCommit? ==> s.wire[k].deletes <= s.deletes)
    && (forall j, k :: 0 <= j < k < |s.wire| && !s.wire[j].TxCommit? && !s.wire[k].TxCommit? ==>
          s.wire[j].deletes <= s.wire[k].deletes)
  }

  lemma StepPilesUp<R>(s: Tx<R>, step: Step<R>)
    requires PilesUp(s)
    ensures PilesUp(Next(s, step))
  {
    hide Sends, AllOutdated;
    var t := Next(s, step);
    if |t.wire| > |s.wire| {
      assert t.wire[..|s.wire|] == s.wire;
      var last := t.wire[|s.wire|];
      assert last.TxCommit? || last.deletes == s.deletes;
    }
  }

  lemma {:induction false} DeletesPileUp<R>(s: Tx<R>, steps: seq<Step<R>>)
    requires PilesUp(s)
    ensures PilesUp(RunSteps(s, steps))
    decreases |steps|
  {
    hide PilesUp, Next;
    if steps != [] {
      StepPilesUp(s, steps[0]);
      DeletesPileUp(Next(s, steps[0]), steps[1..]);
    }
  }

  /** The deletes sent, message after message. */
  function SentDeletes<R>(wire: seq<Message<R>>): seq<R> {
    if |wire| == 0 then [] else SentDeletes(wire[..|wire| - 1]) + wire[|wire| - 1].Deleted()
  }

  /** The deletes of the last message that carries any. */
  function LastDeletes<R>(wire: seq<Message<R>>): seq<R> {
    if |wire| == 0 then []
    else if |wire[|wire| - 1].Deleted()| > 0 then wire[|wire| - 1].Deleted()
    else LastDeletes(wire[..|wire| - 1])
  }

  /** How many messages carry deletes. */
  function Carriers<R>(wire: seq<Message<R>>): nat {
    if |wire| == 0 then 0
    else Carriers(wire[..|wire| - 1]) + if |wire[|wire| - 1].Deleted()| > 0 then 1 else 0
  }

  lemma {:induction false} OnceIffOneCarrier<R>(wire: seq<Message<R>>)
    ensures SentDeletes(wire) == LastDeletes(wire) <==> Carriers(wire) <= 1
    ensures |SentDeletes(wire)| == 0 <==> Carriers(wire) == 0
    decreases |wire|
  {
    if |wire| > 0 {
      var front, last := wire[..|wire| - 1], wire[|wire| - 1].Deleted();
      OnceIffOneCarrier(front);
      assert |SentDeletes(wire)| == |SentDeletes(front)| + |last|;
      if |last| == 0 {
        assert SentDeletes(wire) == SentDeletes(front);
      } else if |SentDeletes(front)| == 0 {
        assert SentDeletes(wire) == last;
      }
    }
  }

  /** The deletes asked for, in order. */
  function DeletesOf<R>(steps: seq<Step<R>>): seq<R> {
    if |steps| == 0 then []
    else (if steps[0].Delete? then [steps[0].record] else []) + DeletesOf(steps[1..])
  }

  /** How often a flush or a commit is started when a delete has been asked for, then or at any time before. */
  function LaterSends<R>(deleted: bool, steps: seq<Step<R>>): nat
    decreases |steps|
  {
    if |steps| == 0 then 0
    else
      (if deleted && (steps[0].Flush? || steps[0].Commit?) then 1 else 0) +
      LaterSends(deleted || steps[0].Delete?, steps[1..])
  }

  lemma OneMoreCarrier<R>(wire: seq<Message<R>>, m: Message<R>)
    ensures Carriers(wire + [m]) == Carriers(wire) + if |m.Deleted()| > 0 then 1 else 0
  {
    assert (wire + [m])[..|wire|] == wire;
  }

  lemma StepCarries<R>(s: Tx<R>, step: Step<R>)
    ensures var t := Next(s, step);
      && t.deletes == s.deletes + DeletesOf([step])
      && Carriers(t.wire) == Carriers(s.wire) + LaterSends(|s.deletes| > 0, [step])
  {
    hide Carriers;
    assert |[step][1..]| == 0;
    match step {
      case Flush => OneMoreCarrier(s.wire, Send(s));
      case Commit(_) =>
        OneMoreCarrier(s.wire, Send(s));
        OneMoreCarrier(s.wire, TxCommit);
      case Answer => OneMoreCarrier(s.wire, TxCommit);
      case _ =>
    }
  }

  lemma {:induction false} RunCarries<R>(s: Tx<R>, steps: seq<Step<R>>)
    ensures var t := RunSteps(s, steps);
      && t.deletes == s.deletes + DeletesOf(steps)
      && Carriers(t.wire) == Carriers(s.wire) + LaterSends(|s.deletes| > 0, steps)
    decreases |steps|
  {
    hide Next, Carriers;
    if |steps| > 0 {
      var next := Next(s, steps[0]);
      StepCarries(s, steps[0]);
      RunCarries(next, steps[1..]);
      assert |[steps[0]][1..]| == 0;
      assert |next.deletes| > 0 <==> |s.deletes| > 0 || steps[0].Delete?;
    }
  }

  /** For each answer to a flush, all the deletes asked for until then. */
  function Confirmed<R>(asked: seq<R>, s: Tx<R>, steps: seq<Step<R>>): seq<R>
    decreases |steps|
  {
    if |steps| == 0 then []
    else
      (if steps[0].Answer? && Clears(s) then asked else []) +
      Confirmed(asked + DeletesOf([steps[0]]), Next(s, steps[0]), steps[1..])
  }

  /** Over every run: each answered flush puts into the final list all deletes so far, those put there before once more. */
  lemma {:induction false} FinalDeletes<R>(s: Tx<R>, steps: seq<Step<R>>)
    ensures RunSteps(s, steps).finalDeleted == s.finalDeleted + Confirmed(s.deletes, s, steps)
    decreases |steps|
  {
    hide Next, DeletesOf, Clears;
    if |steps| > 0 {
      StepCarries(s, steps[0]);
      StepConfirms(s, steps[0]);
      FinalDeletes(Next(s, steps[0]), steps[1..]);
    }
  }

  lemma StepConfirms<R>(s: Tx<R>, step: Step<R>)
    ensures Next(s, step).finalDeleted == s.finalDeleted + if step.Answer? && Clears(s) then s.deletes else []
  {
  }

  /**
   * Over every run: the deletes sent are those of one message, so that none is sent again, exactly when at most
   * one flush or commit was started after the first delete. Nothing that is sent was not asked for.
   */
  lemma DeletesSentOnceIff<R>(steps: seq<Step<R>>)
    ensures var t := RunSteps(NewTx(), steps);
      && t.deletes == DeletesOf(steps)
      && (SentDeletes(t.wire) == LastDeletes(t.wire) <==> LaterSends(false, steps) <= 1)
      && LastDeletes(t.wire) <= DeletesOf(steps)
  {
    hide RunSteps, Carriers, SentDeletes, LastDeletes, LaterSends, DeletesOf;
    var t := RunSteps(NewTx<R>(), steps);
    NothingCarried<R>();
    RunCarries(NewTx<R>(), steps);
    OnceIffOneCarrier(t.wire);
    DeletesPileUp(NewTx<R>(), steps);
    LastWasAskedFor(t.wire, t.deletes);
  }

  lemma NothingCarried<R>()
    ensures Carriers<R>([]) == 0
  {
  }

  lemma {:induction false} LastWasAskedFor<R>(wire: seq<Message<R>>, deletes: seq<R>)
    requires forall k :: 0 <= k < |wire| && !wire[k].TxCommit? ==> wire[k].deletes <= deletes
    ensures LastDeletes(wire) <= deletes
    decreases |wire|
  {
    if |wire| > 0 {
      LastWasAskedFor(wire[..|wire| - 1], deletes);
    }
  }

  lemma FourSteps<R>(s: Tx<R>, a: Step<R>, b: Step<R>, c: Step<R>, d: Step<R>)
    ensures RunSteps(s, [a, b, c, d]) == Next(Next(Next(Next(s, a), b), c), d)
  {
    hide Next, RunSteps;
    assert [a] + [b] == [a, b] && [a, b] + [c] == [a, b, c] && [a, b, c] + [d] == [a, b, c, d];
    OneStep(s, a);
    RunInTwo(s, [a], [b]);
    OneStep(Next(s, a), b);
    RunInTwo(s, [a, b], [c]);
    OneStep(Next(Next(s, a), b), c);
    RunInTwo(s, [a, b, c], [d]);
    OneStep(Next(Next(Next(s, a), b), c), d);
  }

  /** A delete, a flush and a commit: the delete is sent twice. */
  lemma DeleteSentTwice()
    ensures var t := RunSteps(NewTx<nat>(), [Delete(7), Flush, Answer, Commit(Records([], []))]);
      SentDeletes(t.wire) == [7, 7] && LastDeletes(t.wire) == [7]
  {
    hide RunSteps, SentDeletes;
    var none: Records<nat> := Records([], []);
    FourSteps(NewTx<nat>(), Delete(7), Flush, Answer, Commit(none));
    var first, second := TxBegin(none, [7]), RecordBatch(none, [7]);
    var t1: Tx<nat> := Tx(false, none, [7], none, [], [], []);
    assert Next(NewTx<nat>(), Delete(7)) == t1;
    var t2: Tx<nat> := Tx(false, none, [7], none, [], [first], [Flushing(Current)]);
    assert Next(t1, Flush) == t2;
    var t3: Tx<nat> := Tx(true, none, [7], none, [7], [first], []);
    assert Next(t2, Answer) == t3;
    assert Next(t3, Commit(none)).wire == [first] + [second];
    SentTwice(first, second);
  }

  lemma SentTwice(first: Message<nat>, second: Message<nat>)
    requires !first.TxCommit? && !second.TxCommit? && first.deletes == [7] == second.deletes
    ensures SentDeletes([first] + [second]) == [7, 7] && LastDeletes([first] + [second]) == [7]
  {
    assert ([first] + [second])[..1] == [first] && |[first][..0]| == 0;
    assert SentDeletes([first]) == [7];
  }
}
