/** The database pool as a state machine: databases lent and returned, clients waiting, the pool draining. */
module PoolRuns {
  import opened Sequences

  /** `Given` at once, or `Queued` and later `Handed` over or `TimedOut`; `Refused` while the pool closes. */
  datatype Event =
    | Given(client: nat, db: nat)
    | Queued(client: nat)
    | Handed(client: nat, db: nat)
    | TimedOut(client: nat)
    | Refused(client: nat)
    | TearDown
    | Closed

  /** `made` numbers the databases; `lent` holds those given out and not returned. */
  datatype State = State(
    max: nat, count: nat, made: nat, available: seq<nat>, lent: set<nat>, waiting: seq<nat>, closing: bool,
    tearing: bool, log: seq<Event>)

  datatype Step = Acquire(client: nat) | Release(db: nat) | Timeout(client: nat) | Close | Drain | AllClosed

  function NewPool(max: nat): State {
    State(max, 0, 0, [], {}, [], false, false, [])
  }

  /** The waiting list without the first entry of a client. */
  function Without(waiting: seq<nat>, client: nat): seq<nat> {
    if waiting == [] then []
    else if waiting[0] == client then waiting[1..]
    else [waiting[0]] + Without(waiting[1..], client)
  }

  function Log(s: State, e: Event): State {
    s.(log := s.log + [e])
  }

  function Next(s: State, step: Step): State {
    match step
    case Acquire(c) =>
      if s.closing then Log(s, Refused(c))
      else if |s.available| > 0 then
        Log(s.(available := s.available[1..], lent := s.lent + {s.available[0]}), Given(c, s.available[0]))
      else if s.count < s.max then
        Log(s.(count := s.count + 1, made := s.made + 1, lent := s.lent + {s.made}), Given(c, s.made))
      else Log(s.(waiting := s.waiting + [c]), Queued(c))
    case Release(db) =>
      if |s.waiting| > 0 then Log(s.(waiting := s.waiting[1..]), Handed(s.waiting[0], db))
      else s.(available := s.available + [db], lent := s.lent - {db})
    case Timeout(c) =>
      if c in s.waiting then Log(s.(waiting := Without(s.waiting, c)), TimedOut(c)) else s
    case Close => s.(closing := true)
    case Drain => if s.count != |s.available| then s else Log(s.(tearing := true), TearDown)
    case AllClosed => Log(s.(count := 0, available := [], tearing := false), Closed)
  }

  /** The clients heard of. */
  function Clients(log: seq<Event>): set<nat> {
    if |log| == 0 then {}
    else Clients(log[..|log| - 1]) + (if log[|log| - 1].TearDown? || log[|log| - 1].Closed? then {} else {log[|log| - 1].client})
  }

  /** Each acquire is a new client, a database is returned by the one who has it, the pool drains after `close`. */
  predicate Legal(s: State, step: Step) {
    match step
    case Acquire(c) => c !in Clients(s.log)
    case Release(db) => db in s.lent
    case Timeout(_) => true
    case Close => true
    case Drain => s.closing
    case AllClosed => s.tearing
  }

  function RunSteps(s: State, steps: seq<Step>): State
    decreases |steps|
  {
    if |steps| == 0 then s else RunSteps(Next(s, steps[0]), steps[1..])
  }

  predicate LegalRun(s: State, steps: seq<Step>)
    decreases |steps|
  {
    |steps| == 0 || (Legal(s, steps[0]) && LegalRun(Next(s, steps[0]), steps[1..]))
  }

  // ---- databases ---------------------------------------------------------

  /** Every database is either available or lent, none both, and there are no more than allowed. */
  predicate Balanced(s: State) {
    && s.count == |s.available| + |s.lent| <= s.max
    && Distinct(s.available)
    && (forall i :: 0 <= i < |s.available| ==> s.available[i] < s.made && s.available[i] !in s.lent)
    && (forall db :: db in s.lent ==> db < s.made)
  }

  /** Clients wait only while every database the pool may have is lent; a pool being torn down lends nothing. */
  predicate NobodyWaitsInVain(s: State) {
    && (|s.waiting| > 0 ==> |s.available| == 0 && s.count == s.max)
    && (s.tearing ==> s.closing && s.lent == {} && |s.waiting| == 0)
  }

  lemma StepBalanced(s: State, step: Step)
    requires Balanced(s) && NobodyWaitsInVain(s) && Legal(s, step) && s.max > 0
    ensures Balanced(Next(s, step)) && NobodyWaitsInVain(Next(s, step))
  {
    match step
    case Acquire(c) =>
    case Release(db) =>
      if |s.waiting| == 0 {
        assert |s.lent - {db}| == |s.lent| - 1;
      }
    case Timeout(c) =>
      if c in s.waiting {
        WithoutIsShorter(s.waiting, c);
      }
    case Close =>
    case Drain =>
      if s.count == |s.available| {
        assert s.lent == {};
      }
    case AllClosed =>
  }

  lemma {:induction false} WithoutIsShorter(waiting: seq<nat>, c: nat)
    ensures |Without(waiting, c)| <= |waiting|
    decreases |waiting|
  {
    if waiting != [] {
      WithoutIsShorter(waiting[1..], c);
    }
  }

  /** Over every run in which what is lent is returned once, the databases add up and nobody waits in vain. */
  lemma {:induction false} RunBalanced(s: State, steps: seq<Step>)
    requires Balanced(s) && NobodyWaitsInVain(s) && LegalRun(s, steps) && s.max > 0
    ensures Balanced(RunSteps(s, steps)) && NobodyWaitsInVain(RunSteps(s, steps)) && RunSteps(s, steps).max == s.max
    decreases |steps|
  {
    hide Balanced, NobodyWaitsInVain, Legal;
    if |steps| > 0 {
      StepBalanced(s, steps[0]);
      MaxStays(s, steps[0]);
      RunBalanced(Next(s, steps[0]), steps[1..]);
    }
  }

  lemma MaxStays(s: State, step: Step)
    ensures Next(s, step).max == s.max
  {
  }

  /** A closed pool is torn down at the first look that finds nothing lent, and then nobody waits. */
  lemma TearDownWhenIdle(max: nat, steps: seq<Step>)
    requires max > 0 && LegalRun(NewPool(max), steps)
    ensures var s := RunSteps(NewPool(max), steps);
      && (s.closing && Next(s, Drain).tearing ==> s.lent == {} && |s.waiting| == 0)
      && (Next(s, Drain).log == s.log + [TearDown] <==> s.lent == {})
  {
    RunBalanced(NewPool(max), steps);
    var s := RunSteps(NewPool(max), steps);
    if s.closing {
      StepBalanced(s, Drain);
    }
  }

  // ---- clients -----------------------------------------------------------

  function HandedIn(log: seq<Event>): seq<nat> {
    if |log| == 0 then []
    else HandedIn(log[..|log| - 1]) + if log[|log| - 1].Handed? then [log[|log| - 1].client] else []
  }

  /** Those who queued, in order, less those whose time ran out. */
  function Patient(log: seq<Event>): seq<nat> {
    if |log| == 0 then []
    else
      var before := Patient(log[..|log| - 1]);
      match log[|log| - 1]
      case Queued(c) => before + [c]
      case TimedOut(c) => Without(before, c)
      case _ => before
  }

  /** The clients whose promise was settled, one way or the other. */
  function SettledIn(log: seq<Event>): seq<nat> {
    if |log| == 0 then []
    else
      SettledIn(log[..|log| - 1]) + SettledBy(log[|log| - 1])
  }

  function SettledBy(e: Event): seq<nat> {
    match e
    case Given(c, _) => [c]
    case Handed(c, _) => [c]
    case TimedOut(c) => [c]
    case Refused(c) => [c]
    case _ => []
  }

  /** Nobody is settled twice or settled while waiting. */
  ghost predicate SettledOnce(s: State) {
    var settled := SettledIn(s.log);
    && Distinct(settled) && Distinct(s.waiting)
    && (forall c :: c in settled ==> c in Clients(s.log) && c !in s.waiting)
    && (forall c :: c in s.waiting ==> c in Clients(s.log))
  }

  /**
   * First come, first served: those handed a database, followed by those still waiting, are the patient clients
   * in the order in which they queued.
   */
  ghost predicate Fair(s: State) {
    && Patient(s.log) == HandedIn(s.log) + s.waiting
    && (forall c :: c in HandedIn(s.log) ==> c in SettledIn(s.log))
  }

  lemma DistinctMore(xs: seq<nat>, c: nat)
    requires Distinct(xs)
    ensures c !in xs ==> Distinct(xs + [c]) && Distinct([c] + xs)
    ensures xs != [] ==> Distinct(xs[1..]) && xs[0] !in xs[1..]
  {
  }

  lemma {:induction false} WithoutHas(waiting: seq<nat>, c: nat)
    requires Distinct(waiting)
    ensures var w := Without(waiting, c); Distinct(w) && c !in w && forall x :: x in w ==> x in waiting
    decreases |waiting|
  {
    hide Distinct;
    if waiting != [] {
      DistinctMore(waiting, c);
      WithoutHas(waiting[1..], c);
      DistinctMore(Without(waiting[1..], c), waiting[0]);
    } else {
      assert Without(waiting, c) == waiting;
    }
  }

  lemma {:induction false} WithoutOfSum(s: seq<nat>, t: seq<nat>, c: nat)
    requires c !in s
    ensures Without(s + t, c) == s + Without(t, c)
    decreases |s|
  {
    if s == [] {
      assert s + t == t;
    } else {
      assert (s + t)[0] == s[0] && (s + t)[1..] == s[1..] + t;
      WithoutOfSum(s[1..], t, c);
    }
  }

  lemma LogGrows(log: seq<Event>, e: Event)
    ensures Clients(log + [e]) == Clients(log) + if e.TearDown? || e.Closed? then {} else {e.client}
    ensures SettledIn(log + [e]) == SettledIn(log) + SettledBy(e)
    ensures HandedIn(log + [e]) == HandedIn(log) + if e.Handed? then [e.client] else []
    ensures Patient(log + [e]) ==
      if e.Queued? then Patient(log) + [e.client] else if e.TimedOut? then Without(Patient(log), e.client) else Patient(log)
  {
    assert (log + [e])[..|log|] == log;
  }

  lemma StepSettlesOnce(s: State, step: Step)
    requires SettledOnce(s) && Legal(s, step)
    ensures SettledOnce(Next(s, step))
  {
    hide Distinct, SettledIn, Clients, HandedIn, Patient, Without;
    var t := Next(s, step);
    if |t.log| > |s.log| {
      LogGrows(s.log, t.log[|s.log|]);
      assert SettledIn(s.log) + [] == SettledIn(s.log);
    }
    match step
    case Acquire(c) =>
      DistinctMore(SettledIn(s.log), c);
      DistinctMore(s.waiting, c);
    case Release(_) =>
      if |s.waiting| > 0 {
        DistinctMore(SettledIn(s.log), s.waiting[0]);
        DistinctMore(s.waiting, s.waiting[0]);
      }
    case Timeout(c) =>
      DistinctMore(SettledIn(s.log), c);
      WithoutHas(s.waiting, c);
    case _ =>
  }

  lemma StepFair(s: State, step: Step)
    requires SettledOnce(s) && Fair(s) && Legal(s, step)
    ensures Fair(Next(s, step))
  {
    hide Distinct, SettledIn, Clients, HandedIn, Patient, Without;
    var t := Next(s, step);
    if |t.log| > |s.log| {
      LogGrows(s.log, t.log[|s.log|]);
      assert HandedIn(s.log) + [] == HandedIn(s.log) && SettledIn(s.log) + [] == SettledIn(s.log);
    }
    if step.Timeout? && step.client in s.waiting {
      WithoutOfSum(HandedIn(s.log), s.waiting, step.client);
    }
  }

  lemma {:induction false} RunFair(s: State, steps: seq<Step>)
    requires SettledOnce(s) && Fair(s) && LegalRun(s, steps)
    ensures SettledOnce(RunSteps(s, steps)) && Fair(RunSteps(s, steps))
    decreases |steps|
  {
    hide SettledOnce, Fair, Legal, Next;
    if |steps| > 0 {
      StepSettlesOnce(s, steps[0]);
      StepFair(s, steps[0]);
      RunFair(Next(s, steps[0]), steps[1..]);
    }
  }

  /** Over every run: first come, first served, and no client is both served and timed out or refused. */
  lemma ServedInOrderOnce(max: nat, steps: seq<Step>)
    requires LegalRun(NewPool(max), steps)
    ensures var s := RunSteps(NewPool(max), steps);
      && Patient(s.log) == HandedIn(s.log) + s.waiting
      && Distinct(SettledIn(s.log))
      && forall c :: c in s.waiting ==> c !in SettledIn(s.log)
  {
    RunFair(NewPool(max), steps);
  }

  // ---- who holds what ----------------------------------------------------

  /** Who holds what after a database was returned: whoever had it no longer has it. */
  function Returned(holders: map<nat, nat>, db: nat): map<nat, nat> {
    map c | c in holders && holders[c] != db :: holders[c]
  }

  /** Who holds what after some clients were told of their databases. */
  function Told(holders: map<nat, nat>, events: seq<Event>): map<nat, nat> {
    if |events| == 0 then holders
    else
      var before := Told(holders, events[..|events| - 1]);
      match events[|events| - 1]
      case Given(c, db) => before[c := db]
      case Handed(c, db) => before[c := db]
      case _ => before
  }

  /** What a step told the clients. */
  function News(s: State, step: Step): seq<Event> {
    var log := Next(s, step).log;
    if |log| > |s.log| then log[|s.log|..] else []
  }

  /** Who holds what after some steps, from the returns and from what the clients were told alone. */
  function Holders(holders: map<nat, nat>, s: State, steps: seq<Step>): map<nat, nat>
    decreases |steps|
  {
    if |steps| == 0 then holders
    else
      var kept := if steps[0].Release? then Returned(holders, steps[0].db) else holders;
      Holders(Told(kept, News(s, steps[0])), Next(s, steps[0]), steps[1..])
  }

  /** No two clients hold one database, what is held is what is lent, and no holder still waits. */
  ghost predicate HeldApart(holders: map<nat, nat>, s: State) {
    && (forall c, d :: c in holders && d in holders && c != d ==> holders[c] != holders[d])
    && (forall db :: db in s.lent <==> db in holders.Values)
    && (forall c :: c in holders ==> c in SettledIn(s.log))
  }

  lemma OneToldOf(holders: map<nat, nat>, e: Event)
    ensures Told(holders, [e]) == if e.Given? || e.Handed? then holders[e.client := e.db] else holders
  {
    assert |[e][..0]| == 0;
    assert Told(holders, [e][..0]) == holders;
  }

  lemma LogsAtMostOne(s: State, step: Step)
    ensures var t := Next(s, step); t.log == s.log || (t.log == s.log + [t.log[|s.log|]] && |t.log| == |s.log| + 1)
    ensures News(s, step) == if Next(s, step).log == s.log then [] else [Next(s, step).log[|s.log|]]
  {
  }

  /** Taking a free database, by a client who holds none. */
  lemma TakeApart(holders: map<nat, nat>, s: State, t: State, c: nat, db: nat)
    requires HeldApart(holders, s) && c !in holders && db !in s.lent
    requires t.lent == s.lent + {db} && SettledIn(t.log) == SettledIn(s.log) + [c]
    ensures HeldApart(holders[c := db], t)
  {
    hide SettledIn;
    var after := holders[c := db];
    forall x ensures x in t.lent <==> x in after.Values {
      if x in holders.Values {
        var k :| k in holders && holders[k] == x;
        assert after[k] == x;
      }
      assert after[c] == db;
    }
  }

  lemma ReturnApart(holders: map<nat, nat>, s: State, db: nat)
    requires HeldApart(holders, s)
    ensures HeldApart(Returned(holders, db), s.(lent := s.lent - {db}))
  {
    hide SettledIn;
    var after := Returned(holders, db);
    forall x ensures x in s.lent - {db} <==> x in after.Values {
      if x in holders.Values && x != db {
        var k :| k in holders && holders[k] == x;
        assert after[k] == x;
      }
    }
  }

  lemma ChangedOnlyLog(holders: map<nat, nat>, s: State, t: State)
    requires HeldApart(holders, s) && t.lent == s.lent && forall c :: c in SettledIn(s.log) ==> c in SettledIn(t.log)
    ensures HeldApart(holders, t)
  {
  }

  lemma StepHeldApart(holders: map<nat, nat>, s: State, step: Step)
    requires HeldApart(holders, s) && Balanced(s) && SettledOnce(s) && Legal(s, step)
    ensures var kept := if step.Release? then Returned(holders, step.db) else holders;
      HeldApart(Told(kept, News(s, step)), Next(s, step))
  {
    hide HeldApart, Distinct, SettledIn, Clients, News, Returned, Told, Without;
    var t := Next(s, step);
    LogsAtMostOne(s, step);
    NobodyTold(holders);
    HoldersSettled(holders, s);
    if t.log != s.log {
      var e := t.log[|s.log|];
      LogGrows(s.log, e);
      OneToldOf(holders, e);
    }
    match step
    case Release(db) =>
      var kept, free := Returned(holders, db), s.(lent := s.lent - {db});
      ReturnApart(holders, s, db);
      NobodyTold(kept);
      HoldersSettled(kept, free);
      if |s.waiting| > 0 {
        OneToldOf(kept, t.log[|s.log|]);
        TakeApart(kept, free, t, s.waiting[0], db);
      } else {
        ChangedOnlyLog(kept, free, t);
      }
    case Acquire(c) =>
      if !s.closing && (|s.available| > 0 || s.count < s.max) {
        TakeApart(holders, s, t, c, if |s.available| > 0 then s.available[0] else s.made);
      } else {
        ChangedOnlyLog(holders, s, t);
      }
    case _ =>
      ChangedOnlyLog(holders, s, t);
  }

  lemma NobodyTold(holders: map<nat, nat>)
    ensures Told(holders, []) == holders
  {
  }

  lemma HoldersSettled(holders: map<nat, nat>, s: State)
    requires HeldApart(holders, s)
    ensures forall c :: c in holders ==> c in SettledIn(s.log)
  {
  }

  lemma {:induction false} RunHeldApart(holders: map<nat, nat>, s: State, steps: seq<Step>)
    requires HeldApart(holders, s) && Balanced(s) && NobodyWaitsInVain(s) && SettledOnce(s) && LegalRun(s, steps)
    requires s.max > 0
    ensures HeldApart(Holders(holders, s, steps), RunSteps(s, steps))
    decreases |steps|
  {
    hide HeldApart, Balanced, NobodyWaitsInVain, SettledOnce, Legal, Next, News, Returned, Told;
    if |steps| > 0 {
      var step := steps[0];
      StepHeldApart(holders, s, step);
      StepBalanced(s, step);
      StepSettlesOnce(s, step);
      MaxStays(s, step);
      var kept := if step.Release? then Returned(holders, step.db) else holders;
      RunHeldApart(Told(kept, News(s, step)), Next(s, step), steps[1..]);
    }
  }

  /**
   * Over every run, with holders told from what clients were given or handed and from the returns: no two clients
   * hold one database, the databases held are exactly those lent, at most `max`, and nobody who waits holds one.
   */
  lemma NobodySharesADatabase(max: nat, steps: seq<Step>)
    requires max > 0 && LegalRun(NewPool(max), steps)
    ensures var s, holders := RunSteps(NewPool(max), steps), Holders(map[], NewPool(max), steps);
      && (forall c, d :: c in holders && d in holders && c != d ==> holders[c] != holders[d])
      && holders.Values == s.lent && |s.lent| <= max
      && (forall c :: c in holders ==> c !in s.waiting)
  {
    hide RunSteps, Holders, LegalRun;
    RunHeldApart(map[], NewPool(max), steps);
    RunFair(NewPool(max), steps);
    RunBalanced(NewPool(max), steps);
  }

  // ---- what a client is told ---------------------------------------------

  predicate Answer(s: State, c: nat, e: Event) {
    if s.closing then e == Refused(c)
    else if |s.lent| < s.max then e.Given? && e.client == c && e.db !in s.lent
    else e == Queued(c)
  }

  /**
   * After every run: who asks is refused exactly when the pool was closed before, is given a database nobody has while
   * fewer than `max` are lent, and waits otherwise.
   */
  lemma AcquireAnswer(max: nat, steps: seq<Step>, c: nat)
    requires max > 0 && LegalRun(NewPool(max), steps)
    ensures var s := RunSteps(NewPool(max), steps);
      && (s.closing <==> Step.Close in steps)
      && |News(s, Acquire(c))| == 1 && Answer(s, c, News(s, Acquire(c))[0])
  {
    hide RunSteps, LegalRun;
    RunBalanced(NewPool(max), steps);
    ClosedIff(NewPool(max), steps);
  }

  lemma {:induction false} ClosedIff(s: State, steps: seq<Step>)
    ensures RunSteps(s, steps).closing <==> s.closing || Step.Close in steps
    decreases |steps|
  {
    if |steps| > 0 {
      ClosedIff(Next(s, steps[0]), steps[1..]);
      assert Step.Close in steps <==> steps[0] == Step.Close || Step.Close in steps[1..];
    }
  }
}
