/** The legacy pool object. */
module Pools {
  import opened PoolRuns

  lemma {:induction false} SplicedOut(waiting: seq<nat>, c: nat, i: nat)
    requires i < |waiting| && waiting[i] == c && c !in waiting[..i]
    ensures waiting[..i] + waiting[i + 1..] == Without(waiting, c)
    decreases i
  {
    if i > 0 {
      assert waiting[0] in waiting[..i];
      assert waiting[1..][..i - 1] == waiting[..i][1..];
      SplicedOut(waiting[1..], c, i - 1);
    }
  }

  /** The same list but for one place where the client stood. */
  ghost predicate LeftOut(before: seq<nat>, c: nat, after: seq<nat>) {
    exists i :: 0 <= i < |before| && before[i] == c && after == before[..i] + before[i + 1..]
  }

  class Pool {
    const max: nat
    var count: nat
    var made: nat
    var availableDBs: seq<nat>
    var waiting: seq<nat>
    var closing: bool
    var tearing: bool
    var log: seq<Event>
    /** The databases given out and not returned; the object does not keep them. */
    ghost var lent: set<nat>

    ghost function State(): PoolRuns.State
      reads this
    {
      PoolRuns.State(max, count, made, availableDBs, lent, waiting, closing, tearing, log)
    }

    constructor (max: nat)
      ensures State() == NewPool(max)
    {
      this.max := max;
      count, made, availableDBs, waiting := 0, 0, [], [];
      closing, tearing, log, lent := false, false, [], {};
    }

    method Acquire(client: nat)
      modifies this
      ensures State() == Next(old(State()), PoolRuns.Acquire(client))
      ensures old(closing) ==> log == old(log) + [Refused(client)]
      ensures !old(closing) && |old(availableDBs)| > 0 ==>
        log == old(log) + [Given(client, old(availableDBs)[0])] && availableDBs == old(availableDBs)[1..]
      ensures !old(closing) && |old(availableDBs)| == 0 && old(count) < max ==>
        log == old(log) + [Given(client, old(made))] && count == old(count) + 1
      ensures !old(closing) && |old(availableDBs)| == 0 && old(count) >= max ==>
        log == old(log) + [Queued(client)] && waiting == old(waiting) + [client]
    {
      if closing {
        log := log + [Refused(client)];
        return;
      }
      if |availableDBs| > 0 {
        Lend(client);
      } else if count < max {
        CreateDB();
        Lend(client);
      } else {
        waiting := waiting + [client];
        log := log + [Queued(client)];
      }
    }

    method Lend(client: nat)
      requires |availableDBs| > 0
      modifies this`availableDBs, this`log, this`lent
      ensures availableDBs == old(availableDBs)[1..] && lent == old(lent) + {old(availableDBs)[0]}
      ensures log == old(log) + [Given(client, old(availableDBs)[0])]
    {
      var db := availableDBs[0];
      availableDBs := availableDBs[1..];
      lent := lent + {db};
      log := log + [Given(client, db)];
    }

    method CreateDB()
      modifies this`count, this`made, this`availableDBs
      ensures count == old(count) + 1 && made == old(made) + 1
      ensures availableDBs == old(availableDBs) + [old(made)]
    {
      count := count + 1;
      availableDBs := availableDBs + [made];
      made := made + 1;
    }

    /** A waiting client takes the database over; otherwise it becomes available. */
    method Release(db: nat)
      modifies this
      ensures State() == Next(old(State()), PoolRuns.Release(db))
      ensures |old(waiting)| > 0 ==>
        log == old(log) + [Handed(old(waiting)[0], db)] && waiting == old(waiting)[1..] && lent == old(lent)
      ensures |old(waiting)| == 0 ==>
        log == old(log) && availableDBs == old(availableDBs) + [db] && lent == old(lent) - {db}
    {
      if |waiting| > 0 {
        var first := waiting[0];
        waiting := waiting[1..];
        log := log + [Handed(first, db)];
      } else {
        availableDBs := availableDBs + [db];
        lent := lent - {db};
      }
    }

    /** The timer of a waiting client: it has no effect once the client was served. */
    method CheckWaiting(client: nat)
      modifies this
      ensures State() == Next(old(State()), Timeout(client))
      ensures client in old(waiting) ==> log == old(log) + [TimedOut(client)] && LeftOut(old(waiting), client, waiting)
      ensures client !in old(waiting) ==> log == old(log) && waiting == old(waiting)
    {
      var idx := 0;
      while idx < |waiting| && waiting[idx] != client
        invariant idx <= |waiting| && client !in waiting[..idx]
        invariant State() == old(State())
      {
        idx := idx + 1;
      }
      if idx < |waiting| {
        SplicedOut(waiting, client, idx);
        waiting := waiting[..idx] + waiting[idx + 1..];
        log := log + [TimedOut(client)];
      }
    }

    method Close()
      modifies this
      ensures State() == Next(old(State()), PoolRuns.Close)
    {
      closing := true;
    }

    /** Wait until every database is back, then close them all. */
    method DrainPool()
      modifies this
      ensures State() == Next(old(State()), Drain)
    {
      if count == |availableDBs| {
        tearing := true;
        log := log + [TearDown];
      }
    }

    method AllClosed()
      modifies this
      ensures State() == Next(old(State()), PoolRuns.AllClosed)
    {
      count, availableDBs, tearing := 0, [], false;
      log := log + [Closed];
    }
  }
}
