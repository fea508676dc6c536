/** Cutting the byte stream anywhere does not change what an operation reads. */
module Chunks {
  import opened Bytes
  import opened Values
  import opened ReadMachine

  lemma ReadIsLocal(kind: Kind, b: seq<Byte>, more: seq<Byte>)
    requires CanRead(kind, b)
    ensures CanRead(kind, b + more)
    ensures ReadSize(kind, b + more) == ReadSize(kind, b)
    ensures ReadValue(kind, b + more) == ReadValue(kind, b)
  {
    ReadsAreLocal(b, more);
    if kind.RecordIdK? {
      assert (b + more)[2..] == b[2..] + more;
      ReadsAreLocal(b[2..], more);
    }
    if kind.BytesK? || kind.StringK? {
      var n := ReadInt32(b);
      if n >= 0 {
        assert (b + more)[4..4 + n] == b[4..4 + n];
      }
    }
  }

  /** A turn that was possible stays possible, and does the same, when more bytes have arrived. */
  lemma StepIsLocal(st: OpState, b: seq<Byte>, more: seq<Byte>)
    requires st.readOps != [] && !Step(st, b).Wait?
    ensures Step(st, b + more) == Step(st, b)
  {
    match st.readOps[0]
    case Read(kind, field, after) => ReadIsLocal(kind, b, more);
    case ReadCollection(field) => ReadsAreLocal(b, more);
    case _ =>
  }

  /** Turns do not touch the operation's own status. */
  lemma StepKeepsStatus(st: OpState, b: seq<Byte>)
    requires st.readOps != []
    ensures Step(st, b).Next? ==> Step(st, b).state.status == st.status
  {
    hide Load, Assign, ItemOps;
  }

  lemma {:induction false} RunWaits(st: OpState, b: seq<Byte>)
    ensures var r := Run(st, b); r.outcome.Waiting? ==> r.state.readOps != [] && r.state.status == st.status
    decreases |b|, Weight(st.readOps)
  {
    if st.readOps != [] {
      StepProgress(st, b);
      StepKeepsStatus(st, b);
      var t := Step(st, b);
      if t.Next? {
        RunWaits(t.state, b[t.used..]);
      }
    }
  }

  lemma {:induction false} RunInTwo(st: OpState, b: seq<Byte>, more: seq<Byte>)
    ensures var r := Run(st, b);
      Run(st, b + more) == if r.outcome.Waiting? then Plus(Run(r.state, b[r.used..] + more), r.used) else r
    decreases |b|, Weight(st.readOps)
  {
    hide Step, Weight, Ending;
    if st.readOps != [] {
      StepProgress(st, b);
      var t := Step(st, b);
      if t.Wait? {
        assert b[0..] == b;
      } else {
        StepIsLocal(st, b, more);
        if t.Next? {
          RunInTwo(t.state, b[t.used..], more);
          var r := Run(t.state, b[t.used..]);
          assert (b + more)[t.used..] == b[t.used..] + more;
          assert b[t.used..][r.used..] == b[t.used + r.used..];
        }
      }
    }
  }

  /** `consume` on part of the bytes, then on what it left with the rest, is `consume` on all of them. */
  lemma ConsumeInTwo(st: OpState, b: seq<Byte>, more: seq<Byte>)
    ensures var r := Consume(st, b);
      Consume(st, b + more) ==
        if r.outcome.Waiting? then Plus(Consume(r.state, b[r.used..] + more), r.used) else r
  {
    if st.status.Pending? && b == [] {
      assert b[0..] + more == more && b + more == more;
    } else {
      var started := if st.status.Pending? then Start(st, b[0]) else st;
      if started.readOps != [] {
        RunWaits(started, b);
        RunInTwo(started, b, more);
      }
    }
  }
}
