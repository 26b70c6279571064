/**
 The error path of an update that keeps its new bindings: without it counts are exact, with
 it the buffers concerned can never be destroyed again.
 */
module Leaks {
  import opened Isa
  import opened Wrappers
  import opened Totals
  import opened KernelBuffers
  import opened Driver
  import opened References
  import opened Ownership

  /** How the leak counters of buffer c change. */
  predicate LeakStep(s: State, r: State, c: nat) {
    && c < |r.heap|
    && (if c < |s.heap| then r.heap[c].leaked == s.heap[c].leaked else r.heap[c].leaked == 0)
  }

  lemma LeakBuf(s: State, ev: Event, c: nat)
    requires BufNext(s, ev).Some? && c < |BufNext(s, ev).value.heap|
    ensures LeakStep(s, BufNext(s, ev).value, c)
  {
    hide Mult;
  }

  lemma LeakCmd(s: State, ev: Event, c: nat)
    requires CmdNext(s, ev).Some? && c < |CmdNext(s, ev).value.heap|
    ensures LeakStep(s, CmdNext(s, ev).value, c)
  {
    hide Mult, LookupAll;
  }

  lemma LeakUpd(s: State, ev: Event, c: nat)
    requires UpdNext(s, ev).Some? && c < |UpdNext(s, ev).value.heap| && !(ev.UpdSwap? && !ev.ok)
    ensures LeakStep(s, UpdNext(s, ev).value, c)
  {
    hide Mult, LookupAll, TakeCmd;
  }

  lemma LeakOther(max: nat, s: State, ev: Event, c: nat)
    requires
      var n := if ev.Fence? || ev.FenceReturn? then FenceNext(s, ev)
               else if ev.RunEnter? || ev.RunDec? || ev.RunError? || ev.RunLock? || ev.RunQueue? then RunNext(max, s, ev)
               else SchedNext(s, ev);
      n == Next(max, s, ev) && n.Some? && c < |n.value.heap|
    ensures LeakStep(s, Next(max, s, ev).value, c)
  {
    hide Mult, TakeCmd, BufNext, CmdNext, UpdNext;
  }

  predicate FailedSwap(ev: Event) { ev.UpdSwap? && !ev.ok }

  lemma StepLeaks(max: nat, s: State, ev: Event, c: nat)
    requires Next(max, s, ev).Some? && !FailedSwap(ev) && c < |Next(max, s, ev).value.heap|
    ensures LeakStep(s, Next(max, s, ev).value, c)
  {
    hide BufNext, CmdNext, RunNext, UpdNext, SchedNext, FenceNext, LeakStep;
    match ev
    case BufCreate(_, _) => LeakBuf(s, ev, c);
    case BufCreated(_, _) => LeakBuf(s, ev, c);
    case Destroy(_, _) => LeakBuf(s, ev, c);
    case Find(_) => LeakBuf(s, ev, c);
    case Raw(_) => LeakBuf(s, ev, c);
    case CmdBind(_, _) => LeakCmd(s, ev, c);
    case CmdFail(_) => LeakCmd(s, ev, c);
    case CmdAlloc(_, _) => LeakCmd(s, ev, c);
    case CmdUnbind(_) => LeakCmd(s, ev, c);
    case CmdMove(_, _) => LeakCmd(s, ev, c);
    case CmdDone(_, _) => LeakCmd(s, ev, c);
    case UpdLock(_, _) => LeakUpd(s, ev, c);
    case UpdError(_) => LeakUpd(s, ev, c);
    case UpdBind(_, _) => LeakUpd(s, ev, c);
    case UpdSwap(_, _, _) => LeakUpd(s, ev, c);
    case UpdUnbind(_) => LeakUpd(s, ev, c);
    case UpdDone(_) => LeakUpd(s, ev, c);
    case _ => LeakOther(max, s, ev, c);
  }

  predicate NoLeak(s: State) { forall c :: 0 <= c < |s.heap| ==> s.heap[c].leaked == 0 }

  /**
   In runs where every swap succeeds, bind_count is exactly the number of references, and
   LOCKED says that there is one.
   */
  lemma {:induction false} ExactCounts(max: nat, contexts: nat, evs: seq<Event>)
    requires Run(max, Init(contexts), evs).Some? && forall i :: 0 <= i < |evs| ==> !FailedSwap(evs[i])
    ensures
      var s := Run(max, Init(contexts), evs).value;
      NoLeak(s) && forall c: nat :: c < |s.heap| && s.heap[c].alive ==>
        s.heap[c].count == Holds(s, c) && (s.heap[c].locked <==> Holds(s, c) > 0)
    decreases |evs|
  {
    hide Next, Holds;
    var r := Run(max, Init(contexts), evs).value;
    if evs != [] {
      var n := |evs| - 1;
      ExactCounts(max, contexts, evs[..n]);
      var s := Run(max, Init(contexts), evs[..n]).value;
      forall c | 0 <= c < |r.heap| ensures r.heap[c].leaked == 0 {
        StepLeaks(max, s, evs[n], c);
      }
    }
    RunInv(max, contexts, evs);
    forall c: nat | c < |r.heap| && r.heap[c].alive
      ensures r.heap[c].count == Holds(r, c) && (r.heap[c].locked <==> Holds(r, c) > 0)
    {
      assert CountedAt(r, c);
    }
  }

  /** A failed swap leaks every binding it made. */
  lemma FailedSwapLeaks(max: nat, s: State, k: nat, prog: seq<Word>, c: nat)
    requires Inv(s) && Next(max, s, UpdSwap(k, false, prog)).Some? && c in s.ops[k].bufs
    ensures
      var r := Next(max, s, UpdSwap(k, false, prog)).value;
      && c < |s.heap| && c < |r.heap| && r.heap[c].alive && r.heap[c].leaked > s.heap[c].leaked
      && s.ops[k].cbuf < |s.heap| && r.heap[s.ops[k].cbuf].prog == s.heap[s.ops[k].cbuf].prog
      && r.heap[s.ops[k].cbuf].res == s.heap[s.ops[k].cbuf].res
  {
    MultIn(s.ops[k].bufs, c);
    HeldAlive(s, k, c);
    HeldAlive(s, k, s.ops[k].cbuf);
  }

  lemma LifeStays(max: nat, s: State, ev: Event, c: nat)
    requires Inv(s) && Next(max, s, ev).Some? && c < |s.heap| && s.heap[c].alive && s.heap[c].leaked > 0
    ensures c < |Next(max, s, ev).value.heap| && Next(max, s, ev).value.heap[c].alive
  {
    assert CountedAt(s, c);
    hide Typed, AllUnlisted, AllCounted, BufNext, CmdNext, RunNext, UpdNext, SchedNext, FenceNext, Holds;
    if ev.Raw? {
      RawKeeps(s, ev.k, c);
    } else if ev.Find? {
      FindLife(s, ev.k, c);
    } else {
      QuietEvent(max, s, ev);
    }
  }

  lemma RawKeeps(s: State, k: nat, c: nat)
    requires Typed(s) && AllUnlisted(s) && BufNext(s, Raw(k)).Some? && c < |s.heap| && s.heap[c].count > 0
    ensures var r := BufNext(s, Raw(k)).value; |r.heap| == |s.heap| && r.heap[c].alive == s.heap[c].alive
  {
    RawIsFree(s, k);
  }

  lemma SwapLeaks(max: nat, s: State, ev: Event, c: nat)
    requires Next(max, s, ev).Some? && FailedSwap(ev) && c < |s.heap|
    ensures var r := Next(max, s, ev).value; c < |r.heap| && r.heap[c].leaked >= s.heap[c].leaked
  {
  }

  lemma LeakStays(max: nat, s: State, ev: Event, c: nat)
    requires Inv(s) && Next(max, s, ev).Some? && c < |s.heap| && s.heap[c].alive && s.heap[c].leaked > 0
    ensures
      var r := Next(max, s, ev).value;
      c < |r.heap| && r.heap[c].alive && r.heap[c].leaked > 0 && r.heap[c].locked
  {
    hide Next, Inv;
    StepInv(max, s, ev);
    LifeStays(max, s, ev, c);
    if FailedSwap(ev) {
      SwapLeaks(max, s, ev, c);
    } else {
      StepLeaks(max, s, ev, c);
    }
    LeakedLocked(Next(max, s, ev).value, c);
  }

  lemma FindLife(s: State, k: nat, c: nat)
    requires BufNext(s, Find(k)).Some? && c < |s.heap|
    ensures var r := BufNext(s, Find(k)).value; |r.heap| == |s.heap| && r.heap[c].alive == s.heap[c].alive
  {
  }

  /** A buffer with a leaked binding stays locked, and so can never be destroyed, in every continuation. */
  lemma {:induction false} LeakedForever(max: nat, s: State, evs: seq<Event>, c: nat)
    requires Inv(s) && Run(max, s, evs).Some? && c < |s.heap| && s.heap[c].alive && s.heap[c].leaked > 0
    ensures
      var r := Run(max, s, evs).value;
      Inv(r) && c < |r.heap| && r.heap[c].alive && r.heap[c].leaked > 0 && r.heap[c].locked
    decreases |evs|
  {
    hide Next, Inv;
    if evs == [] {
      LeakedLocked(s, c);
    } else {
      var n := |evs| - 1;
      LeakedForever(max, s, evs[..n], c);
      StepInv(max, Run(max, s, evs[..n]).value, evs[n]);
      LeakStays(max, Run(max, s, evs[..n]).value, evs[n], c);
    }
  }

  lemma LeakedLocked(s: State, c: nat)
    requires Inv(s) && c < |s.heap| && s.heap[c].alive && s.heap[c].leaked > 0
    ensures s.heap[c].locked
  {
    assert CountedAt(s, c);
  }
}
