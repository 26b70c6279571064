/** What calls into the driver achieve. */
module Progress {
  // The invariants say what never happens; here each ioctl, run in turn from a reachable state in
  // which it should succeed, does, with its whole effect written out; and where it should be
  // refused, it is, and leaves nothing behind.

  import opened Isa
  import opened Wrappers
  import opened Totals
  import opened KernelBuffers
  import opened Driver
  import opened References
  import opened Ownership
  import opened JobOrder

  // ---- Names are unique ----

  predicate SameName(x: Cell, y: Cell) { x.listed && y.listed && x.ctx == y.ctx && x.id == y.id }

  /** At most one listed buffer of a context has an id. */
  predicate Unique(heap: seq<Cell>) {
    forall a, b :: 0 <= a < |heap| && 0 <= b < |heap| && SameName(heap[a], heap[b]) ==> a == b
  }

  /** Cell c is what a context knows by an id. */
  predicate Names(heap: seq<Cell>, ctx: nat, id: nat, c: nat) {
    c < |heap| && heap[c].listed && heap[c].ctx == ctx && heap[c].id == id
  }

  predicate Unnamed(heap: seq<Cell>, ctx: nat, id: nat) { forall c: nat :: c < |heap| ==> !Names(heap, ctx, id, c) }

  lemma LookupNamed(heap: seq<Cell>, ctx: nat, id: nat)
    requires Unique(heap)
    ensures forall c: nat :: Names(heap, ctx, id, c) ==> Lookup(heap, ctx, id) == Some(c)
    ensures Unnamed(heap, ctx, id) <==> Lookup(heap, ctx, id) == None
  {
    var r := Lookup(heap, ctx, id);
    hide Lookup;
    if r.Some? {
      assert Names(heap, ctx, id, r.value);
    }
  }

  /** A step lists at most one new cell, under a name that was free, and keeps the names of the others. */
  predicate NamesKept(a: seq<Cell>, b: seq<Cell>) {
    && |a| <= |b| <= |a| + 1
    && (forall c :: 0 <= c < |a| && b[c].listed ==> a[c].listed && a[c].ctx == b[c].ctx && a[c].id == b[c].id)
    && (|b| == |a| + 1 ==> Lookup(a, b[|a|].ctx, b[|a|].id).None?)
  }

  lemma KeptUnique(a: seq<Cell>, b: seq<Cell>)
    requires Unique(a) && NamesKept(a, b)
    ensures Unique(b)
  {
    hide Lookup;
  }

  lemma KeptBuf(s: State, ev: Event)
    requires BufNext(s, ev).Some?
    ensures NamesKept(s.heap, BufNext(s, ev).value.heap)
  {
    hide Lookup, Mult;
  }

  lemma KeptCmd(s: State, ev: Event)
    requires CmdNext(s, ev).Some?
    ensures NamesKept(s.heap, CmdNext(s, ev).value.heap)
  {
    hide Lookup, LookupAll, Mult;
  }

  lemma KeptRun(max: nat, s: State, ev: Event)
    requires RunNext(max, s, ev).Some?
    ensures NamesKept(s.heap, RunNext(max, s, ev).value.heap)
  {
    hide Lookup, TakeCmd;
  }

  lemma KeptUpd(s: State, ev: Event)
    requires UpdNext(s, ev).Some?
    ensures NamesKept(s.heap, UpdNext(s, ev).value.heap)
  {
    hide Lookup, LookupAll, TakeCmd, Mult;
  }

  lemma KeptSched(s: State, ev: Event)
    requires SchedNext(s, ev).Some?
    ensures NamesKept(s.heap, SchedNext(s, ev).value.heap)
  {
    hide Lookup, Mult;
  }

  lemma StepUnique(max: nat, s: State, ev: Event)
    requires Unique(s.heap) && Next(max, s, ev).Some?
    ensures Unique(Next(max, s, ev).value.heap)
  {
    hide BufNext, CmdNext, RunNext, UpdNext, SchedNext, Unique, NamesKept;
    if BufNext(s, ev).Some? && (ev.BufCreate? || ev.BufCreated? || ev.Destroy? || ev.Find? || ev.Raw?) {
      KeptBuf(s, ev);
    } else if ev.CmdBind? || ev.CmdFail? || ev.CmdAlloc? || ev.CmdUnbind? || ev.CmdMove? || ev.CmdDone? {
      KeptCmd(s, ev);
    } else if ev.RunEnter? || ev.RunDec? || ev.RunError? || ev.RunLock? || ev.RunQueue? {
      KeptRun(max, s, ev);
    } else if ev.UpdLock? || ev.UpdError? || ev.UpdBind? || ev.UpdSwap? || ev.UpdUnbind? || ev.UpdDone? {
      KeptUpd(s, ev);
    } else if !ev.Fence? && !ev.FenceReturn? {
      KeptSched(s, ev);
    } else {
      assert Next(max, s, ev).value.heap == s.heap;
    }
    var r := Next(max, s, ev).value;
    if r.heap != s.heap {
      KeptUnique(s.heap, r.heap);
    }
  }

  lemma {:induction false} RunUnique(max: nat, contexts: nat, evs: seq<Event>)
    requires Driver.Run(max, Init(contexts), evs).Some?
    ensures Unique(Driver.Run(max, Init(contexts), evs).value.heap)
    decreases |evs|
  {
    hide Next, Unique;
    if evs == [] {
      NothingUnique();
    } else {
      RunUnique(max, contexts, evs[..|evs| - 1]);
      StepUnique(max, Driver.Run(max, Init(contexts), evs[..|evs| - 1]).value, evs[|evs| - 1]);
    }
  }

  lemma NothingUnique()
    ensures Unique([])
  {
  }

  // ---- Calls, step after step ----

  /** The events one after the other. */
  lemma {:induction false} RunFrom(max: nat, s: State, ev: Event, evs: seq<Event>)
    ensures Driver.Run(max, s, [ev] + evs) ==
            (if Next(max, s, ev).None? then None else Driver.Run(max, Next(max, s, ev).value, evs))
    decreases |evs|
  {
    hide Next;
    if evs == [] {
      assert ([ev] + evs)[..0] == [] && ([ev] + evs)[0] == ev;
    } else {
      var n := |evs| - 1;
      RunFrom(max, s, ev, evs[..n]);
      assert ([ev] + evs)[..n + 1] == [ev] + evs[..n] && ([ev] + evs)[n + 1] == evs[n];
    }
  }

  lemma Run2(max: nat, s: State, a: Event, b: Event)
    requires Next(max, s, a).Some?
    ensures Driver.Run(max, s, [a, b]) == Next(max, Next(max, s, a).value, b)
  {
    hide Next;
    assert [a, b] == [a] + [b] && [b] == [b] + [];
    RunFrom(max, s, a, [b]);
    RunFrom(max, Next(max, s, a).value, b, []);
  }

  lemma Run3(max: nat, s: State, a: Event, b: Event, c: Event)
    requires Next(max, s, a).Some?
    ensures Driver.Run(max, s, [a, b, c]) == Driver.Run(max, Next(max, s, a).value, [b, c])
  {
    hide Next;
    assert [a, b, c] == [a] + [b, c];
    RunFrom(max, s, a, [b, c]);
  }

  lemma Run4(max: nat, s: State, a: Event, b: Event, c: Event, d: Event)
    requires Next(max, s, a).Some?
    ensures Driver.Run(max, s, [a, b, c, d]) == Driver.Run(max, Next(max, s, a).value, [b, c, d])
  {
    hide Next;
    assert [a, b, c, d] == [a] + [b, c, d];
    RunFrom(max, s, a, [b, c, d]);
  }

  lemma Run5(max: nat, s: State, a: Event, b: Event, c: Event, d: Event, e: Event)
    requires Next(max, s, a).Some?
    ensures Driver.Run(max, s, [a, b, c, d, e]) == Driver.Run(max, Next(max, s, a).value, [b, c, d, e])
  {
    hide Next;
    assert [a, b, c, d, e] == [a] + [b, c, d, e];
    RunFrom(max, s, a, [b, c, d, e]);
  }

  // ---- Submitting a job ----

  /** An idle command buffer a context can submit by an id. */
  predicate Ready(heap: seq<Cell>, ctx: nat, id: nat, c: nat) {
    Names(heap, ctx, id, c) && heap[c].cmd && !heap[c].locked
  }

  /** The states of a submission. */
  lemma SubmitSteps(max: nat, s: State, ctx: nat, id: nat, c: nat, a: State, b: State)
    requires Unique(s.heap) && ctx < |s.nums| && s.nums[ctx] < max && Ready(s.heap, ctx, id, c)
    requires a == s.(nums := s.nums[ctx := s.nums[ctx] + 1], ops := s.ops + [RunPassed(ctx, id)])
    requires b == a.(heap := s.heap[c := s.heap[c].(count := 1, locked := true)], ops := s.ops + [RunHeld(ctx, c)])
    ensures Next(max, s, RunEnter(ctx, id)) == Some(a) && Next(max, a, RunLock(|s.ops|)) == Some(b)
    ensures Next(max, b, RunQueue(|s.ops|)) ==
            (var job := Driver.Job(ctx, c, s.active + 1);
             Some(b.(ops := s.ops + [Done], queue := s.queue + [job], active := s.active + 1, hist := s.hist + [job])))
  {
    LookupNamed(s.heap, ctx, id);
    hide Lookup;
    Replaced(s.ops, RunPassed(ctx, id), RunHeld(ctx, c));
    Replaced(s.ops, RunHeld(ctx, c), Done);
  }

  lemma Replaced(ops: seq<Op>, x: Op, y: Op)
    ensures (ops + [x])[|ops| := y] == ops + [y] && (ops + [x])[|ops|] == x
  {
  }

  /**
   A submission gets through.  Below the limit, and with an id that names an idle command
   buffer, the caller's steps are possible in turn; a job for that buffer is queued with the
   next number, the context counts one job more, and the buffer is held.
   */
  lemma Submits(max: nat, s: State, ctx: nat, id: nat, c: nat)
    requires Unique(s.heap) && ctx < |s.nums| && s.nums[ctx] < max && Ready(s.heap, ctx, id, c)
    ensures
      var k, job := |s.ops|, Driver.Job(ctx, c, s.active + 1);
      Driver.Run(max, s, [RunEnter(ctx, id), RunLock(k), RunQueue(k)]) ==
      Some(s.(heap := s.heap[c := s.heap[c].(count := 1, locked := true)], ops := s.ops + [Done], queue := s.queue + [job],
              active := s.active + 1, nums := s.nums[ctx := s.nums[ctx] + 1], hist := s.hist + [job]))
  {
    var k := |s.ops|;
    var a := s.(nums := s.nums[ctx := s.nums[ctx] + 1], ops := s.ops + [RunPassed(ctx, id)]);
    var b := a.(heap := s.heap[c := s.heap[c].(count := 1, locked := true)], ops := s.ops + [RunHeld(ctx, c)]);
    SubmitSteps(max, s, ctx, id, c, a, b);
    hide Next;
    Run3(max, s, RunEnter(ctx, id), RunLock(k), RunQueue(k));
    Run2(max, a, RunLock(k), RunQueue(k));
  }

  /** At the limit the caller is refused, and the counter has its value again. */
  lemma RefusedAtLimit(max: nat, s: State, ctx: nat, id: nat)
    requires ctx < |s.nums| && s.nums[ctx] >= max
    ensures Driver.Run(max, s, [RunEnter(ctx, id), RunDec(|s.ops|)]) == Some(s.(ops := s.ops + [Done]))
  {
    hide Driver.Run;
    var k := |s.ops|;
    Run2(max, s, RunEnter(ctx, id), RunDec(k));
    var a := Next(max, s, RunEnter(ctx, id)).value;
    assert a.ops[k] == RunOver(ctx);
    assert s.nums[ctx := s.nums[ctx] + 1][ctx := s.nums[ctx]] == s.nums;
    assert (s.ops + [RunOver(ctx)])[k := Done] == s.ops + [Done];
  }

  /** An id that names no idle command buffer is refused, and the counter has its value again. */
  lemma RefusedUnready(max: nat, s: State, ctx: nat, id: nat)
    requires Unique(s.heap) && ctx < |s.nums| && s.nums[ctx] < max && forall c: nat :: !Ready(s.heap, ctx, id, c)
    ensures Driver.Run(max, s, [RunEnter(ctx, id), RunLock(|s.ops|), RunDec(|s.ops|)]) == Some(s.(ops := s.ops + [Done]))
  {
    var k := |s.ops|;
    var a := s.(nums := s.nums[ctx := s.nums[ctx] + 1], ops := s.ops + [RunPassed(ctx, id)]);
    var b := a.(ops := s.ops + [RunFail(ctx)]);
    RefuseSteps(max, s, ctx, id, a, b);
    hide Next;
    Run3(max, s, RunEnter(ctx, id), RunLock(k), RunDec(k));
    Run2(max, a, RunLock(k), RunDec(k));
  }

  lemma RefuseSteps(max: nat, s: State, ctx: nat, id: nat, a: State, b: State)
    requires Unique(s.heap) && ctx < |s.nums| && s.nums[ctx] < max && forall c: nat :: !Ready(s.heap, ctx, id, c)
    requires a == s.(nums := s.nums[ctx := s.nums[ctx] + 1], ops := s.ops + [RunPassed(ctx, id)])
    requires b == a.(ops := s.ops + [RunFail(ctx)])
    ensures Next(max, s, RunEnter(ctx, id)) == Some(a) && Next(max, a, RunLock(|s.ops|)) == Some(b)
    ensures Next(max, b, RunDec(|s.ops|)) == Some(s.(ops := s.ops + [Done]))
  {
    NotTaken(s.heap, ctx, id);
    hide TakeCmd, Ready;
    Replaced(s.ops, RunPassed(ctx, id), RunFail(ctx));
    Replaced(s.ops, RunFail(ctx), Done);
    assert s.nums[ctx := s.nums[ctx] + 1][ctx := s.nums[ctx]] == s.nums;
  }

  lemma NotTaken(heap: seq<Cell>, ctx: nat, id: nat)
    requires Unique(heap) && forall c: nat :: !Ready(heap, ctx, id, c)
    ensures TakeCmd(heap, ctx, id) == None
  {
    LookupNamed(heap, ctx, id);
    hide Lookup;
    var r := Lookup(heap, ctx, id);
    if r.Some? {
      assert Names(heap, ctx, id, r.value) && !Ready(heap, ctx, id, r.value);
    }
  }

  // ---- Running and retiring a job ----

  /** With a job queued and the device idle, one round of the scheduler retires the oldest job. */
  lemma Retires(max: nat, s: State)
    requires s.sched.Idle? && s.queue != [] && s.queue[0].ctx < |s.nums| && s.nums[s.queue[0].ctx] > 0
    requires s.queue[0].cbuf < |s.heap| && s.heap[s.queue[0].cbuf].count == 1
    ensures
      var j := s.queue[0];
      Driver.Run(max, s, [Pop, Complete, DecNum, Unbind, CountFinished]) ==
      Some(s.(heap := s.heap[j.cbuf := s.heap[j.cbuf].(count := 0, locked := false)], queue := s.queue[1..],
              finished := s.finished + 1, nums := s.nums[j.ctx := s.nums[j.ctx] - 1]))
  {
    hide Driver.Run, UnbindAll;
    var j := s.queue[0];
    var a := s.(queue := s.queue[1..], sched := Running(j));
    var b := a.(sched := Over(j));
    var c := b.(nums := s.nums[j.ctx := s.nums[j.ctx] - 1], sched := Counted(j));
    var d := c.(heap := s.heap[j.cbuf := s.heap[j.cbuf].(count := 0, locked := false)], sched := Released(j));
    RoundStart(max, s, j, a, b, c);
    RoundEnd(max, c, j, d);
    hide Next;
    Run5(max, s, Pop, Complete, DecNum, Unbind, CountFinished);
    Run4(max, a, Complete, DecNum, Unbind, CountFinished);
    Run3(max, b, DecNum, Unbind, CountFinished);
    Run2(max, c, Unbind, CountFinished);
  }

  /** The states of one round of the scheduler. */
  lemma RoundStart(max: nat, s: State, j: Driver.Job, a: State, b: State, c: State)
    requires s.sched.Idle? && s.queue != [] && s.queue[0] == j && j.ctx < |s.nums| && s.nums[j.ctx] > 0
    requires a == s.(queue := s.queue[1..], sched := Running(j)) && b == a.(sched := Over(j))
    requires c == b.(nums := s.nums[j.ctx := s.nums[j.ctx] - 1], sched := Counted(j))
    ensures Next(max, s, Pop) == Some(a) && Next(max, a, Complete) == Some(b) && Next(max, b, DecNum) == Some(c)
  {
  }

  lemma RoundEnd(max: nat, c: State, j: Driver.Job, d: State)
    requires c.sched == Counted(j) && j.cbuf < |c.heap| && c.heap[j.cbuf].count == 1
    requires d == c.(heap := c.heap[j.cbuf := c.heap[j.cbuf].(count := 0, locked := false)], sched := Released(j))
    ensures Next(max, c, Unbind) == Some(d) && Next(max, d, CountFinished) == Some(d.(finished := c.finished + 1, sched := Idle))
  {
    hide UnbindAll;
    UnbindOne(c.heap, j.cbuf);
  }

  lemma UnbindOne(heap: seq<Cell>, c: nat)
    requires c < |heap| && heap[c].count == 1
    ensures UnbindAll(heap, [c]) == heap[c := heap[c].(count := 0, locked := false)]
  {
    forall x | 0 <= x < |heap| ensures UnbindAll(heap, [c])[x] == heap[c := heap[c].(count := 0, locked := false)][x] {
      MultOne(c, x);
    }
  }

  // ---- Fences ----

  /** A wait is over exactly when as many jobs as its number are finished; returning changes nothing else. */
  lemma FenceOver(max: nat, s: State, k: nat)
    requires k < |s.ops| && s.ops[k].FenceWait?
    ensures Next(max, s, FenceReturn(k)) == if s.ops[k].num <= s.finished then Some(s.(ops := s.ops[k := Done])) else None
  {
  }

  /** A wait for a finished job returns at once. */
  lemma FencePasses(max: nat, s: State, n: nat)
    requires n <= s.finished <= s.active
    ensures Driver.Run(max, s, [Fence(n), FenceReturn(|s.ops|)]) == Some(s.(ops := s.ops + [Done]))
  {
    var k := |s.ops|;
    Run2(max, s, Fence(n), FenceReturn(k));
    var a := Next(max, s, Fence(n)).value;
    assert a.ops[k] == FenceWait(n);
    assert (s.ops + [FenceWait(n)])[k := Done] == s.ops + [Done];
  }

  // ---- Buffers ----

  /** Creating a data buffer under a free id lists one, unbound. */
  lemma CreatesBuffer(max: nat, s: State, ctx: nat, id: nat)
    requires Unique(s.heap) && Unnamed(s.heap, ctx, id)
    ensures
      Driver.Run(max, s, [BufCreate(ctx, id), BufCreated(|s.ops|, true)]) ==
      Some(s.(heap := s.heap + [Cell(ctx, id, false, true, true, false, 0, None, [], 0)], ops := s.ops + [Done]))
  {
    var k, c := |s.ops|, |s.heap|;
    LookupNamed(s.heap, ctx, id);
    hide Lookup, Driver.Run;
    Run2(max, s, BufCreate(ctx, id), BufCreated(k, true));
    var a := Next(max, s, BufCreate(ctx, id)).value;
    assert a.ops[k] == BufMade(ctx, c);
    UnbindOne(a.heap, c);
    assert (s.ops + [BufMade(ctx, c)])[k := Done] == s.ops + [Done];
    assert (s.heap + [NewCell(ctx, id, false)])[c := Cell(ctx, id, false, true, true, false, 0, None, [], 0)] ==
           s.heap + [Cell(ctx, id, false, true, true, false, 0, None, [], 0)];
  }

  /** Destroying an unlocked data buffer unlists and frees it; a locked one, or an unknown id, stays as it is. */
  lemma DestroysData(max: nat, s: State, ctx: nat, id: nat, c: nat)
    requires Unique(s.heap) && Names(s.heap, ctx, id, c) && !s.heap[c].cmd
    ensures
      var k := |s.ops|;
      if s.heap[c].locked then
        Driver.Run(max, s, [Destroy(ctx, id), Find(k)]) == Some(s.(ops := s.ops + [Done]))
      else
        Driver.Run(max, s, [Destroy(ctx, id), Find(k), Raw(k)]) ==
        Some(s.(heap := s.heap[c := s.heap[c].(listed := false, alive := false)], ops := s.ops + [Done]))
  {
    var k := |s.ops|;
    var a := s.(ops := s.ops + [FindToDestroy(ctx, id)]);
    if s.heap[c].locked {
      LookupNamed(s.heap, ctx, id);
      hide Lookup;
      Run2(max, s, Destroy(ctx, id), Find(k));
      Replaced(s.ops, FindToDestroy(ctx, id), Done);
    } else {
      var b := s.(heap := s.heap[c := s.heap[c].(listed := false)], ops := s.ops + [RawDestroy(c)]);
      DoFind(max, s, ctx, id, c, a, b);
      Replaced(s.ops, RawDestroy(c), Done);
      assert b.heap[c := b.heap[c].(alive := false)] == s.heap[c := s.heap[c].(listed := false, alive := false)];
      Run3(max, s, Destroy(ctx, id), Find(k), Raw(k));
      Run2(max, a, Find(k), Raw(k));
    }
  }

  lemma DestroyUnknown(max: nat, s: State, ctx: nat, id: nat)
    requires Unique(s.heap) && Unnamed(s.heap, ctx, id)
    ensures Driver.Run(max, s, [Destroy(ctx, id), Find(|s.ops|)]) == Some(s.(ops := s.ops + [Done]))
  {
    var k := |s.ops|;
    LookupNamed(s.heap, ctx, id);
    hide Lookup, Driver.Run;
    Run2(max, s, Destroy(ctx, id), Find(k));
    var a := Next(max, s, Destroy(ctx, id)).value;
    assert a.ops[k] == FindToDestroy(ctx, id);
    assert (s.ops + [FindToDestroy(ctx, id)])[k := Done] == s.ops + [Done];
  }

  // ---- Counts ----

  /** Every buffer with one more binding for each time it occurs. */
  function Bound(heap: seq<Cell>, bufs: seq<nat>): (r: seq<Cell>)
    ensures |r| == |heap|
  {
    seq(|heap|, x requires 0 <= x < |heap| =>
      if Mult(bufs, x) == 0 then heap[x] else heap[x].(count := heap[x].count + Mult(bufs, x), locked := true))
  }

  /** Every buffer with one binding less for each time it occurs; LOCKED while any is left. */
  function Freed(heap: seq<Cell>, bufs: seq<nat>): (r: seq<Cell>)
    requires Releasable(heap, bufs)
    ensures |r| == |heap|
  {
    seq(|heap|, x requires 0 <= x < |heap| =>
      if Mult(bufs, x) == 0 then heap[x]
      else heap[x].(count := heap[x].count - Mult(bufs, x), locked := heap[x].count > Mult(bufs, x)))
  }

  predicate Releasable(heap: seq<Cell>, bufs: seq<nat>) {
    forall x :: 0 <= x < |heap| && Mult(bufs, x) > 0 ==> Mult(bufs, x) <= heap[x].count && heap[x].locked
  }

  lemma BindIs(s: State, bufs: seq<nat>)
    requires AllCounted(s) && forall i :: 0 <= i < |bufs| ==> bufs[i] < |s.heap| && s.heap[bufs[i]].alive
    ensures BindAll(s.heap, bufs) == Bound(s.heap, bufs)
  {
    forall x | 0 <= x < |s.heap| ensures BindAll(s.heap, bufs)[x] == Bound(s.heap, bufs)[x] {
      assert CountedAt(s, x);
      if Mult(bufs, x) > 0 {
        assert x in bufs;
      }
    }
  }

  lemma UnbindIs(heap: seq<Cell>, bufs: seq<nat>)
    requires Releasable(heap, bufs)
    ensures UnbindAll(heap, bufs) == Freed(heap, bufs)
  {
    forall x | 0 <= x < |heap| ensures UnbindAll(heap, bufs)[x] == Freed(heap, bufs)[x] { }
  }

  /** Position by position, ids name the given data buffers. */
  predicate NamesAll(heap: seq<Cell>, ctx: nat, ids: seq<nat>, bufs: seq<nat>) {
    |ids| == |bufs| && forall i :: 0 <= i < |ids| ==> Names(heap, ctx, ids[i], bufs[i]) && !heap[bufs[i]].cmd
  }

  lemma {:induction false} LookupAllNamed(heap: seq<Cell>, ctx: nat, ids: seq<nat>)
    requires Unique(heap)
    ensures forall bufs: seq<nat> :: NamesAll(heap, ctx, ids, bufs) ==> LookupAll(heap, ctx, ids) == Some(bufs)
    ensures LookupAll(heap, ctx, ids).Some? ==> NamesAll(heap, ctx, ids, LookupAll(heap, ctx, ids).value)
    decreases |ids|
  {
    if ids != [] {
      var n := |ids| - 1;
      LookupAllNamed(heap, ctx, ids[..n]);
      LookupNamed(heap, ctx, ids[n]);
      hide Lookup, Unique;
      var r := LookupAll(heap, ctx, ids);
      forall bufs: seq<nat> | NamesAll(heap, ctx, ids, bufs) ensures r == Some(bufs) {
        assert NamesAll(heap, ctx, ids[..n], bufs[..n]) && Names(heap, ctx, ids[n], bufs[n]);
        assert bufs == bufs[..n] + [bufs[n]];
      }
      if r.Some? {
        assert Names(heap, ctx, ids[n], r.value[n]);
        assert r.value[..n] == LookupAll(heap, ctx, ids[..n]).value;
      }
    }
  }

  // ---- Command buffers ----

  lemma DoAlloc(max: nat, t: State, k: nat, ctx: nat, bufs: seq<nat>, id: nat)
    requires k < |t.ops| && t.ops[k] == CmdBound(ctx, bufs) && Lookup(t.heap, ctx, id) == None
    ensures Next(max, t, CmdAlloc(k, id)) ==
            Some(t.(heap := t.heap + [Cell(ctx, id, true, true, true, true, 1, None, [], 0)],
                    ops := t.ops[k := CmdMade(ctx, |t.heap|, bufs)]))
  {
    hide Lookup;
  }

  lemma DoMove(max: nat, t: State, k: nat, ctx: nat, c: nat, bufs: seq<nat>, prog: seq<Word>)
    requires k < |t.ops| && t.ops[k] == CmdMade(ctx, c, bufs) && c < |t.heap|
    ensures Next(max, t, CmdMove(k, prog)) ==
            Some(t.(heap := t.heap[c := t.heap[c].(res := Some(bufs), prog := prog)], ops := t.ops[k := CmdMoved(ctx, c)]))
  {
  }

  lemma DoDone(max: nat, t: State, k: nat, ctx: nat, c: nat)
    requires k < |t.ops| && t.ops[k] == CmdMoved(ctx, c) && c < |t.heap| && t.heap[c].count == 1
    ensures Next(max, t, CmdDone(k, true)) ==
            Some(t.(heap := t.heap[c := t.heap[c].(count := 0, locked := false)], ops := t.ops[k := Done]))
  {
    hide UnbindAll;
    UnbindOne(t.heap, c);
  }

  /** Looking named data buffers up finds them, and binding them counts their occurrences. */
  lemma BindNamed(s: State, ctx: nat, ids: seq<nat>, bufs: seq<nat>)
    requires Inv(s) && Unique(s.heap) && NamesAll(s.heap, ctx, ids, bufs)
    ensures LookupAll(s.heap, ctx, ids) == Some(bufs) && BindAll(s.heap, bufs) == Bound(s.heap, bufs)
  {
    LookupAllNamed(s.heap, ctx, ids);
    AliveAll(s, ctx, ids, bufs);
    BindIs(s, bufs);
  }

  lemma DoBind(max: nat, s: State, ctx: nat, ids: seq<nat>, bufs: seq<nat>)
    requires Inv(s) && Unique(s.heap) && NamesAll(s.heap, ctx, ids, bufs)
    ensures Next(max, s, CmdBind(ctx, ids)) == Some(s.(heap := Bound(s.heap, bufs), ops := s.ops + [CmdBound(ctx, bufs)]))
  {
    hide NamesAll, LookupAll, Inv, Unique, BindAll, Bound;
    BindNamed(s, ctx, ids, bufs);
  }

  /** The states of a command buffer creation. */
  lemma CreateSteps(max: nat, s: State, ctx: nat, ids: seq<nat>, bufs: seq<nat>, id: nat, prog: seq<Word>, a: State, b: State, c: State)
    requires Inv(s) && Unique(s.heap) && NamesAll(s.heap, ctx, ids, bufs) && Unnamed(s.heap, ctx, id)
    requires a == s.(heap := Bound(s.heap, bufs), ops := s.ops + [CmdBound(ctx, bufs)])
    requires b == a.(heap := Bound(s.heap, bufs) + [Cell(ctx, id, true, true, true, true, 1, None, [], 0)],
                     ops := s.ops + [CmdMade(ctx, |s.heap|, bufs)])
    requires c == b.(heap := Bound(s.heap, bufs) + [Cell(ctx, id, true, true, true, true, 1, Some(bufs), prog, 0)],
                     ops := s.ops + [CmdMoved(ctx, |s.heap|)])
    ensures Next(max, s, CmdBind(ctx, ids)) == Some(a) && Next(max, a, CmdAlloc(|s.ops|, id)) == Some(b)
    ensures Next(max, b, CmdMove(|s.ops|, prog)) == Some(c)
    ensures Next(max, c, CmdDone(|s.ops|, true)) ==
            Some(c.(heap := Bound(s.heap, bufs) + [Cell(ctx, id, true, true, true, false, 0, Some(bufs), prog, 0)], ops := s.ops + [Done]))
  {
    DoBind(max, s, ctx, ids, bufs);
    BoundNames(s.heap, bufs, ctx, id);
    hide Next, Bound, Unique, Inv, Unnamed, Lookup, NamesAll;
    var n, k := |s.heap|, |s.ops|;
    Replaced(s.ops, CmdBound(ctx, bufs), CmdMade(ctx, n, bufs));
    Replaced(s.ops, CmdMade(ctx, n, bufs), CmdMoved(ctx, n));
    Replaced(s.ops, CmdMoved(ctx, n), Done);
    LastCell(Bound(s.heap, bufs), b.heap[n], c.heap[n]);
    LastCell(Bound(s.heap, bufs), c.heap[n], c.heap[n].(count := 0, locked := false));
    DoAlloc(max, a, k, ctx, bufs, id);
    DoMove(max, b, k, ctx, n, bufs, prog);
    DoDone(max, c, k, ctx, n);
  }

  lemma LastCell(heap: seq<Cell>, x: Cell, y: Cell)
    ensures (heap + [x])[|heap| := y] == heap + [y]
  {
  }

  lemma AliveAll(s: State, ctx: nat, ids: seq<nat>, bufs: seq<nat>)
    requires Inv(s) && NamesAll(s.heap, ctx, ids, bufs)
    ensures forall i :: 0 <= i < |bufs| ==> bufs[i] < |s.heap| && s.heap[bufs[i]].alive
  {
    forall i | 0 <= i < |bufs| ensures bufs[i] < |s.heap| && s.heap[bufs[i]].alive {
      assert Names(s.heap, ctx, ids[i], bufs[i]) && CellTyped(s.heap, s.heap[bufs[i]]);
    }
  }

  /** Counting bindings changes no name. */
  lemma BoundNames(heap: seq<Cell>, bufs: seq<nat>, ctx: nat, id: nat)
    requires Unique(heap)
    ensures Unique(Bound(heap, bufs))
    ensures Unnamed(heap, ctx, id) ==> Lookup(Bound(heap, bufs), ctx, id) == None
  {
    hide Mult;
    assert Unique(Bound(heap, bufs));
    LookupNamed(Bound(heap, bufs), ctx, id);
    if Unnamed(heap, ctx, id) {
      forall c: nat | c < |heap| ensures !Names(Bound(heap, bufs), ctx, id, c) {
        assert !Names(heap, ctx, id, c);
      }
    }
  }

  /**
   Creating a command buffer over data buffers of the context lists one that is unlocked and
   holds them; each of them is bound once more for each time it occurs.
   */
  lemma CreatesCommands(max: nat, s: State, ctx: nat, ids: seq<nat>, bufs: seq<nat>, id: nat, prog: seq<Word>)
    requires Inv(s) && Unique(s.heap) && NamesAll(s.heap, ctx, ids, bufs) && Unnamed(s.heap, ctx, id)
    ensures
      var k := |s.ops|;
      Driver.Run(max, s, [CmdBind(ctx, ids), CmdAlloc(k, id), CmdMove(k, prog), CmdDone(k, true)]) ==
      Some(s.(heap := Bound(s.heap, bufs) + [Cell(ctx, id, true, true, true, false, 0, Some(bufs), prog, 0)], ops := s.ops + [Done]))
  {
    var k := |s.ops|;
    var a := s.(heap := Bound(s.heap, bufs), ops := s.ops + [CmdBound(ctx, bufs)]);
    var b := a.(heap := Bound(s.heap, bufs) + [Cell(ctx, id, true, true, true, true, 1, None, [], 0)],
                ops := s.ops + [CmdMade(ctx, |s.heap|, bufs)]);
    var c := b.(heap := Bound(s.heap, bufs) + [Cell(ctx, id, true, true, true, true, 1, Some(bufs), prog, 0)],
                ops := s.ops + [CmdMoved(ctx, |s.heap|)]);
    CreateSteps(max, s, ctx, ids, bufs, id, prog, a, b, c);
    hide Next, Inv, Unique, NamesAll, Unnamed, Bound;
    Run4(max, s, CmdBind(ctx, ids), CmdAlloc(k, id), CmdMove(k, prog), CmdDone(k, true));
    Run3(max, a, CmdAlloc(k, id), CmdMove(k, prog), CmdDone(k, true));
    Run2(max, b, CmdMove(k, prog), CmdDone(k, true));
  }

  /** With an id that names no data buffer of the context nothing happens. */
  lemma RefusedBinding(max: nat, s: State, ctx: nat, ids: seq<nat>)
    requires Unique(s.heap) && forall bufs: seq<nat> :: !NamesAll(s.heap, ctx, ids, bufs)
    ensures Next(max, s, CmdBind(ctx, ids)) == Some(s)
  {
    LookupAllNamed(s.heap, ctx, ids);
    hide LookupAll, NamesAll;
  }

  // ---- Re-binding in the driver ----

  /** A command buffer over the given resources that nobody uses. */
  predicate IdleOver(heap: seq<Cell>, ctx: nat, id: nat, c: nat, was: seq<nat>) {
    Ready(heap, ctx, id, c) && heap[c].res == Some(was) && heap[c].count == 0
  }

  /** The data buffers of a live command buffer are bound at least as often as it holds them. */
  lemma HeldCounts(s: State, c: nat, x: nat)
    requires Inv(s) && c < |s.heap| && s.heap[c].alive && x < |s.heap| && Mult(Resources(s.heap[c]), x) > 0
    ensures x != c && s.heap[x].alive && Mult(Resources(s.heap[c]), x) <= s.heap[x].count && s.heap[x].locked
  {
    hide Total, OpsTyped, QueueTyped, SchedTyped, AllUnlisted;
    assert CountedAt(s, x) && CellTyped(s.heap, s.heap[c]) && CellTyped(s.heap, s.heap[x]);
    TotalHas(s.heap, c, CellHolder(x));
    MultIn(Resources(s.heap[c]), x);
  }

  lemma DoUpdLock(max: nat, s: State, ctx: nat, id: nat, c: nat)
    requires Unique(s.heap) && Ready(s.heap, ctx, id, c)
    ensures Next(max, s, UpdLock(ctx, id)) ==
            Some(s.(heap := s.heap[c := s.heap[c].(count := 1, locked := true)], ops := s.ops + [UpdHeld(ctx, c)]))
  {
    LookupNamed(s.heap, ctx, id);
    hide Lookup;
  }

  lemma DoUpdBind(max: nat, t: State, k: nat, ctx: nat, c: nat, ids: seq<nat>, bufs: seq<nat>)
    requires Inv(t) && Unique(t.heap) && NamesAll(t.heap, ctx, ids, bufs)
    requires k < |t.ops| && t.ops[k] == UpdHeld(ctx, c) && c < |t.heap| && |Resources(t.heap[c])| == |ids|
    ensures Next(max, t, UpdBind(k, ids)) == Some(t.(heap := Bound(t.heap, bufs), ops := t.ops[k := UpdBound(c, bufs)]))
  {
    hide NamesAll, LookupAll, Inv, Unique, BindAll, Bound;
    BindNamed(t, ctx, ids, bufs);
  }

  lemma DoUpdSwap(max: nat, t: State, k: nat, c: nat, bufs: seq<nat>, prog: seq<Word>)
    requires k < |t.ops| && t.ops[k] == UpdBound(c, bufs) && c < |t.heap|
    ensures Next(max, t, UpdSwap(k, true, prog)) ==
            Some(t.(heap := t.heap[c := t.heap[c].(res := Some(bufs), prog := prog)],
                    ops := t.ops[k := UpdOld(c, Resources(t.heap[c]))]))
  {
  }

  lemma DoUpdUnbind(max: nat, t: State, k: nat, c: nat, was: seq<nat>)
    requires k < |t.ops| && t.ops[k] == UpdOld(c, was) && Releasable(t.heap, was)
    ensures Next(max, t, UpdUnbind(k)) == Some(t.(heap := Freed(t.heap, was), ops := t.ops[k := UpdExit(c)]))
  {
    UnbindIs(t.heap, was);
    hide UnbindAll, Freed;
  }

  lemma DoUpdDone(max: nat, t: State, k: nat, c: nat)
    requires k < |t.ops| && t.ops[k] == UpdExit(c) && c < |t.heap| && t.heap[c].count == 1
    ensures Next(max, t, UpdDone(k)) == Some(t.(heap := t.heap[c := t.heap[c].(count := 0, locked := false)], ops := t.ops[k := Done]))
  {
    hide UnbindAll;
    UnbindOne(t.heap, c);
  }

  /** The heap while an update holds command buffer c, and after it. */
  function Seized(heap: seq<Cell>, c: nat): (r: seq<Cell>)
    requires c < |heap|
    ensures |r| == |heap|
  {
    heap[c := heap[c].(count := 1, locked := true)]
  }

  lemma SeizedNames(heap: seq<Cell>, c: nat, ctx: nat, ids: seq<nat>, bufs: seq<nat>)
    requires c < |heap| && Unique(heap) && NamesAll(heap, ctx, ids, bufs) && heap[c].cmd
    ensures Unique(Seized(heap, c)) && NamesAll(Seized(heap, c), ctx, ids, bufs)
  {
    var b := Seized(heap, c);
    forall i | 0 <= i < |ids| ensures Names(b, ctx, ids[i], bufs[i]) && !b[bufs[i]].cmd {
      assert Names(heap, ctx, ids[i], bufs[i]) && !heap[bufs[i]].cmd;
    }
  }

  /** With the new resources bound and in place, the old ones can be given up. */
  lemma SwappedReleasable(s: State, c: nat, was: seq<nat>, bufs: seq<nat>, prog: seq<Word>)
    requires Inv(s) && c < |s.heap| && s.heap[c].alive && s.heap[c].res == Some(was)
    ensures
      var h := Bound(Seized(s.heap, c), bufs);
      Releasable(h[c := h[c].(res := Some(bufs), prog := prog)], was)
  {
    var h := Bound(Seized(s.heap, c), bufs);
    var g := h[c := h[c].(res := Some(bufs), prog := prog)];
    hide Inv;
    forall x | 0 <= x < |g| && Mult(was, x) > 0 ensures Mult(was, x) <= g[x].count && g[x].locked {
      HeldCounts(s, c, x);
    }
  }

  /** The heap an update leaves: new resources bound and in place, old ones given up, the buffer idle. */
  function Rebound(heap: seq<Cell>, c: nat, was: seq<nat>, bufs: seq<nat>, prog: seq<Word>): (r: seq<Cell>)
    requires c < |heap| && Releasable(Swapped(heap, c, bufs, prog), was)
    ensures |r| == |heap|
  {
    var g := Freed(Swapped(heap, c, bufs, prog), was);
    g[c := g[c].(count := 0, locked := false)]
  }

  function Swapped(heap: seq<Cell>, c: nat, bufs: seq<nat>, prog: seq<Word>): (r: seq<Cell>)
    requires c < |heap|
    ensures |r| == |heap|
  {
    var h := Bound(Seized(heap, c), bufs);
    h[c := h[c].(res := Some(bufs), prog := prog)]
  }

  lemma Untouched(heap: seq<Cell>, bufs: seq<nat>, c: nat)
    requires c < |heap| && Mult(bufs, c) == 0
    ensures Bound(heap, bufs)[c] == heap[c]
    ensures Releasable(heap, bufs) ==> Freed(heap, bufs)[c] == heap[c]
  {
  }

  /** A command buffer is no resource of its own or of others. */
  lemma NotItsOwn(s: State, ctx: nat, ids: seq<nat>, bufs: seq<nat>, c: nat)
    requires c < |s.heap| && s.heap[c].cmd && NamesAll(s.heap, ctx, ids, bufs)
    ensures Mult(bufs, c) == 0
  {
    forall i | 0 <= i < |bufs| ensures bufs[i] != c {
      assert Names(s.heap, ctx, ids[i], bufs[i]) && !s.heap[bufs[i]].cmd;
    }
    assert c !in bufs;
  }

  /** The states of an update. */
  lemma UpdateSteps(max: nat, s: State, ctx: nat, id: nat, c: nat, was: seq<nat>, ids: seq<nat>, bufs: seq<nat>, prog: seq<Word>,
                    a: State, b: State, d: State, e: State)
    requires Inv(s) && Unique(s.heap) && IdleOver(s.heap, ctx, id, c, was) && |was| == |ids| && NamesAll(s.heap, ctx, ids, bufs)
    requires Releasable(Swapped(s.heap, c, bufs, prog), was) && Mult(was, c) == 0 && Mult(bufs, c) == 0
    requires a == s.(heap := Seized(s.heap, c), ops := s.ops + [UpdHeld(ctx, c)])
    requires b == s.(heap := Bound(Seized(s.heap, c), bufs), ops := s.ops + [UpdBound(c, bufs)])
    requires d == s.(heap := Swapped(s.heap, c, bufs, prog), ops := s.ops + [UpdOld(c, was)])
    requires e == s.(heap := Freed(Swapped(s.heap, c, bufs, prog), was), ops := s.ops + [UpdExit(c)])
    ensures Next(max, s, UpdLock(ctx, id)) == Some(a) && Next(max, a, UpdBind(|s.ops|, ids)) == Some(b)
    ensures Next(max, b, UpdSwap(|s.ops|, true, prog)) == Some(d) && Next(max, d, UpdUnbind(|s.ops|)) == Some(e)
    ensures Next(max, e, UpdDone(|s.ops|)) ==
            Some(s.(heap := Rebound(s.heap, c, was, bufs, prog), ops := s.ops + [Done]))
  {
    var k := |s.ops|;
    assert s.heap[c].cmd && c < |s.heap| && Seized(s.heap, c)[c].count == 1 && Resources(s.heap[c]) == was;
    DoUpdLock(max, s, ctx, id, c);
    hide Next, Bound, Freed, Unique, Inv, NamesAll, Mult, Releasable;
    StepInv(max, s, UpdLock(ctx, id));
    SeizedNames(s.heap, c, ctx, ids, bufs);
    Replaced(s.ops, UpdHeld(ctx, c), UpdBound(c, bufs));
    Replaced(s.ops, UpdBound(c, bufs), UpdOld(c, was));
    Replaced(s.ops, UpdOld(c, was), UpdExit(c));
    Replaced(s.ops, UpdExit(c), Done);
    DoUpdBind(max, a, k, ctx, c, ids, bufs);
    Untouched(Seized(s.heap, c), bufs, c);
    DoUpdSwap(max, b, k, c, bufs, prog);
    DoUpdUnbind(max, d, k, c, was);
    Untouched(Swapped(s.heap, c, bufs, prog), was, c);
    DoUpdDone(max, e, k, c);
  }

  /**
   Updating an idle command buffer with as many data buffers of the context as it holds puts
   them and the patched words in place, binds them, gives up the old ones and leaves it idle.
   */
  lemma Updates(max: nat, s: State, ctx: nat, id: nat, c: nat, was: seq<nat>, ids: seq<nat>, bufs: seq<nat>, prog: seq<Word>)
    requires Inv(s) && Unique(s.heap) && IdleOver(s.heap, ctx, id, c, was) && |was| == |ids| && NamesAll(s.heap, ctx, ids, bufs)
    ensures Releasable(Swapped(s.heap, c, bufs, prog), was)
    ensures
      var k := |s.ops|;
      Driver.Run(max, s, [UpdLock(ctx, id), UpdBind(k, ids), UpdSwap(k, true, prog), UpdUnbind(k), UpdDone(k)]) ==
      Some(s.(heap := Rebound(s.heap, c, was, bufs, prog), ops := s.ops + [Done]))
  {
    var k := |s.ops|;
    assert s.heap[c].alive && s.heap[c].cmd by { assert CellTyped(s.heap, s.heap[c]); }
    NotItsOwn(s, ctx, ids, bufs, c);
    hide Inv, Unique, NamesAll, Mult, Releasable, Bound, Freed;
    OwnResources(s, c);
    SwappedReleasable(s, c, was, bufs, prog);
    var a := s.(heap := Seized(s.heap, c), ops := s.ops + [UpdHeld(ctx, c)]);
    var b := s.(heap := Bound(Seized(s.heap, c), bufs), ops := s.ops + [UpdBound(c, bufs)]);
    var d := s.(heap := Swapped(s.heap, c, bufs, prog), ops := s.ops + [UpdOld(c, was)]);
    var e := s.(heap := Freed(Swapped(s.heap, c, bufs, prog), was), ops := s.ops + [UpdExit(c)]);
    UpdateSteps(max, s, ctx, id, c, was, ids, bufs, prog, a, b, d, e);
    hide Next, Seized, Swapped, Rebound;
    Run5(max, s, UpdLock(ctx, id), UpdBind(k, ids), UpdSwap(k, true, prog), UpdUnbind(k), UpdDone(k));
    Run4(max, a, UpdBind(k, ids), UpdSwap(k, true, prog), UpdUnbind(k), UpdDone(k));
    Run3(max, b, UpdSwap(k, true, prog), UpdUnbind(k), UpdDone(k));
    Run2(max, d, UpdUnbind(k), UpdDone(k));
  }

  lemma OwnResources(s: State, c: nat)
    requires Inv(s) && c < |s.heap| && s.heap[c].alive
    ensures Mult(Resources(s.heap[c]), c) == 0
  {
    if Mult(Resources(s.heap[c]), c) > 0 {
      HeldCounts(s, c, c);
    }
  }

  /** A command buffer that is in use, or an id that names none, is not updated. */
  lemma RefusedUpdate(max: nat, s: State, ctx: nat, id: nat)
    requires Unique(s.heap) && forall c: nat :: !Ready(s.heap, ctx, id, c)
    ensures Next(max, s, UpdLock(ctx, id)) == Some(s)
  {
    NotTaken(s.heap, ctx, id);
    hide TakeCmd, Ready;
  }

  /** Destroying an idle command buffer gives up its resources. */
  lemma DestroysCommands(max: nat, s: State, ctx: nat, id: nat, c: nat, was: seq<nat>)
    requires Inv(s) && Unique(s.heap) && IdleOver(s.heap, ctx, id, c, was)
    ensures Releasable(s.heap, was)
    ensures
      var k := |s.ops|;
      Driver.Run(max, s, [Destroy(ctx, id), Find(k), Raw(k)]) ==
      Some(s.(heap := Freed(s.heap, was)[c := s.heap[c].(listed := false, alive := false)], ops := s.ops + [Done]))
  {
    var k := |s.ops|;
    var h := s.heap[c := s.heap[c].(listed := false)];
    ResourcesFree(s, c, was);
    UnlistedFreed(s.heap, c, was);
    var a := s.(ops := s.ops + [FindToDestroy(ctx, id)]);
    var b := s.(heap := h, ops := s.ops + [RawDestroy(c)]);
    DoFind(max, s, ctx, id, c, a, b);
    hide Next, Inv, Unique, Mult, Releasable, Freed;
    Replaced(s.ops, RawDestroy(c), Done);
    DoRaw(max, b, k, c, was);
    Run3(max, s, Destroy(ctx, id), Find(k), Raw(k));
    Run2(max, a, Find(k), Raw(k));
  }

  lemma DoFind(max: nat, s: State, ctx: nat, id: nat, c: nat, a: State, b: State)
    requires Unique(s.heap) && Names(s.heap, ctx, id, c) && !s.heap[c].locked
    requires a == s.(ops := s.ops + [FindToDestroy(ctx, id)])
    requires b == s.(heap := s.heap[c := s.heap[c].(listed := false)], ops := s.ops + [RawDestroy(c)])
    ensures Next(max, s, Destroy(ctx, id)) == Some(a) && Next(max, a, Find(|s.ops|)) == Some(b)
  {
    LookupNamed(s.heap, ctx, id);
    hide Lookup;
    Replaced(s.ops, FindToDestroy(ctx, id), RawDestroy(c));
  }

  /** The resources of an idle command buffer can be given up. */
  lemma ResourcesFree(s: State, c: nat, was: seq<nat>)
    requires Inv(s) && c < |s.heap| && s.heap[c].listed && s.heap[c].res == Some(was)
    ensures Releasable(s.heap, was) && Mult(was, c) == 0 && s.heap[c].cmd
  {
    assert CellTyped(s.heap, s.heap[c]);
    OwnResources(s, c);
    forall x | 0 <= x < |s.heap| && Mult(was, x) > 0 ensures Mult(was, x) <= s.heap[x].count && s.heap[x].locked {
      HeldCounts(s, c, x);
    }
  }

  lemma UnlistedFreed(heap: seq<Cell>, c: nat, was: seq<nat>)
    requires c < |heap| && Releasable(heap, was) && Mult(was, c) == 0
    ensures
      var h := heap[c := heap[c].(listed := false)];
      && Releasable(h, was) && Freed(h, was)[c] == h[c]
      && Freed(h, was)[c := h[c].(alive := false)] == Freed(heap, was)[c := heap[c].(listed := false, alive := false)]
  {
  }

  lemma DoRaw(max: nat, t: State, k: nat, c: nat, was: seq<nat>)
    requires k < |t.ops| && t.ops[k] == RawDestroy(c) && c < |t.heap| && t.heap[c].cmd && t.heap[c].res == Some(was)
    requires Releasable(t.heap, was) && Freed(t.heap, was)[c] == t.heap[c]
    ensures Next(max, t, Raw(k)) == Some(t.(heap := Freed(t.heap, was)[c := t.heap[c].(alive := false)], ops := t.ops[k := Done]))
  {
    UnbindIs(t.heap, was);
    hide UnbindAll, Freed;
  }

  // ---- Calls that give up ----

  /** A submission whose arguments cannot be read leaves nothing behind. */
  lemma AbandonedSubmission(max: nat, s: State, ctx: nat, id: nat)
    requires ctx < |s.nums| && s.nums[ctx] < max
    ensures Driver.Run(max, s, [RunEnter(ctx, id), RunError(|s.ops|), RunDec(|s.ops|)]) == Some(s.(ops := s.ops + [Done]))
  {
    var k := |s.ops|;
    var a := s.(nums := s.nums[ctx := s.nums[ctx] + 1], ops := s.ops + [RunPassed(ctx, id)]);
    var b := a.(ops := s.ops + [RunFail(ctx)]);
    Replaced(s.ops, RunPassed(ctx, id), RunFail(ctx));
    Replaced(s.ops, RunFail(ctx), Done);
    assert s.nums[ctx := s.nums[ctx] + 1][ctx := s.nums[ctx]] == s.nums;
    assert Next(max, s, RunEnter(ctx, id)) == Some(a) && Next(max, a, RunError(k)) == Some(b);
    assert Next(max, b, RunDec(k)) == Some(s.(ops := s.ops + [Done]));
    hide Next;
    Run3(max, s, RunEnter(ctx, id), RunError(k), RunDec(k));
    Run2(max, a, RunError(k), RunDec(k));
  }

  /** Binding and giving up again changes nothing. */
  lemma BoundFreed(s: State, ctx: nat, ids: seq<nat>, bufs: seq<nat>)
    requires Inv(s) && NamesAll(s.heap, ctx, ids, bufs)
    ensures Releasable(Bound(s.heap, bufs), bufs) && Freed(Bound(s.heap, bufs), bufs) == s.heap
  {
    AliveAll(s, ctx, ids, bufs);
    forall x | 0 <= x < |s.heap| ensures Mult(bufs, x) > 0 ==> (s.heap[x].locked <==> s.heap[x].count > 0) {
      if Mult(bufs, x) > 0 {
        assert x in bufs && CountedAt(s, x);
      }
    }
    hide Inv, NamesAll;
    assert Releasable(Bound(s.heap, bufs), bufs);
    assert forall x :: 0 <= x < |s.heap| ==> Freed(Bound(s.heap, bufs), bufs)[x] == s.heap[x];
  }

  lemma DoFail(max: nat, t: State, k: nat, ctx: nat, bufs: seq<nat>)
    requires k < |t.ops| && t.ops[k] == CmdBound(ctx, bufs)
    ensures Next(max, t, CmdFail(k)) == Some(t.(ops := t.ops[k := CmdUndo(bufs)]))
  {
  }

  lemma DoUndo(max: nat, t: State, k: nat, bufs: seq<nat>)
    requires k < |t.ops| && t.ops[k] == CmdUndo(bufs) && Releasable(t.heap, bufs)
    ensures Next(max, t, CmdUnbind(k)) == Some(t.(heap := Freed(t.heap, bufs), ops := t.ops[k := Done]))
  {
    UnbindIs(t.heap, bufs);
    hide UnbindAll, Freed;
  }

  /** A creation that fails after binding its resources gives them back. */
  lemma AbandonedCreation(max: nat, s: State, ctx: nat, ids: seq<nat>, bufs: seq<nat>)
    requires Inv(s) && Unique(s.heap) && NamesAll(s.heap, ctx, ids, bufs)
    ensures Driver.Run(max, s, [CmdBind(ctx, ids), CmdFail(|s.ops|), CmdUnbind(|s.ops|)]) == Some(s.(ops := s.ops + [Done]))
  {
    hide Next, Inv, Unique, NamesAll, Bound, Freed, Releasable;
    var k := |s.ops|;
    var a := s.(heap := Bound(s.heap, bufs), ops := s.ops + [CmdBound(ctx, bufs)]);
    var b := a.(ops := s.ops + [CmdUndo(bufs)]);
    DoBind(max, s, ctx, ids, bufs);
    BoundFreed(s, ctx, ids, bufs);
    Replaced(s.ops, CmdBound(ctx, bufs), CmdUndo(bufs));
    Replaced(s.ops, CmdUndo(bufs), Done);
    DoFail(max, a, k, ctx, bufs);
    DoUndo(max, b, k, bufs);
    Run3(max, s, CmdBind(ctx, ids), CmdFail(k), CmdUnbind(k));
    Run2(max, a, CmdFail(k), CmdUnbind(k));
  }

  /** An update that fails before binding anything leaves the command buffer idle as it was. */
  lemma AbandonedUpdate(max: nat, s: State, ctx: nat, id: nat, c: nat)
    requires Unique(s.heap) && Ready(s.heap, ctx, id, c) && s.heap[c].count == 0
    ensures Driver.Run(max, s, [UpdLock(ctx, id), UpdError(|s.ops|), UpdDone(|s.ops|)]) == Some(s.(ops := s.ops + [Done]))
  {
    var k := |s.ops|;
    var a := s.(heap := s.heap[c := s.heap[c].(count := 1, locked := true)], ops := s.ops + [UpdHeld(ctx, c)]);
    var b := a.(ops := s.ops + [UpdExit(c)]);
    DoUpdLock(max, s, ctx, id, c);
    Replaced(s.ops, UpdHeld(ctx, c), UpdExit(c));
    Replaced(s.ops, UpdExit(c), Done);
    assert Next(max, a, UpdError(k)) == Some(b);
    DoUpdDone(max, b, k, c);
    assert b.heap[c := b.heap[c].(count := 0, locked := false)] == s.heap;
    hide Next;
    Run3(max, s, UpdLock(ctx, id), UpdError(k), UpdDone(k));
    Run2(max, a, UpdError(k), UpdDone(k));
  }

  // ---- The scheduler ----

  /** In every reachable state the oldest queued job can be retired by one round. */
  lemma OldestReady(max: nat, s: State)
    requires Inv(s) && Limited(max, s) && s.sched.Idle? && s.queue != []
    ensures var j := s.queue[0];
            && j.ctx < |s.nums| && s.nums[j.ctx] > 0
            && j.cbuf < |s.heap| && s.heap[j.cbuf].alive && s.heap[j.cbuf].count == 1
  {
    hide OpsTyped, CellsTyped, AllUnlisted;
    var j := s.queue[0];
    assert LimitAt(max, s, j.ctx) && CountedAt(s, j.cbuf);
    TotalHas(s.queue, 0, JobOf(j.ctx));
    TotalHas(s.queue, 0, JobHolder(j.cbuf));
    assert CmdRef(s.heap, j.cbuf);
    JobCounted(s, j.cbuf);
  }

  lemma JobCounted(s: State, c: nat)
    requires Inv(s) && c < |s.heap| && s.heap[c].alive && s.heap[c].cmd && Holds(s, c) > 0
    ensures s.heap[c].count == 1
  {
    hide Holds, OpsTyped, QueueTyped, AllUnlisted;
    assert CountedAt(s, c) && CellTyped(s.heap, s.heap[c]);
  }
}
