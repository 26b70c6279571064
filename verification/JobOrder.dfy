/**
 Jobs of the driver: first in, first out, with consecutive sequence numbers; fences; the
 job limit; and command buffers that stay as they are from submission to retirement.
 */
module JobOrder {
  import opened Isa
  import opened Wrappers
  import opened Totals
  import opened Driver
  import opened References
  import opened Ownership

  // ---- Steps that have nothing to do with jobs ----

  predicate Plain(o: Op) { !o.RunOver? && !o.RunPassed? && !o.RunFail? && !o.RunHeld? }

  predicate PlainAt(s: State, r: State, k: nat) {
    k < |s.ops| == |r.ops| && r.ops == s.ops[k := r.ops[k]] && Plain(s.ops[k]) && Plain(r.ops[k])
  }

  ghost predicate PlainStep(s: State, r: State) {
    && r.queue == s.queue && r.sched == s.sched && r.active == s.active && r.finished == s.finished
    && r.nums == s.nums && r.hist == s.hist
    && (r.ops == s.ops
        || (|r.ops| == |s.ops| + 1 && r.ops == s.ops + [r.ops[|s.ops|]] && Plain(r.ops[|s.ops|]))
        || (exists k: nat :: PlainAt(s, r, k)))
  }

  lemma PlainBuf(s: State, ev: Event)
    requires BufNext(s, ev).Some?
    ensures PlainStep(s, BufNext(s, ev).value)
  {
    hide Mult, Lookup, UnbindAll;
    var r := BufNext(s, ev).value;
    if |r.ops| == |s.ops| && r.ops != s.ops {
      assert PlainAt(s, r, ev.k);
    }
  }

  lemma PlainCmd(s: State, ev: Event)
    requires CmdNext(s, ev).Some?
    ensures PlainStep(s, CmdNext(s, ev).value)
  {
    hide Mult, Lookup, LookupAll, UnbindAll, BindAll;
    var r := CmdNext(s, ev).value;
    if |r.ops| == |s.ops| && r.ops != s.ops {
      assert PlainAt(s, r, ev.k);
    }
  }

  lemma PlainUpd(s: State, ev: Event)
    requires UpdNext(s, ev).Some?
    ensures PlainStep(s, UpdNext(s, ev).value)
  {
    hide Mult, LookupAll, UnbindAll, BindAll, TakeCmd, Seize, Leak;
    var r := UpdNext(s, ev).value;
    if |r.ops| == |s.ops| && r.ops != s.ops {
      assert PlainAt(s, r, ev.k);
    }
  }

  lemma PlainFence(s: State, ev: Event)
    requires FenceNext(s, ev).Some?
    ensures PlainStep(s, FenceNext(s, ev).value)
  {
    var r := FenceNext(s, ev).value;
    if |r.ops| == |s.ops| && r.ops != s.ops {
      assert PlainAt(s, r, ev.k);
    }
  }

  predicate JobEvent(ev: Event) {
    || ev.RunEnter? || ev.RunDec? || ev.RunError? || ev.RunLock? || ev.RunQueue?
    || ev.Pop? || ev.Complete? || ev.DecNum? || ev.Unbind? || ev.CountFinished?
  }

  lemma PlainEvent(max: nat, s: State, ev: Event)
    requires Next(max, s, ev).Some? && !JobEvent(ev)
    ensures PlainStep(s, Next(max, s, ev).value)
  {
    hide BufNext, CmdNext, UpdNext, FenceNext, PlainStep;
    match ev
    case BufCreate(_, _) => PlainBuf(s, ev);
    case BufCreated(_, _) => PlainBuf(s, ev);
    case Destroy(_, _) => PlainBuf(s, ev);
    case Find(_) => PlainBuf(s, ev);
    case Raw(_) => PlainBuf(s, ev);
    case CmdBind(_, _) => PlainCmd(s, ev);
    case CmdFail(_) => PlainCmd(s, ev);
    case CmdAlloc(_, _) => PlainCmd(s, ev);
    case CmdUnbind(_) => PlainCmd(s, ev);
    case CmdMove(_, _) => PlainCmd(s, ev);
    case CmdDone(_, _) => PlainCmd(s, ev);
    case UpdLock(_, _) => PlainUpd(s, ev);
    case UpdError(_) => PlainUpd(s, ev);
    case UpdBind(_, _) => PlainUpd(s, ev);
    case UpdSwap(_, _, _) => PlainUpd(s, ev);
    case UpdUnbind(_) => PlainUpd(s, ev);
    case UpdDone(_) => PlainUpd(s, ev);
    case Fence(_) => PlainFence(s, ev);
    case FenceReturn(_) => PlainFence(s, ev);
  }

  // ---- Order ----

  function Busy(sched: Sched): nat { if sched.Idle? then 0 else 1 }

  /**
   Jobs are numbered in submission order; the scheduler has the oldest unfinished one and
   the queue holds the rest.
   */
  predicate Ordered(s: State) {
    && |s.hist| == s.active && (forall i :: 0 <= i < |s.hist| ==> s.hist[i].num == i + 1)
    && s.finished + Busy(s.sched) + |s.queue| == s.active
    && s.queue == s.hist[s.active - |s.queue|..]
    && (!s.sched.Idle? ==> s.sched.job == s.hist[s.finished])
  }

  lemma SameOrder(s: State, r: State)
    requires Ordered(s) && r.queue == s.queue && r.active == s.active && r.hist == s.hist
    requires r.finished + Busy(r.sched) == s.finished + Busy(s.sched)
    requires !r.sched.Idle? ==> r.finished == s.finished && !s.sched.Idle? && r.sched.job == s.sched.job
    ensures Ordered(r)
  {
  }

  lemma RunOrdered(max: nat, s: State, ev: Event)
    requires Ordered(s) && RunNext(max, s, ev).Some?
    ensures var r := RunNext(max, s, ev).value;
            Ordered(r) && s.hist <= r.hist && s.finished <= r.finished
  {
    var r := RunNext(max, s, ev).value;
    if ev.RunQueue? {
    } else {
      hide TakeCmd, Ordered;
      SameOrder(s, r);
    }
  }

  lemma SchedOrdered(s: State, ev: Event)
    requires Ordered(s) && SchedNext(s, ev).Some?
    ensures var r := SchedNext(s, ev).value;
            Ordered(r) && s.hist <= r.hist && s.finished <= r.finished
  {
    var r := SchedNext(s, ev).value;
    if ev.Pop? {
    } else {
      hide UnbindAll, Ordered;
      SameOrder(s, r);
    }
  }

  lemma StepOrdered(max: nat, s: State, ev: Event)
    requires Ordered(s) && Next(max, s, ev).Some?
    ensures Ordered(Next(max, s, ev).value)
    ensures s.hist <= Next(max, s, ev).value.hist && s.finished <= Next(max, s, ev).value.finished
  {
    hide Ordered, BufNext, CmdNext, UpdNext, FenceNext, RunNext, SchedNext;
    if !JobEvent(ev) {
      PlainEvent(max, s, ev);
      SameOrder(s, Next(max, s, ev).value);
    } else if ev.RunEnter? || ev.RunDec? || ev.RunError? || ev.RunLock? || ev.RunQueue? {
      RunOrdered(max, s, ev);
    } else {
      SchedOrdered(s, ev);
    }
  }

  /** Jobs that still hold their command buffer, oldest first. */
  function HeldJobs(s: State): seq<Job> {
    (match s.sched
     case Running(j) => [j]
     case Over(j) => [j]
     case Counted(j) => [j]
     case _ => []) + s.queue
  }

  /** How many jobs have let go of their command buffer. */
  function Retired(s: State): int { s.active - |HeldJobs(s)| }

  /** Exactly the most recent jobs still hold their buffers, in submission order. */
  lemma HeldAreLatest(s: State)
    requires Ordered(s)
    ensures s.finished <= Retired(s) <= s.finished + 1 && HeldJobs(s) == s.hist[Retired(s)..]
  {
  }

  /**
   Fence correctness: when a wait for number n succeeds, job n has been retired: it is not
   queued, not on the device, and no longer holds its command buffer.
   */
  lemma FenceMeansRetired(s: State, k: nat, j: Job)
    requires Ordered(s) && FenceNext(s, FenceReturn(k)).Some? && j in HeldJobs(s)
    ensures j.num > s.ops[k].num
  {
    HeldAreLatest(s);
  }

  /** A wait for a submitted job is refused only while the job has not been submitted. */
  lemma FenceAccepted(s: State, n: nat)
    requires Ordered(s)
    ensures if n == 0 || (exists j: Job :: j in s.hist && j.num == n) then FenceNext(s, Fence(n)) == Some(Spawn(s, FenceWait(n)))
            else FenceNext(s, Fence(n)) == Some(s)
  {
    if 1 <= n <= s.active {
      assert s.hist[n - 1] in s.hist && s.hist[n - 1].num == n;
    }
  }

  // ---- The job limit ----

  function PassedOf(ctx: nat): Op -> nat {
    (o: Op) => if (o.RunPassed? || o.RunFail? || o.RunHeld?) && o.ctx == ctx then 1 else 0
  }

  function OverOf(ctx: nat): Op -> nat { (o: Op) => if o.RunOver? && o.ctx == ctx then 1 else 0 }
  function JobOf(ctx: nat): Job -> nat { (j: Job) => if j.ctx == ctx then 1 else 0 }

  function SchedCounts(sched: Sched, ctx: nat): nat {
    match sched
    case Running(j) => if j.ctx == ctx then 1 else 0
    case Over(j) => if j.ctx == ctx then 1 else 0
    case _ => 0
  }

  /** Jobs of a context past the limit check and not yet taken off the counter. */
  function Passed(s: State, ctx: nat): nat {
    Total(s.ops, PassedOf(ctx)) + Total(s.queue, JobOf(ctx)) + SchedCounts(s.sched, ctx)
  }

  predicate LimitAt(max: nat, s: State, ctx: nat) {
    && Passed(s, ctx) <= max
    && Passed(s, ctx) + Total(s.ops, OverOf(ctx)) == if ctx < |s.nums| then s.nums[ctx] else 0
  }

  ghost predicate Limited(max: nat, s: State) { forall ctx: nat :: LimitAt(max, s, ctx) }

  lemma PlainLimit(max: nat, s: State, r: State, ctx: nat)
    requires LimitAt(max, s, ctx) && PlainStep(s, r)
    ensures LimitAt(max, r, ctx)
  {
    hide Total;
    if r.ops == s.ops {
    } else if |r.ops| == |s.ops| + 1 {
      TotalSnoc(s.ops, r.ops[|s.ops|], PassedOf(ctx));
      TotalSnoc(s.ops, r.ops[|s.ops|], OverOf(ctx));
    } else {
      var k: nat :| PlainAt(s, r, k);
      TotalUpdate(s.ops, k, r.ops[k], PassedOf(ctx));
      TotalUpdate(s.ops, k, r.ops[k], OverOf(ctx));
    }
  }

  lemma RunLimit(max: nat, s: State, ev: Event, ctx: nat)
    requires LimitAt(max, s, ctx) && RunNext(max, s, ev).Some?
    ensures LimitAt(max, RunNext(max, s, ev).value, ctx)
  {
    hide Total, TakeCmd, Seize;
    var r := RunNext(max, s, ev).value;
    if ev.RunEnter? {
      TotalSnoc(s.ops, r.ops[|s.ops|], PassedOf(ctx));
      TotalSnoc(s.ops, r.ops[|s.ops|], OverOf(ctx));
    } else {
      TotalUpdate(s.ops, ev.k, r.ops[ev.k], PassedOf(ctx));
      TotalUpdate(s.ops, ev.k, r.ops[ev.k], OverOf(ctx));
      if ev.RunQueue? {
        TotalSnoc(s.queue, r.queue[|s.queue|], JobOf(ctx));
      }
    }
  }

  lemma SchedLimit(max: nat, s: State, ev: Event, ctx: nat)
    requires LimitAt(max, s, ctx) && SchedNext(s, ev).Some?
    ensures LimitAt(max, SchedNext(s, ev).value, ctx)
  {
    hide Total, UnbindAll;
    if ev.Pop? {
      TotalHead(s.queue, JobOf(ctx));
    }
  }

  lemma StepLimited(max: nat, s: State, ev: Event)
    requires Limited(max, s) && Next(max, s, ev).Some?
    ensures Limited(max, Next(max, s, ev).value)
  {
    var r := Next(max, s, ev).value;
    hide LimitAt, PlainStep, BufNext, CmdNext, UpdNext, FenceNext, RunNext, SchedNext;
    forall ctx: nat ensures LimitAt(max, r, ctx) {
      assert LimitAt(max, s, ctx);
      if !JobEvent(ev) {
        PlainEvent(max, s, ev);
        PlainLimit(max, s, r, ctx);
      } else if ev.RunEnter? || ev.RunDec? || ev.RunError? || ev.RunLock? || ev.RunQueue? {
        RunLimit(max, s, ev, ctx);
      } else {
        SchedLimit(max, s, ev, ctx);
      }
    }
  }

  // ---- All runs ----

  lemma {:induction false} RunJobs(max: nat, contexts: nat, evs: seq<Event>)
    requires Run(max, Init(contexts), evs).Some?
    ensures Ordered(Run(max, Init(contexts), evs).value) && Limited(max, Run(max, Init(contexts), evs).value)
    decreases |evs|
  {
    hide Next, Ordered, Limited;
    if evs == [] {
      InitJobs(max, contexts);
    } else {
      RunJobs(max, contexts, evs[..|evs| - 1]);
      var s := Run(max, Init(contexts), evs[..|evs| - 1]).value;
      StepOrdered(max, s, evs[|evs| - 1]);
      StepLimited(max, s, evs[|evs| - 1]);
    }
  }

  lemma InitJobs(max: nat, contexts: nat)
    ensures Ordered(Init(contexts)) && Limited(max, Init(contexts))
  {
    hide *;
    InitOrdered(contexts);
    InitLimited(max, contexts);
  }

  lemma InitOrdered(contexts: nat)
    ensures Ordered(Init(contexts))
  {
  }

  lemma InitLimited(max: nat, contexts: nat)
    ensures Limited(max, Init(contexts))
  {
    hide LimitAt, Init;
    forall ctx: nat ensures LimitAt(max, Init(contexts), ctx) {
      InitLimit(max, contexts, ctx);
    }
  }

  lemma InitLimit(max: nat, contexts: nat, ctx: nat)
    ensures LimitAt(max, Init(contexts), ctx)
  {
    var s := Init(contexts);
    assert Passed(s, ctx) == 0;
    assert Total(s.ops, OverOf(ctx)) == 0;
  }

  /** The scheduler is never stuck with a job: each of its steps is possible when its turn comes. */
  lemma SchedulerMoves(max: nat, s: State)
    requires Limited(max, s) && !(s.sched.Idle? && s.queue == [])
    ensures exists ev: Event :: (ev.Pop? || ev.Complete? || ev.DecNum? || ev.Unbind? || ev.CountFinished?) && Next(max, s, ev).Some?
  {
    hide Total;
    match s.sched
    case Idle => assert Next(max, s, Pop).Some?;
    case Running(_) => assert Next(max, s, Complete).Some?;
    case Over(j) =>
      assert LimitAt(max, s, j.ctx);
      assert Next(max, s, DecNum).Some?;
    case Counted(_) => assert Next(max, s, Unbind).Some?;
    case Released(_) => assert Next(max, s, CountFinished).Some?;
  }

  // ---- Command buffers of pending jobs ----

  function JobHolds(s: State, c: nat): nat { Total(s.queue, JobHolder(c)) + SchedHolds(s.sched, c) }

  /** A live command buffer's count is 0 or 1, the number of jobs and callers that use it. */
  lemma Exclusive(s: State, c: nat)
    requires Inv(s) && c < |s.heap| && s.heap[c].alive && s.heap[c].cmd
    ensures s.heap[c].count == JobHolds(s, c) + Total(s.ops, OpHolder(c)) <= 1
    ensures s.heap[c].locked <==> s.heap[c].count == 1
  {
    hide Total, OpsTyped, QueueTyped, SchedTyped, AllUnlisted;
    assert CountedAt(s, c) && CellTyped(s.heap, s.heap[c]);
    forall i | 0 <= i < |s.heap| ensures CellHolder(c)(s.heap[i]) == 0 {
      assert CellTyped(s.heap, s.heap[i]);
      MultIn(Resources(s.heap[i]), c);
    }
    TotalZero(s.heap, CellHolder(c));
  }

  predicate SameBody(a: Cell, b: Cell) {
    a.prog == b.prog && a.res == b.res && a.alive == b.alive && a.listed == b.listed && a.cmd == b.cmd
  }

  lemma RawBody(s: State, k: nat, c: nat)
    requires Typed(s) && AllUnlisted(s) && BufNext(s, Raw(k)).Some? && c < |s.heap| && s.heap[c].count > 0
    ensures c < |BufNext(s, Raw(k)).value.heap| && SameBody(s.heap[c], BufNext(s, Raw(k)).value.heap[c])
  {
    RawIsFree(s, k);
    hide Typed, AllUnlisted, Mult;
  }

  lemma FindBody(s: State, k: nat, c: nat)
    requires BufNext(s, Find(k)).Some? && c < |s.heap| && s.heap[c].locked
    ensures c < |BufNext(s, Find(k)).value.heap| && SameBody(s.heap[c], BufNext(s, Find(k)).value.heap[c])
  {
  }

  lemma NewBody(s: State, ev: Event, c: nat)
    requires BufNext(s, ev).Some? && c < |s.heap| && !ev.Raw? && !ev.Find?
    ensures c < |BufNext(s, ev).value.heap| && SameBody(s.heap[c], BufNext(s, ev).value.heap[c])
  {
    hide Mult, Lookup;
  }

  lemma BodyBuf(s: State, ev: Event, c: nat)
    requires Typed(s) && AllUnlisted(s) && BufNext(s, ev).Some? && c < |s.heap| && s.heap[c].locked && s.heap[c].count > 0
    ensures c < |BufNext(s, ev).value.heap| && SameBody(s.heap[c], BufNext(s, ev).value.heap[c])
  {
    hide Typed, AllUnlisted, BufNext, SameBody;
    if ev.Raw? {
      RawBody(s, ev.k, c);
    } else if ev.Find? {
      FindBody(s, ev.k, c);
    } else {
      NewBody(s, ev, c);
    }
  }

  lemma BodyCmd(s: State, ev: Event, c: nat)
    requires CmdNext(s, ev).Some? && c < |s.heap| && forall k :: 0 <= k < |s.ops| ==> OpHolds(s.ops[k], c) == 0
    ensures c < |CmdNext(s, ev).value.heap| && SameBody(s.heap[c], CmdNext(s, ev).value.heap[c])
  {
    hide Mult, LookupAll;
    if ev.CmdMove? {
      assert OpHolds(s.ops[ev.k], c) == 0;
    }
  }

  lemma BodyUpd(s: State, ev: Event, c: nat)
    requires UpdNext(s, ev).Some? && c < |s.heap| && forall k :: 0 <= k < |s.ops| ==> OpHolds(s.ops[k], c) == 0
    ensures c < |UpdNext(s, ev).value.heap| && SameBody(s.heap[c], UpdNext(s, ev).value.heap[c])
  {
    hide Mult, LookupAll, TakeCmd;
    if ev.UpdSwap? {
      assert OpHolds(s.ops[ev.k], c) == 0;
    }
  }

  lemma BodyRun(max: nat, s: State, ev: Event, c: nat)
    requires RunNext(max, s, ev).Some? && c < |s.heap|
    ensures c < |RunNext(max, s, ev).value.heap| && SameBody(s.heap[c], RunNext(max, s, ev).value.heap[c])
  {
    hide TakeCmd;
  }

  lemma BodySched(s: State, ev: Event, c: nat)
    requires SchedNext(s, ev).Some? && c < |s.heap|
    ensures c < |SchedNext(s, ev).value.heap| && SameBody(s.heap[c], SchedNext(s, ev).value.heap[c])
  {
    hide Mult;
  }

  lemma BodyRest(max: nat, s: State, ev: Event, c: nat)
    requires Next(max, s, ev).Some? && c < |s.heap| && (JobEvent(ev) || ev.Fence? || ev.FenceReturn?)
    ensures c < |Next(max, s, ev).value.heap| && SameBody(s.heap[c], Next(max, s, ev).value.heap[c])
  {
    hide RunNext, SchedNext, BufNext, CmdNext, UpdNext;
    if ev.RunEnter? || ev.RunDec? || ev.RunError? || ev.RunLock? || ev.RunQueue? {
      BodyRun(max, s, ev, c);
    } else if JobEvent(ev) {
      BodySched(s, ev, c);
    }
  }

  /** The command buffer of a pending job is live and locked, and no caller holds it. */
  lemma PendingFacts(s: State, c: nat)
    requires Inv(s) && JobHolds(s, c) > 0
    ensures c < |s.heap| && s.heap[c].alive && s.heap[c].cmd && s.heap[c].res.Some?
    ensures s.heap[c].locked && s.heap[c].count > 0
    ensures forall k :: 0 <= k < |s.ops| ==> OpHolds(s.ops[k], c) == 0
  {
    assert CountedAt(s, c);
    PendingRef(s, c);
    Exclusive(s, c);
    hide OpHolds, Inv, CountedAt;
    forall k | 0 <= k < |s.ops| ensures OpHolds(s.ops[k], c) == 0 {
      TotalHas(s.ops, k, OpHolder(c));
    }
  }

  /**
   While a job is pending, nothing changes the words or the resources of its command buffer,
   frees it or takes it out of the table.
   */
  lemma PendingStable(max: nat, s: State, ev: Event, c: nat)
    requires Inv(s) && Next(max, s, ev).Some? && JobHolds(s, c) > 0
    ensures c < |s.heap| && s.heap[c].alive && s.heap[c].cmd && s.heap[c].res.Some?
    ensures c < |Next(max, s, ev).value.heap| && SameBody(s.heap[c], Next(max, s, ev).value.heap[c])
  {
    PendingFacts(s, c);
    assert Typed(s) && AllUnlisted(s);
    hide Holds, JobHolds, Typed, AllCounted, AllUnlisted, BufNext, CmdNext, UpdNext, RunNext, FenceNext, SchedNext, SameBody, OpHolds;
    match ev
    case BufCreate(_, _) => BodyBuf(s, ev, c);
    case BufCreated(_, _) => BodyBuf(s, ev, c);
    case Destroy(_, _) => BodyBuf(s, ev, c);
    case Find(_) => BodyBuf(s, ev, c);
    case Raw(_) => BodyBuf(s, ev, c);
    case CmdBind(_, _) => BodyCmd(s, ev, c);
    case CmdFail(_) => BodyCmd(s, ev, c);
    case CmdAlloc(_, _) => BodyCmd(s, ev, c);
    case CmdUnbind(_) => BodyCmd(s, ev, c);
    case CmdMove(_, _) => BodyCmd(s, ev, c);
    case CmdDone(_, _) => BodyCmd(s, ev, c);
    case UpdLock(_, _) => BodyUpd(s, ev, c);
    case UpdError(_) => BodyUpd(s, ev, c);
    case UpdBind(_, _) => BodyUpd(s, ev, c);
    case UpdSwap(_, _, _) => BodyUpd(s, ev, c);
    case UpdUnbind(_) => BodyUpd(s, ev, c);
    case UpdDone(_) => BodyUpd(s, ev, c);
    case _ => BodyRest(max, s, ev, c);
  }

  lemma PendingRef(s: State, c: nat)
    requires Typed(s) && JobHolds(s, c) > 0
    ensures CmdRef(s.heap, c)
  {
    hide CellsTyped, OpsTyped, Total;
    if SchedHolds(s.sched, c) == 0 {
      var i := TotalWitness(s.queue, JobHolder(c));
      assert CmdRef(s.heap, s.queue[i].cbuf);
    }
  }

  lemma RunRetired(max: nat, s: State, ev: Event)
    requires RunNext(max, s, ev).Some?
    ensures Retired(RunNext(max, s, ev).value) == Retired(s)
  {
    hide TakeCmd, Seize;
  }

  lemma SchedRetired(s: State, ev: Event)
    requires SchedNext(s, ev).Some?
    ensures Retired(s) <= Retired(SchedNext(s, ev).value)
  {
    hide UnbindAll;
  }

  lemma RetiredGrows(max: nat, s: State, ev: Event)
    requires Next(max, s, ev).Some?
    ensures Retired(s) <= Retired(Next(max, s, ev).value)
  {
    hide BufNext, CmdNext, UpdNext, FenceNext, RunNext, SchedNext;
    if !JobEvent(ev) {
      PlainEvent(max, s, ev);
    } else if ev.RunEnter? || ev.RunDec? || ev.RunError? || ev.RunLock? || ev.RunQueue? {
      RunRetired(max, s, ev);
    } else {
      SchedRetired(s, ev);
    }
  }

  /**
   From submission to retirement, over whole runs: as long as the n-th job (from 0) is not
   retired, its command buffer is there with the words and resources it was submitted with.
   */
  lemma {:induction false} PendingStableRun(max: nat, s: State, evs: seq<Event>, n: nat)
    requires Inv(s) && Ordered(s) && Run(max, s, evs).Some? && Retired(s) <= n < |s.hist|
    ensures
      var r, c := Run(max, s, evs).value, s.hist[n].cbuf;
      && Inv(r) && Ordered(r) && Retired(s) <= Retired(r) && s.hist <= r.hist && c < |s.heap|
      && (Retired(r) <= n ==> c < |r.heap| && SameBody(s.heap[c], r.heap[c]) && r.heap[c].alive)
    decreases |evs|
  {
    hide Next, Inv, Ordered, JobHolds, Retired;
    var c := s.hist[n].cbuf;
    StillHeld(s, n);
    HeldIsLive(s, c);
    if evs != [] {
      var ev := evs[|evs| - 1];
      PendingStableRun(max, s, evs[..|evs| - 1], n);
      var m := Run(max, s, evs[..|evs| - 1]).value;
      StepInv(max, m, ev);
      StepOrdered(max, m, ev);
      RetiredGrows(max, m, ev);
      if Retired(Next(max, m, ev).value) <= n {
        StillHeld(m, n);
        PendingStable(max, m, ev, c);
      }
    }
  }

  lemma HeldIsLive(s: State, c: nat)
    requires Inv(s) && JobHolds(s, c) > 0
    ensures c < |s.heap| && s.heap[c].alive
  {
    assert CountedAt(s, c);
  }

  lemma StillHeld(s: State, n: nat)
    requires Ordered(s) && Retired(s) <= n < |s.hist|
    ensures JobHolds(s, s.hist[n].cbuf) > 0
  {
    HeldAreLatest(s);
    var i, held := n - Retired(s), HeldJobs(s);
    assert held[i] == s.hist[n];
    hide Ordered;
    HeldIsCounted(s, i);
  }

  lemma HeldIsCounted(s: State, i: nat)
    requires i < |HeldJobs(s)|
    ensures JobHolds(s, HeldJobs(s)[i].cbuf) > 0
  {
    hide Total;
    var offset := |HeldJobs(s)| - |s.queue|;
    if i >= offset {
      assert HeldJobs(s)[i] == s.queue[i - offset];
      TotalHas(s.queue, i - offset, JobHolder(HeldJobs(s)[i].cbuf));
    }
  }
}
