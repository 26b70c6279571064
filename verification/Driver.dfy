/**
 The kernel driver as a step system: any number of callers inside ioctls, one job
 scheduler, buffers with reference counts, a job queue.  One step is one section the
 sources run under a lock, or one atomic operation, or one unlocked piece of work on an
 object the caller holds.  Which step comes next, and what user copies, allocations and
 program checks return, is up to the event.
 */
module Driver {
  import opened Isa
  import opened Wrappers
  import opened Totals
  import opened KernelBuffers

  /**
   A buffer object.  Objects are never reused: a freed one stays as a dead cell.  leaked
   counts bindings that a failed update left behind; the sources do not store it.
   */
  datatype Cell = Cell(
    ctx: nat, id: nat, cmd: bool, alive: bool, listed: bool, locked: bool, count: nat,
    res: Option<seq<nat>>, prog: seq<Word>, leaked: nat)

  datatype Job = Job(ctx: nat, cbuf: nat, num: nat)

  /** Where a caller stands, with the references it holds. */
  datatype Op =
    | Done
    | BufMade(ctx: nat, buf: nat)
    | FindToDestroy(ctx: nat, id: nat)
    | RawDestroy(buf: nat)
    | CmdBound(ctx: nat, bufs: seq<nat>)
    | CmdUndo(bufs: seq<nat>)
    | CmdMade(ctx: nat, cbuf: nat, bufs: seq<nat>)
    | CmdMoved(ctx: nat, cbuf: nat)
    | RunOver(ctx: nat)
    | RunPassed(ctx: nat, id: nat)
    | RunFail(ctx: nat)
    | RunHeld(ctx: nat, cbuf: nat)
    | UpdHeld(ctx: nat, cbuf: nat)
    | UpdBound(cbuf: nat, bufs: seq<nat>)
    | UpdOld(cbuf: nat, bufs: seq<nat>)
    | UpdExit(cbuf: nat)
    | FenceWait(num: nat)

  /** The scheduler: a job is on the device, over, no longer counted, or no longer held. */
  datatype Sched = Idle | Running(job: Job) | Over(job: Job) | Counted(job: Job) | Released(job: Job)

  /** hist lists all jobs ever queued; the sources do not store it. */
  datatype State = State(
    heap: seq<Cell>, ops: seq<Op>, queue: seq<Job>, sched: Sched, active: nat, finished: nat, nums: seq<nat>,
    hist: seq<Job>)

  datatype Event =
    | BufCreate(ctx: nat, id: nat)
    | BufCreated(k: nat, ok: bool)
    | Destroy(ctx: nat, id: nat)
    | Find(k: nat)
    | Raw(k: nat)
    | CmdBind(ctx: nat, ids: seq<nat>)
    | CmdFail(k: nat)
    | CmdAlloc(k: nat, id: nat)
    | CmdUnbind(k: nat)
    | CmdMove(k: nat, prog: seq<Word>)
    | CmdDone(k: nat, ok: bool)
    | RunEnter(ctx: nat, id: nat)
    | RunDec(k: nat)
    | RunError(k: nat)
    | RunLock(k: nat)
    | RunQueue(k: nat)
    | UpdLock(ctx: nat, id: nat)
    | UpdError(k: nat)
    | UpdBind(k: nat, ids: seq<nat>)
    | UpdSwap(k: nat, ok: bool, prog: seq<Word>)
    | UpdUnbind(k: nat)
    | UpdDone(k: nat)
    | Fence(num: nat)
    | FenceReturn(k: nat)
    | Pop
    | Complete
    | DecNum
    | Unbind
    | CountFinished

  // ---- Heap operations ----

  /** idr_find: the listed buffer of a context with an id. */
  function Lookup(heap: seq<Cell>, ctx: nat, id: nat): (r: Option<nat>)
    ensures r.Some? ==> r.value < |heap| && heap[r.value].listed && heap[r.value].ctx == ctx && heap[r.value].id == id
    ensures r.None? ==> forall c :: 0 <= c < |heap| ==> !(heap[c].listed && heap[c].ctx == ctx && heap[c].id == id)
  {
    if heap == [] then None
    else
      var n := |heap| - 1;
      if heap[n].listed && heap[n].ctx == ctx && heap[n].id == id then Some(n) else Lookup(heap[..n], ctx, id)
  }

  /** All ids name data buffers of the context. */
  function LookupAll(heap: seq<Cell>, ctx: nat, ids: seq<nat>): (r: Option<seq<nat>>)
    ensures r.Some? ==> |r.value| == |ids| && forall i :: 0 <= i < |ids| ==>
              r.value[i] < |heap| && heap[r.value[i]].listed && !heap[r.value[i]].cmd
  {
    if ids == [] then Some([])
    else
      var rest := LookupAll(heap, ctx, ids[..|ids| - 1]);
      var b := Lookup(heap, ctx, ids[|ids| - 1]);
      if rest.None? || b.None? || heap[b.value].cmd then None else Some(rest.value + [b.value])
  }

  function BindAll(heap: seq<Cell>, bufs: seq<nat>): (r: seq<Cell>)
    ensures |r| == |heap|
  {
    seq(|heap|, c requires 0 <= c < |heap| =>
      heap[c].(count := BoundCount(heap[c].count, Mult(bufs, c)), locked := BoundLock(heap[c].locked, heap[c].count, Mult(bufs, c))))
  }

  function UnbindAll(heap: seq<Cell>, bufs: seq<nat>): (r: seq<Cell>)
    ensures |r| == |heap|
  {
    seq(|heap|, c requires 0 <= c < |heap| =>
      heap[c].(count := UnboundCount(heap[c].count, Mult(bufs, c)), locked := UnboundLock(heap[c].locked, heap[c].count, Mult(bufs, c))))
  }

  /** Exclusive use of a command buffer: bind_count is set, not incremented. */
  function Seize(heap: seq<Cell>, c: nat): (r: seq<Cell>)
    requires c < |heap|
    ensures |r| == |heap|
  {
    heap[c := heap[c].(count := 1, locked := true)]
  }

  function Leak(heap: seq<Cell>, bufs: seq<nat>): (r: seq<Cell>)
    ensures |r| == |heap|
  {
    seq(|heap|, c requires 0 <= c < |heap| => heap[c].(leaked := heap[c].leaked + Mult(bufs, c)))
  }

  function NewCell(ctx: nat, id: nat, cmd: bool): Cell {
    Cell(ctx, id, cmd, true, true, true, 1, None, [], 0)
  }

  function Resources(cell: Cell): seq<nat> { if cell.res.Some? then cell.res.value else [] }

  // ---- Steps ----

  predicate At(s: State, k: nat) { k < |s.ops| }

  function To(s: State, k: nat, op: Op): State
    requires k < |s.ops|
  {
    s.(ops := s.ops[k := op])
  }

  function Spawn(s: State, op: Op): State { s.(ops := s.ops + [op]) }

  /** Find a command buffer and take it exclusively; None on ENOENT, EINVAL and EPERM. */
  function TakeCmd(heap: seq<Cell>, ctx: nat, id: nat): (r: Option<nat>)
    ensures r.Some? ==> r.value < |heap| && heap[r.value].listed && heap[r.value].cmd && !heap[r.value].locked
  {
    var b := Lookup(heap, ctx, id);
    if b.None? || !heap[b.value].cmd || heap[b.value].locked then None else b
  }

  function BufNext(s: State, ev: Event): Option<State> {
    match ev
    case BufCreate(ctx, id) =>
      if Lookup(s.heap, ctx, id).Some? then None
      else Some(Spawn(s.(heap := s.heap + [NewCell(ctx, id, false)]), BufMade(ctx, |s.heap|)))
    case BufCreated(k, ok) =>
      if !At(s, k) || !s.ops[k].BufMade? || s.ops[k].buf >= |s.heap| then None
      else
        var op := s.ops[k];
        Some(To(s.(heap := UnbindAll(s.heap, [op.buf])), k, if ok then Done else FindToDestroy(op.ctx, s.heap[op.buf].id)))
    case Destroy(ctx, id) => Some(Spawn(s, FindToDestroy(ctx, id)))
    case Find(k) =>
      if !At(s, k) || !s.ops[k].FindToDestroy? then None
      else
        var b := Lookup(s.heap, s.ops[k].ctx, s.ops[k].id);
        if b.None? || s.heap[b.value].locked then Some(To(s, k, Done))
        else Some(To(s.(heap := s.heap[b.value := s.heap[b.value].(listed := false)]), k, RawDestroy(b.value)))
    case Raw(k) =>
      if !At(s, k) || !s.ops[k].RawDestroy? || s.ops[k].buf >= |s.heap| then None
      else
        var b := s.ops[k].buf;
        var heap := if s.heap[b].cmd then UnbindAll(s.heap, Resources(s.heap[b])) else s.heap;
        Some(To(s.(heap := heap[b := heap[b].(alive := false)]), k, Done))
    case _ => None
  }

  function CmdNext(s: State, ev: Event): Option<State> {
    match ev
    case CmdBind(ctx, ids) =>
      var bufs := LookupAll(s.heap, ctx, ids);
      if bufs.None? then Some(s)
      else Some(Spawn(s.(heap := BindAll(s.heap, bufs.value)), CmdBound(ctx, bufs.value)))
    case CmdFail(k) =>
      if !At(s, k) || !s.ops[k].CmdBound? then None else Some(To(s, k, CmdUndo(s.ops[k].bufs)))
    case CmdAlloc(k, id) =>
      if !At(s, k) || !s.ops[k].CmdBound? || Lookup(s.heap, s.ops[k].ctx, id).Some? then None
      else Some(To(s.(heap := s.heap + [NewCell(s.ops[k].ctx, id, true)]), k, CmdMade(s.ops[k].ctx, |s.heap|, s.ops[k].bufs)))
    case CmdUnbind(k) =>
      if !At(s, k) || !s.ops[k].CmdUndo? then None else Some(To(s.(heap := UnbindAll(s.heap, s.ops[k].bufs)), k, Done))
    case CmdMove(k, prog) =>
      if !At(s, k) || !s.ops[k].CmdMade? || s.ops[k].cbuf >= |s.heap| then None
      else
        var op := s.ops[k];
        Some(To(s.(heap := s.heap[op.cbuf := s.heap[op.cbuf].(res := Some(op.bufs), prog := prog)]), k, CmdMoved(op.ctx, op.cbuf)))
    case CmdDone(k, ok) =>
      if !At(s, k) || !s.ops[k].CmdMoved? || s.ops[k].cbuf >= |s.heap| then None
      else
        var op := s.ops[k];
        Some(To(s.(heap := UnbindAll(s.heap, [op.cbuf])), k, if ok then Done else FindToDestroy(op.ctx, s.heap[op.cbuf].id)))
    case _ => None
  }

  function RunNext(max: nat, s: State, ev: Event): Option<State> {
    match ev
    case RunEnter(ctx, id) =>
      if ctx >= |s.nums| then None
      else
        var n := s.nums[ctx] + 1;
        Some(Spawn(s.(nums := s.nums[ctx := n]), if n > max then RunOver(ctx) else RunPassed(ctx, id)))
    case RunDec(k) =>
      if !At(s, k) || !(s.ops[k].RunOver? || s.ops[k].RunFail?) then None
      else
        var ctx := s.ops[k].ctx;
        if ctx >= |s.nums| || s.nums[ctx] == 0 then None else Some(To(s.(nums := s.nums[ctx := s.nums[ctx] - 1]), k, Done))
    case RunError(k) =>
      if !At(s, k) || !s.ops[k].RunPassed? then None else Some(To(s, k, RunFail(s.ops[k].ctx)))
    case RunLock(k) =>
      if !At(s, k) || !s.ops[k].RunPassed? then None
      else
        var c := TakeCmd(s.heap, s.ops[k].ctx, s.ops[k].id);
        if c.None? then Some(To(s, k, RunFail(s.ops[k].ctx)))
        else Some(To(s.(heap := Seize(s.heap, c.value)), k, RunHeld(s.ops[k].ctx, c.value)))
    case RunQueue(k) =>
      if !At(s, k) || !s.ops[k].RunHeld? then None
      else
        var job := Job(s.ops[k].ctx, s.ops[k].cbuf, s.active + 1);
        Some(To(s.(active := s.active + 1, queue := s.queue + [job], hist := s.hist + [job]), k, Done))
    case _ => None
  }

  function UpdNext(s: State, ev: Event): Option<State> {
    match ev
    case UpdLock(ctx, id) =>
      var c := TakeCmd(s.heap, ctx, id);
      if c.None? then Some(s) else Some(Spawn(s.(heap := Seize(s.heap, c.value)), UpdHeld(ctx, c.value)))
    case UpdError(k) =>
      if !At(s, k) || !s.ops[k].UpdHeld? then None else Some(To(s, k, UpdExit(s.ops[k].cbuf)))
    case UpdBind(k, ids) =>
      if !At(s, k) || !s.ops[k].UpdHeld? || s.ops[k].cbuf >= |s.heap| || |Resources(s.heap[s.ops[k].cbuf])| != |ids| then None
      else
        var bufs := LookupAll(s.heap, s.ops[k].ctx, ids);
        if bufs.None? then Some(To(s, k, UpdExit(s.ops[k].cbuf)))
        else Some(To(s.(heap := BindAll(s.heap, bufs.value)), k, UpdBound(s.ops[k].cbuf, bufs.value)))
    case UpdSwap(k, ok, prog) =>
      if !At(s, k) || !s.ops[k].UpdBound? || s.ops[k].cbuf >= |s.heap| then None
      else
        var op := s.ops[k];
        if ok then
          Some(To(s.(heap := s.heap[op.cbuf := s.heap[op.cbuf].(res := Some(op.bufs), prog := prog)]), k,
                  UpdOld(op.cbuf, Resources(s.heap[op.cbuf]))))
        else Some(To(s.(heap := Leak(s.heap, op.bufs)), k, UpdExit(op.cbuf)))
    case UpdUnbind(k) =>
      if !At(s, k) || !s.ops[k].UpdOld? then None
      else Some(To(s.(heap := UnbindAll(s.heap, s.ops[k].bufs)), k, UpdExit(s.ops[k].cbuf)))
    case UpdDone(k) =>
      if !At(s, k) || !s.ops[k].UpdExit? then None else Some(To(s.(heap := UnbindAll(s.heap, [s.ops[k].cbuf])), k, Done))
    case _ => None
  }

  function FenceNext(s: State, ev: Event): Option<State> {
    match ev
    case Fence(num) => if num > s.active then Some(s) else Some(Spawn(s, FenceWait(num)))
    case FenceReturn(k) =>
      if !At(s, k) || !s.ops[k].FenceWait? || s.finished < s.ops[k].num then None else Some(To(s, k, Done))
    case _ => None
  }

  function SchedNext(s: State, ev: Event): Option<State> {
    match (ev, s.sched)
    case (Pop, Idle) =>
      if s.queue == [] then None else Some(s.(queue := s.queue[1..], sched := Running(s.queue[0])))
    case (Complete, Running(job)) => Some(s.(sched := Over(job)))
    case (DecNum, Over(job)) =>
      if job.ctx >= |s.nums| || s.nums[job.ctx] == 0 then None
      else Some(s.(nums := s.nums[job.ctx := s.nums[job.ctx] - 1], sched := Counted(job)))
    case (Unbind, Counted(job)) => Some(s.(heap := UnbindAll(s.heap, [job.cbuf]), sched := Released(job)))
    case (CountFinished, Released(job)) => Some(s.(finished := s.finished + 1, sched := Idle))
    case _ => None
  }

  /** max is the job limit of a context. */
  function Next(max: nat, s: State, ev: Event): Option<State> {
    match ev
    case BufCreate(_, _) => BufNext(s, ev)
    case BufCreated(_, _) => BufNext(s, ev)
    case Destroy(_, _) => BufNext(s, ev)
    case Find(_) => BufNext(s, ev)
    case Raw(_) => BufNext(s, ev)
    case CmdBind(_, _) => CmdNext(s, ev)
    case CmdFail(_) => CmdNext(s, ev)
    case CmdAlloc(_, _) => CmdNext(s, ev)
    case CmdUnbind(_) => CmdNext(s, ev)
    case CmdMove(_, _) => CmdNext(s, ev)
    case CmdDone(_, _) => CmdNext(s, ev)
    case RunEnter(_, _) => RunNext(max, s, ev)
    case RunDec(_) => RunNext(max, s, ev)
    case RunError(_) => RunNext(max, s, ev)
    case RunLock(_) => RunNext(max, s, ev)
    case RunQueue(_) => RunNext(max, s, ev)
    case UpdLock(_, _) => UpdNext(s, ev)
    case UpdError(_) => UpdNext(s, ev)
    case UpdBind(_, _) => UpdNext(s, ev)
    case UpdSwap(_, _, _) => UpdNext(s, ev)
    case UpdUnbind(_) => UpdNext(s, ev)
    case UpdDone(_) => UpdNext(s, ev)
    case Fence(_) => FenceNext(s, ev)
    case FenceReturn(_) => FenceNext(s, ev)
    case _ => SchedNext(s, ev)
  }

  function Init(contexts: nat): State {
    State([], [], [], Idle, 0, 0, seq(contexts, i => 0), [])
  }

  function Run(max: nat, s: State, evs: seq<Event>): Option<State>
    decreases |evs|
  {
    if evs == [] then Some(s)
    else
      var r := Run(max, s, evs[..|evs| - 1]);
      if r.None? then None else Next(max, r.value, evs[|evs| - 1])
  }
}
