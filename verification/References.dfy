/**
 Reference counting in the driver: at every step of every run a buffer's bind_count is the
 number of places that refer to it, plus what failed updates leaked; LOCKED says that the
 count is positive; and nothing refers to a freed buffer.

 References come from four places: the resource list of a live command buffer, a call in
 progress that has looked objects up and bound them, a queued job, and the job the scheduler
 has in hand.  Each is counted with multiplicity, so a buffer named by three slots of one
 command buffer is referred to three times.
 */
module References {
  import opened Isa
  import opened Wrappers
  import opened Totals
  import opened KernelBuffers
  import opened Driver

  function One(a: nat, c: nat): nat { if a == c then 1 else 0 }

  /** References to cell c held by a caller in the middle of an ioctl. */
  function OpHolds(o: Op, c: nat): nat {
    match o
    case BufMade(_, b) => One(b, c)
    case CmdBound(_, bufs) => Mult(bufs, c)
    case CmdUndo(bufs) => Mult(bufs, c)
    case CmdMade(_, b, bufs) => One(b, c) + Mult(bufs, c)
    case CmdMoved(_, b) => One(b, c)
    case RunHeld(_, b) => One(b, c)
    case UpdHeld(_, b) => One(b, c)
    case UpdBound(b, bufs) => One(b, c) + Mult(bufs, c)
    case UpdOld(b, bufs) => One(b, c) + Mult(bufs, c)
    case UpdExit(b) => One(b, c)
    case _ => 0
  }

  function OpHolder(c: nat): Op -> nat { (o: Op) => OpHolds(o, c) }

  /** References from the resource list of a command buffer. */
  function CellHolder(c: nat): Cell -> nat { (x: Cell) => if x.alive then Mult(Resources(x), c) else 0 }

  function JobHolder(c: nat): Job -> nat { (j: Job) => One(j.cbuf, c) }

  function SchedHolds(sched: Sched, c: nat): nat {
    match sched
    case Running(j) => One(j.cbuf, c)
    case Over(j) => One(j.cbuf, c)
    case Counted(j) => One(j.cbuf, c)
    case _ => 0
  }

  /** All references to cell c, with multiplicity. */
  function Holds(s: State, c: nat): nat {
    Total(s.heap, CellHolder(c)) + Total(s.ops, OpHolder(c)) + Total(s.queue, JobHolder(c)) + SchedHolds(s.sched, c)
  }

  /** The reference invariant at one cell. */
  predicate CountedAt(s: State, c: nat) {
    if c < |s.heap| && s.heap[c].alive then
      s.heap[c].count == Holds(s, c) + s.heap[c].leaked && (s.heap[c].locked <==> s.heap[c].count > 0)
    else
      Holds(s, c) == 0
  }

  ghost predicate AllCounted(s: State) { forall c: nat :: CountedAt(s, c) }

  // ---- How holds change ----

  lemma HoldsTo(s: State, k: nat, op: Op, c: nat)
    requires k < |s.ops|
    ensures Holds(To(s, k, op), c) + OpHolds(s.ops[k], c) == Holds(s, c) + OpHolds(op, c)
  {
    TotalUpdate(s.ops, k, op, OpHolder(c));
  }

  lemma HoldsSpawn(s: State, op: Op, c: nat)
    ensures Holds(Spawn(s, op), c) == Holds(s, c) + OpHolds(op, c)
  {
    TotalSnoc(s.ops, op, OpHolder(c));
  }

  predicate SameRefs(a: seq<Cell>, b: seq<Cell>) {
    |a| == |b| && forall i :: 0 <= i < |a| ==> a[i].alive == b[i].alive && a[i].res == b[i].res
  }

  lemma HoldsHeap(s: State, heap: seq<Cell>, c: nat)
    requires SameRefs(s.heap, heap)
    ensures Holds(s.(heap := heap), c) == Holds(s, c)
  {
    TotalSame(s.heap, heap, CellHolder(c));
  }

  lemma HoldsNew(s: State, ctx: nat, id: nat, cmd: bool, c: nat)
    ensures Holds(s.(heap := s.heap + [NewCell(ctx, id, cmd)]), c) == Holds(s, c)
  {
    TotalSnoc(s.heap, NewCell(ctx, id, cmd), CellHolder(c));
  }

  /** A live command buffer gets a new resource list. */
  lemma HoldsSetRes(s: State, b: nat, bufs: seq<nat>, prog: seq<Word>, c: nat)
    requires b < |s.heap| && s.heap[b].alive
    ensures
      Holds(s.(heap := s.heap[b := s.heap[b].(res := Some(bufs), prog := prog)]), c) + Mult(Resources(s.heap[b]), c) ==
      Holds(s, c) + Mult(bufs, c)
  {
    TotalUpdate(s.heap, b, s.heap[b].(res := Some(bufs), prog := prog), CellHolder(c));
  }

  lemma HoldsKill(s: State, b: nat, c: nat)
    requires b < |s.heap| && s.heap[b].alive
    ensures Holds(s.(heap := s.heap[b := s.heap[b].(alive := false)]), c) + Mult(Resources(s.heap[b]), c) == Holds(s, c)
  {
    TotalUpdate(s.heap, b, s.heap[b].(alive := false), CellHolder(c));
  }

  lemma HoldsPush(s: State, j: Job, c: nat)
    ensures Holds(s.(queue := s.queue + [j]), c) == Holds(s, c) + One(j.cbuf, c)
  {
    TotalSnoc(s.queue, j, JobHolder(c));
  }

  lemma HoldsPop(s: State, c: nat)
    requires s.queue != [] && s.sched.Idle?
    ensures Holds(s.(queue := s.queue[1..], sched := Running(s.queue[0])), c) == Holds(s, c)
  {
    TotalHead(s.queue, JobHolder(c));
  }

  // ---- What keeps the invariant ----

  /** The heap as far as counting is concerned. */
  predicate SameCounts(a: seq<Cell>, b: seq<Cell>) {
    && |a| == |b|
    && forall i :: 0 <= i < |a| ==>
         a[i].alive == b[i].alive && a[i].count == b[i].count && a[i].locked == b[i].locked && a[i].leaked == b[i].leaked
  }

  /** References move, none is added or dropped. */
  lemma MovedCounted(s: State, r: State, c: nat)
    requires CountedAt(s, c) && SameCounts(s.heap, r.heap) && Holds(r, c) == Holds(s, c)
    ensures CountedAt(r, c)
  {
    hide Holds;
  }

  lemma BoundCounted(s: State, r: State, bufs: seq<nat>, c: nat)
    requires CountedAt(s, c) && r.heap == BindAll(s.heap, bufs) && Holds(r, c) == Holds(s, c) + Mult(bufs, c)
    requires c in bufs ==> c < |s.heap| && s.heap[c].alive
    ensures CountedAt(r, c)
  {
    hide Holds;
  }

  lemma UnboundCounted(s: State, r: State, bufs: seq<nat>, c: nat)
    requires CountedAt(s, c) && r.heap == UnbindAll(s.heap, bufs) && Holds(r, c) + Mult(bufs, c) == Holds(s, c)
    ensures CountedAt(r, c)
  {
    hide Holds;
  }

  lemma NewCounted(s: State, r: State, ctx: nat, id: nat, cmd: bool, c: nat)
    requires CountedAt(s, c) && r.heap == s.heap + [NewCell(ctx, id, cmd)] && Holds(r, c) == Holds(s, c) + One(|s.heap|, c)
    ensures CountedAt(r, c)
  {
    hide Holds;
  }

  lemma SeizedCounted(s: State, r: State, b: nat, c: nat)
    requires CountedAt(s, c) && b < |s.heap| && s.heap[b].alive && !s.heap[b].locked
    requires r.heap == Seize(s.heap, b) && Holds(r, c) == Holds(s, c) + One(b, c)
    ensures CountedAt(r, c)
  {
    hide Holds;
  }

  lemma LeakedCounted(s: State, r: State, bufs: seq<nat>, c: nat)
    requires CountedAt(s, c) && r.heap == Leak(s.heap, bufs) && Holds(r, c) + Mult(bufs, c) == Holds(s, c)
    ensures CountedAt(r, c)
  {
    hide Holds;
  }

  lemma KilledCounted(s: State, r: State, b: nat, c: nat)
    requires CountedAt(s, c) && b < |s.heap| && s.heap[b].alive && s.heap[b].count == 0
    requires r.heap == UnbindAll(s.heap, Resources(s.heap[b]))[b := UnbindAll(s.heap, Resources(s.heap[b]))[b].(alive := false)]
    requires Holds(r, c) + Mult(Resources(s.heap[b]), c) == Holds(s, c)
    ensures CountedAt(r, c)
  {
    hide Holds;
  }

  // ---- Which objects references point to ----

  predicate DataRefs(heap: seq<Cell>, bufs: seq<nat>) {
    forall i :: 0 <= i < |bufs| ==> bufs[i] < |heap| && !heap[bufs[i]].cmd
  }

  predicate CmdRef(heap: seq<Cell>, c: nat) { c < |heap| && heap[c].cmd && heap[c].res.Some? }

  predicate OpTyped(heap: seq<Cell>, o: Op) {
    match o
    case BufMade(_, b) => b < |heap| && !heap[b].cmd
    case CmdBound(_, bufs) => DataRefs(heap, bufs)
    case CmdUndo(bufs) => DataRefs(heap, bufs)
    case CmdMade(_, b, bufs) => b < |heap| && heap[b].cmd && heap[b].res.None? && DataRefs(heap, bufs)
    case CmdMoved(_, b) => CmdRef(heap, b)
    case RunHeld(_, b) => CmdRef(heap, b)
    case UpdHeld(_, b) => CmdRef(heap, b)
    case UpdBound(b, bufs) => CmdRef(heap, b) && DataRefs(heap, bufs)
    case UpdOld(b, bufs) => CmdRef(heap, b) && DataRefs(heap, bufs)
    case UpdExit(b) => CmdRef(heap, b)
    case RawDestroy(b) => b < |heap| && (heap[b].cmd ==> heap[b].res.Some?)
    case _ => true
  }

  /** Only command buffers have resources, which are data buffers; a command buffer has at most one user. */
  predicate CellTyped(heap: seq<Cell>, x: Cell) {
    && (if x.cmd then x.leaked == 0 && x.count <= 1 && DataRefs(heap, Resources(x)) && (x.alive && !x.locked ==> x.res.Some?)
        else x.res.None?)
    && (x.listed ==> x.alive)
    && (x.alive && !x.listed ==> x.count == 0)
  }

  predicate SchedTyped(heap: seq<Cell>, sched: Sched) {
    match sched
    case Running(j) => CmdRef(heap, j.cbuf)
    case Over(j) => CmdRef(heap, j.cbuf)
    case Counted(j) => CmdRef(heap, j.cbuf)
    case _ => true
  }

  predicate CellsTyped(heap: seq<Cell>) { forall c :: 0 <= c < |heap| ==> CellTyped(heap, heap[c]) }
  predicate OpsTyped(heap: seq<Cell>, ops: seq<Op>) { forall k :: 0 <= k < |ops| ==> OpTyped(heap, ops[k]) }
  predicate QueueTyped(heap: seq<Cell>, queue: seq<Job>) { forall i :: 0 <= i < |queue| ==> CmdRef(heap, queue[i].cbuf) }

  predicate Typed(s: State) {
    CellsTyped(s.heap) && OpsTyped(s.heap, s.ops) && QueueTyped(s.heap, s.queue) && SchedTyped(s.heap, s.sched)
  }

  /** The caller, if any, that has unlisted cell c and is about to free it. */
  function RawHolder(c: nat): Op -> nat { (o: Op) => if o.RawDestroy? && o.buf == c then 1 else 0 }

  predicate UnlistedAt(s: State, c: nat) {
    Total(s.ops, RawHolder(c)) == if c < |s.heap| && s.heap[c].alive && !s.heap[c].listed then 1 else 0
  }

  /** Unlisted but live buffers are exactly those some caller is about to free. */
  ghost predicate AllUnlisted(s: State) { forall c: nat :: UnlistedAt(s, c) }

  ghost predicate Inv(s: State) { AllCounted(s) && Typed(s) && AllUnlisted(s) }

  // ---- Counting: every event ----

  lemma MultOne(b: nat, c: nat)
    ensures Mult([b], c) == One(b, c)
  {
  }

  /** A caller's step that only changes counts: its references follow. */
  lemma UnbindStep(s: State, k: nat, op: Op, bufs: seq<nat>, c: nat)
    requires k < |s.ops| && CountedAt(s, c) && OpHolds(op, c) + Mult(bufs, c) == OpHolds(s.ops[k], c)
    ensures CountedAt(To(s.(heap := UnbindAll(s.heap, bufs)), k, op), c)
  {
    hide Mult, Holds, CountedAt, UnbindAll;
    var heap := UnbindAll(s.heap, bufs);
    UnbindRefs(s.heap, bufs);
    HoldsHeap(s, heap, c);
    HoldsTo(s.(heap := heap), k, op, c);
    UnboundCounted(s, To(s.(heap := heap), k, op), bufs, c);
  }

  lemma BindStep(s: State, k: nat, op: Op, bufs: seq<nat>, c: nat)
    requires k < |s.ops| && CountedAt(s, c) && OpHolds(op, c) == OpHolds(s.ops[k], c) + Mult(bufs, c)
    requires c in bufs ==> c < |s.heap| && s.heap[c].alive
    ensures CountedAt(To(s.(heap := BindAll(s.heap, bufs)), k, op), c)
  {
    hide Mult, Holds, CountedAt, BindAll;
    var heap := BindAll(s.heap, bufs);
    UnbindRefs(s.heap, bufs);
    HoldsHeap(s, heap, c);
    HoldsTo(s.(heap := heap), k, op, c);
    BoundCounted(s, To(s.(heap := heap), k, op), bufs, c);
  }

  lemma BindSpawn(s: State, op: Op, bufs: seq<nat>, c: nat)
    requires CountedAt(s, c) && OpHolds(op, c) == Mult(bufs, c)
    requires c in bufs ==> c < |s.heap| && s.heap[c].alive
    ensures CountedAt(Spawn(s.(heap := BindAll(s.heap, bufs)), op), c)
  {
    hide Mult, Holds, CountedAt, BindAll;
    var heap := BindAll(s.heap, bufs);
    UnbindRefs(s.heap, bufs);
    HoldsHeap(s, heap, c);
    HoldsSpawn(s.(heap := heap), op, c);
    BoundCounted(s, Spawn(s.(heap := heap), op), bufs, c);
  }

  lemma SeizeStep(s: State, k: nat, op: Op, b: nat, c: nat)
    requires k < |s.ops| && CountedAt(s, c) && b < |s.heap| && s.heap[b].alive && !s.heap[b].locked
    requires OpHolds(op, c) == OpHolds(s.ops[k], c) + One(b, c)
    ensures CountedAt(To(s.(heap := Seize(s.heap, b)), k, op), c)
  {
    hide Mult, Holds, CountedAt;
    HoldsHeap(s, Seize(s.heap, b), c);
    HoldsTo(s.(heap := Seize(s.heap, b)), k, op, c);
    SeizedCounted(s, To(s.(heap := Seize(s.heap, b)), k, op), b, c);
  }

  lemma SeizeSpawn(s: State, op: Op, b: nat, c: nat)
    requires CountedAt(s, c) && b < |s.heap| && s.heap[b].alive && !s.heap[b].locked && OpHolds(op, c) == One(b, c)
    ensures CountedAt(Spawn(s.(heap := Seize(s.heap, b)), op), c)
  {
    hide Mult, Holds, CountedAt;
    HoldsHeap(s, Seize(s.heap, b), c);
    HoldsSpawn(s.(heap := Seize(s.heap, b)), op, c);
    SeizedCounted(s, Spawn(s.(heap := Seize(s.heap, b)), op), b, c);
  }

  lemma LeakStep(s: State, k: nat, op: Op, bufs: seq<nat>, c: nat)
    requires k < |s.ops| && CountedAt(s, c) && OpHolds(op, c) + Mult(bufs, c) == OpHolds(s.ops[k], c)
    ensures CountedAt(To(s.(heap := Leak(s.heap, bufs)), k, op), c)
  {
    hide Mult, Holds, CountedAt, Leak;
    UnbindRefs(s.heap, bufs);
    HoldsHeap(s, Leak(s.heap, bufs), c);
    HoldsTo(s.(heap := Leak(s.heap, bufs)), k, op, c);
    LeakedCounted(s, To(s.(heap := Leak(s.heap, bufs)), k, op), bufs, c);
  }

  lemma NewStep(s: State, k: nat, op: Op, ctx: nat, id: nat, c: nat)
    requires k < |s.ops| && CountedAt(s, c) && OpHolds(op, c) == OpHolds(s.ops[k], c) + One(|s.heap|, c)
    ensures CountedAt(To(s.(heap := s.heap + [NewCell(ctx, id, true)]), k, op), c)
  {
    hide Mult, Holds, CountedAt;
    var heap := s.heap + [NewCell(ctx, id, true)];
    HoldsNew(s, ctx, id, true, c);
    HoldsTo(s.(heap := heap), k, op, c);
    NewCounted(s, To(s.(heap := heap), k, op), ctx, id, true, c);
  }

  /** A resource list is installed, and the caller takes over the old one. */
  lemma SetResStep(s: State, k: nat, op: Op, b: nat, bufs: seq<nat>, prog: seq<Word>, c: nat)
    requires k < |s.ops| && CountedAt(s, c) && b < |s.heap| && s.heap[b].alive
    requires OpHolds(op, c) + Mult(bufs, c) == OpHolds(s.ops[k], c) + Mult(Resources(s.heap[b]), c)
    ensures CountedAt(To(s.(heap := s.heap[b := s.heap[b].(res := Some(bufs), prog := prog)]), k, op), c)
  {
    hide Mult, Holds, CountedAt;
    var heap := s.heap[b := s.heap[b].(res := Some(bufs), prog := prog)];
    HoldsSetRes(s, b, bufs, prog, c);
    HoldsTo(s.(heap := heap), k, op, c);
    MovedCounted(s, To(s.(heap := heap), k, op), c);
  }

  lemma SpawnStep(s: State, r: State, op: Op, c: nat)
    requires CountedAt(s, c) && OpHolds(op, c) == 0
    requires r.heap == s.heap && r.ops == s.ops + [op] && r.queue == s.queue && r.sched == s.sched
    ensures CountedAt(r, c)
  {
    hide Mult, Holds, CountedAt;
    HoldsSpawn(s, op, c);
    SameHolds(Spawn(s, op), r, c);
    MovedCounted(s, r, c);
  }

  lemma EndStep(s: State, r: State, k: nat, c: nat)
    requires k < |s.ops| && CountedAt(s, c) && OpHolds(s.ops[k], c) == 0
    requires r.heap == s.heap && r.ops == s.ops[k := Done] && r.queue == s.queue && r.sched == s.sched
    ensures CountedAt(r, c)
  {
    hide Mult, Holds, CountedAt;
    HoldsTo(s, k, Done, c);
    SameHolds(To(s, k, Done), r, c);
    MovedCounted(s, r, c);
  }

  lemma QueueStep(s: State, k: nat, c: nat)
    requires CountedAt(s, c) && k < |s.ops| && s.ops[k].RunHeld?
    ensures
      var job := Job(s.ops[k].ctx, s.ops[k].cbuf, s.active + 1);
      CountedAt(To(s.(active := s.active + 1, queue := s.queue + [job], hist := s.hist + [job]), k, Done), c)
  {
    hide Mult, Holds, CountedAt;
    var job := Job(s.ops[k].ctx, s.ops[k].cbuf, s.active + 1);
    var r := To(s.(active := s.active + 1, queue := s.queue + [job], hist := s.hist + [job]), k, Done);
    HoldsPush(s, job, c);
    HoldsTo(s.(queue := s.queue + [job]), k, Done, c);
    SameHolds(To(s.(queue := s.queue + [job]), k, Done), r, c);
    MovedCounted(s, r, c);
  }

  lemma UnbindRefs(heap: seq<Cell>, bufs: seq<nat>)
    ensures SameRefs(heap, UnbindAll(heap, bufs)) && SameRefs(heap, BindAll(heap, bufs)) && SameRefs(heap, Leak(heap, bufs))
  {
  }

  lemma MoveStep(s: State, k: nat, op: Op, c: nat)
    requires k < |s.ops| && CountedAt(s, c) && OpHolds(op, c) == OpHolds(s.ops[k], c)
    ensures CountedAt(To(s, k, op), c)
  {
    hide Mult, Holds, CountedAt;
    HoldsTo(s, k, op, c);
    MovedCounted(s, To(s, k, op), c);
  }

  lemma LiveAll(s: State, ctx: nat, ids: seq<nat>, c: nat)
    requires Typed(s) && LookupAll(s.heap, ctx, ids).Some? && c in LookupAll(s.heap, ctx, ids).value
    ensures c < |s.heap| && s.heap[c].alive && s.heap[c].listed && !s.heap[c].cmd
  {
    hide OpTyped;
    assert CellTyped(s.heap, s.heap[c]);
  }

  lemma CountedBufCreate(s: State, ctx: nat, id: nat, c: nat)
    requires CountedAt(s, c) && Typed(s) && BufNext(s, BufCreate(ctx, id)).Some?
    ensures CountedAt(BufNext(s, BufCreate(ctx, id)).value, c)
  {
    hide Mult, Holds, CountedAt, UnbindAll, Typed;
    var r := BufNext(s, BufCreate(ctx, id)).value;
    HoldsNew(s, ctx, id, false, c);
    HoldsSpawn(s.(heap := s.heap + [NewCell(ctx, id, false)]), BufMade(ctx, |s.heap|), c);
    NewCounted(s, r, ctx, id, false, c);
  }

  lemma CountedBufCreated(s: State, k: nat, ok: bool, c: nat)
    requires CountedAt(s, c) && Typed(s) && BufNext(s, BufCreated(k, ok)).Some?
    ensures CountedAt(BufNext(s, BufCreated(k, ok)).value, c)
  {
    hide Mult, Holds, CountedAt, UnbindAll, Typed;
    var r := BufNext(s, BufCreated(k, ok)).value;
    MultOne(s.ops[k].buf, c);
    UnbindStep(s, k, r.ops[k], [s.ops[k].buf], c);
  }

  lemma CountedDestroy(s: State, ctx: nat, id: nat, c: nat)
    requires CountedAt(s, c) && Typed(s) && BufNext(s, Destroy(ctx, id)).Some?
    ensures CountedAt(BufNext(s, Destroy(ctx, id)).value, c)
  {
    hide Mult, Holds, CountedAt, UnbindAll, Typed;
    var r := BufNext(s, Destroy(ctx, id)).value;
    HoldsSpawn(s, r.ops[|s.ops|], c);
    MovedCounted(s, r, c);
  }

  lemma FindCounted(s: State, k: nat, c: nat)
    requires CountedAt(s, c) && BufNext(s, Find(k)).Some?
    ensures CountedAt(BufNext(s, Find(k)).value, c)
  {
    hide Mult, Holds, CountedAt;
    var r := BufNext(s, Find(k)).value;
    HoldsHeap(s, r.heap, c);
    HoldsTo(s.(heap := r.heap), k, r.ops[k], c);
    MovedCounted(s, r, c);
  }

  /** The object a caller is about to free is live, unlisted and not bound. */
  lemma RawIsFree(s: State, k: nat)
    requires Typed(s) && AllUnlisted(s) && k < |s.ops| && s.ops[k].RawDestroy?
    ensures
      var b := s.ops[k].buf;
      b < |s.heap| && s.heap[b].alive && !s.heap[b].listed && s.heap[b].count == 0 && (s.heap[b].cmd <==> s.heap[b].res.Some?)
  {
    var b := s.ops[k].buf;
    TotalHas(s.ops, k, RawHolder(b));
    assert UnlistedAt(s, b) && CellTyped(s.heap, s.heap[b]);
  }

  lemma RawCounted(s: State, k: nat, c: nat)
    requires Typed(s) && AllUnlisted(s) && CountedAt(s, c) && BufNext(s, Raw(k)).Some?
    ensures CountedAt(BufNext(s, Raw(k)).value, c)
  {
    RawIsFree(s, k);
    hide Mult, Holds, CountedAt, Typed, AllUnlisted, UnbindAll;
    var b := s.ops[k].buf;
    var r, res := BufNext(s, Raw(k)).value, Resources(s.heap[b]);
    var heap := UnbindAll(s.heap, res);
    if !s.heap[b].cmd {
      UnbindNothing(s.heap);
    }
    UnbindRefs(s.heap, res);
    HoldsHeap(s, heap, c);
    HoldsKill(s.(heap := heap), b, c);
    HoldsTo(s.(heap := heap[b := heap[b].(alive := false)]), k, Done, c);
    KilledCounted(s, r, b, c);
  }

  lemma UnbindNothing(heap: seq<Cell>)
    ensures UnbindAll(heap, []) == heap
  {
    forall c | 0 <= c < |heap| ensures UnbindAll(heap, [])[c] == heap[c] { }
  }

  lemma CountedCmdBind(s: State, ctx: nat, ids: seq<nat>, c: nat)
    requires CountedAt(s, c) && Typed(s) && CmdNext(s, CmdBind(ctx, ids)).Some?
    ensures CountedAt(CmdNext(s, CmdBind(ctx, ids)).value, c)
  {
    hide Mult, Holds, CountedAt, UnbindAll, BindAll, LookupAll, Typed;
    var bufs := LookupAll(s.heap, ctx, ids);
    if bufs.Some? {
      if c in bufs.value {
        LiveAll(s, ctx, ids, c);
      }
      BindSpawn(s, CmdBound(ctx, bufs.value), bufs.value, c);
    }
  }

  lemma CountedCmdFail(s: State, k: nat, c: nat)
    requires CountedAt(s, c) && Typed(s) && CmdNext(s, CmdFail(k)).Some?
    ensures CountedAt(CmdNext(s, CmdFail(k)).value, c)
  {
    hide Mult, Holds, CountedAt, UnbindAll, BindAll, LookupAll, Typed;
    var r := CmdNext(s, CmdFail(k)).value;
    MoveStep(s, k, r.ops[k], c);
  }

  lemma CountedCmdAlloc(s: State, k: nat, id: nat, c: nat)
    requires CountedAt(s, c) && Typed(s) && CmdNext(s, CmdAlloc(k, id)).Some?
    ensures CountedAt(CmdNext(s, CmdAlloc(k, id)).value, c)
  {
    hide Mult, Holds, CountedAt, UnbindAll, BindAll, LookupAll, Typed;
    var r := CmdNext(s, CmdAlloc(k, id)).value;
    NewStep(s, k, r.ops[k], s.ops[k].ctx, id, c);
  }

  lemma CountedCmdUnbind(s: State, k: nat, c: nat)
    requires CountedAt(s, c) && Typed(s) && CmdNext(s, CmdUnbind(k)).Some?
    ensures CountedAt(CmdNext(s, CmdUnbind(k)).value, c)
  {
    hide Mult, Holds, CountedAt, UnbindAll, BindAll, LookupAll, Typed;
    UnbindStep(s, k, Done, s.ops[k].bufs, c);
  }

  lemma CountedCmdDone(s: State, k: nat, ok: bool, c: nat)
    requires CountedAt(s, c) && Typed(s) && CmdNext(s, CmdDone(k, ok)).Some?
    ensures CountedAt(CmdNext(s, CmdDone(k, ok)).value, c)
  {
    hide Mult, Holds, CountedAt, UnbindAll, BindAll, LookupAll, Typed;
    var r := CmdNext(s, CmdDone(k, ok)).value;
    MultOne(s.ops[k].cbuf, c);
    UnbindStep(s, k, r.ops[k], [s.ops[k].cbuf], c);
  }

  /** Whatever a caller refers to is live. */
  lemma HeldAlive(s: State, k: nat, c: nat)
    requires AllCounted(s) && k < |s.ops| && OpHolds(s.ops[k], c) > 0
    ensures c < |s.heap| && s.heap[c].alive && s.heap[c].count > 0
  {
    TotalHas(s.ops, k, OpHolder(c));
    assert CountedAt(s, c);
  }

  lemma MoveCounted(s: State, k: nat, prog: seq<Word>, c: nat)
    requires AllCounted(s) && Typed(s) && CmdNext(s, CmdMove(k, prog)).Some?
    ensures CountedAt(CmdNext(s, CmdMove(k, prog)).value, c)
  {
    var op := s.ops[k];
    HeldAlive(s, k, op.cbuf);
    assert CountedAt(s, c);
    assert s.heap[op.cbuf].res.None?;
    hide Mult, Holds, AllCounted, CountedAt, Typed, OpTyped;
    SetResStep(s, k, CmdMoved(op.ctx, op.cbuf), op.cbuf, op.bufs, prog, c);
  }

  /** A command buffer that can be taken is live. */
  lemma TakenAlive(s: State, ctx: nat, id: nat)
    requires Typed(s) && TakeCmd(s.heap, ctx, id).Some?
    ensures var b := TakeCmd(s.heap, ctx, id).value; b < |s.heap| && s.heap[b].alive && s.heap[b].cmd && s.heap[b].res.Some?
  {
    hide OpTyped;
    assert CellTyped(s.heap, s.heap[TakeCmd(s.heap, ctx, id).value]);
  }

  lemma CountedRunEnter(max: nat, s: State, ctx: nat, id: nat, c: nat)
    requires CountedAt(s, c) && Typed(s) && RunNext(max, s, RunEnter(ctx, id)).Some?
    ensures CountedAt(RunNext(max, s, RunEnter(ctx, id)).value, c)
  {
    hide Mult, Holds, CountedAt, Typed, TakeCmd;
    var r := RunNext(max, s, RunEnter(ctx, id)).value;
    SpawnStep(s, r, r.ops[|s.ops|], c);
  }

  lemma CountedRunDec(max: nat, s: State, k: nat, c: nat)
    requires CountedAt(s, c) && Typed(s) && RunNext(max, s, RunDec(k)).Some?
    ensures CountedAt(RunNext(max, s, RunDec(k)).value, c)
  {
    hide Mult, Holds, CountedAt, Typed, TakeCmd;
    var r := RunNext(max, s, RunDec(k)).value;
    EndStep(s, r, k, c);
  }

  lemma CountedRunError(max: nat, s: State, k: nat, c: nat)
    requires CountedAt(s, c) && Typed(s) && RunNext(max, s, RunError(k)).Some?
    ensures CountedAt(RunNext(max, s, RunError(k)).value, c)
  {
    hide Mult, Holds, CountedAt, Typed, TakeCmd;
    var r := RunNext(max, s, RunError(k)).value;
    MoveStep(s, k, r.ops[k], c);
  }

  lemma CountedRunLock(max: nat, s: State, k: nat, c: nat)
    requires CountedAt(s, c) && Typed(s) && RunNext(max, s, RunLock(k)).Some?
    ensures CountedAt(RunNext(max, s, RunLock(k)).value, c)
  {
    hide Mult, Holds, CountedAt, Typed, TakeCmd;
    var r := RunNext(max, s, RunLock(k)).value;
    var b := TakeCmd(s.heap, s.ops[k].ctx, s.ops[k].id);
    if b.None? {
      MoveStep(s, k, r.ops[k], c);
    } else {
      TakenAlive(s, s.ops[k].ctx, s.ops[k].id);
      SeizeStep(s, k, r.ops[k], b.value, c);
    }
  }

  lemma CountedRunQueue(max: nat, s: State, k: nat, c: nat)
    requires CountedAt(s, c) && Typed(s) && RunNext(max, s, RunQueue(k)).Some?
    ensures CountedAt(RunNext(max, s, RunQueue(k)).value, c)
  {
    hide Mult, Holds, CountedAt, Typed, TakeCmd;
    QueueStep(s, k, c);
  }

  lemma SameHolds(s: State, r: State, c: nat)
    requires r.heap == s.heap && r.ops == s.ops && r.queue == s.queue && r.sched == s.sched
    ensures Holds(r, c) == Holds(s, c)
  {
  }

  lemma UpdBindCounted(s: State, k: nat, ids: seq<nat>, c: nat)
    requires CountedAt(s, c) && Typed(s) && UpdNext(s, UpdBind(k, ids)).Some?
    ensures CountedAt(UpdNext(s, UpdBind(k, ids)).value, c)
  {
    hide Mult, Holds, CountedAt, Typed, BindAll, LookupAll;
    var r := UpdNext(s, UpdBind(k, ids)).value;
    var bufs := LookupAll(s.heap, s.ops[k].ctx, ids);
    if bufs.None? {
      MoveStep(s, k, r.ops[k], c);
    } else {
      if c in bufs.value {
        LiveAll(s, s.ops[k].ctx, ids, c);
      }
      BindStep(s, k, r.ops[k], bufs.value, c);
    }
  }

  lemma SwapCounted(s: State, k: nat, ok: bool, prog: seq<Word>, c: nat)
    requires AllCounted(s) && UpdNext(s, UpdSwap(k, ok, prog)).Some?
    ensures CountedAt(UpdNext(s, UpdSwap(k, ok, prog)).value, c)
  {
    assert CountedAt(s, c);
    hide Mult, Holds, AllCounted, CountedAt, Leak;
    var r, op := UpdNext(s, UpdSwap(k, ok, prog)).value, s.ops[k];
    if ok {
      HeldAlive(s, k, op.cbuf);
      SetResStep(s, k, r.ops[k], op.cbuf, op.bufs, prog, c);
    } else {
      LeakStep(s, k, r.ops[k], op.bufs, c);
    }
  }

  lemma CountedUpdLock(s: State, ctx: nat, id: nat, c: nat)
    requires CountedAt(s, c) && Typed(s) && UpdNext(s, UpdLock(ctx, id)).Some?
    ensures CountedAt(UpdNext(s, UpdLock(ctx, id)).value, c)
  {
    hide Mult, Holds, CountedAt, Typed, TakeCmd, UnbindAll, BindAll, Leak, LookupAll;
    var b := TakeCmd(s.heap, ctx, id);
    if b.Some? {
      TakenAlive(s, ctx, id);
      SeizeSpawn(s, UpdHeld(ctx, b.value), b.value, c);
    }
  }

  lemma CountedUpdError(s: State, k: nat, c: nat)
    requires CountedAt(s, c) && Typed(s) && UpdNext(s, UpdError(k)).Some?
    ensures CountedAt(UpdNext(s, UpdError(k)).value, c)
  {
    hide Mult, Holds, CountedAt, Typed, TakeCmd, UnbindAll, BindAll, Leak, LookupAll;
    MoveStep(s, k, UpdExit(s.ops[k].cbuf), c);
  }

  lemma CountedUpdUnbind(s: State, k: nat, c: nat)
    requires CountedAt(s, c) && Typed(s) && UpdNext(s, UpdUnbind(k)).Some?
    ensures CountedAt(UpdNext(s, UpdUnbind(k)).value, c)
  {
    hide Mult, Holds, CountedAt, Typed, TakeCmd, UnbindAll, BindAll, Leak, LookupAll;
    UnbindStep(s, k, UpdExit(s.ops[k].cbuf), s.ops[k].bufs, c);
  }

  lemma CountedUpdDone(s: State, k: nat, c: nat)
    requires CountedAt(s, c) && Typed(s) && UpdNext(s, UpdDone(k)).Some?
    ensures CountedAt(UpdNext(s, UpdDone(k)).value, c)
  {
    hide Mult, Holds, CountedAt, Typed, TakeCmd, UnbindAll, BindAll, Leak, LookupAll;
    MultOne(s.ops[k].cbuf, c);
    UnbindStep(s, k, Done, [s.ops[k].cbuf], c);
  }

  lemma CountedFence(s: State, num: nat, c: nat)
    requires CountedAt(s, c) && FenceNext(s, Fence(num)).Some?
    ensures CountedAt(FenceNext(s, Fence(num)).value, c)
  {
    hide Mult, Holds, CountedAt;
    if num <= s.active {
      HoldsSpawn(s, FenceWait(num), c);
      MovedCounted(s, Spawn(s, FenceWait(num)), c);
    }
  }

  lemma CountedFenceReturn(s: State, k: nat, c: nat)
    requires CountedAt(s, c) && FenceNext(s, FenceReturn(k)).Some?
    ensures CountedAt(FenceNext(s, FenceReturn(k)).value, c)
  {
    hide Mult, Holds, CountedAt;
    MoveStep(s, k, Done, c);
  }

  lemma PopCounted(s: State, c: nat)
    requires CountedAt(s, c) && SchedNext(s, Pop).Some?
    ensures CountedAt(SchedNext(s, Pop).value, c)
  {
    hide Mult, Holds, CountedAt;
    HoldsPop(s, c);
    MovedCounted(s, SchedNext(s, Pop).value, c);
  }

  lemma UnbindCounted(s: State, c: nat)
    requires CountedAt(s, c) && SchedNext(s, Unbind).Some?
    ensures CountedAt(SchedNext(s, Unbind).value, c)
  {
    hide Mult, CountedAt;
    var r, bufs := SchedNext(s, Unbind).value, [s.sched.job.cbuf];
    MultOne(s.sched.job.cbuf, c);
    UnbindRefs(s.heap, bufs);
    HoldsHeap(s, r.heap, c);
    UnboundCounted(s, r, bufs, c);
  }

  lemma SchedCounted(s: State, ev: Event, c: nat)
    requires CountedAt(s, c) && SchedNext(s, ev).Some?
    ensures CountedAt(SchedNext(s, ev).value, c)
  {
    hide Mult, CountedAt, Total;
    var r := SchedNext(s, ev).value;
    if ev.Pop? {
      PopCounted(s, c);
    } else if ev.Unbind? {
      UnbindCounted(s, c);
    } else {
      MovedCounted(s, r, c);
    }
  }

  lemma StepCounted(max: nat, s: State, ev: Event)
    requires AllCounted(s) && Typed(s) && AllUnlisted(s) && Next(max, s, ev).Some?
    ensures AllCounted(Next(max, s, ev).value)
  {
    hide CountedAt, Typed, AllUnlisted, BufNext, CmdNext, RunNext, UpdNext, SchedNext, FenceNext;
    forall c: nat ensures CountedAt(Next(max, s, ev).value, c) {
      assert CountedAt(s, c);
      match ev
      case BufCreate(ctx, id) => CountedBufCreate(s, ctx, id, c);
      case BufCreated(k, ok) => CountedBufCreated(s, k, ok, c);
      case Destroy(ctx, id) => CountedDestroy(s, ctx, id, c);
      case Find(k) => FindCounted(s, k, c);
      case Raw(k) => RawCounted(s, k, c);
      case CmdBind(ctx, ids) => CountedCmdBind(s, ctx, ids, c);
      case CmdFail(k) => CountedCmdFail(s, k, c);
      case CmdAlloc(k, id) => CountedCmdAlloc(s, k, id, c);
      case CmdUnbind(k) => CountedCmdUnbind(s, k, c);
      case CmdMove(k, prog) => MoveCounted(s, k, prog, c);
      case CmdDone(k, ok) => CountedCmdDone(s, k, ok, c);
      case RunEnter(ctx, id) => CountedRunEnter(max, s, ctx, id, c);
      case RunDec(k) => CountedRunDec(max, s, k, c);
      case RunError(k) => CountedRunError(max, s, k, c);
      case RunLock(k) => CountedRunLock(max, s, k, c);
      case RunQueue(k) => CountedRunQueue(max, s, k, c);
      case UpdLock(ctx, id) => CountedUpdLock(s, ctx, id, c);
      case UpdError(k) => CountedUpdError(s, k, c);
      case UpdBind(k, ids) => UpdBindCounted(s, k, ids, c);
      case UpdSwap(k, ok, prog) => SwapCounted(s, k, ok, prog, c);
      case UpdUnbind(k) => CountedUpdUnbind(s, k, c);
      case UpdDone(k) => CountedUpdDone(s, k, c);
      case Fence(num) => CountedFence(s, num, c);
      case FenceReturn(k) => CountedFenceReturn(s, k, c);
      case _ => SchedCounted(s, ev, c);
    }
  }
}
