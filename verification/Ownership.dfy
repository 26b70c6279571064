/**
 What the callers of the driver refer to: resource lists hold data buffers only, a command
 buffer has one user at most, and an object about to be freed has left the table and has
 exactly one caller that frees it.

 These facts are kept together with the counts of References: an object is freed only when
 nothing refers to it, which the counts say, and its id is taken out of the table first, so
 no later call can find it.
 */
module Ownership {
  import opened Isa
  import opened Wrappers
  import opened Totals
  import opened KernelBuffers
  import opened Driver
  import opened References

  /** Existing buffers keep their kind and their resource lists. */
  predicate SameKinds(a: seq<Cell>, b: seq<Cell>) {
    |a| <= |b| && forall i :: 0 <= i < |a| ==> b[i].cmd == a[i].cmd && b[i].res == a[i].res
  }

  lemma KindsKeepOp(a: seq<Cell>, b: seq<Cell>, o: Op)
    requires SameKinds(a, b) && OpTyped(a, o)
    ensures OpTyped(b, o)
  {
  }

  lemma OpsTo(a: seq<Cell>, b: seq<Cell>, ops: seq<Op>, k: nat, op: Op)
    requires SameKinds(a, b) && OpsTyped(a, ops) && k < |ops| && OpTyped(b, op)
    ensures OpsTyped(b, ops[k := op])
  {
    hide OpTyped, SameKinds;
    var r := ops[k := op];
    forall i | 0 <= i < |r| ensures OpTyped(b, r[i]) {
      if i != k {
        KindsKeepOp(a, b, ops[i]);
      }
    }
  }

  lemma OpsSpawn(a: seq<Cell>, b: seq<Cell>, ops: seq<Op>, op: Op)
    requires SameKinds(a, b) && OpsTyped(a, ops) && OpTyped(b, op)
    ensures OpsTyped(b, ops + [op])
  {
    hide OpTyped, SameKinds;
    forall i | 0 <= i < |ops| ensures OpTyped(b, ops[i]) {
      KindsKeepOp(a, b, ops[i]);
    }
  }

  lemma JobsKeep(a: seq<Cell>, b: seq<Cell>, queue: seq<Job>, sched: Sched)
    requires SameKinds(a, b) && QueueTyped(a, queue) && SchedTyped(a, sched)
    ensures QueueTyped(b, queue) && SchedTyped(b, sched)
  {
  }

  // ---- Heap operations ----

  lemma CellsBind(heap: seq<Cell>, bufs: seq<nat>)
    requires CellsTyped(heap) && forall i :: 0 <= i < |bufs| ==> bufs[i] < |heap| && heap[bufs[i]].listed && !heap[bufs[i]].cmd
    ensures SameKinds(heap, BindAll(heap, bufs)) && CellsTyped(BindAll(heap, bufs)) && DataRefs(BindAll(heap, bufs), bufs)
  {
    hide Mult;
    var b := BindAll(heap, bufs);
    forall c | 0 <= c < |heap| ensures CellTyped(b, b[c]) {
      MultIn(bufs, c);
      assert CellTyped(heap, heap[c]);
    }
  }

  lemma CellsUnbind(heap: seq<Cell>, bufs: seq<nat>)
    requires CellsTyped(heap) && forall i :: 0 <= i < |bufs| && bufs[i] < |heap| && heap[bufs[i]].cmd ==> heap[bufs[i]].res.Some?
    ensures SameKinds(heap, UnbindAll(heap, bufs)) && CellsTyped(UnbindAll(heap, bufs))
  {
    hide Mult;
    var b := UnbindAll(heap, bufs);
    forall c | 0 <= c < |heap| ensures CellTyped(b, b[c]) {
      MultIn(bufs, c);
      assert CellTyped(heap, heap[c]);
    }
  }

  lemma CellsSeize(heap: seq<Cell>, c0: nat)
    requires CellsTyped(heap) && c0 < |heap| && heap[c0].listed && heap[c0].cmd && !heap[c0].locked
    ensures SameKinds(heap, Seize(heap, c0)) && CellsTyped(Seize(heap, c0)) && CmdRef(Seize(heap, c0), c0)
  {
    assert CellTyped(heap, heap[c0]);
    var b := Seize(heap, c0);
    forall c | 0 <= c < |heap| ensures CellTyped(b, b[c]) {
      assert CellTyped(heap, heap[c]);
    }
  }

  lemma CellsNew(heap: seq<Cell>, ctx: nat, id: nat, cmd: bool)
    requires CellsTyped(heap)
    ensures SameKinds(heap, heap + [NewCell(ctx, id, cmd)]) && CellsTyped(heap + [NewCell(ctx, id, cmd)])
  {
    var b := heap + [NewCell(ctx, id, cmd)];
    forall c | 0 <= c < |b| ensures CellTyped(b, b[c]) {
      if c < |heap| {
        assert CellTyped(heap, heap[c]);
      }
    }
  }

  lemma CellsLeak(heap: seq<Cell>, bufs: seq<nat>)
    requires CellsTyped(heap) && DataRefs(heap, bufs)
    ensures SameKinds(heap, Leak(heap, bufs)) && CellsTyped(Leak(heap, bufs))
  {
    hide Mult;
    var b := Leak(heap, bufs);
    forall c | 0 <= c < |heap| ensures CellTyped(b, b[c]) {
      MultIn(bufs, c);
      assert CellTyped(heap, heap[c]);
    }
  }

  lemma CellsKill(heap: seq<Cell>, c0: nat)
    requires CellsTyped(heap) && c0 < |heap| && !heap[c0].listed
    ensures var b := heap[c0 := heap[c0].(alive := false)]; SameKinds(heap, b) && CellsTyped(b)
  {
    var b := heap[c0 := heap[c0].(alive := false)];
    forall c | 0 <= c < |heap| ensures CellTyped(b, b[c]) {
      assert CellTyped(heap, heap[c]);
    }
  }

  predicate KindsBut(a: seq<Cell>, b: seq<Cell>, c0: nat) {
    && |a| == |b| && c0 < |a| && b[c0].cmd == a[c0].cmd && b[c0].res.Some?
    && forall i :: 0 <= i < |a| && i != c0 ==> b[i].cmd == a[i].cmd && b[i].res == a[i].res
  }

  lemma ButKeepsOp(a: seq<Cell>, b: seq<Cell>, c0: nat, o: Op)
    requires KindsBut(a, b, c0) && OpTyped(a, o) && !(o.CmdMade? && o.cbuf == c0)
    ensures OpTyped(b, o)
  {
  }

  lemma OpsSetRes(a: seq<Cell>, b: seq<Cell>, c0: nat, ops: seq<Op>, k: nat, op: Op)
    requires KindsBut(a, b, c0) && OpsTyped(a, ops) && k < |ops| && OpTyped(b, op)
    requires forall i :: 0 <= i < |ops| && i != k ==> !(ops[i].CmdMade? && ops[i].cbuf == c0)
    ensures OpsTyped(b, ops[k := op])
  {
    hide OpTyped, KindsBut;
    var r := ops[k := op];
    forall i | 0 <= i < |r| ensures OpTyped(b, r[i]) {
      if i != k {
        ButKeepsOp(a, b, c0, ops[i]);
      }
    }
  }

  lemma JobsSetRes(a: seq<Cell>, b: seq<Cell>, c0: nat, queue: seq<Job>, sched: Sched)
    requires KindsBut(a, b, c0) && QueueTyped(a, queue) && SchedTyped(a, sched)
    ensures QueueTyped(b, queue) && SchedTyped(b, sched)
  {
  }

  // ---- Callers ----

  /** A step of caller k whose heap keeps all kinds. */
  lemma TypedTo(s: State, heap: seq<Cell>, k: nat, op: Op)
    requires Typed(s) && k < |s.ops| && SameKinds(s.heap, heap) && CellsTyped(heap) && OpTyped(heap, op)
    ensures Typed(To(s.(heap := heap), k, op))
  {
    hide CellsTyped, OpsTyped, OpTyped, QueueTyped, SchedTyped, SameKinds;
    OpsTo(s.heap, heap, s.ops, k, op);
    JobsKeep(s.heap, heap, s.queue, s.sched);
  }

  lemma TypedSpawn(s: State, heap: seq<Cell>, op: Op)
    requires Typed(s) && SameKinds(s.heap, heap) && CellsTyped(heap) && OpTyped(heap, op)
    ensures Typed(Spawn(s.(heap := heap), op))
  {
    hide CellsTyped, OpsTyped, OpTyped, QueueTyped, SchedTyped, SameKinds;
    OpsSpawn(s.heap, heap, s.ops, op);
    JobsKeep(s.heap, heap, s.queue, s.sched);
  }

  lemma KindsSelf(heap: seq<Cell>)
    ensures SameKinds(heap, heap)
  {
  }

  lemma OpOf(s: State, k: nat)
    requires Typed(s) && k < |s.ops|
    ensures OpTyped(s.heap, s.ops[k]) && CellsTyped(s.heap)
  {
    hide OpTyped, CellTyped;
  }

  lemma TypedBuf(s: State, ev: Event)
    requires Inv(s) && BufNext(s, ev).Some?
    ensures Typed(BufNext(s, ev).value)
  {
    hide Typed, CellsTyped, OpTyped, SameKinds, AllCounted, AllUnlisted, CellTyped, UnbindAll, Mult;
    match ev
    case BufCreate(ctx, id) => TypedBufCreate(s, ctx, id);
    case BufCreated(k, ok) => TypedBufCreated(s, k, ok);
    case Destroy(ctx, id) => TypedDestroy(s, ctx, id);
    case Find(k) => TypedFind(s, k);
    case Raw(k) => TypedRaw(s, k);
  }

  lemma TypedBufCreate(s: State, ctx: nat, id: nat)
    requires Typed(s) && BufNext(s, BufCreate(ctx, id)).Some?
    ensures Typed(BufNext(s, BufCreate(ctx, id)).value)
  {
    hide CellTyped, SameKinds;
    CellsNew(s.heap, ctx, id, false);
    TypedSpawn(s, s.heap + [NewCell(ctx, id, false)], BufMade(ctx, |s.heap|));
  }

  lemma TypedBufCreated(s: State, k: nat, ok: bool)
    requires Typed(s) && BufNext(s, BufCreated(k, ok)).Some?
    ensures Typed(BufNext(s, BufCreated(k, ok)).value)
  {
    OpOf(s, k);
    hide Typed, CellsTyped, SameKinds, UnbindAll;
    var r := BufNext(s, BufCreated(k, ok)).value;
    CellsUnbind(s.heap, [s.ops[k].buf]);
    TypedTo(s, r.heap, k, r.ops[k]);
  }

  lemma TypedDestroy(s: State, ctx: nat, id: nat)
    requires Typed(s)
    ensures Typed(Spawn(s, FindToDestroy(ctx, id)))
  {
    hide CellTyped, SameKinds;
    KindsSelf(s.heap);
    TypedSpawn(s, s.heap, FindToDestroy(ctx, id));
  }

  /** An unlocked buffer of the table is live and not bound. */
  lemma UnlockedFree(s: State, c: nat)
    requires AllCounted(s) && CellsTyped(s.heap) && c < |s.heap| && s.heap[c].listed && !s.heap[c].locked
    ensures s.heap[c].alive && s.heap[c].count == 0 && (s.heap[c].cmd ==> s.heap[c].res.Some?)
  {
    hide Holds;
    assert CellTyped(s.heap, s.heap[c]) && CountedAt(s, c);
  }

  lemma TypedFind(s: State, k: nat)
    requires AllCounted(s) && Typed(s) && BufNext(s, Find(k)).Some?
    ensures Typed(BufNext(s, Find(k)).value)
  {
    var r := BufNext(s, Find(k)).value;
    assert CellsTyped(s.heap);
    hide AllCounted, Typed, CellsTyped, SameKinds;
    KindsSelf(s.heap);
    var b := Lookup(s.heap, s.ops[k].ctx, s.ops[k].id);
    if b.Some? && !s.heap[b.value].locked {
      UnlockedFree(s, b.value);
    }
    TypedTo(s, r.heap, k, r.ops[k]);
  }

  lemma TypedRaw(s: State, k: nat)
    requires Typed(s) && AllUnlisted(s) && BufNext(s, Raw(k)).Some?
    ensures Typed(BufNext(s, Raw(k)).value)
  {
    RawIsFree(s, k);
    var b := s.ops[k].buf;
    var r, res := BufNext(s, Raw(k)).value, Resources(s.heap[b]);
    assert CellsTyped(s.heap) && CellTyped(s.heap, s.heap[b]);
    assert !s.heap[b].cmd ==> res == [];
    UnbindNothing(s.heap);
    assert r == To(s.(heap := UnbindAll(s.heap, res)[b := UnbindAll(s.heap, res)[b].(alive := false)]), k, Done);
    assert DataRefs(s.heap, res);
    hide Typed, CellsTyped, AllUnlisted, UnbindAll, CellTyped;
    CellsUnbind(s.heap, res);
    var heap := UnbindAll(s.heap, res);
    CellsKill(heap, b);
    TypedTo(s, heap[b := heap[b].(alive := false)], k, Done);
  }

  lemma TypedCmdBind(s: State, ctx: nat, ids: seq<nat>)
    requires Typed(s)
    ensures Typed(CmdNext(s, CmdBind(ctx, ids)).value)
  {
    hide CellTyped, SameKinds, BindAll, LookupAll;
    var bufs := LookupAll(s.heap, ctx, ids);
    if bufs.Some? {
      CellsBind(s.heap, bufs.value);
      TypedSpawn(s, BindAll(s.heap, bufs.value), CmdBound(ctx, bufs.value));
    }
  }

  lemma TypedCmdFail(s: State, k: nat)
    requires Typed(s) && CmdNext(s, CmdFail(k)).Some?
    ensures Typed(CmdNext(s, CmdFail(k)).value)
  {
    OpOf(s, k);
    hide Typed, CellsTyped, SameKinds;
    KindsSelf(s.heap);
    TypedTo(s, s.heap, k, CmdUndo(s.ops[k].bufs));
  }

  lemma TypedCmdAlloc(s: State, k: nat, id: nat)
    requires Typed(s) && CmdNext(s, CmdAlloc(k, id)).Some?
    ensures Typed(CmdNext(s, CmdAlloc(k, id)).value)
  {
    OpOf(s, k);
    var r := CmdNext(s, CmdAlloc(k, id)).value;
    CellsNew(s.heap, s.ops[k].ctx, id, true);
    assert OpTyped(r.heap, r.ops[k]);
    hide Typed, CellsTyped, SameKinds;
    TypedTo(s, r.heap, k, r.ops[k]);
  }

  lemma TypedCmdUnbind(s: State, k: nat)
    requires Typed(s) && CmdNext(s, CmdUnbind(k)).Some?
    ensures Typed(CmdNext(s, CmdUnbind(k)).value)
  {
    OpOf(s, k);
    hide Typed, CellsTyped, SameKinds, UnbindAll;
    CellsUnbind(s.heap, s.ops[k].bufs);
    TypedTo(s, UnbindAll(s.heap, s.ops[k].bufs), k, Done);
  }

  /** A command buffer is referred to once at most. */
  lemma OneUser(s: State, i: nat, j: nat, c: nat)
    requires AllCounted(s) && CellsTyped(s.heap) && c < |s.heap| && s.heap[c].cmd
    requires i < |s.ops| && j < |s.ops| && i != j && OpHolds(s.ops[i], c) > 0
    ensures OpHolds(s.ops[j], c) == 0
  {
    assert CountedAt(s, c) && CellTyped(s.heap, s.heap[c]);
    if i < j {
      TotalTwo(s.ops, i, j, OpHolder(c));
    } else {
      TotalTwo(s.ops, j, i, OpHolder(c));
    }
    assert Holds(s, c) <= 1;
  }

  lemma TypedCmdMove(s: State, k: nat, prog: seq<Word>)
    requires AllCounted(s) && Typed(s) && CmdNext(s, CmdMove(k, prog)).Some?
    ensures Typed(CmdNext(s, CmdMove(k, prog)).value)
  {
    OpOf(s, k);
    var op, r := s.ops[k], CmdNext(s, CmdMove(k, prog)).value;
    assert OpTyped(r.heap, r.ops[k]);
    assert OpHolds(op, op.cbuf) > 0;
    hide Mult, AllCounted, CellsTyped, OpTyped, QueueTyped, SchedTyped, KindsBut;
    forall i | 0 <= i < |s.ops| && i != k ensures !(s.ops[i].CmdMade? && s.ops[i].cbuf == op.cbuf) {
      OneUser(s, k, i, op.cbuf);
    }
    OpsSetRes(s.heap, r.heap, op.cbuf, s.ops, k, r.ops[k]);
    JobsSetRes(s.heap, r.heap, op.cbuf, s.queue, s.sched);
  }

  lemma TypedCmdDone(s: State, k: nat, ok: bool)
    requires Typed(s) && CmdNext(s, CmdDone(k, ok)).Some?
    ensures Typed(CmdNext(s, CmdDone(k, ok)).value)
  {
    OpOf(s, k);
    var r := CmdNext(s, CmdDone(k, ok)).value;
    hide Typed, CellsTyped, SameKinds, UnbindAll;
    CellsUnbind(s.heap, [s.ops[k].cbuf]);
    TypedTo(s, r.heap, k, r.ops[k]);
  }

  lemma TypedCmd(s: State, ev: Event)
    requires Inv(s) && CmdNext(s, ev).Some?
    ensures Typed(CmdNext(s, ev).value)
  {
    hide Typed, AllCounted, AllUnlisted, LookupAll, UnbindAll, BindAll;
    match ev
    case CmdBind(ctx, ids) => TypedCmdBind(s, ctx, ids);
    case CmdFail(k) => TypedCmdFail(s, k);
    case CmdAlloc(k, id) => TypedCmdAlloc(s, k, id);
    case CmdUnbind(k) => TypedCmdUnbind(s, k);
    case CmdMove(k, prog) => TypedCmdMove(s, k, prog);
    case CmdDone(k, ok) => TypedCmdDone(s, k, ok);
  }

  lemma TypedRunEnter(max: nat, s: State, ctx: nat, id: nat)
    requires Typed(s) && RunNext(max, s, RunEnter(ctx, id)).Some?
    ensures Typed(RunNext(max, s, RunEnter(ctx, id)).value)
  {
    var r := RunNext(max, s, RunEnter(ctx, id)).value;
    var op := r.ops[|s.ops|];
    hide CellTyped, SameKinds;
    KindsSelf(s.heap);
    TypedSpawn(s, s.heap, op);
  }

  lemma TypedRunDec(max: nat, s: State, k: nat)
    requires Typed(s) && RunNext(max, s, RunDec(k)).Some?
    ensures Typed(RunNext(max, s, RunDec(k)).value)
  {
    assert CellsTyped(s.heap);
    hide Typed, CellsTyped, SameKinds;
    KindsSelf(s.heap);
    TypedTo(s, s.heap, k, Done);
  }

  lemma TypedRunError(max: nat, s: State, k: nat)
    requires Typed(s) && RunNext(max, s, RunError(k)).Some?
    ensures Typed(RunNext(max, s, RunError(k)).value)
  {
    assert CellsTyped(s.heap);
    hide Typed, CellsTyped, SameKinds;
    KindsSelf(s.heap);
    TypedTo(s, s.heap, k, RunFail(s.ops[k].ctx));
  }

  lemma TypedRunLock(max: nat, s: State, k: nat)
    requires Typed(s) && RunNext(max, s, RunLock(k)).Some?
    ensures Typed(RunNext(max, s, RunLock(k)).value)
  {
    assert CellsTyped(s.heap);
    hide Typed, CellsTyped, SameKinds, Seize, CmdRef;
    KindsSelf(s.heap);
    var b := TakeCmd(s.heap, s.ops[k].ctx, s.ops[k].id);
    if b.None? {
      TypedTo(s, s.heap, k, RunFail(s.ops[k].ctx));
    } else {
      CellsSeize(s.heap, b.value);
      TypedTo(s, Seize(s.heap, b.value), k, RunHeld(s.ops[k].ctx, b.value));
    }
  }

  lemma TypedRunQueue(max: nat, s: State, k: nat)
    requires Typed(s) && RunNext(max, s, RunQueue(k)).Some?
    ensures Typed(RunNext(max, s, RunQueue(k)).value)
  {
    OpOf(s, k);
    var r := RunNext(max, s, RunQueue(k)).value;
    hide CellsTyped, OpTyped, SameKinds, CmdRef;
    KindsSelf(s.heap);
    TypedTo(s, s.heap, k, Done);
    assert QueueTyped(s.heap, r.queue);
  }

  lemma TypedRun(max: nat, s: State, ev: Event)
    requires Inv(s) && RunNext(max, s, ev).Some?
    ensures Typed(RunNext(max, s, ev).value)
  {
    hide Typed, AllCounted, AllUnlisted, TakeCmd;
    match ev
    case RunEnter(ctx, id) => TypedRunEnter(max, s, ctx, id);
    case RunDec(k) => TypedRunDec(max, s, k);
    case RunError(k) => TypedRunError(max, s, k);
    case RunLock(k) => TypedRunLock(max, s, k);
    case RunQueue(k) => TypedRunQueue(max, s, k);
  }

  lemma TypedUpdLock(s: State, ctx: nat, id: nat)
    requires Typed(s)
    ensures Typed(UpdNext(s, UpdLock(ctx, id)).value)
  {
    hide CellTyped, SameKinds, Seize, TakeCmd;
    var b := TakeCmd(s.heap, ctx, id);
    if b.Some? {
      CellsSeize(s.heap, b.value);
      TypedSpawn(s, Seize(s.heap, b.value), UpdHeld(ctx, b.value));
    }
  }

  lemma TypedUpdError(s: State, k: nat)
    requires Typed(s) && UpdNext(s, UpdError(k)).Some?
    ensures Typed(UpdNext(s, UpdError(k)).value)
  {
    OpOf(s, k);
    hide Typed, CellsTyped, SameKinds;
    KindsSelf(s.heap);
    TypedTo(s, s.heap, k, UpdExit(s.ops[k].cbuf));
  }

  lemma BoundTyped(a: seq<Cell>, b: seq<Cell>, op: Op, bufs: seq<nat>)
    requires op.UpdHeld? && OpTyped(a, op) && SameKinds(a, b) && DataRefs(b, bufs)
    ensures OpTyped(a, UpdExit(op.cbuf)) && OpTyped(b, UpdBound(op.cbuf, bufs))
  {
  }

  lemma TypedUpdBind(s: State, k: nat, ids: seq<nat>)
    requires Typed(s) && UpdNext(s, UpdBind(k, ids)).Some?
    ensures Typed(UpdNext(s, UpdBind(k, ids)).value)
  {
    OpOf(s, k);
    hide Typed, CellsTyped, SameKinds, BindAll, LookupAll, DataRefs, OpTyped;
    var op, bufs := s.ops[k], LookupAll(s.heap, s.ops[k].ctx, ids);
    KindsSelf(s.heap);
    BoundTyped(s.heap, s.heap, op, []);
    if bufs.None? {
      TypedTo(s, s.heap, k, UpdExit(op.cbuf));
    } else {
      var heap := BindAll(s.heap, bufs.value);
      CellsBind(s.heap, bufs.value);
      BoundTyped(s.heap, heap, op, bufs.value);
      TypedTo(s, heap, k, UpdBound(op.cbuf, bufs.value));
    }
  }

  lemma TypedUpdSwap(s: State, k: nat, ok: bool, prog: seq<Word>)
    requires Typed(s) && UpdNext(s, UpdSwap(k, ok, prog)).Some?
    ensures Typed(UpdNext(s, UpdSwap(k, ok, prog)).value)
  {
    OpOf(s, k);
    var op, r := s.ops[k], UpdNext(s, UpdSwap(k, ok, prog)).value;
    if ok {
      assert CellTyped(s.heap, s.heap[op.cbuf]);
      assert OpTyped(r.heap, r.ops[k]);
      forall i | 0 <= i < |s.ops| && i != k ensures !(s.ops[i].CmdMade? && s.ops[i].cbuf == op.cbuf) {
        OpOf(s, i);
      }
      hide CellsTyped, OpTyped, QueueTyped, SchedTyped, KindsBut;
      OpsSetRes(s.heap, r.heap, op.cbuf, s.ops, k, r.ops[k]);
      JobsSetRes(s.heap, r.heap, op.cbuf, s.queue, s.sched);
    } else {
      CellsLeak(s.heap, op.bufs);
      hide Typed, CellsTyped, SameKinds, Leak;
      KindsKeepOp(s.heap, r.heap, UpdExit(op.cbuf));
      TypedTo(s, r.heap, k, UpdExit(op.cbuf));
    }
  }

  lemma TypedUpdUnbind(s: State, k: nat)
    requires Typed(s) && UpdNext(s, UpdUnbind(k)).Some?
    ensures Typed(UpdNext(s, UpdUnbind(k)).value)
  {
    OpOf(s, k);
    var op := s.ops[k];
    hide Typed, CellsTyped, SameKinds, UnbindAll;
    CellsUnbind(s.heap, op.bufs);
    KindsKeepOp(s.heap, UnbindAll(s.heap, op.bufs), UpdExit(op.cbuf));
    TypedTo(s, UnbindAll(s.heap, op.bufs), k, UpdExit(op.cbuf));
  }

  lemma TypedUpdDone(s: State, k: nat)
    requires Typed(s) && UpdNext(s, UpdDone(k)).Some?
    ensures Typed(UpdNext(s, UpdDone(k)).value)
  {
    OpOf(s, k);
    hide Typed, CellsTyped, SameKinds, UnbindAll;
    CellsUnbind(s.heap, [s.ops[k].cbuf]);
    TypedTo(s, UnbindAll(s.heap, [s.ops[k].cbuf]), k, Done);
  }

  lemma TypedUpd(s: State, ev: Event)
    requires Inv(s) && UpdNext(s, ev).Some?
    ensures Typed(UpdNext(s, ev).value)
  {
    hide Typed, AllCounted, AllUnlisted, TakeCmd, LookupAll, UnbindAll, BindAll, Leak;
    match ev
    case UpdLock(ctx, id) => TypedUpdLock(s, ctx, id);
    case UpdError(k) => TypedUpdError(s, k);
    case UpdBind(k, ids) => TypedUpdBind(s, k, ids);
    case UpdSwap(k, ok, prog) => TypedUpdSwap(s, k, ok, prog);
    case UpdUnbind(k) => TypedUpdUnbind(s, k);
    case UpdDone(k) => TypedUpdDone(s, k);
  }

  lemma TypedFence(s: State, ev: Event)
    requires Typed(s) && FenceNext(s, ev).Some?
    ensures Typed(FenceNext(s, ev).value)
  {
    assert CellsTyped(s.heap);
    hide Typed, CellsTyped, SameKinds;
    KindsSelf(s.heap);
    match ev
    case Fence(num) => if num <= s.active { TypedSpawn(s, s.heap, FenceWait(num)); }
    case FenceReturn(k) => TypedTo(s, s.heap, k, Done);
  }

  lemma TypedSched(s: State, ev: Event)
    requires Typed(s) && SchedNext(s, ev).Some?
    ensures Typed(SchedNext(s, ev).value)
  {
    hide CellsTyped, OpsTyped, CmdRef, UnbindAll;
    if ev.Unbind? {
      SchedRefs(s);
      var bufs := [s.sched.job.cbuf];
      CellsUnbind(s.heap, bufs);
      OpsKeep(s.heap, UnbindAll(s.heap, bufs), s.ops);
      JobsKeep(s.heap, UnbindAll(s.heap, bufs), s.queue, s.sched);
    }
  }

  lemma SchedRefs(s: State)
    requires Typed(s) && s.sched.Counted?
    ensures s.sched.job.cbuf < |s.heap| && s.heap[s.sched.job.cbuf].res.Some?
  {
  }

  lemma OpsKeep(a: seq<Cell>, b: seq<Cell>, ops: seq<Op>)
    requires SameKinds(a, b) && OpsTyped(a, ops)
    ensures OpsTyped(b, ops)
  {
    hide OpTyped, SameKinds;
    forall i | 0 <= i < |ops| ensures OpTyped(b, ops[i]) {
      KindsKeepOp(a, b, ops[i]);
    }
  }

  lemma StepTyped(max: nat, s: State, ev: Event)
    requires Inv(s) && Next(max, s, ev).Some?
    ensures Typed(Next(max, s, ev).value)
  {
    assert Typed(s);
    hide Inv, Typed, BufNext, CmdNext, RunNext, UpdNext, SchedNext, FenceNext;
    match ev
    case BufCreate(_, _) => TypedBuf(s, ev);
    case BufCreated(_, _) => TypedBuf(s, ev);
    case Destroy(_, _) => TypedBuf(s, ev);
    case Find(_) => TypedBuf(s, ev);
    case Raw(_) => TypedBuf(s, ev);
    case CmdBind(_, _) => TypedCmd(s, ev);
    case CmdFail(_) => TypedCmd(s, ev);
    case CmdAlloc(_, _) => TypedCmd(s, ev);
    case CmdUnbind(_) => TypedCmd(s, ev);
    case CmdMove(_, _) => TypedCmd(s, ev);
    case CmdDone(_, _) => TypedCmd(s, ev);
    case RunEnter(_, _) => TypedRun(max, s, ev);
    case RunDec(_) => TypedRun(max, s, ev);
    case RunError(_) => TypedRun(max, s, ev);
    case RunLock(_) => TypedRun(max, s, ev);
    case RunQueue(_) => TypedRun(max, s, ev);
    case UpdLock(_, _) => TypedUpd(s, ev);
    case UpdError(_) => TypedUpd(s, ev);
    case UpdBind(_, _) => TypedUpd(s, ev);
    case UpdSwap(_, _, _) => TypedUpd(s, ev);
    case UpdUnbind(_) => TypedUpd(s, ev);
    case UpdDone(_) => TypedUpd(s, ev);
    case Fence(_) => TypedFence(s, ev);
    case FenceReturn(_) => TypedFence(s, ev);
    case _ => TypedSched(s, ev);
  }

  // ---- Freeing ----

  /** Life flags of existing buffers stay, new ones are listed. */
  predicate SameLife(a: seq<Cell>, b: seq<Cell>) {
    && |a| <= |b| && (forall i :: 0 <= i < |a| ==> b[i].alive == a[i].alive && b[i].listed == a[i].listed)
    && forall i :: |a| <= i < |b| ==> b[i].listed
  }

  /** Life flags stay, and at most one caller, none of them freeing, moves or appears. */
  ghost predicate QuietStep(s: State, r: State) {
    && SameLife(s.heap, r.heap)
    && (r.ops == s.ops
        || (|r.ops| == |s.ops| + 1 && r.ops == s.ops + [r.ops[|s.ops|]] && !r.ops[|s.ops|].RawDestroy?)
        || (exists k: nat :: QuietAt(s, r, k)))
  }

  predicate QuietAt(s: State, r: State, k: nat) {
    k < |s.ops| == |r.ops| && r.ops == s.ops[k := r.ops[k]] && !s.ops[k].RawDestroy? && !r.ops[k].RawDestroy?
  }

  lemma QuietBuf(s: State, ev: Event)
    requires BufNext(s, ev).Some? && !ev.Find? && !ev.Raw?
    ensures QuietStep(s, BufNext(s, ev).value)
  {
    hide Mult, Lookup, LookupAll;
    var r := BufNext(s, ev).value;
    if |r.ops| == |s.ops| && r.ops != s.ops {
      assert QuietAt(s, r, ev.k);
    }
  }

  lemma QuietCmd(s: State, ev: Event)
    requires CmdNext(s, ev).Some?
    ensures QuietStep(s, CmdNext(s, ev).value)
  {
    hide Mult, Lookup, LookupAll;
    var r := CmdNext(s, ev).value;
    if |r.ops| == |s.ops| && r.ops != s.ops {
      assert QuietAt(s, r, ev.k);
    }
  }

  lemma QuietRun(max: nat, s: State, ev: Event)
    requires RunNext(max, s, ev).Some?
    ensures QuietStep(s, RunNext(max, s, ev).value)
  {
    hide Mult, Lookup, LookupAll;
    var r := RunNext(max, s, ev).value;
    if |r.ops| == |s.ops| && r.ops != s.ops {
      assert QuietAt(s, r, ev.k);
    }
  }

  lemma QuietUpd(s: State, ev: Event)
    requires UpdNext(s, ev).Some?
    ensures QuietStep(s, UpdNext(s, ev).value)
  {
    hide Mult, Lookup, LookupAll;
    var r := UpdNext(s, ev).value;
    if |r.ops| == |s.ops| && r.ops != s.ops {
      assert QuietAt(s, r, ev.k);
    }
  }

  lemma QuietFence(s: State, ev: Event)
    requires FenceNext(s, ev).Some?
    ensures QuietStep(s, FenceNext(s, ev).value)
  {
    hide Mult, Lookup, LookupAll;
    var r := FenceNext(s, ev).value;
    if |r.ops| == |s.ops| && r.ops != s.ops {
      assert QuietAt(s, r, ev.k);
    }
  }

  lemma QuietSched(s: State, ev: Event)
    requires SchedNext(s, ev).Some?
    ensures QuietStep(s, SchedNext(s, ev).value)
  {
  }

  /** All events but Find and Raw leave life flags and the freeing callers alone. */
  lemma QuietEvent(max: nat, s: State, ev: Event)
    requires Next(max, s, ev).Some? && !ev.Find? && !ev.Raw?
    ensures QuietStep(s, Next(max, s, ev).value)
  {
    hide BufNext, CmdNext, RunNext, UpdNext, SchedNext, FenceNext, QuietStep;
    match ev
    case BufCreate(_, _) => QuietBuf(s, ev);
    case BufCreated(_, _) => QuietBuf(s, ev);
    case Destroy(_, _) => QuietBuf(s, ev);
    case CmdBind(_, _) => QuietCmd(s, ev);
    case CmdFail(_) => QuietCmd(s, ev);
    case CmdAlloc(_, _) => QuietCmd(s, ev);
    case CmdUnbind(_) => QuietCmd(s, ev);
    case CmdMove(_, _) => QuietCmd(s, ev);
    case CmdDone(_, _) => QuietCmd(s, ev);
    case RunEnter(_, _) => QuietRun(max, s, ev);
    case RunDec(_) => QuietRun(max, s, ev);
    case RunError(_) => QuietRun(max, s, ev);
    case RunLock(_) => QuietRun(max, s, ev);
    case RunQueue(_) => QuietRun(max, s, ev);
    case UpdLock(_, _) => QuietUpd(s, ev);
    case UpdError(_) => QuietUpd(s, ev);
    case UpdBind(_, _) => QuietUpd(s, ev);
    case UpdSwap(_, _, _) => QuietUpd(s, ev);
    case UpdUnbind(_) => QuietUpd(s, ev);
    case UpdDone(_) => QuietUpd(s, ev);
    case Fence(_) => QuietFence(s, ev);
    case FenceReturn(_) => QuietFence(s, ev);
    case _ => QuietSched(s, ev);
  }

  lemma QuietUnlisted(max: nat, s: State, ev: Event, c: nat)
    requires Next(max, s, ev).Some? && !ev.Find? && !ev.Raw? && UnlistedAt(s, c)
    ensures UnlistedAt(Next(max, s, ev).value, c)
  {
    QuietEvent(max, s, ev);
    hide Next, Total, SameLife, UnlistedAt;
    var r := Next(max, s, ev).value;
    if r.ops == s.ops {
    } else if |r.ops| == |s.ops| + 1 {
      TotalSnoc(s.ops, r.ops[|s.ops|], RawHolder(c));
    } else {
      var k: nat :| QuietAt(s, r, k);
      TotalUpdate(s.ops, k, r.ops[k], RawHolder(c));
    }
  }

  lemma FindUnlisted(s: State, k: nat, c: nat)
    requires AllCounted(s) && Typed(s) && UnlistedAt(s, c) && BufNext(s, Find(k)).Some?
    ensures UnlistedAt(BufNext(s, Find(k)).value, c)
  {
    hide Total, OpsTyped, QueueTyped, SchedTyped, Holds, CellsTyped;
    var r := BufNext(s, Find(k)).value;
    TotalUpdate(s.ops, k, r.ops[k], RawHolder(c));
    var b := Lookup(s.heap, s.ops[k].ctx, s.ops[k].id);
    if b.Some? && !s.heap[b.value].locked {
      UnlockedFree(s, b.value);
    }
  }

  lemma RawUnlisted(s: State, k: nat, c: nat)
    requires Typed(s) && AllUnlisted(s) && BufNext(s, Raw(k)).Some?
    ensures UnlistedAt(BufNext(s, Raw(k)).value, c)
  {
    RawIsFree(s, k);
    assert UnlistedAt(s, c);
    var r := BufNext(s, Raw(k)).value;
    TotalUpdate(s.ops, k, Done, RawHolder(c));
    hide Total, Typed, AllUnlisted, Mult;
  }

  lemma StepUnlisted(max: nat, s: State, ev: Event)
    requires Inv(s) && Next(max, s, ev).Some?
    ensures AllUnlisted(Next(max, s, ev).value)
  {
    hide Typed, AllCounted, BufNext, CmdNext, RunNext, UpdNext, SchedNext, FenceNext, UnlistedAt;
    var r := Next(max, s, ev).value;
    forall c: nat ensures UnlistedAt(r, c) {
      assert UnlistedAt(s, c);
      if ev.Find? {
        FindUnlisted(s, ev.k, c);
      } else if ev.Raw? {
        RawUnlisted(s, ev.k, c);
      } else {
        QuietUnlisted(max, s, ev, c);
      }
    }
  }

  /** The reference invariant holds after every step. */
  lemma StepInv(max: nat, s: State, ev: Event)
    requires Inv(s) && Next(max, s, ev).Some?
    ensures Inv(Next(max, s, ev).value)
  {
    StepTyped(max, s, ev);
    StepUnlisted(max, s, ev);
    hide Typed, AllUnlisted, AllCounted, Next;
    StepCounted(max, s, ev);
  }

  lemma InitInv(contexts: nat)
    ensures Inv(Init(contexts))
  {
  }

  /** Reference safety over all runs. */
  lemma {:induction false} RunInv(max: nat, contexts: nat, evs: seq<Event>)
    requires Run(max, Init(contexts), evs).Some?
    ensures Inv(Run(max, Init(contexts), evs).value)
    decreases |evs|
  {
    hide Next, Inv;
    if evs == [] {
      InitInv(contexts);
    } else {
      RunInv(max, contexts, evs[..|evs| - 1]);
      StepInv(max, Run(max, Init(contexts), evs[..|evs| - 1]).value, evs[|evs| - 1]);
    }
  }
}
