/**
 A pipeline object and its command buffer: creating it verifies, compiles and creates, and
 updating it verifies and re-binds.  Running the command buffer of a pipeline computes what
 its present descriptors mean.
 */
module UserPipeline {
  import opened Isa
  import opened Wrappers
  import opened Semantics
  import opened CodeGen
  import opened Stages
  import opened Reference
  import opened Hazards
  import opened Backend
  import BI = Bindings
  import CO = Correctness
  import EE = EndToEnd
  import F = Fitting
  import P = Pipeline
  import R = Recompile
  import RB = Rebinding
  import KP = KernelProg
  import S = Soundness
  import C = Checker

  /** How the library reports an error number of the driver. */
  function ErrnoToVx(err: int): (res: VxResult)
    ensures res.Success? <==> err == 0
  {
    if err == 0 then Success
    else if err == EPERM then ErrNoPermission
    else if err == ENOMEM then ErrNoMemory
    else if err == ENOENT || err == EINVAL then ErrInvalid
    else if err == ENOSPC then ErrNoResource
    else ErrUnknown
  }

  /** The error numbers the emulator gives: 1, 2, 12, 22 and 28. */
  lemma ErrorsReported()
    ensures ErrnoToVx(1) == ErrNoPermission && ErrnoToVx(12) == ErrNoMemory && ErrnoToVx(28) == ErrNoResource
    ensures ErrnoToVx(2) == ErrInvalid && ErrnoToVx(22) == ErrInvalid && ErrnoToVx(0) == Success
  {
  }

  // ---- Jobs name buffers the stages were verified against ----

  predicate Named(j: Job, lens: Lengths) { j.rs.buf in lens && j.rt.buf in lens && j.rd.buf in lens }
  predicate AllNamed(js: seq<Job>, lens: Lengths) { forall k :: 0 <= k < |js| ==> Named(js[k], lens) }

  lemma {:induction false} RowsNamed(v: VStage, i: nat, n: nat)
    requires v.stage.MxM? && i < Count(v.stage) && n <= v.stage.mm.src1[i].rows
    ensures AllNamed(MxMRows(v, i, n), v.lens)
    decreases n
  {
    if n > 0 {
      RowsNamed(v, i, n - 1);
    }
  }

  lemma DescNamed(v: VStage, i: nat)
    requires i < Count(v.stage)
    ensures AllNamed(DescJobs(v, i), v.lens)
  {
    match v.stage
    case VxV(_) =>
    case MxV(_) =>
    case MxM(s) => RowsNamed(v, i, s.src1[i].rows);
  }

  lemma {:induction false} UpToNamed(v: VStage, n: nat)
    requires n <= Count(v.stage)
    ensures AllNamed(JobsUpTo(v, n), v.lens)
    decreases n
  {
    hide DescJobs;
    if n > 0 {
      UpToNamed(v, n - 1);
      DescNamed(v, n - 1);
    }
  }

  lemma {:induction false} StagesNamed(vs: seq<VStage>, lens: Lengths)
    requires forall i :: 0 <= i < |vs| ==> vs[i].lens == lens
    ensures AllNamed(AllJobs(vs), lens)
    decreases |vs|
  {
    hide JobsUpTo;
    if vs != [] {
      StagesNamed(vs[..|vs| - 1], lens);
      UpToNamed(vs[|vs| - 1], Count(vs[|vs| - 1].stage));
    }
  }

  lemma BindingNamed<T>(bufs: Table<T>, all: seq<Job>, lens: Lengths, i: nat)
    requires F.Backed(MemOf(bufs), lens) && AllNamed(all, lens) && i < 3 * |all|
    ensures BindingsOf(all)[i].buf in bufs && bufs[BindingsOf(all)[i].buf].DataBuf?
  {
    var k := i / 3;
    assert Named(all[k], lens) && (i == 3 * k || i == 3 * k + 1 || i == 3 * k + 2);
    assert BindingsOf(all)[i].buf in lens;
  }

  /** The bindings of verified stages name data buffers of the context. */
  lemma CompiledNames<T>(bufs: Table<T>, mask: nat, ss: seq<Stage>, lens: Lengths)
    requires AllVerified(ss, lens) && F.Backed(MemOf(bufs), lens)
    ensures var bs := BindingsOf(AllJobs(Requests(ss, lens))); NamesData(bufs, bs, |bs|)
    ensures var bs := Generate(mask, Requests(ss, lens)).bindings; NamesData(bufs, bs, |bs|)
  {
    hide Generate, AllJobs, BindingsOf, F.Backed;
    var vs := Requests(ss, lens);
    var all := AllJobs(vs);
    BI.GeneratedBindings(mask, vs);
    StagesNamed(vs, lens);
    forall i | 0 <= i < 3 * |all| ensures BindingsOf(all)[i].buf in bufs && bufs[BindingsOf(all)[i].buf].DataBuf? {
      BindingNamed(bufs, all, lens, i);
    }
  }

  // ---- The entry of a compiled pipeline ----

  /** Entry id is what creating a command buffer from the compiled stages makes. */
  ghost predicate Compiled<T>(bufs: Table<T>, id: int, mask: nat, vs: seq<VStage>) {
    var g := Generate(mask, vs);
    && id in bufs && NamesData(bufs, g.bindings, |g.bindings|)
    && var r := C.Check(g.program, BindingRes(bufs, g.bindings));
       r.Some? && bufs[id] == CmdBuf(r.value.out + [C.SYNC_STOP], CheckedSlots(g.bindings, r.value), g.program)
  }

  lemma CreatedCompiled<T>(a: Table<T>, b: Table<T>, id: int, mask: nat, vs: seq<VStage>)
    requires Created(a, b, id, Generate(mask, vs).program, Generate(mask, vs).bindings)
    ensures Compiled(b, id, mask, vs)
  {
    hide Generate, C.Check;
    var bs := Generate(mask, vs).bindings;
    assert BindingRes(a, bs) == BindingRes(b, bs);
  }

  /**
   Running a compiled pipeline, from any thread states, leaves memory as its stages evaluated
   one by one, if no job whose result remains reads what an earlier batch of its stage writes.
   */
  lemma CompiledRuns<T>(A: Arith<T>, bufs: Table<T>, id: int, mask: nat, vs: seq<VStage>, ts: seq<Thread<T>>)
    requires Compiled(bufs, id, mask, vs) && |ts| == NR_TID && mask % 4 != 0 && 3 * |AllJobs(vs)| <= U32
    requires AllUnfed(vs, EE.UsableThreads(mask))
    ensures AllFit(MemOf(bufs), AllJobs(vs))
    ensures
      var r := Run(A, CO.EXEC_MASK, Backend.Bindings(bufs[id].slots), Machine(ts, MemOf(bufs)), bufs[id].prog);
      r.Some? && r.value.mem == PipelineResult(A, MemOf(bufs), vs)
  {
    hide Generate, AllJobs, C.Check, Run, AllUnfed, PipelineResult, AllFit;
    var g, m0 := Generate(mask, vs), Machine(ts, MemOf(bufs));
    BI.GeneratedBindings(mask, vs);
    SameAsBindings(bufs, g.bindings);
    CO.AcceptedIffFits(mask, vs, m0.mem);
    EE.CompilerCorrect(A, mask, vs, m0);
    var st := C.Check(g.program, BindingRes(bufs, g.bindings)).value;
    SlotBindings(g.bindings, st);
  }

  lemma SameAsBindings<T>(bufs: Table<T>, bs: seq<Binding>)
    requires NamesData(bufs, bs, |bs|) && |bs| <= U32
    ensures S.Bound(bs, MemOf(bufs)) && S.Resources(bs, MemOf(bufs)) == BindingRes(bufs, bs)
  {
  }

  lemma SlotBindings(bs: seq<Binding>, st: C.State)
    requires |st.vlens| == |st.cmdpcs| == |bs|
    ensures Backend.Bindings(CheckedSlots(bs, st)) == bs
  {
  }

  // ---- The two entry points ----

  /** Verify, compile, create the command buffer. */
  method Create<T>(ctx: EmuContext<T>, ss: seq<Stage>, lens: Lengths, mask: nat, memOk: bool) returns (res: VxResult, id: int)
    requires ctx.Valid() && F.Backed(MemOf(ctx.bufs), lens) && forall i :: 0 <= i < |ss| ==> WfStage(ss[i], lens)
    requires AllVerified(ss, lens) ==> 8 * (|Generate(mask, Requests(ss, lens)).program| + 1) < U32
    modifies ctx
    ensures ctx.Valid()
    ensures !AllVerified(ss, lens) ==> ctx.bufs == old(ctx.bufs) && !res.Success? && FirstFailure(ss, lens, res)
    ensures AllVerified(ss, lens) ==>
              var g, next := Generate(mask, Requests(ss, lens)), NextId(old(ctx.avail), old(ctx.next));
              if EntryError(old(ctx.bufs), next, memOk) != 0
              then res == ErrnoToVx(EntryError(old(ctx.bufs), next, memOk)) && ctx.bufs == old(ctx.bufs)
              else res == ErrnoToVx(ProgramError(old(ctx.bufs), next, g.program, g.bindings))
    ensures res.Success? ==>
              && AllVerified(ss, lens)
              && Created(old(ctx.bufs), ctx.bufs, id, Generate(mask, Requests(ss, lens)).program, Generate(mask, Requests(ss, lens)).bindings)
              && Compiled(ctx.bufs, id, mask, Requests(ss, lens))
  {
    hide Generate, Created, Compiled, EntryError, ProgramError, F.Backed, AllVerified, FirstFailure, ErrnoToVx;
    var program, bindings;
    id := -1;
    res, program, bindings := P.Init(ss, lens, mask);
    if !res.Success? {
      return;
    }
    ghost var was, vs := ctx.bufs, Requests(ss, lens);
    CompiledNames(was, mask, ss, lens);
    var err;
    err, id := ctx.CmdBufferCreate(program, bindings, memOk);
    res := ErrnoToVx(err);
    if err == 0 {
      CreatedCompiled(was, ctx.bufs, id, mask, vs);
    }
  }
  /** The error of re-binding entry id. */
  function ChangeError<T>(bufs: Table<T>, id: int, bs: seq<Binding>): int {
    if id !in bufs then ENOENT
    else if !bufs[id].CmdBuf? || |bufs[id].slots| != |bs| then EINVAL
    else UpdateError(bufs, bufs[id].slots, bs, 0)
  }

  /** Verify, list the new bindings, re-bind the command buffer. */
  method Change<T>(ctx: EmuContext<T>, id: int, ss: seq<Stage>, lens: Lengths) returns (res: VxResult)
    requires ctx.Valid() && F.Backed(MemOf(ctx.bufs), lens) && forall i :: 0 <= i < |ss| ==> WfStage(ss[i], lens)
    requires id in ctx.bufs ==> !ctx.bufs[id].Freed?
    modifies ctx
    ensures ctx.Valid()
    ensures !res.Success? ==> ctx.bufs == old(ctx.bufs)
    ensures !AllVerified(ss, lens) ==> !res.Success? && FirstFailure(ss, lens, res)
    ensures AllVerified(ss, lens) ==>
              var bs := BindingsOf(AllJobs(Requests(ss, lens)));
              && res == ErrnoToVx(ChangeError(old(ctx.bufs), id, bs))
              && (res.Success? ==> Updated(old(ctx.bufs), ctx.bufs, id, Rebound(old(ctx.bufs)[id].slots, bs)))
  {
    hide Updated, F.Backed, AllVerified, FirstFailure, AllJobs, BindingsOf, UpdateError, Inv;
    var bindings;
    res, bindings := P.Update(ss, lens);
    if !res.Success? {
      return;
    }
    CompiledNames(ctx.bufs, 3, ss, lens);
    var err := ctx.CmdBufferUpdate(id, bindings);
    res := ErrnoToVx(err);
  }

  /**
   Updating is compiling anew: if the old and the new stages have the same shapes, biases and
   special operations, an accepted update leaves the entry a compiled pipeline of the new
   stages has, so that CompiledRuns applies to them.
   */
  lemma ChangedCompiled<T>(mask: nat, a: seq<VStage>, b: seq<VStage>, before: Table<T>, after: Table<T>, id: int)
    requires mask % 4 != 0 && BI.AllSameShape(a, b) && Inv(before) && Inv(after) && Compiled(before, id, mask, a)
    requires |before[id].slots| == 3 * |AllJobs(b)|
    requires Updated(before, after, id, Rebound(before[id].slots, BindingsOf(AllJobs(b))))
    ensures Compiled(after, id, mask, b)
  {
    hide Generate, AllJobs, BindingsOf, C.Check, Inv, Rebound;
    BI.GeneratedBindings(mask, a);
    BI.GeneratedBindings(mask, b);
    R.UpdateIsRecompile(mask, a, b, before, after, id);
  }

  lemma BackedStages<T>(mem: Memory<T>, ss: seq<Stage>, lens: Lengths)
    requires AllVerified(ss, lens) && F.Backed(mem, lens)
    ensures F.PipelineBacked(mem, Requests(ss, lens))
  {
  }

  /**
   An update is accepted exactly when creating the new pipeline afresh is: when every
   descriptor of the new stages passes the missing guard.
   */
  lemma ChangeIffFresh<T>(mask: nat, a: seq<VStage>, ss: seq<Stage>, lens: Lengths, bufs: Table<T>, id: int)
    requires mask % 4 != 0 && Inv(bufs) && Compiled(bufs, id, mask, a) && AllVerified(ss, lens) && F.Backed(MemOf(bufs), lens)
    requires BI.AllSameShape(a, Requests(ss, lens)) && |bufs[id].slots| == 3 * |AllJobs(Requests(ss, lens))| == 3 * |AllJobs(a)|
    requires 3 * |AllJobs(a)| <= U32
    ensures
      var vs := Requests(ss, lens);
      var g := Generate(mask, vs);
      && (ChangeError(bufs, id, BindingsOf(AllJobs(vs))) == 0 <==> F.PipelineGuarded(vs))
      && forall fresh_: int :: fresh_ !in bufs ==>
           (ChangeError(bufs, id, BindingsOf(AllJobs(vs))) == 0 <==> ProgramError(bufs, fresh_, g.program, g.bindings) == 0)
  {
    hide Generate, AllJobs, BindingsOf, C.Check, F.Backed, F.PipelineGuarded, UpdateError, Origin, KP.SingleLength, Requests;
    var vs := Requests(ss, lens);
    var g, b := Generate(mask, vs), bufs[id];
    BackedStages(MemOf(bufs), ss, lens);
    BI.GeneratedBindings(mask, vs);
    BI.RecompileOnlyRebinds(mask, a, vs);
    assert CmdOk(bufs, b);
    R.CompiledUsesAll(mask, a, bufs, b);
    RB.CompiledSingleLength(mask, a);
    UpdateIffFresh(bufs, b, g.bindings);
    CompiledNames(bufs, mask, ss, lens);
    SameAsBindings(bufs, g.bindings);
    F.CompiledAccepted(mask, vs, MemOf(bufs));
    forall fresh_: int | fresh_ !in bufs
      ensures ProgramError(bufs, fresh_, g.program, g.bindings) == if F.PipelineGuarded(vs) then 0 else EINVAL
    {
      CreationMeans(bufs, fresh_, mask, ss, lens);
    }
  }

  /** Whether the driver refuses a compiled program: exactly when some descriptor misses the guard. */
  lemma CreationMeans<T>(bufs: Table<T>, id: int, mask: nat, ss: seq<Stage>, lens: Lengths)
    requires AllVerified(ss, lens) && F.Backed(MemOf(bufs), lens) && id !in bufs && mask % 4 != 0
    requires 3 * |AllJobs(Requests(ss, lens))| <= U32
    ensures
      var g := Generate(mask, Requests(ss, lens));
      ProgramError(bufs, id, g.program, g.bindings) == if F.PipelineGuarded(Requests(ss, lens)) then 0 else EINVAL
  {
    hide Generate, AllJobs, BindingsOf, C.Check, F.Backed, F.PipelineGuarded;
    var vs := Requests(ss, lens);
    var g := Generate(mask, vs);
    CompiledNames(bufs, mask, ss, lens);
    BI.GeneratedBindings(mask, vs);
    SameAsBindings(bufs, g.bindings);
    ResolveErrorMeans(bufs, g.bindings, id, 0);
    F.CompiledAccepted(mask, vs, MemOf(bufs));
  }
}
