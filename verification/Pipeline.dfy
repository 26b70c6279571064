/**
 The pipeline object's work: verify the stages, generate their code, or list fresh bindings
 for a program generated earlier.  Indexes are advanced by 32-bit additions in the loops.
 */
module Pipeline {
  import opened Isa
  import opened Wrappers
  import opened Semantics
  import opened CodeGen
  import opened Stages

  method VerifyVxV(s: StageVxV, lens: Lengths) returns (res: VxResult)
    requires WfStage(VxV(s), lens)
    ensures res == Verify(VxV(s), lens)
  {
    res := Success;
    var i := 0;
    while i < |s.src1|
      invariant 0 <= i <= |s.src1| && res.Success?
      invariant VerifFrom(VxV(s), lens, 0) == VerifFrom(VxV(s), lens, i)
    {
      res := VerifVec(s.src1[i], lens);
      if !res.Success? { return; }
      res := VerifVec(s.src2[i], lens);
      if !res.Success? { return; }
      res := VerifVec(s.dst[i], lens);
      if !res.Success? { return; }
      if s.src1[i].length != s.src2[i].length { return ErrInvalid; }
      if s.bias.Some? {
        if s.bias.value[i].cols != 1 || s.bias.value[i].rows != 1 { return ErrInvalid; }
      }
      i := i + 1;
    }
  }

  method VerifyMxV(s: StageMxV, lens: Lengths) returns (res: VxResult)
    requires WfStage(MxV(s), lens)
    ensures res == Verify(MxV(s), lens)
  {
    res := Success;
    var i := 0;
    while i < |s.src1|
      invariant 0 <= i <= |s.src1| && res.Success?
      invariant VerifFrom(MxV(s), lens, 0) == VerifFrom(MxV(s), lens, i)
    {
      res := VerifMtx(s.src1[i], lens);
      if !res.Success? { return; }
      res := VerifVec(s.src2[i], lens);
      if !res.Success? { return; }
      res := VerifVec(s.dst[i], lens);
      if !res.Success? { return; }
      if s.src1[i].cols != s.src2[i].length { return ErrInvalid; }
      if s.dst[i].length < s.src1[i].rows { return ErrInvalid; }
      if s.bias.Some? {
        if s.bias.value[i].cols != 1 || s.bias.value[i].rows != s.src1[i].rows { return ErrInvalid; }
      }
      i := i + 1;
    }
  }

  method VerifyMxM(s: StageMxM, lens: Lengths) returns (res: VxResult)
    requires WfStage(MxM(s), lens)
    ensures res == Verify(MxM(s), lens)
  {
    res := Success;
    var i := 0;
    while i < |s.src1|
      invariant 0 <= i <= |s.src1| && res.Success?
      invariant VerifFrom(MxM(s), lens, 0) == VerifFrom(MxM(s), lens, i)
    {
      res := VerifMtx(s.src1[i], lens);
      if !res.Success? { return; }
      res := VerifMtx(s.src2[i], lens);
      if !res.Success? { return; }
      res := VerifMtx(s.dst[i], lens);
      if !res.Success? { return; }
      if s.src1[i].cols != s.src2[i].cols { return ErrInvalid; }
      if s.dst[i].rows != s.src1[i].rows || s.dst[i].cols != s.src2[i].rows { return ErrInvalid; }
      if s.bias.Some? {
        if s.bias.value[i].rows != s.src1[i].rows || s.bias.value[i].cols != s.src2[i].rows { return ErrInvalid; }
      }
      i := i + 1;
    }
  }

  method VerifyStage(s: Stage, lens: Lengths) returns (res: VxResult)
    requires WfStage(s, lens)
    ensures res == Verify(s, lens)
  {
    match s
    case VxV(v) => res := VerifyVxV(v, lens);
    case MxV(v) => res := VerifyMxV(v, lens);
    case MxM(v) => res := VerifyMxM(v, lens);
    case OtherStage => res := ErrInvalid;
  }

  /** Load one more job of the running stage. */
  method PlaceNext(cg: CodeGenerator, j: Job, sp: Special, ghost g0: Gen, ghost js: seq<Job>)
    requires cg.Valid() && Wf(g0) && WfJob(j) && AllWf(js)
    requires cg.State() == PlaceAll(g0, js, sp)
    modifies cg
    ensures cg.Valid() && cg.State() == PlaceAll(g0, js + [j], sp)
  {
    assert (js + [j])[..|js + [j]| - 1] == js;
    cg.PlaceJob(j, sp);
  }

  /** The rows of one matrix against one vector: the first operand moves by a row, the result by one. */
  method CompileRows(cg: CodeGenerator, rs0: Binding, cols: u32, rt: Binding, rd0: Binding, rows: u32,
                     bias: Option<seq<u32>>, sp: Special, ghost g0: Gen, ghost before: seq<Job>, ghost jobs: seq<Job>)
    requires cg.Valid() && Wf(g0) && AllWf(before) && AllWf(jobs)
    requires cg.State() == PlaceAll(g0, before, sp)
    requires |jobs| == rows && (bias.Some? ==> |bias.value| >= rows) && rs0.index < U32 && rd0.index < U32
    requires forall r :: 0 <= r < rows ==>
      jobs[r] == Job(BiasAt(bias, r), rs0.(index := Advance(rs0.index, r, cols)), rt,
                     rd0.(index := Advance(rd0.index, r, 1)), cols)
    modifies cg
    ensures cg.Valid() && cg.State() == PlaceAll(g0, before + jobs, sp)
  {
    hide PlaceAll;
    var rs: u32, rd: u32 := rs0.index, rd0.index;
    assert before + jobs[..0] == before;
    var r := 0;
    while r < rows
      invariant 0 <= r <= rows && cg.Valid()
      invariant rs == Advance(rs0.index, r, cols) && rd == Advance(rd0.index, r, 1)
      invariant cg.State() == PlaceAll(g0, before + jobs[..r], sp)
    {
      var j := Job(BiasAt(bias, r), rs0.(index := rs), rt, rd0.(index := rd), cols);
      TakeNext(before, jobs, r);
      PlaceNext(cg, j, sp, g0, before + jobs[..r]);
      rs := Add32(rs, cols);
      rd := Add32(rd, 1);
      r := r + 1;
    }
    assert jobs[..r] == jobs;
  }

  lemma TakeNext(before: seq<Job>, jobs: seq<Job>, k: nat)
    requires k < |jobs|
    ensures before + jobs[..k + 1] == (before + jobs[..k]) + [jobs[k]]
  {
  }

  lemma RowsAre(v: VStage, i: nat)
    requires v.stage.MxV? && i < Count(v.stage)
    ensures
      var s := v.stage.mv;
      var bias, rows, cols := BiasValues(s.bias, i), s.src1[i].rows, s.src1[i].cols;
      && (bias.Some? ==> |bias.value| >= rows)
      && |MxVRows(v, i)| == rows
      && forall r :: 0 <= r < rows ==>
        MxVRows(v, i)[r] ==
          Job(BiasAt(bias, r), Binding(s.src1[i].buf, Advance(s.src1[i].offset, r, cols)),
              Binding(s.src2[i].buf, s.src2[i].offset),
              Binding(s.dst[i].buf, Advance(s.dst[i].offset, r, 1)), cols)
  {
    assert VerifAt(v.stage, v.lens, i).Success?;
  }

  /** One row of a matrix product: the second operand's rows in turn against a fixed first operand. */
  method CompileCells(cg: CodeGenerator, rs: Binding, rt0: Binding, cols: u32, rd0: Binding, rl: nat, n: u32,
                      bias: Option<seq<u32>>, sp: Special, ghost g0: Gen, ghost before: seq<Job>, ghost jobs: seq<Job>)
    returns (rd: u32)
    requires cg.Valid() && Wf(g0) && AllWf(before) && AllWf(jobs)
    requires cg.State() == PlaceAll(g0, before, sp)
    requires |jobs| == n && rt0.index < U32 && rd0.index < U32
    requires bias.Some? ==> forall rr: nat :: rr < n ==> Advance(rr, rl, n) < |bias.value|
    requires forall rr: nat :: rr < n ==>
      jobs[rr] == Job(BiasAt(bias, Advance(rr, rl, n)), rs, rt0.(index := Advance(rt0.index, rr, cols)),
                      rd0.(index := Advance(rd0.index, rr, 1)), cols)
    modifies cg
    ensures cg.Valid() && cg.State() == PlaceAll(g0, before + jobs, sp)
    ensures rd == Advance(rd0.index, n, 1)
  {
    hide PlaceAll;
    var rt2: u32 := rt0.index;
    rd := rd0.index;
    assert before + jobs[..0] == before;
    var rr: nat := 0;
    while rr < n
      invariant 0 <= rr <= n && cg.Valid()
      invariant rt2 == Advance(rt0.index, rr, cols) && rd == Advance(rd0.index, rr, 1)
      invariant cg.State() == PlaceAll(g0, before + jobs[..rr], sp)
    {
      // The bias number rl * n + rr, computed in 32 bits.
      var j := Job(BiasAt(bias, Advance(rr, rl, n)), rs, rt0.(index := rt2), rd0.(index := rd), cols);
      TakeNext(before, jobs, rr);
      PlaceNext(cg, j, sp, g0, before + jobs[..rr]);
      rt2 := Add32(rt2, cols);
      rd := Add32(rd, 1);
      rr := rr + 1;
    }
    assert jobs[..rr] == jobs;
  }

  lemma CellsAre(v: VStage, i: nat, rl: nat)
    requires v.stage.MxM? && i < Count(v.stage) && rl < v.stage.mm.src1[i].rows
    ensures
      var s := v.stage.mm;
      var bias, n, cols := BiasValues(s.bias, i), s.src2[i].rows, s.src1[i].cols;
      && (bias.Some? ==> forall rr: nat :: rr < n ==> Advance(rr, rl, n) < |bias.value|)
      && |MxMCells(v, i, rl)| == n
      && forall rr: nat :: rr < n ==>
        MxMCells(v, i, rl)[rr] ==
          Job(BiasAt(bias, Advance(rr, rl, n)), Binding(s.src1[i].buf, Advance(s.src1[i].offset, rl, cols)),
              Binding(s.src2[i].buf, Advance(s.src2[i].offset, rr, cols)),
              Binding(s.dst[i].buf, Advance(RowStart(s.dst[i].offset, rl, n), rr, 1)), cols)
  {
    var s := v.stage.mm;
    assert VerifAt(v.stage, v.lens, i).Success?;
    forall rr: nat | rr < s.src2[i].rows
      ensures BiasValues(s.bias, i).Some? ==> Advance(rr, rl, s.src2[i].rows) < |s.bias.value[i].value|
    {
      CellAdvance(s.src1[i].rows, s.src2[i].rows, rl, rr);
    }
  }

  /** One descriptor of a matrix product, row by row. */
  method CompileProduct(cg: CodeGenerator, v: VStage, i: nat, ghost g0: Gen, ghost before: seq<Job>)
    requires cg.Valid() && v.stage.MxM? && i < Count(v.stage) && Wf(g0) && AllWf(before)
    requires cg.State() == PlaceAll(g0, before, SpecialOf(OpOf(v.stage)))
    modifies cg
    ensures cg.Valid() && cg.State() == PlaceAll(g0, before + DescJobs(v, i), SpecialOf(OpOf(v.stage)))
  {
    hide PlaceAll, MxMCells;
    var s := v.stage.mm;
    var rs: u32, rd: u32 := s.src1[i].offset, s.dst[i].offset;
    assert before + MxMRows(v, i, 0) == before;
    var rl := 0;
    while rl < s.src1[i].rows
      invariant 0 <= rl <= s.src1[i].rows && cg.Valid()
      invariant rs == Advance(s.src1[i].offset, rl, s.src1[i].cols)
      invariant rd == RowStart(s.dst[i].offset, rl, s.src2[i].rows)
      invariant cg.State() == PlaceAll(g0, before + MxMRows(v, i, rl), SpecialOf(s.op))
    {
      Assoc(before, MxMRows(v, i, rl), MxMCells(v, i, rl));
      CellsAre(v, i, rl);
      rd := CompileCells(cg, Binding(s.src1[i].buf, rs), Binding(s.src2[i].buf, s.src2[i].offset), s.src1[i].cols,
                         Binding(s.dst[i].buf, rd), rl, s.src2[i].rows, BiasValues(s.bias, i), SpecialOf(s.op),
                         g0, before + MxMRows(v, i, rl), MxMCells(v, i, rl));
      rs := Add32(rs, s.src1[i].cols);
      rl := rl + 1;
    }
  }

  /** The jobs of one descriptor. */
  method CompileDescriptor(cg: CodeGenerator, v: VStage, i: nat, ghost g0: Gen, ghost before: seq<Job>)
    requires cg.Valid() && i < Count(v.stage) && Wf(g0) && AllWf(before)
    requires cg.State() == PlaceAll(g0, before, SpecialOf(OpOf(v.stage)))
    modifies cg
    ensures cg.Valid() && cg.State() == PlaceAll(g0, before + DescJobs(v, i), SpecialOf(OpOf(v.stage)))
  {
    hide PlaceAll;
    match v.stage
    case VxV(_) => PlaceNext(cg, VxVJob(v, i), SpecialOf(OpOf(v.stage)), g0, before);
    case MxV(s) =>
      RowsAre(v, i);
      CompileRows(cg, Binding(s.src1[i].buf, s.src1[i].offset), s.src1[i].cols,
                  Binding(s.src2[i].buf, s.src2[i].offset), Binding(s.dst[i].buf, s.dst[i].offset), s.src1[i].rows,
                  BiasValues(s.bias, i), SpecialOf(s.op), g0, before, MxVRows(v, i));
    case MxM(_) => CompileProduct(cg, v, i, g0, before);
  }

  /** Code of one stage: its descriptors in order, then the last batch. */
  method CompileStage(cg: CodeGenerator, v: VStage)
    requires cg.Valid()
    modifies cg
    ensures cg.Valid() && cg.State() == EmitStage(old(cg.State()), Jobs(v), SpecialOf(OpOf(v.stage)))
  {
    hide Place, FinishBatch, DescJobs;
    ghost var g0 := cg.State();
    var i := 0;
    while i < Count(v.stage)
      invariant 0 <= i <= Count(v.stage) && cg.Valid()
      invariant cg.State() == PlaceAll(g0, JobsUpTo(v, i), SpecialOf(OpOf(v.stage)))
    {
      CompileDescriptor(cg, v, i, g0, JobsUpTo(v, i));
      i := i + 1;
    }
    cg.Finish(SpecialOf(OpOf(v.stage)));
  }

  // ---- Re-binding ----

  lemma PushJob(bs: seq<Binding>, js: seq<Job>, j: Job)
    ensures bs + BindingsOf(js + [j]) == bs + BindingsOf(js) + [j.rs, j.rt, j.rd]
  {
    BindingsOfAppend(js, [j]);
    assert [j][..0] == [] && BindingsOf([j]) == [] + [j.rs, j.rt, j.rd];
    Assoc(bs, BindingsOf(js), [j.rs, j.rt, j.rd]);
  }

  /** Bindings of matrix rows against a vector. */
  method UpdateRows(rs0: Binding, cols: u32, rt: Binding, rd0: Binding, rows: u32, bs0: seq<Binding>,
                    ghost jobs: seq<Job>)
    returns (bs: seq<Binding>)
    requires |jobs| == rows && rs0.index < U32 && rd0.index < U32
    requires forall r :: 0 <= r < rows ==>
      && jobs[r].rs == rs0.(index := Advance(rs0.index, r, cols)) && jobs[r].rt == rt
      && jobs[r].rd == rd0.(index := Advance(rd0.index, r, 1))
    ensures bs == bs0 + BindingsOf(jobs)
  {
    hide BindingsOf;
    bs := bs0;
    var rs: u32, rd: u32 := rs0.index, rd0.index;
    var r := 0;
    while r < rows
      invariant 0 <= r <= rows
      invariant rs == Advance(rs0.index, r, cols) && rd == Advance(rd0.index, r, 1)
      invariant bs == bs0 + BindingsOf(jobs[..r])
    {
      PushJob(bs0, jobs[..r], jobs[r]);
      assert jobs[..r + 1] == jobs[..r] + [jobs[r]];
      bs := bs + [rs0.(index := rs), rt, rd0.(index := rd)];
      rs := Add32(rs, cols);
      rd := Add32(rd, 1);
      r := r + 1;
    }
    assert jobs[..r] == jobs;
  }

  /** Bindings of one row of a matrix product. */
  method UpdateCells(rs: Binding, rt0: Binding, cols: u32, rd0: Binding, n: u32, bs0: seq<Binding>,
                     ghost jobs: seq<Job>)
    returns (bs: seq<Binding>, rd: u32)
    requires |jobs| == n && rt0.index < U32 && rd0.index < U32
    requires forall rr :: 0 <= rr < n ==>
      && jobs[rr].rs == rs && jobs[rr].rt == rt0.(index := Advance(rt0.index, rr, cols))
      && jobs[rr].rd == rd0.(index := Advance(rd0.index, rr, 1))
    ensures bs == bs0 + BindingsOf(jobs) && rd == Advance(rd0.index, n, 1)
  {
    hide BindingsOf;
    bs := bs0;
    var rt2: u32 := rt0.index;
    rd := rd0.index;
    var rr := 0;
    while rr < n
      invariant 0 <= rr <= n
      invariant rt2 == Advance(rt0.index, rr, cols) && rd == Advance(rd0.index, rr, 1)
      invariant bs == bs0 + BindingsOf(jobs[..rr])
    {
      PushJob(bs0, jobs[..rr], jobs[rr]);
      assert jobs[..rr + 1] == jobs[..rr] + [jobs[rr]];
      bs := bs + [rs, rt0.(index := rt2), rd0.(index := rd)];
      rt2 := Add32(rt2, cols);
      rd := Add32(rd, 1);
      rr := rr + 1;
    }
    assert jobs[..rr] == jobs;
  }

  method UpdateProduct(v: VStage, i: nat, bs0: seq<Binding>) returns (bs: seq<Binding>)
    requires v.stage.MxM? && i < Count(v.stage)
    ensures bs == bs0 + BindingsOf(DescJobs(v, i))
  {
    hide BindingsOf, MxMCells;
    var s := v.stage.mm;
    bs := bs0;
    var rs: u32, rd: u32 := s.src1[i].offset, s.dst[i].offset;
    assert MxMRows(v, i, 0) == [][..0];
    var rl := 0;
    while rl < s.src1[i].rows
      invariant 0 <= rl <= s.src1[i].rows
      invariant rs == Advance(s.src1[i].offset, rl, s.src1[i].cols)
      invariant rd == RowStart(s.dst[i].offset, rl, s.src2[i].rows)
      invariant bs == bs0 + BindingsOf(MxMRows(v, i, rl))
    {
      BindingsOfAppend(MxMRows(v, i, rl), MxMCells(v, i, rl));
      Assoc(bs0, BindingsOf(MxMRows(v, i, rl)), BindingsOf(MxMCells(v, i, rl)));
      CellsAre(v, i, rl);
      bs, rd := UpdateCells(Binding(s.src1[i].buf, rs), Binding(s.src2[i].buf, s.src2[i].offset), s.src1[i].cols,
                            Binding(s.dst[i].buf, rd), s.src2[i].rows, bs, MxMCells(v, i, rl));
      rs := Add32(rs, s.src1[i].cols);
      rl := rl + 1;
    }
  }

  method UpdateDescriptor(v: VStage, i: nat, bs0: seq<Binding>) returns (bs: seq<Binding>)
    requires i < Count(v.stage)
    ensures bs == bs0 + BindingsOf(DescJobs(v, i))
  {
    match v.stage
    case VxV(s) =>
      PushJob(bs0, [], VxVJob(v, i));
      assert [] + [VxVJob(v, i)] == DescJobs(v, i);
      bs := bs0 + [Binding(s.src1[i].buf, s.src1[i].offset), Binding(s.src2[i].buf, s.src2[i].offset),
                   Binding(s.dst[i].buf, s.dst[i].offset)];
    case MxV(s) =>
      RowsAre(v, i);
      bs := UpdateRows(Binding(s.src1[i].buf, s.src1[i].offset), s.src1[i].cols,
                       Binding(s.src2[i].buf, s.src2[i].offset), Binding(s.dst[i].buf, s.dst[i].offset),
                       s.src1[i].rows, bs0, MxVRows(v, i));
    case MxM(_) => bs := UpdateProduct(v, i, bs0);
  }

  /** The bindings of a stage, listed without generating code. */
  method UpdateStage(v: VStage, bs0: seq<Binding>) returns (bs: seq<Binding>)
    ensures bs == bs0 + BindingsOf(Jobs(v))
  {
    hide BindingsOf, DescJobs;
    bs := bs0;
    assert JobsUpTo(v, 0) == [][..0];
    var i := 0;
    while i < Count(v.stage)
      invariant 0 <= i <= Count(v.stage) && bs == bs0 + BindingsOf(JobsUpTo(v, i))
    {
      BindingsOfAppend(JobsUpTo(v, i), DescJobs(v, i));
      Assoc(bs0, BindingsOf(JobsUpTo(v, i)), BindingsOf(DescJobs(v, i)));
      bs := UpdateDescriptor(v, i, bs);
      i := i + 1;
    }
  }

  // ---- The two entry points ----

  /** Verify every stage; the first failure is returned. */
  method VerifyAll(ss: seq<Stage>, lens: Lengths) returns (res: VxResult)
    requires forall i :: 0 <= i < |ss| ==> WfStage(ss[i], lens)
    ensures res.Success? <==> AllVerified(ss, lens)
    ensures !res.Success? ==> FirstFailure(ss, lens, res)
  {
    res := Success;
    var i := 0;
    while i < |ss|
      invariant 0 <= i <= |ss| && AllVerified(ss[..i], lens) && res.Success?
    {
      res := VerifyStage(ss[i], lens);
      VerifyMeans(ss[i], lens);
      if !res.Success? {
        return;
      }
      assert ss[..i + 1] == ss[..i] + [ss[i]];
      i := i + 1;
    }
    assert ss[..i] == ss;
  }

  /** Verify, then generate the program and its bindings. */
  method Init(ss: seq<Stage>, lens: Lengths, vpuMask: nat)
    returns (res: VxResult, program: seq<Word>, bindings: seq<Binding>)
    requires forall i :: 0 <= i < |ss| ==> WfStage(ss[i], lens)
    ensures res.Success? <==> AllVerified(ss, lens)
    ensures !res.Success? ==> FirstFailure(ss, lens, res)
    ensures res.Success? ==> var g := Generate(vpuMask, Requests(ss, lens));
                             program == g.program && bindings == g.bindings
  {
    hide EmitStage, Jobs, Prepare, ThreadsOf;
    program, bindings := [], [];
    res := VerifyAll(ss, lens);
    if !res.Success? {
      return;
    }
    var vs := Requests(ss, lens);
    var cg := new CodeGenerator(vpuMask);
    cg.PrepareThreads();
    ghost var g0 := cg.State();
    var i := 0;
    while i < |vs|
      invariant 0 <= i <= |vs| && cg.Valid() && fresh(cg)
      invariant cg.State() == EmitAll(g0, vs[..i])
    {
      assert vs[..i + 1][..|vs[..i + 1]| - 1] == vs[..i];
      CompileStage(cg, vs[i]);
      i := i + 1;
    }
    assert vs[..i] == vs;
    program, bindings := cg.program, cg.bindings;
  }

  /** Verify, then list the bindings for a program generated earlier. */
  method Update(ss: seq<Stage>, lens: Lengths) returns (res: VxResult, bindings: seq<Binding>)
    requires forall i :: 0 <= i < |ss| ==> WfStage(ss[i], lens)
    ensures res.Success? <==> AllVerified(ss, lens)
    ensures !res.Success? ==> FirstFailure(ss, lens, res)
    ensures res.Success? ==> bindings == BindingsOf(AllJobs(Requests(ss, lens)))
  {
    bindings := [];
    res := VerifyAll(ss, lens);
    if !res.Success? {
      return;
    }
    var vs := Requests(ss, lens);
    var i := 0;
    while i < |vs|
      invariant 0 <= i <= |vs| && bindings == BindingsOf(AllJobs(vs[..i]))
    {
      assert vs[..i + 1][..|vs[..i + 1]| - 1] == vs[..i];
      BindingsOfAppend(AllJobs(vs[..i]), Jobs(vs[i]));
      bindings := UpdateStage(vs[i], bindings);
      i := i + 1;
    }
    assert vs[..i] == vs;
  }
}
