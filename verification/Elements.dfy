/** What compiled code computes, element by element, in terms of the descriptors alone. */
module Elements {
  // The partial sums of a product, the bias bits and the special operation are written out here
  // and not taken from the model of the code.

  import opened Isa
  import opened Wrappers
  import opened Semantics
  import opened CodeGen
  import opened Stages
  import opened Reference
  import opened Hazards
  import opened Soundness
  import opened Correctness
  import opened EndToEnd
  import opened Fitting
  import opened Matrices

  // ---- Product sums ----

  /** p lists the sums acc, acc + x0 * y0, (acc + x0 * y0) + x1 * y1, and so on. */
  ghost predicate PartialSums<T>(A: Arith<T>, p: seq<T>, acc: T, xs: seq<T>, ys: seq<T>) {
    && |xs| == |ys| && |p| == |xs| + 1 && p[0] == acc
    && forall i :: 0 <= i < |xs| ==> p[i + 1] == A.add(p[i], A.mul(xs[i], ys[i]))
  }

  /** The product sum is the last partial sum. */
  lemma {:induction false} DotIsLastSum<T>(A: Arith<T>, mem: Memory<T>, acc: T, p: Ptr, q: Ptr, n: nat, sums: seq<T>)
    requires p.At? && p.buf in mem && p.idx + n <= |mem[p.buf]| && q.At? && q.buf in mem && q.idx + n <= |mem[q.buf]|
    requires PartialSums(A, sums, acc, mem[p.buf][p.idx..p.idx + n], mem[q.buf][q.idx..q.idx + n])
    ensures Dot(A, mem, acc, p, q, n) == sums[n]
    decreases n
  {
    if n > 0 {
      var xs, ys := mem[p.buf][p.idx..p.idx + n], mem[q.buf][q.idx..q.idx + n];
      assert xs[..n - 1] == mem[p.buf][p.idx..p.idx + (n - 1)] && ys[..n - 1] == mem[q.buf][q.idx..q.idx + (n - 1)];
      assert PartialSums(A, sums[..n], acc, xs[..n - 1], ys[..n - 1]);
      DotIsLastSum(A, mem, acc, p, q, n - 1, sums[..n]);
      assert sums[(n - 1) + 1] == A.add(sums[n - 1], A.mul(xs[n - 1], ys[n - 1]));
    }
  }

  lemma {:induction false} SumsExist<T>(A: Arith<T>, acc: T, xs: seq<T>, ys: seq<T>) returns (p: seq<T>)
    requires |xs| == |ys|
    ensures PartialSums(A, p, acc, xs, ys)
    decreases |xs|
  {
    if xs == [] {
      p := [acc];
    } else {
      var n := |xs| - 1;
      var q := SumsExist(A, acc, xs[..n], ys[..n]);
      p := q + [A.add(q[n], A.mul(xs[n], ys[n]))];
    }
  }

  // ---- Results ----

  /** z is x after a stage's special operation; the exponent of leaky ReLU is a signed 7-bit number. */
  ghost predicate Activated<T>(A: Arith<T>, op: SpecialOp, x: T, z: T) {
    match op
    case NoOp => z == x
    case UnknownOp => z == x
    case ReluOp => z == A.relu(x)
    case LReluOp(ned) => exists k :: -64 <= k < 64 && (k - ned) % 128 == 0 && z == A.lrelu(k, x)
  }

  /** z is the activated sum of the bias and the products of xs and ys, added from left to right. */
  ghost predicate IsResult<T(!new)>(A: Arith<T>, op: SpecialOp, bias: nat, xs: seq<T>, ys: seq<T>, z: T) {
    exists p: seq<T> :: PartialSums(A, p, A.ofBits(bias), xs, ys) && Activated(A, op, p[|xs|], z)
  }

  /** The bias bits of result number n of descriptor i: the array element, or 0 without a bias. */
  function Bits(bias: Option<seq<Bias>>, i: nat, n: nat): nat
    requires bias.Some? ==> i < |bias.value| && n < |bias.value[i].value|
  {
    match bias
    case None => 0
    case Some(arrays) => arrays[i].value[n]
  }

  /** The signed reading of a 7-bit field: in range, and congruent modulo 128. */
  lemma SignExtendMeans(ed: int)
    ensures -64 <= SignExtend7(ed) < 64 && (SignExtend7(ed) - ed) % 128 == 0
  {
  }

  lemma ActivateMeans<T>(A: Arith<T>, op: SpecialOp, x: T)
    ensures Activated(A, op, x, Activate(A, SpecialOf(op), x))
  {
    hide SignExtend7;
    match op
    case LReluOp(ned) => SignExtendMeans(ned);
    case _ =>
  }

  lemma ValueMeans<T(!new)>(A: Arith<T>, v: VStage, mem: Memory<T>, j: Job)
    requires JobFits(mem, j)
    ensures IsResult(A, OpOf(v.stage), j.bias, mem[j.rs.buf][j.rs.index..j.rs.index + j.len],
                     mem[j.rt.buf][j.rt.index..j.rt.index + j.len], Value(A, SpecialFor(v), mem, j))
  {
    hide Activate, Activated, OpOf, SpecialOf, PartialSums, Dot;
    var xs, ys := mem[j.rs.buf][j.rs.index..j.rs.index + j.len], mem[j.rt.buf][j.rt.index..j.rt.index + j.len];
    var p := SumsExist(A, A.ofBits(j.bias), xs, ys);
    DotIsLastSum(A, mem, A.ofBits(j.bias), PtrTo(j.rs), PtrTo(j.rt), j.len, p);
    assert |p| == |xs| + 1 by { SumsLength(A, p, A.ofBits(j.bias), xs, ys); }
    ActivateMeans(A, OpOf(v.stage), p[|xs|]);
  }

  lemma SumsLength<T>(A: Arith<T>, p: seq<T>, acc: T, xs: seq<T>, ys: seq<T>)
    requires PartialSums(A, p, acc, xs, ys)
    ensures |p| == |xs| + 1
  {
  }

  // ---- Fields of jobs ----

  /** The job of a vector descriptor. */
  lemma VectorMeaning(v: VStage, i: nat)
    requires v.stage.VxV? && i < Count(v.stage)
    ensures
      var s := v.stage.vv;
      var a, b, c := s.src1[i], s.src2[i], s.dst[i];
      && (s.bias.Some? ==> 0 < |s.bias.value[i].value|) && b.length == a.length
      && VxVJob(v, i) == Job(Bits(s.bias, i, 0), Binding(a.buf, a.offset), Binding(b.buf, b.offset),
                             Binding(c.buf, c.offset), a.length)
  {
    assert VerifAt(v.stage, v.lens, i).Success?;
  }

  /** The job of row r of a matrix-vector descriptor. */
  lemma RowFields(v: VStage, i: nat, r: nat)
    requires v.stage.MxV? && i < Count(v.stage) && Guarded(v, i) && r < v.stage.mv.src1[i].rows
    ensures
      var s := v.stage.mv;
      var a, b, c := s.src1[i], s.src2[i], s.dst[i];
      && 0 <= r * a.cols && (s.bias.Some? ==> r < |s.bias.value[i].value|) && b.length == a.cols
      && MxVJob(v, i, r) == Job(Bits(s.bias, i, r), Binding(a.buf, a.offset + r * a.cols),
                                Binding(b.buf, b.offset), Binding(c.buf, c.offset + r), a.cols)
  {
    hide MxVJob, Guarded;
    RowMeaning(v, i, r);
    assert VerifAt(v.stage, v.lens, i).Success?;
  }

  /** The job of cell (r, k) of a matrix product descriptor, whose rows start at p and q. */
  lemma CellFields(v: VStage, i: nat, r: nat, k: nat, p: nat, q: nat, n: nat)
    requires v.stage.MxM? && i < Count(v.stage) && Guarded(v, i) && CellAt(v, i, r, k, p, q, n)
    ensures
      var s := v.stage.mm;
      var a, b, c := s.src1[i], s.src2[i], s.dst[i];
      && n < |DescJobs(v, i)| && (s.bias.Some? ==> n < |s.bias.value[i].value|) && b.cols == a.cols
      && DescJobs(v, i)[n] == Job(Bits(s.bias, i, n), Binding(a.buf, a.offset + p), Binding(b.buf, b.offset + q),
                                  Binding(c.buf, c.offset + n), a.cols)
  {
    hide DescJobs, Guarded, CellAt;
    CellJob(v, i, r, k, p, q, n);
    assert VerifAt(v.stage, v.lens, i).Success?;
  }

  // ---- Which results remain ----

  lemma VectorRemains(v: VStage, i: nat)
    requires v.stage.VxV? && i < Count(v.stage)
    requires forall d :: i < d < Count(v.stage) ==>
               v.stage.vv.dst[d].buf != v.stage.vv.dst[i].buf || v.stage.vv.dst[d].offset != v.stage.vv.dst[i].offset
    ensures JobNumber(v, i, 0) < |Jobs(v)| && Jobs(v)[JobNumber(v, i, 0)] == VxVJob(v, i) && Remains(Jobs(v), JobNumber(v, i, 0))
  {
    hide JobsUpTo, VxVJob;
    JobPlace(v, Count(v.stage), i, 0);
    VectorMeaning(v, i);
    forall l | JobNumber(v, i, 0) < l < |Jobs(v)|
      ensures !Hits(Jobs(v)[l], VxVJob(v, i).rd.buf, VxVJob(v, i).rd.index)
    {
      var d, m := JobOwner(v, Count(v.stage), l);
      if d < i {
        UpToGrows(v, d, i);
      }
      VectorMeaning(v, d);
    }
  }

  function Target(v: VStage, d: nat): Vec
    requires v.stage.MxV? && d < Count(v.stage)
  {
    v.stage.mv.dst[d]
  }

  /** The elements rows of a product are stored to. */
  predicate StoredTo(c: Vec, rows: nat, b: int, e: int) { c.buf == b && c.offset <= e < c.offset + rows }

  lemma RowRemains(v: VStage, i: nat, r: nat)
    requires v.stage.MxV? && i < Count(v.stage) && AllGuarded(v) && r < v.stage.mv.src1[i].rows
    requires forall d :: i < d < Count(v.stage) ==> !StoredTo(Target(v, d), v.stage.mv.src1[d].rows, Target(v, i).buf, Target(v, i).offset + r)
    ensures JobNumber(v, i, r) < |Jobs(v)| && Jobs(v)[JobNumber(v, i, r)] == MxVJob(v, i, r)
    ensures Remains(Jobs(v), JobNumber(v, i, r))
  {
    hide JobsUpTo, MxVJob, Guarded;
    JobPlace(v, Count(v.stage), i, r);
    RowFields(v, i, r);
    forall l | JobNumber(v, i, r) < l < |Jobs(v)|
      ensures !Hits(Jobs(v)[l], MxVJob(v, i, r).rd.buf, MxVJob(v, i, r).rd.index)
    {
      var d, m := JobOwner(v, Count(v.stage), l);
      if d < i {
        UpToGrows(v, d, i);
      }
      RowFields(v, d, m);
      assert d > i ==> !StoredTo(Target(v, d), v.stage.mv.src1[d].rows, Target(v, i).buf, Target(v, i).offset + r);
    }
  }

  /** A result that remains, in a stage evaluated at once. */
  lemma JobElement<T(!new)>(A: Arith<T>, mem: Memory<T>, v: VStage, l: nat)
    requires AllFit(mem, Jobs(v)) && l < |Jobs(v)| && Remains(Jobs(v), l)
    ensures
      var j := Jobs(v)[l];
      && JobFits(mem, j)
      && IsResult(A, OpOf(v.stage), j.bias, mem[j.rs.buf][j.rs.index..j.rs.index + j.len],
                  mem[j.rt.buf][j.rt.index..j.rt.index + j.len],
                  StageResult(A, SpecialFor(v), mem, Jobs(v))[j.rd.buf][j.rd.index])
  {
    hide Jobs, IsResult, SpecialFor, OpOf, Value, WriteAll;
    assert JobFits(mem, Jobs(v)[l]);
    ValueMeans(A, v, mem, Jobs(v)[l]);
    LastWriter(A, SpecialFor(v), mem, mem, Jobs(v), l);
  }

  // ---- After compiling, checking and running ----

  /** The memory a pipeline leaves when compiled under a mask, checked and run; None when that fails. */
  ghost function After<T>(A: Arith<T>, mask: nat, vs: seq<VStage>, m0: Machine<T>): Option<Memory<T>>
    requires |m0.ts| == NR_TID
  {
    var g := Generate(mask, vs);
    if !Bound(g.bindings, m0.mem) || Checked(g.program, g.bindings, m0.mem).None? then None
    else
      var r := Run(A, EXEC_MASK, g.bindings, m0, Checked(g.program, g.bindings, m0.mem).value);
      if r.None? then None else Some(r.value.mem)
  }

  lemma AfterBatches<T>(A: Arith<T>, mask: nat, vs: seq<VStage>, m0: Machine<T>)
    requires |m0.ts| == NR_TID && mask % 4 != 0 && 3 * |AllJobs(vs)| <= U32 && AllFit(m0.mem, AllJobs(vs))
    ensures After(A, mask, vs, m0) == Some(PipelineBatched(A, m0.mem, vs, UsableThreads(mask)))
  {
    hide Generate, Run, Checked, AllJobs, AllFit, PipelineBatched;
    CompiledBatches(A, mask, vs, m0);
  }

  /** Compiling stages together is compiling them apart and running one after the other, from any thread states. */
  lemma StagesInTurn<T>(A: Arith<T>, mask: nat, vs: seq<VStage>, m0: Machine<T>, ts: seq<Thread<T>>)
    requires |m0.ts| == |ts| == NR_TID && mask % 4 != 0 && vs != []
    requires 3 * |AllJobs(vs)| <= U32 && AllFit(m0.mem, AllJobs(vs))
    ensures
      var first := After(A, mask, vs[..|vs| - 1], m0);
      first.Some? && After(A, mask, vs, m0) == After(A, mask, [vs[|vs| - 1]], Machine(ts, first.value))
  {
    hide After, AllFit, Jobs, Batched;
    var k := |vs| - 1;
    FitSplit(m0.mem, AllJobs(vs[..k]), Jobs(vs[k]));
    AfterBatches(A, mask, vs, m0);
    AfterBatches(A, mask, vs[..k], m0);
    var mid := PipelineBatched(A, m0.mem, vs[..k], UsableThreads(mask));
    FitsShape(m0.mem, mid, Jobs(vs[k]));
    OneStage(vs[k]);
    assert [vs[k]][..0] == [];
    AfterBatches(A, mask, [vs[k]], Machine(ts, mid));
  }

  /** Conditions for one stage to compile, be accepted and mean what it says. */
  ghost predicate Runnable<T>(mask: nat, v: VStage, m0: Machine<T>) {
    && |m0.ts| == NR_TID && mask % 4 != 0 && 3 * |Jobs(v)| <= U32
    && AllGuarded(v) && Backed(m0.mem, v.lens) && Unfed(Jobs(v), UsableThreads(mask))
  }

  lemma AfterStage<T>(A: Arith<T>, mask: nat, v: VStage, m0: Machine<T>)
    requires Runnable(mask, v, m0)
    ensures AllFit(m0.mem, Jobs(v)) && After(A, mask, [v], m0) == Some(StageResult(A, SpecialFor(v), m0.mem, Jobs(v)))
  {
    hide After, AllFit, Jobs, Batched, StageResult, AllGuarded, Unfed, Backed;
    StageFits(m0.mem, v);
    OneStage(v);
    assert [v][..0] == [];
    AfterBatches(A, mask, [v], m0);
    BatchedIsStage(A, SpecialFor(v), m0.mem, Jobs(v), UsableThreads(mask));
  }

  /** Elements from..from + n of a buffer. */
  function Slice<T>(mem: Memory<T>, b: int, from: nat, n: nat): seq<T>
    requires b in mem && from + n <= |mem[b]|
  {
    mem[b][from..from + n]
  }

  /** Memory after a vector stage: one product of two vectors for each descriptor. */
  lemma VectorStageRuns<T(!new)>(A: Arith<T>, mask: nat, v: VStage, m0: Machine<T>, i: nat)
    requires Runnable(mask, v, m0) && v.stage.VxV? && i < Count(v.stage)
    requires forall d :: i < d < Count(v.stage) ==>
               v.stage.vv.dst[d].buf != v.stage.vv.dst[i].buf || v.stage.vv.dst[d].offset != v.stage.vv.dst[i].offset
    ensures
      var s := v.stage.vv;
      var a, b, c, r := s.src1[i], s.src2[i], s.dst[i], After(A, mask, [v], m0);
      && (s.bias.Some? ==> 0 < |s.bias.value[i].value|)
      && a.buf in m0.mem && a.offset + a.length <= |m0.mem[a.buf]| && b.buf in m0.mem && b.offset + a.length <= |m0.mem[b.buf]|
      && r.Some? && c.buf in r.value && c.offset < |r.value[c.buf]|
      && IsResult(A, s.op, Bits(s.bias, i, 0), Slice(m0.mem, a.buf, a.offset, a.length), Slice(m0.mem, b.buf, b.offset, a.length),
                  r.value[c.buf][c.offset])
  {
    hide Runnable, Remains, Jobs, StageResult, IsResult, After, VxVJob, SpecialFor;
    RunnableThreads(mask, v, m0);
    AfterStage(A, mask, v, m0);
    VectorMeaning(v, i);
    VectorRemains(v, i);
    JobElement(A, m0.mem, v, JobNumber(v, i, 0));
  }

  lemma RunnableThreads<T>(mask: nat, v: VStage, m0: Machine<T>)
    requires Runnable(mask, v, m0)
    ensures |m0.ts| == NR_TID && AllGuarded(v)
  {
  }

  /** Memory after a matrix-vector stage: row r times the vector, for each row of each descriptor. */
  lemma RowStageRuns<T(!new)>(A: Arith<T>, mask: nat, v: VStage, m0: Machine<T>, i: nat, r: nat, p: nat)
    requires Runnable(mask, v, m0) && v.stage.MxV? && i < Count(v.stage) && r < v.stage.mv.src1[i].rows && p == r * v.stage.mv.src1[i].cols
    requires forall d :: i < d < Count(v.stage) ==> !StoredTo(Target(v, d), v.stage.mv.src1[d].rows, Target(v, i).buf, Target(v, i).offset + r)
    ensures
      var s := v.stage.mv;
      var a, b, c, z := s.src1[i], s.src2[i], s.dst[i], After(A, mask, [v], m0);
      && (s.bias.Some? ==> r < |s.bias.value[i].value|)
      && a.buf in m0.mem && a.offset + p + a.cols <= |m0.mem[a.buf]| && b.buf in m0.mem && b.offset + a.cols <= |m0.mem[b.buf]|
      && z.Some? && c.buf in z.value && c.offset + r < |z.value[c.buf]|
      && IsResult(A, s.op, Bits(s.bias, i, r), Slice(m0.mem, a.buf, a.offset + p, a.cols), Slice(m0.mem, b.buf, b.offset, a.cols),
                  z.value[c.buf][c.offset + r])
  {
    hide Runnable, Remains, Jobs, StageResult, IsResult, After, MxVJob, SpecialFor, Guarded, StoredTo;
    RunnableThreads(mask, v, m0);
    AfterStage(A, mask, v, m0);
    RowFields(v, i, r);
    RowRemains(v, i, r);
    JobElement(A, m0.mem, v, JobNumber(v, i, r));
  }

  /** Memory after a matrix product stage: row r times row k of the transposed matrix, for each cell. */
  lemma CellStageRuns<T(!new)>(A: Arith<T>, mask: nat, v: VStage, m0: Machine<T>, i: nat, r: nat, k: nat, p: nat, q: nat, n: nat)
    requires Runnable(mask, v, m0) && v.stage.MxM? && i < Count(v.stage) && CellAt(v, i, r, k, p, q, n)
    requires forall d :: i < d < Count(v.stage) ==> !Covers(Result(v, d), Result(v, i).buf, Result(v, i).offset + n)
    ensures
      var s := v.stage.mm;
      var a, b, c, z := s.src1[i], s.src2[i], s.dst[i], After(A, mask, [v], m0);
      && (s.bias.Some? ==> n < |s.bias.value[i].value|)
      && a.buf in m0.mem && a.offset + p + a.cols <= |m0.mem[a.buf]| && b.buf in m0.mem && b.offset + q + a.cols <= |m0.mem[b.buf]|
      && z.Some? && c.buf in z.value && c.offset + n < |z.value[c.buf]|
      && IsResult(A, s.op, Bits(s.bias, i, n), Slice(m0.mem, a.buf, a.offset + p, a.cols), Slice(m0.mem, b.buf, b.offset + q, a.cols),
                  z.value[c.buf][c.offset + n])
  {
    hide Runnable, Jobs, StageResult, IsResult, After, SpecialFor, Guarded, Covers, CellAt, DescJobs;
    RunnableThreads(mask, v, m0);
    AfterStage(A, mask, v, m0);
    CellFields(v, i, r, k, p, q, n);
    PlaceKept(v, i, n);
    JobElement(A, m0.mem, v, JobNumber(v, i, n));
  }
}
