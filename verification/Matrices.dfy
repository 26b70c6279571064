/**
 What the stages mean in terms of rows and columns: the 32-bit index stepping of the code
 generator addresses exactly the rows, columns and cells of the descriptors.
 */
module Matrices {
  import opened Isa
  import opened Wrappers
  import opened Semantics
  import opened CodeGen
  import opened Stages
  import opened Reference
  import opened Hazards
  import opened Soundness
  import opened Fitting
  import EndToEnd
  import Correctness

  /** Without wrap-around an index is base plus row times width. */
  lemma PlainRow(base: u32, r: nat, n: nat, step: u32)
    requires r < n && base + n * step <= U32 && (step > 0 || base < U32)
    ensures 0 <= r * step && Advance(base, r, step) == base + r * step
  {
    AdvanceClosed(base, r, step);
    RowInside(r, n, step);
    var start: nat := r * step;
    if step > 0 {
      DivModUnique(base + start, U32, 0, base + start);
    } else {
      assert start == 0;
    }
  }

  lemma PlainCell(base: u32, rows: u32, cols: u32, r: nat, c: nat)
    requires r < rows && c < cols && base + rows * cols <= U32
    ensures 0 <= r * cols + c < rows * cols
    ensures Advance(RowStart(base, r, cols), c, 1) == base + r * cols + c
  {
    CellNumber(base, rows, cols, r, c);
    var size: nat := rows * cols;
    PlainRow(base, r * cols + c, size, 1);
  }

  /** Row r of a matrix-vector product. */
  lemma RowMeaning(v: VStage, i: nat, r: nat)
    requires v.stage.MxV? && i < Count(v.stage) && Guarded(v, i) && r < v.stage.mv.src1[i].rows
    ensures
      var s := v.stage.mv;
      var a, b, c := s.src1[i], s.src2[i], s.dst[i];
      && 0 <= r * a.cols && (s.bias.Some? ==> r < |s.bias.value[i].value|)
      && MxVJob(v, i, r) == Job(BiasAt(BiasValues(s.bias, i), r), Binding(a.buf, a.offset + r * a.cols),
                                Binding(b.buf, b.offset), Binding(c.buf, c.offset + r), a.cols)
  {
    var s := v.stage.mv;
    assert VerifAt(v.stage, v.lens, i).Success?;
    PlainRow(s.src1[i].offset, r, s.src1[i].rows, s.src1[i].cols);
    PlainRow(s.dst[i].offset, r, s.dst[i].length, 1);
  }

  /** Cell (r, k) of a matrix product: row r of the first factor and row k of the transposed second. */
  lemma CellMeaning(v: VStage, i: nat, r: nat, k: nat)
    requires v.stage.MxM? && i < Count(v.stage) && Guarded(v, i)
    requires r < v.stage.mm.src1[i].rows && k < v.stage.mm.src2[i].rows
    ensures
      var s := v.stage.mm;
      var a, b, c := s.src1[i], s.src2[i], s.dst[i];
      && 0 <= r * a.cols && 0 <= k * b.cols && 0 <= r * b.rows + k < a.rows * b.rows
      && (s.bias.Some? ==> r * b.rows + k < |s.bias.value[i].value|)
      && MxMJob(v, i, r, k) == Job(BiasAt(BiasValues(s.bias, i), r * b.rows + k), Binding(a.buf, a.offset + r * a.cols),
                                   Binding(b.buf, b.offset + k * b.cols), Binding(c.buf, c.offset + r * b.rows + k), a.cols)
  {
    hide Advance, RowStart;
    var s := v.stage.mm;
    assert VerifAt(v.stage, v.lens, i).Success?;
    var a, b, c := s.src1[i], s.src2[i], s.dst[i];
    PlainRow(a.offset, r, a.rows, a.cols);
    PlainRow(b.offset, k, b.rows, b.cols);
    PlainCell(c.offset, a.rows, b.rows, r, k);
    AdvanceClosed(k, r, b.rows);
    var number: nat := r * b.rows + k;
    assert number < U32;
    DivModUnique(k + r * b.rows, U32, 0, number);
  }

  lemma {:induction false} RowsCount(v: VStage, i: nat, n: nat, w: nat)
    requires v.stage.MxM? && i < Count(v.stage) && n <= v.stage.mm.src1[i].rows && w == v.stage.mm.src2[i].rows
    ensures |MxMRows(v, i, n)| == n * w
    decreases n
  {
    if n > 0 {
      RowsCount(v, i, n - 1, w);
      assert n * w == (n - 1) * w + w;
    }
  }

  /** Cell (r, k) is job number r * w + k of the descriptor. */
  lemma {:induction false} RowsIndex(v: VStage, i: nat, n: nat, w: nat, r: nat, k: nat)
    requires v.stage.MxM? && i < Count(v.stage) && n <= v.stage.mm.src1[i].rows && w == v.stage.mm.src2[i].rows
    requires r < n && k < w
    ensures 0 <= r * w + k < |MxMRows(v, i, n)| && MxMRows(v, i, n)[r * w + k] == MxMJob(v, i, r, k)
    decreases n
  {
    hide MxMJob;
    if r < n - 1 {
      RowsIndex(v, i, n - 1, w, r, k);
    } else {
      RowsCount(v, i, n - 1, w);
    }
  }

  lemma SplitIndex(rows: nat, w: nat, n: nat) returns (r: nat, k: nat)
    requires n < rows * w
    ensures r < rows && k < w && n == r * w + k
  {
    if w > 0 {
      CellOf(rows, w, n);
      r, k := n / w, n % w;
    } else {
      assert false;
    }
  }

  /** Every job of a matrix product descriptor is a cell. */
  lemma DescCell(v: VStage, i: nat, n: nat) returns (r: nat, k: nat)
    requires v.stage.MxM? && i < Count(v.stage) && n < |DescJobs(v, i)|
    ensures r < v.stage.mm.src1[i].rows && k < v.stage.mm.src2[i].rows && n == r * v.stage.mm.src2[i].rows + k
    ensures DescJobs(v, i)[n] == MxMJob(v, i, r, k)
  {
    hide MxMJob, MxMRows;
    var w: nat := v.stage.mm.src2[i].rows;
    RowsCount(v, i, v.stage.mm.src1[i].rows, w);
    r, k := SplitIndex(v.stage.mm.src1[i].rows, w, n);
    RowsIndex(v, i, v.stage.mm.src1[i].rows, w, r, k);
  }

  /** The elements of a result matrix. */
  predicate Covers(c: Mtx, b: int, e: int) { c.buf == b && c.offset <= e < c.offset + c.rows * c.cols }

  /** Job n of a descriptor writes element n of its result. */
  lemma CellPlace(v: VStage, i: nat, n: nat)
    requires v.stage.MxM? && i < Count(v.stage) && Guarded(v, i) && n < |DescJobs(v, i)|
    ensures
      var c, j := v.stage.mm.dst[i], DescJobs(v, i)[n];
      j.rd.buf == c.buf && j.rd.index == c.offset + n && Covers(c, j.rd.buf, j.rd.index)
  {
    hide MxMJob, Guarded, DescJobs;
    var r, k := DescCell(v, i, n);
    CellMeaning(v, i, r, k);
    assert VerifAt(v.stage, v.lens, i).Success?;
  }

  // ---- Jobs of several descriptors ----

  lemma {:induction false} JobPlace(v: VStage, n: nat, i: nat, m: nat)
    requires i < n <= Count(v.stage) && m < |DescJobs(v, i)|
    ensures |JobsUpTo(v, i)| + m < |JobsUpTo(v, n)| && JobsUpTo(v, n)[|JobsUpTo(v, i)| + m] == DescJobs(v, i)[m]
    decreases n
  {
    hide DescJobs;
    if i < n - 1 {
      JobPlace(v, n - 1, i, m);
    }
  }

  /** Which descriptor a job belongs to. */
  lemma {:induction false} JobOwner(v: VStage, n: nat, l: nat) returns (i: nat, m: nat)
    requires n <= Count(v.stage) && l < |JobsUpTo(v, n)|
    ensures i < n && m < |DescJobs(v, i)| && l == |JobsUpTo(v, i)| + m && JobsUpTo(v, n)[l] == DescJobs(v, i)[m]
    decreases n
  {
    hide DescJobs;
    if l < |JobsUpTo(v, n - 1)| {
      i, m := JobOwner(v, n - 1, l);
    } else {
      i, m := n - 1, l - |JobsUpTo(v, n - 1)|;
    }
  }

  lemma {:induction false} UpToGrows(v: VStage, i: nat, d: nat)
    requires i < d <= Count(v.stage)
    ensures |JobsUpTo(v, i)| + |DescJobs(v, i)| <= |JobsUpTo(v, d)|
    decreases d
  {
    hide DescJobs;
    if i < d - 1 {
      UpToGrows(v, i, d - 1);
    }
  }

  /** Number of a cell's job in its stage. */
  function JobNumber(v: VStage, i: nat, n: nat): nat
    requires i < Count(v.stage)
  {
    |JobsUpTo(v, i)| + n
  }

  /** No later job writes the place of job n of descriptor i, if no later result matrix covers it. */
  lemma PlaceKept(v: VStage, i: nat, n: nat)
    requires v.stage.MxM? && i < Count(v.stage) && AllGuarded(v) && n < |DescJobs(v, i)|
    requires forall d :: i < d < Count(v.stage) ==> !Covers(Result(v, d), Result(v, i).buf, Result(v, i).offset + n)
    ensures JobNumber(v, i, n) < |Jobs(v)| && Jobs(v)[JobNumber(v, i, n)] == DescJobs(v, i)[n]
    ensures forall l :: JobNumber(v, i, n) < l < |Jobs(v)| ==> !Hits(Jobs(v)[l], Result(v, i).buf, Result(v, i).offset + n)
  {
    hide Guarded, DescJobs, Covers, JobsUpTo;
    JobPlace(v, Count(v.stage), i, n);
    forall l | JobNumber(v, i, n) < l < |Jobs(v)|
      ensures !Hits(Jobs(v)[l], Result(v, i).buf, Result(v, i).offset + n)
    {
      var d, m := JobOwner(v, Count(v.stage), l);
      if d < i {
        UpToGrows(v, d, i);
      }
      CellPlace(v, d, m);
      assert d > i ==> !Covers(Result(v, d), Result(v, i).buf, Result(v, i).offset + n);
    }
  }

  /** Positions of a cell and of its rows: p and q into the factors, n into the result. */
  predicate CellAt(v: VStage, i: nat, r: nat, k: nat, p: nat, q: nat, n: nat)
    requires v.stage.MxM? && i < Count(v.stage)
  {
    var a, b := v.stage.mm.src1[i], v.stage.mm.src2[i];
    r < a.rows && k < b.rows && p == r * a.cols && q == k * b.cols && n == r * b.rows + k
  }

  function Result(v: VStage, i: nat): Mtx
    requires v.stage.MxM? && i < Count(v.stage)
  {
    v.stage.mm.dst[i]
  }

  predicate HasBias(v: VStage, i: nat, n: nat)
    requires v.stage.MxM? && i < Count(v.stage)
  {
    v.stage.mm.bias.Some? ==> n < |v.stage.mm.bias.value[i].value|
  }

  /** The product of two rows at the given positions, for result element n. */
  function ProductAt(v: VStage, i: nat, p: nat, q: nat, n: nat): Job
    requires v.stage.MxM? && i < Count(v.stage) && HasBias(v, i, n)
  {
    var s := v.stage.mm;
    Job(BiasAt(BiasValues(s.bias, i), n), Binding(s.src1[i].buf, s.src1[i].offset + p),
        Binding(s.src2[i].buf, s.src2[i].offset + q), Binding(s.dst[i].buf, s.dst[i].offset + n), s.src1[i].cols)
  }

  lemma CellJob(v: VStage, i: nat, r: nat, k: nat, p: nat, q: nat, n: nat)
    requires v.stage.MxM? && i < Count(v.stage) && Guarded(v, i) && CellAt(v, i, r, k, p, q, n)
    ensures n < |DescJobs(v, i)| && HasBias(v, i, n) && DescJobs(v, i)[n] == ProductAt(v, i, p, q, n)
  {
    hide MxMJob, Guarded, Advance, RowStart;
    var w: nat := v.stage.mm.src2[i].rows;
    RowsIndex(v, i, v.stage.mm.src1[i].rows, w, r, k);
    CellMeaning(v, i, r, k);
  }

  /**
   A matrix product stage of any number of descriptors leaves in cell (r, k) of the result of
   descriptor i the activated bias plus product sum of row r of its first and row k of its
   transposed second matrix, unless a later descriptor's result covers that element.
   */
  lemma ProductCell<T>(A: Arith<T>, mem: Memory<T>, v: VStage, i: nat, r: nat, k: nat, p: nat, q: nat, n: nat)
    requires v.stage.MxM? && i < Count(v.stage) && AllGuarded(v) && Backed(mem, v.lens) && CellAt(v, i, r, k, p, q, n)
    requires forall d :: i < d < Count(v.stage) ==> !Covers(Result(v, d), Result(v, i).buf, Result(v, i).offset + n)
    ensures AllFit(mem, Jobs(v)) && HasBias(v, i, n) && JobFits(mem, ProductAt(v, i, p, q, n))
    ensures StageResult(A, SpecialFor(v), mem, Jobs(v))[Result(v, i).buf][Result(v, i).offset + n] ==
            Value(A, SpecialFor(v), mem, ProductAt(v, i, p, q, n))
  {
    hide Guarded, WriteAll, JobsUpTo, Backed, CellAt, Value, Hits, DescJobs, Covers, JobFits;
    StageFits(mem, v);
    CellJob(v, i, r, k, p, q, n);
    PlaceKept(v, i, n);
    var l := JobNumber(v, i, n);
    assert JobFits(mem, Jobs(v)[l]);
    LastWriter(A, SpecialFor(v), mem, mem, Jobs(v), l);
  }

  /** Compiler correctness in terms of verified descriptors alone. */
  lemma VerifiedPipelineCorrect<T>(A: Arith<T>, mask: nat, vs: seq<VStage>, m0: Machine<T>)
    requires |m0.ts| == NR_TID && mask % 4 != 0 && 3 * |AllJobs(vs)| <= U32
    requires PipelineBacked(m0.mem, vs) && PipelineGuarded(vs) && AllUnfed(vs, EndToEnd.UsableThreads(mask))
    ensures AllFit(m0.mem, AllJobs(vs))
    ensures
      var g := Generate(mask, vs);
      && Bound(g.bindings, m0.mem) && Checked(g.program, g.bindings, m0.mem).Some?
      && var r := Run(A, Correctness.EXEC_MASK, g.bindings, m0, Checked(g.program, g.bindings, m0.mem).value);
         r.Some? && r.value.mem == PipelineResult(A, m0.mem, vs)
  {
    hide Generate, Checked, Run, AllFit, AllJobs;
    StagesFit(m0.mem, vs);
    EndToEnd.CompilerCorrect(A, mask, vs, m0);
  }
}
