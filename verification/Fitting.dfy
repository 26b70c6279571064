/**
 When do the jobs of verified stages fit their buffers?
 */
module Fitting {
  // The pipeline's own checks compute in 32 bits and look at the last element only, so they let
  // two families through that the program checker rejects: descriptors whose index arithmetic
  // wraps, and empty destination vectors placed right behind the end of their buffer.

  import opened Isa
  import opened Wrappers
  import opened Semantics
  import opened CodeGen
  import opened Stages
  import opened Reference
  import opened Soundness
  import Correctness

  predicate VecFits(v: Vec) { v.offset + v.length <= U32 }
  predicate MtxFits(m: Mtx) { m.offset + m.rows * m.cols <= U32 }

  /** The guard that is missing: no wrap in what is used, and a scalar result inside its buffer. */
  predicate Guarded(v: VStage, i: nat)
    requires i < Count(v.stage)
  {
    match v.stage
    case VxV(s) =>
      assert VerifAt(v.stage, v.lens, i).Success?;
      VecFits(s.src1[i]) && VecFits(s.src2[i]) && s.dst[i].offset < v.lens[s.dst[i].buf]
    case MxV(s) => s.src1[i].rows == 0 || (MtxFits(s.src1[i]) && VecFits(s.src2[i]) && VecFits(s.dst[i]))
    case MxM(s) =>
      || s.src1[i].rows == 0 || s.src2[i].rows == 0
      || (MtxFits(s.src1[i]) && MtxFits(s.src2[i]) && MtxFits(s.dst[i]))
  }

  /** The buffers have the lengths the stage was verified against. */
  ghost predicate Backed<T>(mem: Memory<T>, lens: Lengths) {
    WfLengths(lens) && forall b :: b in lens ==> b in mem && |mem[b]| == lens[b]
  }

  lemma VecRange(v: Vec, len: nat)
    requires len < 0x4000_0000 && (v.offset + v.length - 1) % U32 < len && v.length <= MAX_VEC_LEN
    ensures v.offset + v.length <= len <==> VecFits(v)
    ensures v.length > 0 ==> (v.offset < len <==> VecFits(v))
  {
    if VecFits(v) {
      if v.offset + v.length == 0 {
        DivModUnique(-1, U32, -1, U32 - 1);
      } else {
        DivModUnique(v.offset + v.length - 1, U32, 0, v.offset + v.length - 1);
      }
    }
  }

  /** A row stays inside when everything up to its end does. */
  lemma {:induction false} RowsReach(base: u32, n: nat, step: u32, width: nat, len: nat)
    requires len < 0x4000_0000 && base <= len && width >= step
    requires forall r: nat :: r < n ==> Advance(base, r, step) + width <= len
    ensures base + n * step <= len
    decreases n
  {
    if n > 0 {
      RowsReach(base, n - 1, step, width, len);
      AdvanceClosed(base, n - 1, step);
      assert Advance(base, n - 1, step) + width <= len;
      assert n * step == (n - 1) * step + step && 0 <= (n - 1) * step;
      DivModUnique(base + (n - 1) * step, U32, 0, base + (n - 1) * step);
    }
  }

  predicate RowsIn(base: u32, n: nat, step: u32, len: nat) {
    forall r: nat :: r < n ==> Advance(base, r, step) + step <= len
  }

  predicate CellsIn(base: u32, rows: nat, cols: nat, len: nat) {
    forall r: nat, c: nat :: r < rows && c < cols ==> Advance(RowStart(base, r, cols), c, 1) < len
  }

  lemma RowEnds(base: u32, n: nat, step: u32, r: nat)
    requires r < n && base + n * step < U32
    ensures Advance(base, r, step) + step <= base + n * step
  {
    AdvanceClosed(base, r, step);
    RowInside(r, n, step);
    var start: nat := r * step;
    ModIsSmaller(base + start);
  }

  lemma RowInside(r: nat, n: nat, step: nat)
    requires r < n
    ensures 0 <= r * step && r * step + step <= n * step
  {
    if step > 0 {
      CellIndex(n, step, r, step - 1);
    }
  }

  lemma RowsApart(a: nat, b: nat, cols: nat)
    ensures a >= b ==> a * cols >= b * cols
  {
    if a >= b {
      assert (a - b) * cols >= 0;
    }
  }

  /** Rows of a verified matrix are inside the buffer exactly when its index range does not wrap. */
  lemma RowsRange(base: u32, n: nat, step: u32, size: nat, len: nat)
    requires len < 0x4000_0000 && n > 0 && size == n * step && (base + size - 1) % U32 < len
    ensures RowsIn(base, n, step, len) <==> base + size <= U32
  {
    if base + size <= U32 {
      SmallRange(base + size, len);
      forall r: nat | r < n ensures Advance(base, r, step) + step <= len {
        RowEnds(base, n, step, r);
      }
    }
    if RowsIn(base, n, step, len) {
      assert Advance(base, 0, step) == base;
      RowsReach(base, n, step, step, len);
    }
  }

  lemma SmallRange(end: nat, len: nat)
    requires len < 0x4000_0000 && end <= U32 && (end - 1) % U32 < len
    ensures end <= len
  {
    if end == 0 {
      DivModUnique(-1, U32, -1, U32 - 1);
    } else {
      DivModUnique(end - 1, U32, 0, end - 1);
    }
  }

  lemma MtxRange(m: Mtx, len: nat)
    requires len < 0x4000_0000 && m.rows > 0 && (m.offset + m.rows * m.cols - 1) % U32 < len
    ensures RowsIn(m.offset, m.rows, m.cols, len) <==> MtxFits(m)
  {
    var size: nat := m.rows * m.cols;
    RowsRange(m.offset, m.rows, m.cols, size, len);
  }

  /** Cells of a verified result matrix, numbered row by row, are its elements. */
  lemma CellsAreRows(base: u32, rows: u32, cols: u32, size: nat, len: nat)
    requires cols > 0 && size == rows * cols
    ensures CellsIn(base, rows, cols, len) <==> RowsIn(base, size, 1, len)
  {
    if RowsIn(base, size, 1, len) {
      forall r: nat, c: nat | r < rows && c < cols ensures Advance(RowStart(base, r, cols), c, 1) < len {
        CellNumber(base, rows, cols, r, c);
      }
    }
    if CellsIn(base, rows, cols, len) {
      forall k: nat | k < size ensures Advance(base, k, 1) + 1 <= len {
        CellOf(rows, cols, k);
        CellNumber(base, rows, cols, k / cols, k % cols);
      }
    }
  }

  lemma CellsRange(m: Mtx, len: nat)
    requires len < 0x4000_0000 && m.rows > 0 && m.cols > 0 && (m.offset + m.rows * m.cols - 1) % U32 < len
    ensures CellsIn(m.offset, m.rows, m.cols, len) <==> MtxFits(m)
  {
    var size: nat := m.rows * m.cols;
    assert size > 0;
    CellsAreRows(m.offset, m.rows, m.cols, size, len);
    RowsRange(m.offset, size, 1, size, len);
  }

  lemma CellNumber(base: u32, rows: u32, cols: u32, r: nat, c: nat)
    requires r < rows && c < cols
    ensures 0 <= r * cols + c < rows * cols
    ensures Advance(RowStart(base, r, cols), c, 1) == Advance(base, r * cols + c, 1)
  {
    CellIndex(rows, cols, r, c);
    RowStartClosed(base, r, cols, c);
    AdvanceClosed(base, r * cols + c, 1);
  }

  lemma CellOf(rows: nat, cols: nat, k: nat)
    requires cols > 0 && k < rows * cols
    ensures k / cols < rows && k % cols < cols && k / cols * cols + k % cols == k
  {
    RowsApart(k / cols, rows, cols);
  }

  lemma VxVFits<T>(mem: Memory<T>, v: VStage, i: nat)
    requires v.stage.VxV? && i < Count(v.stage) && Backed(mem, v.lens)
    ensures AllFit(mem, DescJobs(v, i)) <==> Guarded(v, i)
  {
    var s := v.stage.vv;
    assert VerifAt(v.stage, v.lens, i).Success?;
    VecRange(s.src1[i], v.lens[s.src1[i].buf]);
    VecRange(s.src2[i], v.lens[s.src2[i].buf]);
    assert AllFit(mem, DescJobs(v, i)) <==> JobFits(mem, VxVJob(v, i)) by {
      assert DescJobs(v, i)[0] == VxVJob(v, i);
    }
  }

  lemma PlainStep(base: u32, r: nat)
    requires base + r < U32
    ensures Advance(base, r, 1) == base + r
  {
    AdvanceClosed(base, r, 1);
    DivModUnique(base + r, U32, 0, base + r);
  }

  /** The job of one row, given where the row and its result lie. */
  lemma RowJobFits<T>(mem: Memory<T>, v: VStage, i: nat, r: nat)
    requires v.stage.MxV? && i < Count(v.stage) && Backed(mem, v.lens) && r < v.stage.mv.src1[i].rows
    ensures
      var s := v.stage.mv;
      var a, b, c := s.src1[i], s.src2[i], s.dst[i];
      && a.buf in v.lens && b.buf in v.lens && c.buf in v.lens
      && (JobFits(mem, MxVJob(v, i, r)) <==>
           && Advance(a.offset, r, a.cols) + a.cols <= v.lens[a.buf] && b.offset + a.cols <= v.lens[b.buf]
           && Advance(c.offset, r, 1) < v.lens[c.buf])
  {
    hide Advance;
    assert VerifAt(v.stage, v.lens, i).Success?;
  }

  lemma MxVFits<T>(mem: Memory<T>, v: VStage, i: nat)
    requires v.stage.MxV? && i < Count(v.stage) && Backed(mem, v.lens) && v.stage.mv.src1[i].rows > 0
    ensures AllFit(mem, DescJobs(v, i)) <==> Guarded(v, i)
  {
    assert WfLengths(v.lens);
    hide Advance, JobFits, MxVJob, Backed;
    var s := v.stage.mv;
    assert VerifAt(v.stage, v.lens, i).Success?;
    var a, b, c := s.src1[i], s.src2[i], s.dst[i];
    RowJobFits(mem, v, i, 0);
    MtxRange(a, v.lens[a.buf]);
    VecRange(b, v.lens[b.buf]);
    VecRange(c, v.lens[c.buf]);
    PlainStep(c.offset, 0);
    var jobs := DescJobs(v, i);
    if AllFit(mem, jobs) {
      forall r: nat | r < a.rows ensures Advance(a.offset, r, a.cols) + a.cols <= v.lens[a.buf] {
        assert jobs[r] == MxVJob(v, i, r) && JobFits(mem, jobs[r]);
        RowJobFits(mem, v, i, r);
      }
      assert jobs[0] == MxVJob(v, i, 0) && JobFits(mem, jobs[0]);
    }
    if Guarded(v, i) {
      forall r | 0 <= r < |jobs| ensures JobFits(mem, jobs[r]) {
        assert jobs[r] == MxVJob(v, i, r);
        PlainStep(c.offset, r);
        RowJobFits(mem, v, i, r);
        assert Advance(a.offset, r, a.cols) + a.cols <= v.lens[a.buf];
      }
    }
  }

  /** Every cell of the first n rows has a fitting job. */
  ghost predicate CellJobsFit<T>(mem: Memory<T>, v: VStage, i: nat, n: nat)
    requires v.stage.MxM? && i < Count(v.stage) && n <= v.stage.mm.src1[i].rows
  {
    forall r: nat, c: nat :: r < n && c < v.stage.mm.src2[i].rows ==> JobFits(mem, MxMJob(v, i, r, c))
  }

  lemma {:induction false} RowsFit<T>(mem: Memory<T>, v: VStage, i: nat, n: nat)
    requires v.stage.MxM? && i < Count(v.stage) && n <= v.stage.mm.src1[i].rows
    ensures AllFit(mem, MxMRows(v, i, n)) <==> CellJobsFit(mem, v, i, n)
    decreases n
  {
    hide JobFits, MxMJob;
    if n > 0 {
      RowsFit(mem, v, i, n - 1);
      FitSplit(mem, MxMRows(v, i, n - 1), MxMCells(v, i, n - 1));
      var cells := MxMCells(v, i, n - 1);
      assert forall c: nat :: c < |cells| ==> cells[c] == MxMJob(v, i, n - 1, c);
      if CellJobsFit(mem, v, i, n) {
        forall c: nat | c < |cells| ensures JobFits(mem, cells[c]) {
          assert JobFits(mem, MxMJob(v, i, n - 1, c));
        }
      }
      if AllFit(mem, cells) && CellJobsFit(mem, v, i, n - 1) {
        forall r: nat, c: nat | r < n && c < v.stage.mm.src2[i].rows ensures JobFits(mem, MxMJob(v, i, r, c)) {
          if r == n - 1 {
            assert JobFits(mem, cells[c]);
          }
        }
      }
    }
  }

  lemma CellJobFits<T>(mem: Memory<T>, v: VStage, i: nat, r: nat, k: nat)
    requires v.stage.MxM? && i < Count(v.stage) && Backed(mem, v.lens)
    requires r < v.stage.mm.src1[i].rows && k < v.stage.mm.src2[i].rows
    ensures
      var s := v.stage.mm;
      var a, b, c := s.src1[i], s.src2[i], s.dst[i];
      && a.buf in v.lens && b.buf in v.lens && c.buf in v.lens
      && (JobFits(mem, MxMJob(v, i, r, k)) <==>
           && Advance(a.offset, r, a.cols) + a.cols <= v.lens[a.buf]
           && Advance(b.offset, k, b.cols) + b.cols <= v.lens[b.buf]
           && Advance(RowStart(c.offset, r, b.rows), k, 1) < v.lens[c.buf])
  {
    hide Advance, RowStart;
    assert VerifAt(v.stage, v.lens, i).Success?;
  }

  /** All cells have fitting jobs exactly when the rows of either matrix and the cells are inside. */
  lemma CellsFit<T>(mem: Memory<T>, v: VStage, i: nat)
    requires v.stage.MxM? && i < Count(v.stage) && Backed(mem, v.lens)
    requires v.stage.mm.src1[i].rows > 0 && v.stage.mm.src2[i].rows > 0
    ensures
      var s := v.stage.mm;
      var a, b, c := s.src1[i], s.src2[i], s.dst[i];
      && a.buf in v.lens && b.buf in v.lens && c.buf in v.lens
      && (CellJobsFit(mem, v, i, a.rows) <==>
           && RowsIn(a.offset, a.rows, a.cols, v.lens[a.buf]) && RowsIn(b.offset, b.rows, b.cols, v.lens[b.buf])
           && CellsIn(c.offset, a.rows, b.rows, v.lens[c.buf]))
  {
    hide Advance, RowStart, JobFits, MxMJob, Backed, VerifAt;
    var s := v.stage.mm;
    var a, b, c := s.src1[i], s.src2[i], s.dst[i];
    CellJobFits(mem, v, i, 0, 0);
    if CellJobsFit(mem, v, i, a.rows) {
      forall r: nat | r < a.rows ensures Advance(a.offset, r, a.cols) + a.cols <= v.lens[a.buf] {
        CellJobFits(mem, v, i, r, 0);
      }
      forall k: nat | k < b.rows ensures Advance(b.offset, k, b.cols) + b.cols <= v.lens[b.buf] {
        CellJobFits(mem, v, i, 0, k);
      }
      forall r: nat, k: nat | r < a.rows && k < b.rows
        ensures Advance(RowStart(c.offset, r, b.rows), k, 1) < v.lens[c.buf]
      {
        CellJobFits(mem, v, i, r, k);
      }
    }
    if RowsIn(a.offset, a.rows, a.cols, v.lens[a.buf]) && RowsIn(b.offset, b.rows, b.cols, v.lens[b.buf])
       && CellsIn(c.offset, a.rows, b.rows, v.lens[c.buf]) {
      forall r: nat, k: nat | r < a.rows && k < b.rows ensures JobFits(mem, MxMJob(v, i, r, k)) {
        CellJobFits(mem, v, i, r, k);
      }
    }
  }

  lemma MxMFits<T>(mem: Memory<T>, v: VStage, i: nat)
    requires v.stage.MxM? && i < Count(v.stage) && Backed(mem, v.lens)
    requires v.stage.mm.src1[i].rows > 0 && v.stage.mm.src2[i].rows > 0
    ensures AllFit(mem, DescJobs(v, i)) <==> Guarded(v, i)
  {
    hide RowsIn, CellsIn, AllFit, CellJobsFit;
    var s := v.stage.mm;
    assert VerifAt(v.stage, v.lens, i).Success?;
    var a, b, c := s.src1[i], s.src2[i], s.dst[i];
    MtxRange(a, v.lens[a.buf]);
    MtxRange(b, v.lens[b.buf]);
    CellsRange(c, v.lens[c.buf]);
    RowsFit(mem, v, i, a.rows);
    CellsFit(mem, v, i);
  }

  lemma DescFits<T>(mem: Memory<T>, v: VStage, i: nat)
    requires i < Count(v.stage) && Backed(mem, v.lens)
    ensures AllFit(mem, DescJobs(v, i)) <==> Guarded(v, i)
  {
    hide JobFits;
    match v.stage
    case VxV(_) => VxVFits(mem, v, i);
    case MxV(s) => if s.src1[i].rows > 0 { MxVFits(mem, v, i); }
    case MxM(s) =>
      if s.src1[i].rows > 0 && s.src2[i].rows > 0 {
        MxMFits(mem, v, i);
      } else {
        RowsFit(mem, v, i, s.src1[i].rows);
      }
  }

  lemma {:induction false} UpToFits<T>(mem: Memory<T>, v: VStage, n: nat)
    requires n <= Count(v.stage) && Backed(mem, v.lens)
    ensures AllFit(mem, JobsUpTo(v, n)) <==> forall i :: 0 <= i < n ==> Guarded(v, i)
    decreases n
  {
    hide AllFit, Guarded, DescJobs, Backed;
    if n > 0 {
      UpToFits(mem, v, n - 1);
      DescFits(mem, v, n - 1);
      FitSplit(mem, JobsUpTo(v, n - 1), DescJobs(v, n - 1));
    } else {
      NothingFits(mem);
    }
  }

  lemma NothingFits<T>(mem: Memory<T>)
    ensures AllFit(mem, [])
  {
  }

  predicate AllGuarded(v: VStage) { forall i :: 0 <= i < Count(v.stage) ==> Guarded(v, i) }

  predicate PipelineGuarded(vs: seq<VStage>) { forall k :: 0 <= k < |vs| ==> AllGuarded(vs[k]) }

  ghost predicate PipelineBacked<T>(mem: Memory<T>, vs: seq<VStage>) {
    forall k :: 0 <= k < |vs| ==> Backed(mem, vs[k].lens)
  }

  lemma {:induction false} StagesFit<T>(mem: Memory<T>, vs: seq<VStage>)
    requires PipelineBacked(mem, vs)
    ensures AllFit(mem, AllJobs(vs)) <==> PipelineGuarded(vs)
    decreases |vs|
  {
    hide AllFit, Jobs, AllGuarded, Backed;
    if vs == [] {
      NothingFits(mem);
    } else {
      var n := |vs| - 1;
      StagesFit(mem, vs[..n]);
      StageFits(mem, vs[n]);
      FitSplit(mem, AllJobs(vs[..n]), Jobs(vs[n]));
    }
  }

  lemma StageFits<T>(mem: Memory<T>, v: VStage)
    requires Backed(mem, v.lens)
    ensures AllFit(mem, Jobs(v)) <==> AllGuarded(v)
  {
    hide Guarded;
    UpToFits(mem, v, Count(v.stage));
  }

  /**
   Completeness of the checker for compiled code, exactly: the program of verified stages is
   accepted with its own bindings if and only if every descriptor passes the missing guard.
   */
  lemma CompiledAccepted<T>(mask: nat, vs: seq<VStage>, mem: Memory<T>)
    requires mask % 4 != 0 && Bound(BindingsOf(AllJobs(vs)), mem)
    requires PipelineBacked(mem, vs)
    ensures
      var g := Generate(mask, vs);
      && Bound(g.bindings, mem)
      && (Checked(g.program, g.bindings, mem).Some? <==> PipelineGuarded(vs))
  {
    hide BindingsOf, AllJobs, Generate, Checked, AllFit, PipelineGuarded, PipelineBacked;
    Correctness.AcceptedIffFits(mask, vs, mem);
    StagesFit(mem, vs);
  }

  /** An empty destination behind the end of its buffer passes verification and yields a rejected program. */
  lemma EmptyDestinationRejected<T>(mem: Memory<T>)
    requires 0 in mem && |mem[0]| == 4
    ensures
      var s := VxV(StageVxV([Vec(0, 0, 1)], [Vec(0, 1, 1)], [Vec(0, 4, 0)], None, NoOp));
      && Verified(s, map[0 := 4])
      && var g := Generate(3, [Request(s, map[0 := 4])]);
         Bound(g.bindings, mem) && Checked(g.program, g.bindings, mem).None?
  {
    var s := VxV(StageVxV([Vec(0, 0, 1)], [Vec(0, 1, 1)], [Vec(0, 4, 0)], None, NoOp));
    assert VerifVec(s.vv.src1[0], map[0 := 4]).Success? && VerifVec(s.vv.dst[0], map[0 := 4]).Success?;
    assert Verified(s, map[0 := 4]);
    var v: VStage := Request(s, map[0 := 4]);
    RejectedAlone(mem, v);
  }

  lemma RejectedAlone<T>(mem: Memory<T>, v: VStage)
    requires Backed(mem, v.lens) && v.stage.VxV? && Count(v.stage) == 1 && !Guarded(v, 0)
    ensures
      var g := Generate(3, [v]);
      Bound(g.bindings, mem) && Checked(g.program, g.bindings, mem).None?
  {
    hide Generate, Checked, BindingsOf, Guarded;
    OneStage(v);
    assert VerifAt(v.stage, v.lens, 0).Success?;
    var all := AllJobs([v]);
    assert all == [VxVJob(v, 0)];
    Correctness.BindingsAre(all);
    var b := BindingsOf(all);
    assert b[3 * 0].buf in mem && b[3 * 0 + 1].buf in mem && b[3 * 0 + 2].buf in mem;
    assert [v][0] == v && !AllGuarded(v);
    CompiledAccepted(3, [v], mem);
  }

  lemma OneStage(v: VStage)
    ensures AllJobs([v]) == Jobs(v)
    ensures Count(v.stage) == 1 ==> Jobs(v) == DescJobs(v, 0)
  {
    assert [v][..0] == [] && AllJobs([]) == [];
    if Count(v.stage) == 1 {
      assert JobsUpTo(v, 0) == [];
    }
  }
}
