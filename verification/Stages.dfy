/**
 Pipeline stages: descriptors, the checks made on them before code is generated, and the
 list of dot products (jobs) a stage stands for.  Offsets, lengths and dimensions are
 32-bit and the checks compute in 32 bits, so they can wrap.
 */
module Stages {
  import opened Isa
  import opened Wrappers
  import opened Semantics
  import opened CodeGen

  type u32 = x: int | 0 <= x < 0x1_0000_0000

  datatype Vec = Vec(buf: int, offset: u32, length: u32)
  datatype Mtx = Mtx(buf: int, offset: u32, rows: u32, cols: u32)
  /** Bias values as bit patterns, rows * cols of them. */
  datatype Bias = Bias(value: seq<u32>, rows: u32, cols: u32)

  datatype SpecialOp = NoOp | ReluOp | LReluOp(negExpD: int) | UnknownOp

  datatype StageVxV = StageVxV(src1: seq<Vec>, src2: seq<Vec>, dst: seq<Vec>, bias: Option<seq<Bias>>, op: SpecialOp)
  datatype StageMxV = StageMxV(src1: seq<Mtx>, src2: seq<Vec>, dst: seq<Vec>, bias: Option<seq<Bias>>, op: SpecialOp)
  datatype StageMxM = StageMxM(src1: seq<Mtx>, src2: seq<Mtx>, dst: seq<Mtx>, bias: Option<seq<Bias>>, op: SpecialOp)

  datatype Stage = VxV(vv: StageVxV) | MxV(mv: StageMxV) | MxM(mm: StageMxM) | OtherStage

  datatype VxResult = Success | ErrInvalid | ErrOutOfRange | ErrNoResource | ErrNoMemory | ErrNoPermission | ErrUnknown

  const MAX_VEC_LEN: nat := 1048575

  /** Buffer lengths in elements; a buffer's byte size fits 32 bits. */
  type Lengths = map<int, nat>

  predicate WfLengths(lens: Lengths) { forall b :: b in lens ==> lens[b] < 0x4000_0000 }

  /** An array of n biases holds at least as many values as it declares. */
  predicate WfBiases(bias: Option<seq<Bias>>, n: nat) {
    bias.Some? ==>
      && |bias.value| == n
      && forall i :: 0 <= i < n ==> |bias.value[i].value| >= bias.value[i].rows * bias.value[i].cols
  }

  predicate VecsKnown(vs: seq<Vec>, lens: Lengths) { forall i :: 0 <= i < |vs| ==> vs[i].buf in lens }
  predicate MtxsKnown(ms: seq<Mtx>, lens: Lengths) { forall i :: 0 <= i < |ms| ==> ms[i].buf in lens }

  /** What the API demands of its caller: arrays of nDescriptors entries, valid buffer handles. */
  predicate WfStage(s: Stage, lens: Lengths) {
    match s
    case VxV(v) => |v.src1| == |v.src2| == |v.dst| && WfBiases(v.bias, |v.src1|)
                   && VecsKnown(v.src1, lens) && VecsKnown(v.src2, lens) && VecsKnown(v.dst, lens)
    case MxV(v) => |v.src1| == |v.src2| == |v.dst| && WfBiases(v.bias, |v.src1|)
                   && MtxsKnown(v.src1, lens) && VecsKnown(v.src2, lens) && VecsKnown(v.dst, lens)
    case MxM(v) => |v.src1| == |v.src2| == |v.dst| && WfBiases(v.bias, |v.src1|)
                   && MtxsKnown(v.src1, lens) && MtxsKnown(v.src2, lens) && MtxsKnown(v.dst, lens)
    case OtherStage => true
  }

  // ---- Checks, as written: the last index is computed in 32 bits ----

  function VerifVec(v: Vec, lens: Lengths): VxResult
    requires v.buf in lens
  {
    if v.length > MAX_VEC_LEN then ErrInvalid
    else if (v.offset + v.length - 1) % U32 >= lens[v.buf] then ErrOutOfRange
    else Success
  }

  function VerifMtx(m: Mtx, lens: Lengths): VxResult
    requires m.buf in lens
  {
    if m.cols > MAX_VEC_LEN then ErrInvalid
    else if (m.offset + m.rows * m.cols - 1) % U32 >= lens[m.buf] then ErrOutOfRange
    else Success
  }

  function VerifVxVAt(s: StageVxV, lens: Lengths, i: nat): VxResult
    requires WfStage(VxV(s), lens) && i < |s.src1|
  {
    var a, b, c := VerifVec(s.src1[i], lens), VerifVec(s.src2[i], lens), VerifVec(s.dst[i], lens);
    if !a.Success? then a else if !b.Success? then b else if !c.Success? then c
    else if s.src1[i].length != s.src2[i].length then ErrInvalid
    else if s.bias.Some? && (s.bias.value[i].cols != 1 || s.bias.value[i].rows != 1) then ErrInvalid
    else Success
  }

  function VerifMxVAt(s: StageMxV, lens: Lengths, i: nat): VxResult
    requires WfStage(MxV(s), lens) && i < |s.src1|
  {
    var a, b, c := VerifMtx(s.src1[i], lens), VerifVec(s.src2[i], lens), VerifVec(s.dst[i], lens);
    if !a.Success? then a else if !b.Success? then b else if !c.Success? then c
    else if s.src1[i].cols != s.src2[i].length then ErrInvalid
    else if s.dst[i].length < s.src1[i].rows then ErrInvalid
    else if s.bias.Some? && (s.bias.value[i].cols != 1 || s.bias.value[i].rows != s.src1[i].rows) then ErrInvalid
    else Success
  }

  function VerifMxMAt(s: StageMxM, lens: Lengths, i: nat): VxResult
    requires WfStage(MxM(s), lens) && i < |s.src1|
  {
    var a, b, c := VerifMtx(s.src1[i], lens), VerifMtx(s.src2[i], lens), VerifMtx(s.dst[i], lens);
    if !a.Success? then a else if !b.Success? then b else if !c.Success? then c
    else if s.src1[i].cols != s.src2[i].cols then ErrInvalid
    else if s.dst[i].rows != s.src1[i].rows || s.dst[i].cols != s.src2[i].rows then ErrInvalid
    else if s.bias.Some? && (s.bias.value[i].rows != s.src1[i].rows || s.bias.value[i].cols != s.src2[i].rows)
    then ErrInvalid
    else Success
  }

  function Count(s: Stage): nat {
    match s
    case VxV(v) => |v.src1|
    case MxV(v) => |v.src1|
    case MxM(v) => |v.src1|
    case OtherStage => 0
  }

  function VerifAt(s: Stage, lens: Lengths, i: nat): VxResult
    requires WfStage(s, lens) && i < Count(s)
  {
    match s
    case VxV(v) => VerifVxVAt(v, lens, i)
    case MxV(v) => VerifMxVAt(v, lens, i)
    case MxM(v) => VerifMxMAt(v, lens, i)
  }

  /** The first failing descriptor from i on decides. */
  function VerifFrom(s: Stage, lens: Lengths, i: nat): VxResult
    requires WfStage(s, lens) && i <= Count(s)
    decreases Count(s) - i
  {
    if i == Count(s) then Success
    else if !VerifAt(s, lens, i).Success? then VerifAt(s, lens, i)
    else VerifFrom(s, lens, i + 1)
  }

  function Verify(s: Stage, lens: Lengths): VxResult
    requires WfStage(s, lens)
  {
    if s.OtherStage? then ErrInvalid else VerifFrom(s, lens, 0)
  }

  /** Every descriptor passes its checks. */
  predicate Verified(s: Stage, lens: Lengths) {
    WfStage(s, lens) && !s.OtherStage? && forall i :: 0 <= i < Count(s) ==> VerifAt(s, lens, i).Success?
  }

  lemma {:induction false} VerifFromMeans(s: Stage, lens: Lengths, i: nat)
    requires WfStage(s, lens) && i <= Count(s)
    ensures VerifFrom(s, lens, i).Success? <==> forall k :: i <= k < Count(s) ==> VerifAt(s, lens, k).Success?
    decreases Count(s) - i
  {
    if i < Count(s) {
      VerifFromMeans(s, lens, i + 1);
    }
  }

  lemma VerifyMeans(s: Stage, lens: Lengths)
    requires WfStage(s, lens)
    ensures Verify(s, lens).Success? <==> Verified(s, lens)
  {
    VerifFromMeans(s, lens, 0);
  }

  /** A stage together with the buffer lengths it was verified against. */
  datatype Request = Request(stage: Stage, lens: Lengths)

  type VStage = r: Request | Verified(r.stage, r.lens)
    witness Request(VxV(StageVxV([], [], [], None, NoOp)), map[])

  // ---- Jobs ----

  /** Unsigned 32-bit addition: at most one wrap. */
  function Add32(a: u32, b: u32): u32 {
    if a + b < U32 then a + b else a + b - U32
  }

  /** A 32-bit index after k increments by step. */
  function Advance(base: u32, k: nat, step: u32): u32 {
    if k == 0 then base else Add32(Advance(base, k - 1, step), step)
  }

  /** Where row r of a row-major result begins, reached by single steps over r rows of n elements. */
  function RowStart(base: u32, r: nat, n: nat): u32 {
    if r == 0 then base else Advance(RowStart(base, r - 1, n), n, 1)
  }

  lemma AddWraps(x: nat, b: u32)
    ensures Add32(x % U32, b) == (x + b) % U32
  {
    DivModUnique(x + b, U32, if x % U32 + b < U32 then x / U32 else x / U32 + 1, Add32(x % U32, b));
  }

  /** Stepping k times is one multiplication modulo 2^32. */
  lemma {:induction false} AdvanceClosed(base: u32, k: nat, step: u32)
    ensures Advance(base, k, step) == (base + k * step) % U32
    decreases k
  {
    if k == 0 {
      DivModUnique(base, U32, 0, base);
    } else {
      AdvanceClosed(base, k - 1, step);
      AddWraps(base + (k - 1) * step, step);
      assert base + k * step == (base + (k - 1) * step) + step;
    }
  }

  /** Advancing by k and then by j is advancing by their sum. */
  lemma {:induction false} AdvanceTwice(base: u32, k: nat, j: nat, step: u32)
    ensures Advance(Advance(base, k, step), j, step) == Advance(base, k + j, step)
    decreases j
  {
    if j > 0 {
      AdvanceTwice(base, k, j - 1, step);
    }
  }

  /** The element stored by row r, column c is number r * n + c from the base, modulo 2^32. */
  lemma RowStartClosed(base: u32, r: nat, n: nat, c: nat)
    ensures Advance(RowStart(base, r, n), c, 1) == (base + (r * n + c)) % U32
  {
    RowStartIs(base, r, n);
    AdvanceTwice(base, r * n, c, 1);
    AdvanceClosed(base, r * n + c, 1);
  }

  lemma {:induction false} RowStartIs(base: u32, r: nat, n: nat)
    ensures RowStart(base, r, n) == Advance(base, r * n, 1)
    decreases r
  {
    if r > 0 {
      RowStartIs(base, r - 1, n);
      AdvanceTwice(base, (r - 1) * n, n, 1);
      assert (r - 1) * n + n == r * n;
    }
  }

  /** A row-major cell number is below the number of cells. */
  lemma CellIndex(rows: nat, cols: nat, r: nat, c: nat)
    requires r < rows && c < cols
    ensures 0 <= r * cols && r * cols + c < rows * cols
  {
    assert (r + 1) * cols <= rows * cols;
  }

  lemma ModIsSmaller(x: nat)
    ensures x % U32 <= x
  {
  }

  lemma CellAdvance(rows: u32, cols: u32, r: nat, c: nat)
    requires r < rows && c < cols
    ensures Advance(c, r, cols) < rows * cols
  {
    CellIndex(rows, cols, r, c);
    AdvanceClosed(c, r, cols);
    var first: nat := r * cols;
    ModIsSmaller(c + first);
  }

  /** The bias array of descriptor i, absent when the stage has none. */
  function BiasValues(bias: Option<seq<Bias>>, i: nat): Option<seq<u32>>
    requires bias.Some? ==> i < |bias.value|
  {
    if bias.Some? then Some(bias.value[i].value) else None
  }

  function BiasAt(bias: Option<seq<u32>>, k: nat): u32
    requires bias.Some? ==> k < |bias.value|
  {
    if bias.Some? then bias.value[k] else 0
  }

  function VxVJob(v: VStage, i: nat): (j: Job)
    requires v.stage.VxV? && i < Count(v.stage)
    ensures WfJob(j)
  {
    var s := v.stage.vv;
    assert VerifAt(v.stage, v.lens, i).Success?;
    Job(BiasAt(BiasValues(s.bias, i), 0),
        Binding(s.src1[i].buf, s.src1[i].offset), Binding(s.src2[i].buf, s.src2[i].offset),
        Binding(s.dst[i].buf, s.dst[i].offset), s.src1[i].length)
  }

  /** Row r of descriptor i: the r-th matrix row times the vector. */
  function MxVJob(v: VStage, i: nat, r: nat): (j: Job)
    requires v.stage.MxV? && i < Count(v.stage) && r < v.stage.mv.src1[i].rows
    ensures WfJob(j)
  {
    var s := v.stage.mv;
    assert VerifAt(v.stage, v.lens, i).Success?;
    Job(BiasAt(BiasValues(s.bias, i), r),
        Binding(s.src1[i].buf, Advance(s.src1[i].offset, r, s.src1[i].cols)),
        Binding(s.src2[i].buf, s.src2[i].offset),
        Binding(s.dst[i].buf, Advance(s.dst[i].offset, r, 1)), s.src1[i].cols)
  }

  /** Element (rl, rr) of descriptor i: row rl of the first matrix times row rr of the transposed second. */
  function MxMJob(v: VStage, i: nat, rl: nat, rr: nat): (j: Job)
    requires v.stage.MxM? && i < Count(v.stage)
    requires rl < v.stage.mm.src1[i].rows && rr < v.stage.mm.src2[i].rows
    ensures WfJob(j)
  {
    var s := v.stage.mm;
    assert VerifAt(v.stage, v.lens, i).Success?;
    CellAdvance(s.src1[i].rows, s.src2[i].rows, rl, rr);
    Job(BiasAt(BiasValues(s.bias, i), Advance(rr, rl, s.src2[i].rows)),
        Binding(s.src1[i].buf, Advance(s.src1[i].offset, rl, s.src1[i].cols)),
        Binding(s.src2[i].buf, Advance(s.src2[i].offset, rr, s.src2[i].cols)),
        Binding(s.dst[i].buf, Advance(RowStart(s.dst[i].offset, rl, s.src2[i].rows), rr, 1)), s.src1[i].cols)
  }

  predicate AllWf(js: seq<Job>) { forall k :: 0 <= k < |js| ==> WfJob(js[k]) }

  function MxVRows(v: VStage, i: nat): (js: seq<Job>)
    requires v.stage.MxV? && i < Count(v.stage)
    ensures AllWf(js)
  {
    var n := v.stage.mv.src1[i].rows;
    seq(n, r requires 0 <= r < n => MxVJob(v, i, r))
  }

  function MxMCells(v: VStage, i: nat, rl: nat): (js: seq<Job>)
    requires v.stage.MxM? && i < Count(v.stage) && rl < v.stage.mm.src1[i].rows
    ensures AllWf(js)
  {
    var n := v.stage.mm.src2[i].rows;
    seq(n, rr requires 0 <= rr < n => MxMJob(v, i, rl, rr))
  }

  function MxMRows(v: VStage, i: nat, n: nat): (js: seq<Job>)
    requires v.stage.MxM? && i < Count(v.stage) && n <= v.stage.mm.src1[i].rows
    ensures AllWf(js)
    decreases n
  {
    if n == 0 then [] else MxMRows(v, i, n - 1) + MxMCells(v, i, n - 1)
  }

  /** The jobs of descriptor i, in the order results are stored. */
  function DescJobs(v: VStage, i: nat): (js: seq<Job>)
    requires i < Count(v.stage)
    ensures AllWf(js)
  {
    match v.stage
    case VxV(_) => [VxVJob(v, i)]
    case MxV(_) => MxVRows(v, i)
    case MxM(s) => MxMRows(v, i, s.src1[i].rows)
  }

  function JobsUpTo(v: VStage, n: nat): (js: seq<Job>)
    requires n <= Count(v.stage)
    ensures AllWf(js)
    decreases n
  {
    if n == 0 then [] else JobsUpTo(v, n - 1) + DescJobs(v, n - 1)
  }

  /** All dot products of a stage, in descriptor order. */
  function Jobs(v: VStage): (js: seq<Job>)
    ensures AllWf(js)
  {
    JobsUpTo(v, Count(v.stage))
  }

  function OpOf(s: Stage): SpecialOp {
    match s
    case VxV(v) => v.op
    case MxV(v) => v.op
    case MxM(v) => v.op
    case OtherStage => NoOp
  }

  /** A malformed special operation is reported but compiled as none. */
  function SpecialOf(op: SpecialOp): Special {
    match op
    case ReluOp => ReluAct
    case LReluOp(ned) => LReluAct(ned)
    case _ => NoAct
  }

  function BindingsOf(js: seq<Job>): (bs: seq<Binding>)
    ensures |bs| == 3 * |js|
    ensures forall k :: 0 <= k < |js| ==> bs[3 * k] == js[k].rs && bs[3 * k + 1] == js[k].rt && bs[3 * k + 2] == js[k].rd
    decreases |js|
  {
    if js == [] then []
    else BindingsOf(js[..|js| - 1]) + [js[|js| - 1].rs, js[|js| - 1].rt, js[|js| - 1].rd]
  }

  lemma {:induction false} BindingsOfAppend(a: seq<Job>, b: seq<Job>)
    ensures BindingsOf(a + b) == BindingsOf(a) + BindingsOf(b)
    decreases |b|
  {
    if b == [] {
      assert a + b == a;
    } else {
      var n := |b| - 1;
      assert (a + b)[..|a + b| - 1] == a + b[..n] && (a + b)[|a + b| - 1] == b[n];
      BindingsOfAppend(a, b[..n]);
      Assoc(BindingsOf(a), BindingsOf(b[..n]), [b[n].rs, b[n].rt, b[n].rd]);
    }
  }

  // ---- Whole pipelines ----

  predicate AllVerified(ss: seq<Stage>, lens: Lengths) { forall i :: 0 <= i < |ss| ==> Verified(ss[i], lens) }

  /** The verdict of the first stage that fails. */
  predicate FirstFailure(ss: seq<Stage>, lens: Lengths, res: VxResult)
    requires forall i :: 0 <= i < |ss| ==> WfStage(ss[i], lens)
  {
    exists i :: 0 <= i < |ss| && AllVerified(ss[..i], lens) && !Verify(ss[i], lens).Success? && res == Verify(ss[i], lens)
  }

  function Requests(ss: seq<Stage>, lens: Lengths): (vs: seq<VStage>)
    requires AllVerified(ss, lens)
  {
    seq(|ss|, i requires 0 <= i < |ss| => Request(ss[i], lens))
  }

  function SpecialFor(v: VStage): Special { SpecialOf(OpOf(v.stage)) }

  /** The code of stages emitted one after the other. */
  function EmitAll(g: Gen, vs: seq<VStage>): (r: Gen)
    requires Wf(g)
    ensures Wf(r)
    decreases |vs|
  {
    if vs == [] then g
    else EmitStage(EmitAll(g, vs[..|vs| - 1]), Jobs(vs[|vs| - 1]), SpecialFor(vs[|vs| - 1]))
  }

  function AllJobs(vs: seq<VStage>): seq<Job>
    decreases |vs|
  {
    if vs == [] then [] else AllJobs(vs[..|vs| - 1]) + Jobs(vs[|vs| - 1])
  }

  /** The generator state after a whole pipeline under a VPU mask. */
  function Generate(mask: nat, vs: seq<VStage>): (r: Gen)
    ensures Wf(r)
  {
    FreshWf(mask);
    EmitAll(Prepare(Fresh(mask)), vs)
  }
}
