/**
 What verification of a stage decides, in integers over the descriptor fields: when a stage
 passes, and which of the two errors is reported otherwise.
 */
module Verdicts {
  import opened Isa
  import opened Wrappers
  import opened Stages

  /** An operand: its vector length, its last index before any wrap, and the buffer it is in. */
  datatype Operand = Operand(length: int, last: int, room: nat)

  function OfVec(v: Vec, lens: Lengths): Operand
    requires v.buf in lens
  {
    Operand(v.length, v.offset + v.length - 1, lens[v.buf])
  }

  function OfMtx(m: Mtx, lens: Lengths): Operand
    requires m.buf in lens
  {
    Operand(m.cols, m.offset + m.rows * m.cols - 1, lens[m.buf])
  }

  predicate Short(o: Operand) { o.length <= 1048575 }

  /** The last index, brought into 32 bits by some multiple of 2^32, lies inside the buffer. */
  ghost predicate Inside(o: Operand) {
    exists q: int :: InsideAfter(o, q)
  }

  predicate InsideAfter(o: Operand, q: int) { 0 <= o.last - q * 0x1_0000_0000 < o.room && o.last - q * 0x1_0000_0000 < 0x1_0000_0000 }

  /** The three operands of descriptor i, in the order they are checked. */
  function Operands(s: Stage, lens: Lengths, i: nat): (os: seq<Operand>)
    requires WfStage(s, lens) && i < Count(s)
    ensures |os| == 3
  {
    match s
    case VxV(v) => [OfVec(v.src1[i], lens), OfVec(v.src2[i], lens), OfVec(v.dst[i], lens)]
    case MxV(v) => [OfMtx(v.src1[i], lens), OfVec(v.src2[i], lens), OfVec(v.dst[i], lens)]
    case MxM(v) => [OfMtx(v.src1[i], lens), OfMtx(v.src2[i], lens), OfMtx(v.dst[i], lens)]
  }

  /** Dimensions agree, the destination has room, and a bias has one value for each result. */
  predicate Agrees(s: Stage, lens: Lengths, i: nat)
    requires WfStage(s, lens) && i < Count(s)
  {
    match s
    case VxV(v) =>
      && v.src1[i].length == v.src2[i].length
      && (v.bias.Some? ==> v.bias.value[i].rows == 1 && v.bias.value[i].cols == 1)
    case MxV(v) =>
      && v.src1[i].cols == v.src2[i].length && v.dst[i].length >= v.src1[i].rows
      && (v.bias.Some? ==> v.bias.value[i].rows == v.src1[i].rows && v.bias.value[i].cols == 1)
    case MxM(v) =>
      && v.src1[i].cols == v.src2[i].cols && v.dst[i].rows == v.src1[i].rows && v.dst[i].cols == v.src2[i].rows
      && (v.bias.Some? ==> v.bias.value[i].rows == v.src1[i].rows && v.bias.value[i].cols == v.src2[i].rows)
  }

  ghost predicate Good(o: Operand) { Short(o) && Inside(o) }

  /** Some operand is short but outside, and the operands checked before it are good. */
  ghost predicate OutsideFirst(os: seq<Operand>) {
    exists k :: 0 <= k < |os| && Short(os[k]) && !Inside(os[k]) && forall j :: 0 <= j < k ==> Good(os[j])
  }

  ghost predicate Passes(s: Stage, lens: Lengths, i: nat)
    requires WfStage(s, lens) && i < Count(s)
  {
    Agrees(s, lens, i) && forall k :: 0 <= k < 3 ==> Good(Operands(s, lens, i)[k])
  }

  /** A 32-bit index is below a bound exactly when some number of wraps brings it there. */
  lemma WrapsInside(o: Operand)
    ensures Inside(o) <==> o.last % U32 < o.room
  {
    var q := o.last / U32;
    if o.last % U32 < o.room {
      assert InsideAfter(o, q);
    }
    if Inside(o) {
      var k :| InsideAfter(o, k);
      DivModUnique(o.last, U32, k, o.last - k * U32);
    }
  }

  ghost function Verdict(o: Operand): VxResult {
    if !Short(o) then ErrInvalid else if !Inside(o) then ErrOutOfRange else Success
  }

  lemma VecVerdict(v: Vec, lens: Lengths)
    requires v.buf in lens
    ensures VerifVec(v, lens) == Verdict(OfVec(v, lens))
  {
    hide Inside;
    WrapsInside(OfVec(v, lens));
  }

  lemma MtxVerdict(m: Mtx, lens: Lengths)
    requires m.buf in lens
    ensures VerifMtx(m, lens) == Verdict(OfMtx(m, lens))
  {
    hide Inside;
    WrapsInside(OfMtx(m, lens));
  }

  /** The first operand that is not good decides, then the dimensions. */
  lemma DescriptorVerdict(s: Stage, lens: Lengths, i: nat)
    requires WfStage(s, lens) && i < Count(s)
    ensures VerifAt(s, lens, i) == if OutsideFirst(Operands(s, lens, i)) then ErrOutOfRange else if Passes(s, lens, i) then Success else ErrInvalid
  {
    hide Inside, VerifVec, VerifMtx;
    match s
    case VxV(v) =>
      VecVerdict(v.src1[i], lens);
      VecVerdict(v.src2[i], lens);
      VecVerdict(v.dst[i], lens);
      InOrder(Operands(s, lens, i));
    case MxV(v) =>
      MtxVerdict(v.src1[i], lens);
      VecVerdict(v.src2[i], lens);
      VecVerdict(v.dst[i], lens);
      InOrder(Operands(s, lens, i));
    case MxM(v) =>
      MtxVerdict(v.src1[i], lens);
      MtxVerdict(v.src2[i], lens);
      MtxVerdict(v.dst[i], lens);
      InOrder(Operands(s, lens, i));
  }

  lemma InOrder(os: seq<Operand>)
    requires |os| == 3
    ensures
      OutsideFirst(os) <==>
      || (Short(os[0]) && !Inside(os[0]))
      || (Good(os[0]) && Short(os[1]) && !Inside(os[1]))
      || (Good(os[0]) && Good(os[1]) && Short(os[2]) && !Inside(os[2]))
  {
    hide Inside;
    if Short(os[0]) && !Inside(os[0]) {
    } else if Good(os[0]) && Short(os[1]) && !Inside(os[1]) {
      assert forall j :: 0 <= j < 1 ==> Good(os[j]);
    } else if Good(os[0]) && Good(os[1]) && Short(os[2]) && !Inside(os[2]) {
      assert forall j :: 0 <= j < 2 ==> Good(os[j]);
    }
  }

  /** Descriptor i is the first that does not pass. */
  ghost predicate FirstBad(s: Stage, lens: Lengths, i: nat)
    requires WfStage(s, lens)
  {
    i < Count(s) && !Passes(s, lens, i) && forall k :: 0 <= k < i ==> Passes(s, lens, k)
  }

  /** Descriptor i decides: out of range if its first bad operand is not too long, else invalid. */
  ghost predicate Decides(s: Stage, lens: Lengths, i: nat, res: VxResult)
    requires WfStage(s, lens)
  {
    FirstBad(s, lens, i) && res == if OutsideFirst(Operands(s, lens, i)) then ErrOutOfRange else ErrInvalid
  }

  lemma {:induction false} FromVerdict(s: Stage, lens: Lengths, i: nat)
    requires WfStage(s, lens) && i <= Count(s) && forall k :: 0 <= k < i ==> Passes(s, lens, k)
    ensures VerifFrom(s, lens, i).Success? <==> forall k :: 0 <= k < Count(s) ==> Passes(s, lens, k)
    ensures !VerifFrom(s, lens, i).Success? ==> exists b :: Decides(s, lens, b, VerifFrom(s, lens, i))
    decreases Count(s) - i
  {
    hide OutsideFirst, Passes, Operands, VerifAt;
    if i < Count(s) {
      DescriptorVerdict(s, lens, i);
      OutsideMisses(s, lens, i);
      if VerifAt(s, lens, i).Success? {
        FromVerdict(s, lens, i + 1);
      } else {
        assert Decides(s, lens, i, VerifAt(s, lens, i));
      }
    }
  }

  lemma OutsideMisses(s: Stage, lens: Lengths, i: nat)
    requires WfStage(s, lens) && i < Count(s)
    ensures OutsideFirst(Operands(s, lens, i)) ==> !Passes(s, lens, i)
  {
    hide Operands, Inside, Agrees;
  }

  /**
   The verdict on a stage.  It succeeds if and only if the stage is of a known kind and in every
   descriptor the lengths are at most 1048575, the last indexes, in 32 bits, lie inside the
   buffers, and the dimensions agree.  Otherwise the first descriptor that fails decides:
   out of range if its first bad operand is not too long, else invalid.
   */
  lemma VerdictMeans(s: Stage, lens: Lengths)
    requires WfStage(s, lens)
    ensures Verify(s, lens).Success? <==> !s.OtherStage? && forall k :: 0 <= k < Count(s) ==> Passes(s, lens, k)
    ensures s.OtherStage? ==> Verify(s, lens) == ErrInvalid
    ensures !s.OtherStage? && !Verify(s, lens).Success? ==> exists b :: Decides(s, lens, b, Verify(s, lens))
  {
    hide Passes, OutsideFirst, FirstBad, VerifFrom;
    if !s.OtherStage? {
      FromVerdict(s, lens, 0);
    }
  }
}
