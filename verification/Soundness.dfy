/**
 What acceptance by the checker guarantees about execution, for arbitrary words.
 */
module Soundness {
  // No undefined behaviour from any starting thread state, and a result that does not depend on
  // that starting state as long as activations only reach threads whose enable bit the
  // program has decided.

  import opened Isa
  import opened Wrappers
  import opened Semantics
  import C = Checker

  /** Every binding names an existing buffer, and resource numbers fit 32 bits. */
  predicate Bound<T>(bs: seq<Binding>, mem: Memory<T>) {
    |bs| <= U32 && forall i :: 0 <= i < |bs| ==> bs[i].buf in mem
  }

  /** The resources of the emulator: SETRx is patched with the resource number. */
  function Resources<T>(bs: seq<Binding>, mem: Memory<T>): (res: seq<C.Res>)
    requires Bound(bs, mem)
    ensures |res| == |bs|
  {
    seq(|bs|, i requires 0 <= i < |bs| => C.Res(|mem[bs[i].buf]|, bs[i].index, i))
  }

  predicate PtrKnown(i: int, p: Ptr, bs: seq<Binding>) {
    i >= 0 ==> i < |bs| && p == At(bs[i].buf, bs[i].index)
  }

  /** What the checker knows about a thread is true of the machine. */
  predicate SimThread<T>(c: C.Thread, h: Thread<T>, bs: seq<Binding>) {
    && (c.en >= 0 ==> (h.en <==> c.en == 1))
    && (c.vlen >= 0 ==> h.vlen == c.vlen)
    && PtrKnown(c.rs, h.rs, bs) && PtrKnown(c.rt, h.rt, bs) && PtrKnown(c.rd, h.rd, bs)
  }

  ghost predicate Sim<T>(st: C.State, m: Machine<T>, bs: seq<Binding>, mask: nat) {
    && |st.ts| == |m.ts| == NR_TID
    && forall t :: 0 <= t < NR_TID && Enabled(mask, t) ==> SimThread(st.ts[t], m.ts[t], bs)
  }

  lemma ShapeKeepsResources<T>(bs: seq<Binding>, a: Memory<T>, b: Memory<T>)
    requires Bound(bs, a) && SameShape(a, b)
    ensures Bound(bs, b) && Resources(bs, a) == Resources(bs, b)
  {
  }

  lemma ProdIsSafe<T>(st: C.State, m: Machine<T>, bs: seq<Binding>, mask: nat, lo: nat, hi: nat)
    requires Bound(bs, m.mem) && C.Wf(st, Resources(bs, m.mem)) && Sim(st, m, bs, mask) && lo <= hi <= NR_TID
    requires C.VerifProd(st.ts, st.vlens, lo, hi).Some?
    ensures AllProdSafe(m, mask, lo, hi)
  {
    C.VerifProdMeans(st.ts, st.vlens, lo, hi);
    forall t | 0 <= t < NR_TID && Reach(mask, lo, hi, t)
      ensures ProdSafe(m.mem, m.ts[t])
    {
      assert SimThread(st.ts[t], m.ts[t], bs) && C.WfThread(st.ts[t], Resources(bs, m.mem));
    }
  }

  lemma {:induction false} StoreIsSafe<T>(st: C.State, m: Machine<T>, mem: Memory<T>, bs: seq<Binding>, mask: nat, lo: nat, hi: nat)
    requires Bound(bs, m.mem) && C.Wf(st, Resources(bs, m.mem)) && Sim(st, m, bs, mask) && lo <= hi <= NR_TID
    requires SameShape(m.mem, mem)
    requires forall t :: lo <= t < hi ==> st.ts[t].en >= 0 && (st.ts[t].en != 0 ==> C.StoreReady(st.ts[t]))
    ensures StoreAll(m.ts, mem, mask, lo, hi).Some?
    decreases hi - lo
  {
    if lo < hi {
      if Enabled(mask, lo) && m.ts[lo].en {
        assert SimThread(st.ts[lo], m.ts[lo], bs) && C.WfThread(st.ts[lo], Resources(bs, m.mem));
        StoreIsSafe(st, m, Write(mem, m.ts[lo].rd, m.ts[lo].acc), bs, mask, lo + 1, hi);
      } else {
        StoreIsSafe(st, m, mem, bs, mask, lo + 1, hi);
      }
    }
  }

  /** An accepted SETRx resolves to the buffer it was checked against. */
  lemma SetRegSound<T>(A: Arith<T>, mask: nat, bs: seq<Binding>, st: C.State, m: Machine<T>, w: Word)
    requires Bound(bs, m.mem) && C.Wf(st, Resources(bs, m.mem)) && |m.ts| == NR_TID
    requires Decode(w).SetReg? && C.Step(st, w, Resources(bs, m.mem)).Some?
    ensures st.cur < |bs|
    ensures
      var c, s := Decode(w), C.Step(st, w, Resources(bs, m.mem)).value;
      var r := Step(A, mask, bs, m, s.out[|st.out|]);
      && s.ts[c.t].vlen == st.ts[c.t].vlen
      && r == Some(if Enabled(mask, c.t)
                   then m.(ts := m.ts[c.t := SetPtr(m.ts[c.t], c.reg, At(bs[st.cur].buf, bs[st.cur].index))])
                   else m)
  {
    PatchDecodes(w, st.cur);
    assert st.cur % ADDR_LIMIT % U32 == st.cur;
  }

  lemma SetSound<T>(A: Arith<T>, mask: nat, bs: seq<Binding>, st: C.State, m: Machine<T>, w: Word)
    requires Bound(bs, m.mem) && C.Wf(st, Resources(bs, m.mem)) && Sim(st, m, bs, mask)
    requires C.Step(st, w, Resources(bs, m.mem)).Some? && (Decode(w).SetAcc? || Decode(w).SetVl? || Decode(w).SetEn?)
    ensures
      var s := C.Step(st, w, Resources(bs, m.mem)).value;
      var r := Step(A, mask, bs, m, s.out[|st.out|]);
      r.Some? && Sim(s, r.value, bs, mask) && SameShape(m.mem, r.value.mem)
  {
  }

  lemma SetRegKeepsSim<T>(A: Arith<T>, mask: nat, bs: seq<Binding>, st: C.State, m: Machine<T>, w: Word)
    requires Bound(bs, m.mem) && C.Wf(st, Resources(bs, m.mem)) && Sim(st, m, bs, mask)
    requires C.Step(st, w, Resources(bs, m.mem)).Some? && Decode(w).SetReg?
    ensures
      var s := C.Step(st, w, Resources(bs, m.mem)).value;
      var r := Step(A, mask, bs, m, s.out[|st.out|]);
      r.Some? && Sim(s, r.value, bs, mask) && SameShape(m.mem, r.value.mem)
  {
    SetRegSound(A, mask, bs, st, m, w);
  }

  lemma ProdSound<T>(A: Arith<T>, mask: nat, bs: seq<Binding>, st: C.State, m: Machine<T>, w: Word)
    requires Bound(bs, m.mem) && C.Wf(st, Resources(bs, m.mem)) && Sim(st, m, bs, mask)
    requires C.Step(st, w, Resources(bs, m.mem)).Some? && Decode(w).Prod?
    ensures
      var s := C.Step(st, w, Resources(bs, m.mem)).value;
      var r := Step(A, mask, bs, m, s.out[|st.out|]);
      r.Some? && Sim(s, r.value, bs, mask) && SameShape(m.mem, r.value.mem)
  {
    var c := Decode(w);
    ProdIsSafe(st, m, bs, mask, c.lo, c.hi);
  }

  lemma StoreSound<T>(A: Arith<T>, mask: nat, bs: seq<Binding>, st: C.State, m: Machine<T>, w: Word)
    requires Bound(bs, m.mem) && C.Wf(st, Resources(bs, m.mem)) && Sim(st, m, bs, mask)
    requires C.Step(st, w, Resources(bs, m.mem)).Some? && Decode(w).Store?
    ensures
      var s := C.Step(st, w, Resources(bs, m.mem)).value;
      var r := Step(A, mask, bs, m, s.out[|st.out|]);
      r.Some? && Sim(s, r.value, bs, mask) && SameShape(m.mem, r.value.mem)
  {
    var c := Decode(w);
    C.VerifStoreMeans(st.ts, st.vlens, c.lo, c.hi);
    StoreIsSafe(st, m, m.mem, bs, mask, c.lo, c.hi);
    StoreKeepsShape(m.ts, m.mem, mask, c.lo, c.hi);
  }

  /** One accepted command, as patched, is defined and keeps the simulation. */
  lemma StepSound<T>(A: Arith<T>, mask: nat, bs: seq<Binding>, st: C.State, m: Machine<T>, w: Word)
    requires Bound(bs, m.mem) && C.Wf(st, Resources(bs, m.mem)) && Sim(st, m, bs, mask)
    requires C.Step(st, w, Resources(bs, m.mem)).Some?
    ensures
      var s := C.Step(st, w, Resources(bs, m.mem)).value;
      var r := Step(A, mask, bs, m, s.out[|st.out|]);
      r.Some? && Sim(s, r.value, bs, mask) && SameShape(m.mem, r.value.mem)
  {
    match Decode(w)
    case SetReg(_, _, _) => SetRegKeepsSim(A, mask, bs, st, m, w);
    case Prod(_, _) => ProdSound(A, mask, bs, st, m, w);
    case Store(_, _) => StoreSound(A, mask, bs, st, m, w);
    case Actf(_, _, _) | Sync(_, _) | Nop =>
    case _ => SetSound(A, mask, bs, st, m, w);
  }

  lemma {:induction false} OutGrows(st: C.State, ws: seq<Word>, res: seq<C.Res>)
    requires C.Wf(st, res)
    ensures var r := C.Run(st, ws, res); r.Some? ==> st.out <= r.value.out
    decreases |ws|
  {
    if ws != [] {
      var s := C.Step(st, ws[0], res);
      if s.Some? {
        OutGrows(s.value, ws[1..], res);
      }
    }
  }

  /** The part of the output produced from a state on. */
  function Emitted(st: C.State, ws: seq<Word>, res: seq<C.Res>): seq<Word>
    requires C.Wf(st, res) && C.Run(st, ws, res).Some?
  {
    C.Run(st, ws, res).value.out[|st.out|..]
  }

  lemma EmittedCons(st: C.State, ws: seq<Word>, res: seq<C.Res>)
    requires C.Wf(st, res) && C.Run(st, ws, res).Some? && ws != []
    ensures
      var s := C.Step(st, ws[0], res).value;
      Emitted(st, ws, res) == [s.out[|st.out|]] + Emitted(s, ws[1..], res)
  {
    var s := C.Step(st, ws[0], res).value;
    OutGrows(s, ws[1..], res);
    var out := C.Run(st, ws, res).value.out;
    assert out[|st.out|..] == [out[|st.out|]] + out[|st.out| + 1..];
  }

  lemma {:induction false} RunSound<T>(A: Arith<T>, mask: nat, bs: seq<Binding>, st: C.State, m: Machine<T>, ws: seq<Word>)
    requires Bound(bs, m.mem) && C.Wf(st, Resources(bs, m.mem)) && Sim(st, m, bs, mask)
    requires C.Run(st, ws, Resources(bs, m.mem)).Some?
    ensures
      var res := Resources(bs, m.mem);
      var r := Run(A, mask, bs, m, Emitted(st, ws, res));
      r.Some? && Sim(C.Run(st, ws, res).value, r.value, bs, mask) && SameShape(m.mem, r.value.mem)
    decreases |ws|
  {
    var res := Resources(bs, m.mem);
    if ws != [] {
      EmittedCons(st, ws, res);
      StepSound(A, mask, bs, st, m, ws[0]);
      var s := C.Step(st, ws[0], res).value;
      var r := Step(A, mask, bs, m, s.out[|st.out|]).value;
      ShapeKeepsResources(bs, m.mem, r.mem);
      RunSound(A, mask, bs, s, r, ws[1..]);
      assert Emitted(st, ws, res)[0] == s.out[|st.out|] && Emitted(st, ws, res)[1..] == Emitted(s, ws[1..], res);
    }
  }

  /** The command buffer the checker leaves behind: patched program and closing SYNC. */
  function Checked<T>(ws: seq<Word>, bs: seq<Binding>, mem: Memory<T>): (r: Option<seq<Word>>)
    requires Bound(bs, mem)
  {
    var s := C.Check(ws, Resources(bs, mem));
    if s.None? then None else Some(s.value.out + [C.SYNC_STOP])
  }

  /**
   Checker soundness.  Whatever 64-bit words were submitted, once they are accepted no run
   dereferences a null or out-of-range pointer: from any thread states left behind by
   earlier programs, for any VPU mask, execution is defined and buffer shapes stay.
   */
  lemma CheckerSound<T>(A: Arith<T>, mask: nat, ws: seq<Word>, bs: seq<Binding>, m: Machine<T>)
    requires |m.ts| == NR_TID && Bound(bs, m.mem) && Checked(ws, bs, m.mem).Some?
    ensures
      var r := Run(A, mask, bs, m, Checked(ws, bs, m.mem).value);
      r.Some? && SameShape(m.mem, r.value.mem)
  {
    var res := Resources(bs, m.mem);
    var st := C.Init(|bs|);
    RunSound(A, mask, bs, st, m, ws);
    var out := C.Check(ws, res).value.out;
    assert Emitted(st, ws, res) == out;
    RunAppend(A, mask, bs, m, out, [C.SYNC_STOP]);
    SyncStopIdles(A, mask, bs, Run(A, mask, bs, m, out).value);
  }

  lemma SyncStopIdles<T>(A: Arith<T>, mask: nat, bs: seq<Binding>, m: Machine<T>)
    requires |m.ts| == NR_TID
    ensures Run(A, mask, bs, m, [C.SYNC_STOP]) == Some(m)
  {
    assert [C.SYNC_STOP][1..] == [];
    assert Op(C.SYNC_STOP) == SYNC;
  }

  /** A command buffer and its bindings. */
  datatype Submission = Submission(ws: seq<Word>, bs: seq<Binding>)

  predicate AllAccepted<T>(jobs: seq<Submission>, mem: Memory<T>) {
    forall j :: 0 <= j < |jobs| ==> Bound(jobs[j].bs, mem) && Checked(jobs[j].ws, jobs[j].bs, mem).Some?
  }

  /** Running accepted command buffers one after the other on one executor. */
  function RunJobs<T>(A: Arith<T>, mask: nat, m: Machine<T>, jobs: seq<Submission>): Option<Machine<T>>
    requires |m.ts| == NR_TID && AllAccepted(jobs, m.mem)
    decreases |jobs|
  {
    if jobs == [] then Some(m)
    else
      var r := Run(A, mask, jobs[0].bs, m, Checked(jobs[0].ws, jobs[0].bs, m.mem).value);
      if r.None? || !AllAccepted(jobs[1..], r.value.mem) then None
      else RunJobs(A, mask, r.value, jobs[1..])
  }

  /** Soundness over whole histories: the thread states one program leaves never hurt the next. */
  lemma {:induction false} HistorySound<T>(A: Arith<T>, mask: nat, m: Machine<T>, jobs: seq<Submission>)
    requires |m.ts| == NR_TID && AllAccepted(jobs, m.mem)
    ensures var r := RunJobs(A, mask, m, jobs); r.Some? && SameShape(m.mem, r.value.mem)
    decreases |jobs|
  {
    if jobs != [] {
      CheckerSound(A, mask, jobs[0].ws, jobs[0].bs, m);
      var r := Run(A, mask, jobs[0].bs, m, Checked(jobs[0].ws, jobs[0].bs, m.mem).value).value;
      forall j | 0 <= j < |jobs[1..]|
        ensures Bound(jobs[1..][j].bs, r.mem) && Checked(jobs[1..][j].ws, jobs[1..][j].bs, r.mem).Some?
      {
        assert jobs[1..][j] == jobs[j + 1];
        ShapeKeepsResources(jobs[j + 1].bs, m.mem, r.mem);
      }
      HistorySound(A, mask, r, jobs[1..]);
    }
  }

  // ---- Independence from leftover thread states ----

  /** An activation reaches no thread that holds a set accumulator but has an undecided enable bit. */
  predicate ActSettled(st: C.State, w: Word)
    requires |st.ts| == NR_TID
  {
    match Decode(w)
    case Actf(lo, hi, _) => forall t :: lo <= t < hi ==> st.ts[t].en >= 0 || !st.ts[t].aSet
    case _ => true
  }

  predicate Settled(st: C.State, ws: seq<Word>, res: seq<C.Res>)
    requires C.Wf(st, res)
    decreases |ws|
  {
    ws == [] ||
    (ActSettled(st, ws[0]) &&
     var s := C.Step(st, ws[0], res); s.Some? ==> Settled(s.value, ws[1..], res))
  }

  /** Two machine threads agree on everything the program has set. */
  ghost predicate AgreeThread<T>(c: C.Thread, a: Thread<T>, b: Thread<T>) {
    && (c.en >= 0 ==> a.en == b.en)
    && (c.aSet ==> a.acc == b.acc)
    && (c.vlen >= 0 ==> a.vlen == b.vlen)
    && (c.rs >= 0 ==> a.rs == b.rs) && (c.rt >= 0 ==> a.rt == b.rt) && (c.rd >= 0 ==> a.rd == b.rd)
  }

  ghost predicate Agree<T>(st: C.State, a: Machine<T>, b: Machine<T>, mask: nat) {
    && |st.ts| == |a.ts| == |b.ts| == NR_TID && a.mem == b.mem
    && forall t :: 0 <= t < NR_TID && Enabled(mask, t) ==> AgreeThread(st.ts[t], a.ts[t], b.ts[t])
  }

  lemma {:induction false} StoreAgrees<T>(st: C.State, a: Machine<T>, b: Machine<T>, mem: Memory<T>, mask: nat, lo: nat, hi: nat)
    requires Agree(st, a, b, mask) && lo <= hi <= NR_TID
    requires forall t :: lo <= t < hi ==> st.ts[t].en >= 0 && (st.ts[t].en != 0 ==> C.StoreReady(st.ts[t]))
    requires forall t :: 0 <= t < NR_TID && Enabled(mask, t) && st.ts[t].en == 0 ==> !a.ts[t].en
    ensures StoreAll(a.ts, mem, mask, lo, hi) == StoreAll(b.ts, mem, mask, lo, hi)
    decreases hi - lo
  {
    if lo < hi {
      if Enabled(mask, lo) {
        assert AgreeThread(st.ts[lo], a.ts[lo], b.ts[lo]);
        if a.ts[lo].en && Readable(mem, a.ts[lo].rd, 1) {
          StoreAgrees(st, a, b, Write(mem, a.ts[lo].rd, a.ts[lo].acc), mask, lo + 1, hi);
        }
      }
      StoreAgrees(st, a, b, mem, mask, lo + 1, hi);
    }
  }

  lemma ProdAgrees<T>(A: Arith<T>, st: C.State, a: Machine<T>, b: Machine<T>, mask: nat, lo: nat, hi: nat)
    requires Agree(st, a, b, mask) && lo <= hi <= NR_TID
    requires AllProdSafe(a, mask, lo, hi) && AllProdSafe(b, mask, lo, hi)
    requires forall t :: lo <= t < hi ==> st.ts[t].en >= 0 && (st.ts[t].en != 0 ==> C.ProdReady(st.ts[t]))
    requires forall t :: 0 <= t < NR_TID && Enabled(mask, t) && st.ts[t].en == 0 ==> !a.ts[t].en
    ensures Agree(st, ProdAll(A, a, mask, lo, hi), ProdAll(A, b, mask, lo, hi), mask)
  {
    forall t | 0 <= t < NR_TID && Enabled(mask, t)
      ensures AgreeThread(st.ts[t], ProdAll(A, a, mask, lo, hi).ts[t], ProdAll(A, b, mask, lo, hi).ts[t])
    {
      assert AgreeThread(st.ts[t], a.ts[t], b.ts[t]);
    }
  }

  lemma ReachAgrees<T>(A: Arith<T>, mask: nat, bs: seq<Binding>, st: C.State, a: Machine<T>, b: Machine<T>, w: Word)
    requires Bound(bs, a.mem) && C.Wf(st, Resources(bs, a.mem))
    requires Sim(st, a, bs, mask) && Sim(st, b, bs, mask) && Agree(st, a, b, mask)
    requires C.Step(st, w, Resources(bs, a.mem)).Some? && ActSettled(st, w) && (Decode(w).Prod? || Decode(w).Store? || Decode(w).Actf?)
    ensures
      var s := C.Step(st, w, Resources(bs, a.mem)).value;
      var ra, rb := Step(A, mask, bs, a, s.out[|st.out|]), Step(A, mask, bs, b, s.out[|st.out|]);
      ra.Some? && rb.Some? && Agree(s, ra.value, rb.value, mask)
  {
    StepSound(A, mask, bs, st, a, w);
    StepSound(A, mask, bs, st, b, w);
    forall t | 0 <= t < NR_TID && Enabled(mask, t) && st.ts[t].en == 0
      ensures !a.ts[t].en
    {
      assert SimThread(st.ts[t], a.ts[t], bs);
    }
    match Decode(w)
    case Prod(lo, hi) =>
      C.VerifProdMeans(st.ts, st.vlens, lo, hi);
      ProdAgrees(A, st, a, b, mask, lo, hi);
    case Store(lo, hi) =>
      C.VerifStoreMeans(st.ts, st.vlens, lo, hi);
      StoreAgrees(st, a, b, a.mem, mask, lo, hi);
    case Actf(lo, hi, fn) =>
      forall t | 0 <= t < NR_TID && Enabled(mask, t)
        ensures AgreeThread(st.ts[t], ActAll(A, fn, a, mask, lo, hi).ts[t], ActAll(A, fn, b, mask, lo, hi).ts[t])
      {
        assert AgreeThread(st.ts[t], a.ts[t], b.ts[t]);
      }
  }

  lemma SetRegAgrees<T>(A: Arith<T>, mask: nat, bs: seq<Binding>, st: C.State, a: Machine<T>, b: Machine<T>, w: Word)
    requires Bound(bs, a.mem) && C.Wf(st, Resources(bs, a.mem)) && Agree(st, a, b, mask)
    requires C.Step(st, w, Resources(bs, a.mem)).Some? && Decode(w).SetReg?
    ensures
      var s := C.Step(st, w, Resources(bs, a.mem)).value;
      var ra, rb := Step(A, mask, bs, a, s.out[|st.out|]), Step(A, mask, bs, b, s.out[|st.out|]);
      ra.Some? && rb.Some? && Agree(s, ra.value, rb.value, mask)
  {
    SetRegSound(A, mask, bs, st, a, w);
    SetRegSound(A, mask, bs, st, b, w);
    hide Decode, Step;
  }

  lemma StepAgrees<T>(A: Arith<T>, mask: nat, bs: seq<Binding>, st: C.State, a: Machine<T>, b: Machine<T>, w: Word)
    requires Bound(bs, a.mem) && C.Wf(st, Resources(bs, a.mem))
    requires Sim(st, a, bs, mask) && Sim(st, b, bs, mask) && Agree(st, a, b, mask)
    requires C.Step(st, w, Resources(bs, a.mem)).Some? && ActSettled(st, w)
    ensures
      var s := C.Step(st, w, Resources(bs, a.mem)).value;
      var ra, rb := Step(A, mask, bs, a, s.out[|st.out|]), Step(A, mask, bs, b, s.out[|st.out|]);
      ra.Some? && rb.Some? && Agree(s, ra.value, rb.value, mask)
  {
    NotInvalid(st, w, Resources(bs, a.mem));
    hide C.Step, Step, Agree, Sim, ActSettled;
    match Decode(w)
    case SetReg(_, _, _) => SetRegAgrees(A, mask, bs, st, a, b, w);
    case Prod(_, _) => ReachAgrees(A, mask, bs, st, a, b, w);
    case Store(_, _) => ReachAgrees(A, mask, bs, st, a, b, w);
    case Actf(_, _, _) => ReachAgrees(A, mask, bs, st, a, b, w);
    case Invalid =>
    case _ =>
  }

  lemma NotInvalid(st: C.State, w: Word, res: seq<C.Res>)
    requires C.Wf(st, res) && C.Step(st, w, res).Some?
    ensures !Decode(w).Invalid?
  {
  }

  lemma {:induction false} RunAgrees<T>(A: Arith<T>, mask: nat, bs: seq<Binding>, st: C.State, a: Machine<T>, b: Machine<T>, ws: seq<Word>)
    requires Bound(bs, a.mem) && C.Wf(st, Resources(bs, a.mem))
    requires Sim(st, a, bs, mask) && Sim(st, b, bs, mask) && Agree(st, a, b, mask)
    requires C.Run(st, ws, Resources(bs, a.mem)).Some? && Settled(st, ws, Resources(bs, a.mem))
    ensures
      var out := Emitted(st, ws, Resources(bs, a.mem));
      var ra, rb := Run(A, mask, bs, a, out), Run(A, mask, bs, b, out);
      ra.Some? && rb.Some? && ra.value.mem == rb.value.mem
    decreases |ws|
  {
    var res := Resources(bs, a.mem);
    if ws != [] {
      EmittedCons(st, ws, res);
      StepSound(A, mask, bs, st, a, ws[0]);
      StepSound(A, mask, bs, st, b, ws[0]);
      StepAgrees(A, mask, bs, st, a, b, ws[0]);
      var s := C.Step(st, ws[0], res).value;
      var w := s.out[|st.out|];
      var ra, rb := Step(A, mask, bs, a, w).value, Step(A, mask, bs, b, w).value;
      ShapeKeepsResources(bs, a.mem, ra.mem);
      RunAgrees(A, mask, bs, s, ra, rb, ws[1..]);
      assert Emitted(st, ws, res)[0] == w && Emitted(st, ws, res)[1..] == Emitted(s, ws[1..], res);
    }
  }

  /**
   Thread states are never reset between programs, yet two runs of an accepted program
   from the same buffers end in the same buffers, whatever the threads held before,
   provided each activation comes after the enable bits it depends on.
   */
  lemma LeftoverIndependent<T>(A: Arith<T>, mask: nat, ws: seq<Word>, bs: seq<Binding>, a: Machine<T>, b: Machine<T>)
    requires |a.ts| == |b.ts| == NR_TID && a.mem == b.mem && Bound(bs, a.mem)
    requires Checked(ws, bs, a.mem).Some? && Settled(C.Init(|bs|), ws, Resources(bs, a.mem))
    ensures
      var prog := Checked(ws, bs, a.mem).value;
      var ra, rb := Run(A, mask, bs, a, prog), Run(A, mask, bs, b, prog);
      ra.Some? && rb.Some? && ra.value.mem == rb.value.mem
  {
    var res := Resources(bs, a.mem);
    var st := C.Init(|bs|);
    RunAgrees(A, mask, bs, st, a, b, ws);
    var out := C.Check(ws, res).value.out;
    assert Emitted(st, ws, res) == out;
    RunAppend(A, mask, bs, a, out, [C.SYNC_STOP]);
    RunAppend(A, mask, bs, b, out, [C.SYNC_STOP]);
    SyncStopIdles(A, mask, bs, Run(A, mask, bs, a, out).value);
    SyncStopIdles(A, mask, bs, Run(A, mask, bs, b, out).value);
  }
}
