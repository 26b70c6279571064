/**
 The software executor: registers and accumulators updated in place, one command after
 the other.  Thread states survive from one program to the next; the buffer contents are
 those of the context the command buffer belongs to.
 */
module Executor {
  import opened Isa
  import opened Wrappers
  import opened Semantics

  class ProgramExecutor<T> {
    const A: Arith<T>
    const vpuMask: nat
    const threads: array<Thread<T>>
    var mem: Memory<T>

    ghost predicate Valid() reads this { threads.Length == NR_TID }

    ghost function View(): (m: Machine<T>)
      requires Valid()
      reads this, threads
      ensures |m.ts| == NR_TID
    {
      Machine(threads[..], mem)
    }

    constructor (arith: Arith<T>, mask: nat, buffers: Memory<T>)
      ensures Valid() && A == arith && vpuMask == mask && mem == buffers && fresh(threads)
      ensures forall t :: 0 <= t < NR_TID ==> !threads[t].en
    {
      A := arith;
      vpuMask := mask;
      mem := buffers;
      threads := new Thread<T>[NR_TID](i => Thread(false, arith.ofBits(0), Null, Null, Null, 0));
    }

    /** Accumulate the product of one thread, element by element. */
    method CompVecProd(vpu: nat, th: nat)
      requires Valid() && vpu < NR_VPU && th < NR_THR
      requires ProdSafe(mem, threads[vpu * NR_THR + th])
      modifies threads
      ensures threads[..] == old(threads[..])[vpu * NR_THR + th :=
                ProdThread(A, mem, old(threads[vpu * NR_THR + th]))]
    {
      var t := vpu * NR_THR + th;
      if !threads[t].en {
        return;
      }
      ghost var was := threads[..];
      var i := 0;
      while i < threads[t].vlen
        invariant 0 <= i <= was[t].vlen
        invariant threads[t] == was[t].(acc := Dot(A, mem, was[t].acc, was[t].rs, was[t].rt, i))
        invariant threads[..] == was[t := threads[t]]
      {
        var rs, rt := threads[t].rs, threads[t].rt;
        threads[t] := threads[t].(acc :=
          A.add(threads[t].acc, A.mul(mem[rs.buf][rs.idx + i], mem[rt.buf][rt.idx + i])));
        i := i + 1;
      }
    }

    /** Single-threaded PROD over the VPUs lo / 8 .. hi / 8 that the mask enables. */
    method ExecPROD(lo: nat, hi: nat)
      requires Valid() && lo < hi <= NR_TID && lo % NR_THR == 0 && hi % NR_THR == 0
      requires AllProdSafe(View(), vpuMask, lo, hi)
      modifies threads
      ensures View() == ProdAll(A, old(View()), vpuMask, lo, hi)
    {
      ghost var m0 := View();
      var vpu := lo / NR_THR;
      while vpu < hi / NR_THR
        invariant lo / NR_THR <= vpu <= hi / NR_THR
        invariant forall t :: 0 <= t < NR_TID ==>
                    threads[t] == (if Reach(vpuMask, lo, vpu * NR_THR, t) then ProdThread(A, mem, m0.ts[t]) else m0.ts[t])
      {
        if Enabled(vpuMask, vpu * NR_THR) {
          var th := 0;
          while th < NR_THR
            invariant 0 <= th <= NR_THR
            invariant forall t :: 0 <= t < NR_TID ==>
                        threads[t] == (if Reach(vpuMask, lo, vpu * NR_THR + th, t) then ProdThread(A, mem, m0.ts[t]) else m0.ts[t])
          {
            assert ProdSafe(m0.mem, m0.ts[vpu * NR_THR + th]);
            CompVecProd(vpu, th);
            th := th + 1;
          }
        }
        vpu := vpu + 1;
      }
      assert threads[..] == ProdAll(A, m0, vpuMask, lo, hi).ts;
    }

    method ExecSTORE(lo: nat, hi: nat)
      requires Valid() && lo < hi <= NR_TID && lo % NR_THR == 0 && hi % NR_THR == 0
      requires StoreAll(threads[..], mem, vpuMask, lo, hi).Some?
      modifies this
      ensures Some(mem) == StoreAll(threads[..], old(mem), vpuMask, lo, hi)
    {
      ghost var goal := StoreAll(threads[..], mem, vpuMask, lo, hi);
      var vpu := lo / NR_THR;
      while vpu < hi / NR_THR
        invariant lo / NR_THR <= vpu <= hi / NR_THR
        invariant StoreAll(threads[..], mem, vpuMask, vpu * NR_THR, hi) == goal
      {
        if Enabled(vpuMask, vpu * NR_THR) {
          var th := 0;
          while th < NR_THR
            invariant 0 <= th <= NR_THR
            invariant StoreAll(threads[..], mem, vpuMask, vpu * NR_THR + th, hi) == goal
          {
            var t := vpu * NR_THR + th;
            assert threads[t] == threads[..][t];
            if threads[t].en {
              mem := Write(mem, threads[t].rd, threads[t].acc);
            }
            th := th + 1;
          }
        } else {
          StoreSkips(threads[..], mem, vpuMask, vpu * NR_THR, vpu * NR_THR + NR_THR, hi);
        }
        vpu := vpu + 1;
      }
    }

    method ExecACTF(lo: nat, hi: nat, fn: ActFn)
      requires Valid() && lo < hi <= NR_TID && lo % NR_THR == 0 && hi % NR_THR == 0
      modifies threads
      ensures View() == ActAll(A, fn, old(View()), vpuMask, lo, hi)
    {
      ghost var m0 := View();
      var vpu := lo / NR_THR;
      while vpu < hi / NR_THR
        invariant lo / NR_THR <= vpu <= hi / NR_THR
        invariant forall t :: 0 <= t < NR_TID ==>
                    threads[t] == (if Reach(vpuMask, lo, vpu * NR_THR, t) then ActThread(A, fn, m0.ts[t]) else m0.ts[t])
      {
        if Enabled(vpuMask, vpu * NR_THR) {
          var th := 0;
          while th < NR_THR
            invariant 0 <= th <= NR_THR
            invariant forall t :: 0 <= t < NR_TID ==>
                        threads[t] == (if Reach(vpuMask, lo, vpu * NR_THR + th, t) then ActThread(A, fn, m0.ts[t]) else m0.ts[t])
          {
            var t := vpu * NR_THR + th;
            if threads[t].en {
              threads[t] := threads[t].(acc := Act(A, fn, threads[t].acc));
            }
            th := th + 1;
          }
        }
        vpu := vpu + 1;
      }
      assert threads[..] == ActAll(A, fn, m0, vpuMask, lo, hi).ts;
    }

    method ExecCommand(w: Word, bs: seq<Binding>)
      requires Valid() && Step(A, vpuMask, bs, View(), w).Some?
      modifies this, threads
      ensures Some(View()) == Step(A, vpuMask, bs, old(View()), w)
    {
      match Decode(w)
      case SetAcc(t, bits) =>
        if Enabled(vpuMask, t) { threads[t] := threads[t].(acc := A.ofBits(bits)); }
      case SetVl(t, len) =>
        if Enabled(vpuMask, t) { threads[t] := threads[t].(vlen := len); }
      case SetEn(t, en) =>
        if Enabled(vpuMask, t) { threads[t] := threads[t].(en := en); }
      case SetReg(reg, t, addr) =>
        if Enabled(vpuMask, t) {
          var ri := addr % U32;
          threads[t] := SetPtr(threads[t], reg, At(bs[ri].buf, bs[ri].index));
        }
      case Prod(lo, hi) => ExecPROD(lo, hi);
      case Store(lo, hi) => ExecSTORE(lo, hi);
      case Actf(lo, hi, fn) => ExecACTF(lo, hi, fn);
      case Sync(_, _) =>
      case Nop =>
      case Invalid =>
    }

    /** Run a command buffer from whatever thread states the previous one left. */
    method Execute(prog: array<Word>, bs: seq<Binding>)
      requires Valid() && Run(A, vpuMask, bs, View(), prog[..]).Some?
      modifies this, threads
      ensures Some(View()) == Run(A, vpuMask, bs, old(View()), prog[..])
    {
      ghost var m0 := View();
      ghost var ws := prog[..];
      var i := 0;
      while i < prog.Length
        invariant 0 <= i <= prog.Length && prog[..] == ws
        invariant Run(A, vpuMask, bs, m0, ws[..i]) == Some(View())
      {
        RunSnoc(A, vpuMask, bs, m0, ws, i);
        RunPrefix(A, vpuMask, bs, m0, ws, i + 1);
        ExecCommand(prog[i], bs);
        i := i + 1;
      }
      assert ws[..i] == ws;
    }
  }

  lemma {:induction false} StoreSkips<T>(ts: seq<Thread<T>>, mem: Memory<T>, mask: nat, lo: nat, mid: nat, hi: nat)
    requires lo <= mid <= hi <= |ts| && forall t :: lo <= t < mid ==> !Enabled(mask, t)
    ensures StoreAll(ts, mem, mask, lo, hi) == StoreAll(ts, mem, mask, mid, hi)
    decreases mid - lo
  {
    if lo < mid {
      StoreSkips(ts, mem, mask, lo + 1, mid, hi);
    }
  }
}
