/**
 The imperative program checker: one pass over the command buffer that tracks sixteen
 thread states, patches every SETRx in place and records vector lengths per resource.
 Its result is that of Checker.Check.
 */
module Assembler {
  import opened Isa
  import opened Checker

  const EINVAL: int := 22
  /** Command slots reserved for the closing SYNC. */
  const NRSVD: nat := 1

  class ProgramAssembler {
    const res: seq<Res>
    const threads: array<Thread>
    const prog: array<Word>
    const vlens: array<int>
    const cmdpcs: array<int>
    var currentRes: nat

    ghost predicate Valid()
      reads this, threads, prog, vlens, cmdpcs
    {
      && threads.Length == NR_TID && prog.Length >= NRSVD
      && vlens.Length == cmdpcs.Length == |res| && vlens != cmdpcs
      && Wf(View(0), res)
    }

    /** The checker state once the first pc words have been processed. */
    ghost function View(pc: nat): State
      requires pc <= prog.Length
      reads this, threads, prog, vlens, cmdpcs
    {
      State(threads[..], currentRes, vlens[..], cmdpcs[..], prog[..pc])
    }

    /** The program is copied in front of the reserved slots. */
    constructor (program: seq<Word>, resources: seq<Res>)
      ensures Valid() && res == resources && View(0) == Init(|resources|)
      ensures prog.Length == |program| + NRSVD && prog[..|program|] == program
      ensures fresh(threads) && fresh(prog) && fresh(vlens) && fresh(cmdpcs)
    {
      res := resources;
      currentRes := 0;
      threads := new Thread[NR_TID](i => RESET);
      prog := new Word[|program| + NRSVD](i => if 0 <= i < |program| then program[i] else 0);
      vlens := new int[|resources|](i => -1);
      cmdpcs := new int[|resources|](i => -1);
      new;
      assert prog[..|program|] == program;
      assert View(0) == Init(|resources|);
    }

    /** Verify the state of one VPU for PROD. */
    method VerifPROD(vpu: nat) returns (err: int)
      requires Valid() && vpu < NR_VPU
      modifies vlens
      ensures Valid()
      ensures var v := VerifProd(threads[..], old(vlens[..]), vpu * NR_THR, vpu * NR_THR + NR_THR);
              if v.None? then err == EINVAL else err == 0 && vlens[..] == v.value
    {
      var base := vpu * NR_THR;
      ghost var was := vlens[..];
      var th := 0;
      while th < NR_THR
        invariant 0 <= th <= NR_THR
        invariant vlens.Length == |res| && Wf(View(0), res)
        invariant VerifProd(threads[..], was, base, base + NR_THR) ==
                  VerifProd(threads[..], vlens[..], base + th, base + NR_THR)
      {
        var t := threads[base + th];
        assert WfThread(View(0).ts[base + th], res);
        if t.en < 0 {
          return EINVAL;
        } else if t.en != 0 {
          if !t.aSet { return EINVAL; }
          if t.rs < 0 { return EINVAL; }
          if t.rt < 0 { return EINVAL; }
          if t.vlen < 0 { return EINVAL; }
          if Min(t.rsLen, t.rtLen) < t.vlen { return EINVAL; }
          vlens[t.rs] := t.vlen;
          vlens[t.rt] := t.vlen;
        }
        th := th + 1;
      }
      err := 0;
    }

    method VerifSTORE(vpu: nat) returns (err: int)
      requires Valid() && vpu < NR_VPU
      modifies vlens
      ensures Valid()
      ensures var v := VerifStore(threads[..], old(vlens[..]), vpu * NR_THR, vpu * NR_THR + NR_THR);
              if v.None? then err == EINVAL else err == 0 && vlens[..] == v.value
    {
      var base := vpu * NR_THR;
      ghost var was := vlens[..];
      var th := 0;
      while th < NR_THR
        invariant 0 <= th <= NR_THR
        invariant vlens.Length == |res| && Wf(View(0), res)
        invariant VerifStore(threads[..], was, base, base + NR_THR) ==
                  VerifStore(threads[..], vlens[..], base + th, base + NR_THR)
      {
        var t := threads[base + th];
        assert WfThread(View(0).ts[base + th], res);
        if t.en < 0 {
          return EINVAL;
        } else if t.en != 0 {
          if !t.aSet { return EINVAL; }
          if t.rd < 0 { return EINVAL; }
          if t.rdLen == 0 { return EINVAL; }
          vlens[t.rd] := 1;
        }
        th := th + 1;
      }
      err := 0;
    }

    /** PROD reaches one VPU or, as a broadcast, all of them; the first failure wins. */
    method PrepPROD(lo: nat, hi: nat) returns (err: int)
      requires Valid() && lo < hi <= NR_TID && lo % NR_THR == 0 && hi % NR_THR == 0
      modifies vlens
      ensures Valid()
      ensures var v := VerifProd(threads[..], old(vlens[..]), lo, hi);
              if v.None? then err == EINVAL else err == 0 && vlens[..] == v.value
    {
      ghost var was := vlens[..];
      var vpu := lo / NR_THR;
      err := 0;
      while vpu < hi / NR_THR
        invariant lo / NR_THR <= vpu <= hi / NR_THR && Valid() && err == 0
        invariant VerifProd(threads[..], was, lo, hi) ==
                  VerifProd(threads[..], vlens[..], vpu * NR_THR, hi)
      {
        VerifProdSplit(threads[..], vlens[..], vpu * NR_THR, vpu * NR_THR + NR_THR, hi);
        err := VerifPROD(vpu);
        if err != 0 {
          return;
        }
        vpu := vpu + 1;
      }
    }

    method PrepSTORE(lo: nat, hi: nat) returns (err: int)
      requires Valid() && lo < hi <= NR_TID && lo % NR_THR == 0 && hi % NR_THR == 0
      modifies vlens
      ensures Valid()
      ensures var v := VerifStore(threads[..], old(vlens[..]), lo, hi);
              if v.None? then err == EINVAL else err == 0 && vlens[..] == v.value
    {
      ghost var was := vlens[..];
      var vpu := lo / NR_THR;
      err := 0;
      while vpu < hi / NR_THR
        invariant lo / NR_THR <= vpu <= hi / NR_THR && Valid() && err == 0
        invariant VerifStore(threads[..], was, lo, hi) ==
                  VerifStore(threads[..], vlens[..], vpu * NR_THR, hi)
      {
        VerifStoreSplit(threads[..], vlens[..], vpu * NR_THR, vpu * NR_THR + NR_THR, hi);
        err := VerifSTORE(vpu);
        if err != 0 {
          return;
        }
        vpu := vpu + 1;
      }
    }

    /** SETRS, SETRT and SETRD: take the next resource, bind it to the thread, patch the word. */
    method PrepSETREG(pc: nat, reg: Reg) returns (err: int)
      requires Valid() && pc < prog.Length && Decode(prog[pc]).SetReg? && Decode(prog[pc]).reg == reg
      modifies this, threads, prog, cmdpcs
      ensures Valid() && forall k :: pc < k < prog.Length ==> prog[k] == old(prog[k])
      ensures var s := Step(old(View(pc)), old(prog[pc]), res);
              if s.None? then err == EINVAL else err == 0 && View(pc + 1) == s.value
    {
      var ri := currentRes;
      if currentRes < |res| {
        currentRes := currentRes + 1;
      }
      if ri >= |res| {
        return EINVAL;
      }
      var blen, idx := res[ri].blen, res[ri].index;
      if idx > blen {
        return EINVAL;
      }
      var t := Tid(prog[pc]);
      assert WfThread(View(0).ts[t], res);
      threads[t] := Bind(threads[t], reg, ri, blen - idx);
      prog[pc] := PatchAddr(prog[pc], res[ri].addr);
      cmdpcs[ri] := pc;
      err := 0;
      assert View(pc + 1).out == old(View(pc)).out + [prog[pc]];
      assert Wf(View(pc + 1), res);
    }

    /** A broadcast spans all threads, a VPU command the eight of one VPU. */
    static lemma DecodeSpans(w: Word)
      ensures Decode(w).Prod? ==> Decode(w).lo % NR_THR == 0 && Decode(w).hi % NR_THR == 0
      ensures Decode(w).Store? ==> Decode(w).lo % NR_THR == 0 && Decode(w).hi % NR_THR == 0
    {
    }

    /** The opcode switch. */
    method PrepCommand(pc: nat) returns (err: int)
      requires Valid() && pc < prog.Length
      modifies this, threads, prog, vlens, cmdpcs
      ensures Valid() && forall k :: pc < k < prog.Length ==> prog[k] == old(prog[k])
      ensures var s := Step(old(View(pc)), old(prog[pc]), res);
              if s.None? then err == EINVAL else err == 0 && View(pc + 1) == s.value
    {
      hide VerifProd, VerifStore, PatchAddr, Decode;
      err := 0;
      assert prog[..pc + 1] == prog[..pc] + [prog[pc]];
      DecodeSpans(prog[pc]);
      match Decode(prog[pc])
      case SetAcc(t, _) =>
        assert WfThread(View(0).ts[t], res);
        threads[t] := threads[t].(aSet := true);
      case SetVl(t, len) =>
        assert WfThread(View(0).ts[t], res);
        threads[t] := threads[t].(vlen := len);
      case SetEn(t, en) =>
        assert WfThread(View(0).ts[t], res);
        threads[t] := threads[t].(en := if en then 1 else 0);
      case SetReg(reg, _, _) => err := PrepSETREG(pc, reg);
      case Prod(lo, hi) => err := PrepPROD(lo, hi);
      case Store(lo, hi) => err := PrepSTORE(lo, hi);
      case Sync(stop, intr) => if stop || intr { err := EINVAL; }
      case Actf(_, _, _) =>
      case Nop =>
      case Invalid => err := EINVAL;
    }

    /** Check and patch the whole program, then close it with SYNC stop, intr. */
    method PrepareProg() returns (err: int)
      requires Valid() && View(0) == Init(|res|)
      modifies this, threads, prog, vlens, cmdpcs
      ensures Valid()
      ensures var s := Check(old(prog[..prog.Length - NRSVD]), res);
              if s.None? then err == EINVAL
              else err == 0 && View(prog.Length - NRSVD) == s.value && prog[prog.Length - NRSVD] == SYNC_STOP
    {
      err := 0;
      ghost var was := prog[..];
      ghost var ws := was[..prog.Length - NRSVD];
      var i := 0;
      while i < prog.Length - NRSVD
        invariant 0 <= i <= |ws| && Valid() && err == 0
        invariant forall k :: i <= k < prog.Length ==> prog[k] == was[k]
        invariant var s := Run(Init(|res|), ws[..i], res); s.Some? && View(i) == s.value
      {
        RunSnoc(Init(|res|), ws, i, res);
        RunPrefix(Init(|res|), ws, i + 1, res);
        err := PrepCommand(i);
        if err != 0 {
          return;
        }
        i := i + 1;
      }
      assert ws[..|ws|] == ws;
      prog[i] := SYNC_STOP;
    }
  }
}
