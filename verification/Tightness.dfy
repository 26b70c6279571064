/**
 The checker refuses nothing on account of ranges that would have run: for well-formed words,
 a program is accepted exactly when executing it, with both VPUs on, is defined.
 */
module Tightness {
  import opened Isa
  import opened Wrappers
  import opened Semantics
  import opened Soundness
  import C = Checker
  import D = Demand
  import KP = KernelProg

  /** Well-formed words never use a thread that is undecided or lacks a register. */
  lemma {:induction false} ProdFormed(ts: seq<D.Thread>, u: D.Use, n: nat, lo: nat, hi: nat)
    requires lo <= hi <= |ts| && D.WfUse(u, n)
    requires forall t :: lo <= t < hi ==> ts[t].rs < n && ts[t].rt < n && ts[t].rd < n
    requires D.Prod(ts, u, n, lo, hi).Some?
    ensures forall t :: lo <= t < hi ==> ts[t].en >= 0 && (ts[t].en != 0 ==> D.ProdReady(ts[t]))
    decreases hi - lo
  {
    if lo < hi {
      ProdFormed(ts, if ts[lo].en == 0 then u else D.Note(D.Note(u, ts[lo].rs, ts[lo].vlen), ts[lo].rt, ts[lo].vlen), n, lo + 1, hi);
    }
  }

  lemma {:induction false} StoreFormed(ts: seq<D.Thread>, u: D.Use, n: nat, lo: nat, hi: nat)
    requires lo <= hi <= |ts| && D.WfUse(u, n)
    requires forall t :: lo <= t < hi ==> ts[t].rs < n && ts[t].rt < n && ts[t].rd < n
    requires D.Store(ts, u, n, lo, hi).Some?
    ensures forall t :: lo <= t < hi ==> ts[t].en >= 0 && (ts[t].en != 0 ==> D.StoreReady(ts[t]))
    decreases hi - lo
  {
    if lo < hi {
      StoreFormed(ts, if ts[lo].en == 0 then u else D.Note(u, ts[lo].rd, 1), n, lo + 1, hi);
    }
  }

  lemma BothEnabled(mask: nat, t: nat)
    requires mask % 4 == 3
    ensures Enabled(mask, t)
  {
  }

  lemma ThreadUnsafe<T>(c: C.Thread, d: D.Thread, h: Thread<T>, bs: seq<Binding>, mem: Memory<T>)
    requires Bound(bs, mem) && C.WfThread(c, Resources(bs, mem)) && D.SameThread(c, d) && SimThread(c, h, bs)
    requires c.en > 0 && D.ProdReady(d) && !C.ProdReady(c)
    ensures !ProdSafe(mem, h)
  {
    assert h.rs == At(bs[c.rs].buf, bs[c.rs].index) && h.rt == At(bs[c.rt].buf, bs[c.rt].index);
  }

  /** A PROD refused for its ranges reads outside a buffer. */
  lemma ProdUnsafe<T>(st: C.State, d: D.State, m: Machine<T>, bs: seq<Binding>, mask: nat, lo: nat, hi: nat)
    requires Bound(bs, m.mem) && C.Wf(st, Resources(bs, m.mem)) && D.Wf(d, |bs|) && D.Matches(st, d, Resources(bs, m.mem))
    requires Sim(st, m, bs, mask) && mask % 4 == 3 && lo <= hi <= NR_TID
    requires D.Prod(d.ts, d.use, |bs|, lo, hi).Some? && C.VerifProd(st.ts, st.vlens, lo, hi).None?
    ensures !AllProdSafe(m, mask, lo, hi)
  {
    ProdFormed(d.ts, d.use, |bs|, lo, hi);
    C.VerifProdMeans(st.ts, st.vlens, lo, hi);
    var t :| lo <= t < hi && (st.ts[t].en < 0 || (st.ts[t].en != 0 && !C.ProdReady(st.ts[t])));
    assert D.SameThread(st.ts[t], d.ts[t]) && C.WfThread(st.ts[t], Resources(bs, m.mem));
    BothEnabled(mask, t);
    assert SimThread(st.ts[t], m.ts[t], bs);
    hide C.WfThread, D.SameThread, SimThread, ProdSafe, Resources, Enabled;
    ThreadUnsafe(st.ts[t], d.ts[t], m.ts[t], bs, m.mem);
    assert Reach(mask, lo, hi, t);
  }

  /** A STORE refused for its range writes outside a buffer. */
  lemma {:induction false} StoreUnsafe<T>(st: C.State, m: Machine<T>, mem: Memory<T>, bs: seq<Binding>, mask: nat, lo: nat, hi: nat, t: nat)
    requires Bound(bs, m.mem) && C.Wf(st, Resources(bs, m.mem)) && Sim(st, m, bs, mask) && mask % 4 == 3
    requires SameShape(m.mem, mem) && lo <= t < hi <= NR_TID && st.ts[t].en == 1 && st.ts[t].rd >= 0 && st.ts[t].rdLen == 0
    ensures StoreAll(m.ts, mem, mask, lo, hi).None?
    decreases hi - lo
  {
    if lo == t {
      assert Enabled(mask, t) && SimThread(st.ts[t], m.ts[t], bs) && C.WfThread(st.ts[t], Resources(bs, m.mem));
    } else if Enabled(mask, lo) && m.ts[lo].en {
      if Readable(mem, m.ts[lo].rd, 1) {
        StoreUnsafe(st, m, Write(mem, m.ts[lo].rd, m.ts[lo].acc), bs, mask, lo + 1, hi, t);
      }
    } else {
      StoreUnsafe(st, m, mem, bs, mask, lo + 1, hi, t);
    }
  }

  lemma StoreRefused<T>(st: C.State, d: D.State, m: Machine<T>, bs: seq<Binding>, mask: nat, lo: nat, hi: nat)
    requires Bound(bs, m.mem) && C.Wf(st, Resources(bs, m.mem)) && D.Wf(d, |bs|) && D.Matches(st, d, Resources(bs, m.mem))
    requires Sim(st, m, bs, mask) && mask % 4 == 3 && lo <= hi <= NR_TID
    requires D.Store(d.ts, d.use, |bs|, lo, hi).Some? && C.VerifStore(st.ts, st.vlens, lo, hi).None?
    ensures StoreAll(m.ts, m.mem, mask, lo, hi).None?
  {
    StoreFormed(d.ts, d.use, |bs|, lo, hi);
    C.VerifStoreMeans(st.ts, st.vlens, lo, hi);
    var t :| lo <= t < hi && (st.ts[t].en < 0 || (st.ts[t].en != 0 && !C.StoreReady(st.ts[t])));
    assert D.SameThread(st.ts[t], d.ts[t]) && C.WfThread(st.ts[t], Resources(bs, m.mem));
    StoreUnsafe(st, m, m.mem, bs, mask, lo, hi, t);
  }

  /** A SETRx refused for its index is undefined. */
  lemma SetRegRefused<T>(A: Arith<T>, mask: nat, bs: seq<Binding>, st: C.State, m: Machine<T>, w: Word)
    requires Bound(bs, m.mem) && |m.ts| == NR_TID && mask % 4 == 3 && st.cur < |bs| && Decode(w).SetReg?
    requires bs[st.cur].index > |m.mem[bs[st.cur].buf]|
    ensures Step(A, mask, bs, m, PatchAddr(w, st.cur)).None?
  {
    hide Decode, PatchAddr, Enabled;
    PatchDecodes(w, st.cur);
    DivModUnique(st.cur, ADDR_LIMIT, 0, st.cur);
    DivModUnique(st.cur, U32, 0, st.cur);
    BothEnabled(mask, Decode(w).t);
    assert Decode(PatchAddr(w, st.cur)) == Decode(w).(addr := st.cur);
  }

  /** The first command refused for its ranges is undefined. */
  lemma StepRefused<T>(A: Arith<T>, mask: nat, bs: seq<Binding>, st: C.State, d: D.State, m: Machine<T>, w: Word)
    requires Bound(bs, m.mem) && C.Wf(st, Resources(bs, m.mem)) && D.Wf(d, |bs|) && D.Matches(st, d, Resources(bs, m.mem))
    requires Sim(st, m, bs, mask) && mask % 4 == 3
    requires D.Step(d, w, |bs|).Some? && C.Step(st, w, Resources(bs, m.mem)).None?
    ensures st.cur <= |bs| && Step(A, mask, bs, m, KP.PatchedWord(w, st.cur, KP.Addrs(Resources(bs, m.mem)))).None?
  {
    hide Decode, PatchAddr;
    match Decode(w)
    case SetReg(_, _, _) => SetRegRefused(A, mask, bs, st, m, w);
    case Prod(lo, hi) => ProdUnsafe(st, d, m, bs, mask, lo, hi);
    case Store(lo, hi) => StoreRefused(st, d, m, bs, mask, lo, hi);
    case _ =>
  }

  lemma PatchedCons(w: Word, ws: seq<Word>, cur: nat, addrs: seq<nat>)
    requires cur <= |addrs|
    ensures
      var p := KP.PatchedWords([w] + ws, cur, addrs);
      p != [] && p[0] == KP.PatchedWord(w, cur, addrs)
      && p[1..] == KP.PatchedWords(ws, if Decode(w).SetReg? && cur < |addrs| then cur + 1 else cur, addrs)
  {
    hide Decode;
    assert ([w] + ws)[1..] == ws;
  }

  /** The checker's view and the machine, after what both have accepted so far. */
  ghost predicate Together<T>(st: C.State, d: D.State, m: Machine<T>, bs: seq<Binding>, mask: nat)
  {
    && Bound(bs, m.mem) && C.Wf(st, Resources(bs, m.mem)) && D.Wf(d, |bs|) && D.Matches(st, d, Resources(bs, m.mem))
    && D.Consumed(d, |bs|) && D.Meets(d, Resources(bs, m.mem)) && Sim(st, m, bs, mask)
    && st.cur <= |bs| && |m.ts| == NR_TID
  }

  /** An accepted command keeps them together. */
  lemma StepTogether<T>(A: Arith<T>, mask: nat, bs: seq<Binding>, st: C.State, d: D.State, m: Machine<T>, w: Word)
    requires Together(st, d, m, bs, mask) && C.Step(st, w, Resources(bs, m.mem)).Some?
    ensures D.Step(d, w, |bs|).Some?
    ensures
      var s, addrs := C.Step(st, w, Resources(bs, m.mem)).value, KP.Addrs(Resources(bs, m.mem));
      var r := Semantics.Step(A, mask, bs, m, KP.PatchedWord(w, st.cur, addrs));
      && r.Some? && SameShape(m.mem, r.value.mem) && Together(s, D.Step(d, w, |bs|).value, r.value, bs, mask)
      && s.cur == if Decode(w).SetReg? && st.cur < |bs| then st.cur + 1 else st.cur
  {
    hide Decode, C.Step, D.Step, Semantics.Step, Sim, D.Matches, D.Meets, D.Consumed, KP.PatchedWord;
    var res := Resources(bs, m.mem);
    D.StepFactor(st, d, w, res);
    StepSound(A, mask, bs, st, m, w);
    Emits(st, w, res);
    var s := C.Step(st, w, res).value;
    ShapeKeepsResources(bs, m.mem, Semantics.Step(A, mask, bs, m, s.out[|st.out|]).value.mem);
  }

  /** A refused program of well-formed words runs into undefined behaviour. */
  lemma {:induction false} RunRefused<T>(A: Arith<T>, mask: nat, bs: seq<Binding>, st: C.State, d: D.State, m: Machine<T>, ws: seq<Word>)
    requires Together(st, d, m, bs, mask) && mask % 4 == 3
    requires D.Run(d, ws, |bs|).Some? && C.Run(st, ws, Resources(bs, m.mem)).None?
    ensures Run(A, mask, bs, m, KP.PatchedWords(ws, st.cur, KP.Addrs(Resources(bs, m.mem)))).None?
    decreases |ws|
  {
    hide Decode, C.Step, D.Step, Semantics.Step, Sim, D.Matches, D.Meets, D.Consumed, KP.PatchedWord, KP.PatchedWords;
    var res, w := Resources(bs, m.mem), ws[0];
    var addrs := KP.Addrs(res);
    assert ws == [w] + ws[1..];
    PatchedCons(w, ws[1..], st.cur, addrs);
    if C.Step(st, w, res).None? {
      StepRefused(A, mask, bs, st, d, m, w);
    } else {
      StepTogether(A, mask, bs, st, d, m, w);
      var r := Semantics.Step(A, mask, bs, m, KP.PatchedWord(w, st.cur, addrs)).value;
      ShapeKeepsResources(bs, m.mem, r.mem);
      hide Together;
      RunRefused(A, mask, bs, C.Step(st, w, res).value, D.Step(d, w, |bs|).value, r, ws[1..]);
    }
  }

  /** The word an accepted command leaves is the patched one. */
  lemma Emits(st: C.State, w: Word, res: seq<C.Res>)
    requires C.Wf(st, res) && C.Step(st, w, res).Some?
    ensures st.cur <= |res|
    ensures
      var s := C.Step(st, w, res).value;
      && s.out[|st.out|] == KP.PatchedWord(w, st.cur, KP.Addrs(res))
      && s.cur == if Decode(w).SetReg? && st.cur < |res| then st.cur + 1 else st.cur
  {
    hide Decode, C.Step, PatchAddr;
    C.StepShape(st, w, res);
  }

  /**
   The range checks are exact.  For words that are well formed by themselves, any bindings and
   any thread states: the checker accepts if and only if executing the patched program, with
   both VPUs on, never reads or writes outside a bound buffer.
   */
  lemma AcceptedIffDefined<T>(A: Arith<T>, mask: nat, ws: seq<Word>, bs: seq<Binding>, m: Machine<T>)
    requires |m.ts| == NR_TID && Bound(bs, m.mem) && mask % 4 == 3 && D.Of(ws, |bs|).Some?
    ensures
      C.Check(ws, Resources(bs, m.mem)).Some? <==>
      Run(A, mask, bs, m, KP.PatchedWords(ws, 0, KP.Addrs(Resources(bs, m.mem)))).Some?
  {
    hide C.Run, D.Run, Semantics.Run, KP.PatchedWords;
    var res := Resources(bs, m.mem);
    var st, d := C.Init(|bs|), D.Init(|bs|);
    if C.Check(ws, res).Some? {
      RunSound(A, mask, bs, st, m, ws);
      KP.OutIsPatched(st, ws, res);
      assert [] + KP.PatchedWords(ws, 0, KP.Addrs(res)) == Emitted(st, ws, res);
    } else {
      RunRefused(A, mask, bs, st, d, m, ws);
    }
  }
}
