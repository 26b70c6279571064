/**
 The static program checker.  The user-space emulator (ProgramAssembler) and the kernel
 driver (prog_prepare) run the same algorithm over the same thread states.
 */
module Checker {
  // The two differ only in the address written into a SETRx command: a resource number in the
  // emulator, a DMA word address in the kernel.  That address is part of the resource
  // description here.

  import opened Isa
  import opened Wrappers

  /** A bound resource: length of its buffer, index into it, and the address SETRx is patched with. */
  datatype Res = Res(blen: nat, index: nat, addr: nat)

  /** en: -1 unknown, 0 disabled, 1 enabled; register indexes and vlen are -1 while unset. */
  datatype Thread = Thread(
    en: int, aSet: bool, rs: int, rsLen: int, rt: int, rtLen: int, rd: int, rdLen: int, vlen: int)

  const RESET := Thread(-1, false, -1, 0, -1, 0, -1, 0, -1)

  /** vlens and cmdpcs belong to the resources; out is the patched program so far. */
  datatype State = State(ts: seq<Thread>, cur: nat, vlens: seq<int>, cmdpcs: seq<int>, out: seq<Word>)

  function Init(n: nat): State {
    State(seq(NR_TID, i => RESET), 0, seq(n, i => -1), seq(n, i => -1), [])
  }

  /** The command both checkers append: stop and raise the completion interrupt. */
  const SYNC_STOP: Word := SYNC * OP_UNIT + 3

  predicate WfThread(t: Thread, res: seq<Res>) {
    && -1 <= t.en <= 1 && -1 <= t.vlen < LEN_LIMIT
    && WfReg(t.rs, t.rsLen, res) && WfReg(t.rt, t.rtLen, res) && WfReg(t.rd, t.rdLen, res)
  }

  predicate WfReg(i: int, len: int, res: seq<Res>) {
    -1 <= i < |res| && (i >= 0 ==> res[i].index <= res[i].blen && len == res[i].blen - res[i].index)
  }

  predicate Wf(st: State, res: seq<Res>) {
    && |st.ts| == NR_TID && st.cur <= |res| == |st.vlens| == |st.cmdpcs|
    && forall t :: 0 <= t < NR_TID ==> WfThread(st.ts[t], res)
  }

  function Bind(t: Thread, reg: Reg, i: nat, len: nat): Thread {
    match reg
    case Rs => t.(rs := i, rsLen := len)
    case Rt => t.(rt := i, rtLen := len)
    case Rd => t.(rd := i, rdLen := len)
  }

  function Min(a: int, b: int): int { if a < b then a else b }

  predicate ProdReady(t: Thread) {
    t.aSet && t.rs >= 0 && t.rt >= 0 && t.vlen >= 0 && t.vlen <= Min(t.rsLen, t.rtLen)
  }

  predicate StoreReady(t: Thread) { t.aSet && t.rd >= 0 && t.rdLen != 0 }

  /** PROD over threads lo..hi: every thread decided, enabled ones ready; records vector lengths. */
  function VerifProd(ts: seq<Thread>, vlens: seq<int>, lo: nat, hi: nat): (r: Option<seq<int>>)
    requires lo <= hi <= |ts|
    requires forall t :: lo <= t < hi ==> ts[t].rs < |vlens| && ts[t].rt < |vlens|
    ensures r.Some? ==> |r.value| == |vlens|
    decreases hi - lo
  {
    if lo == hi then Some(vlens)
    else if ts[lo].en < 0 then None
    else if ts[lo].en == 0 then VerifProd(ts, vlens, lo + 1, hi)
    else if !ProdReady(ts[lo]) then None
    else VerifProd(ts, vlens[ts[lo].rs := ts[lo].vlen][ts[lo].rt := ts[lo].vlen], lo + 1, hi)
  }

  function VerifStore(ts: seq<Thread>, vlens: seq<int>, lo: nat, hi: nat): (r: Option<seq<int>>)
    requires lo <= hi <= |ts|
    requires forall t :: lo <= t < hi ==> ts[t].rd < |vlens|
    ensures r.Some? ==> |r.value| == |vlens|
    decreases hi - lo
  {
    if lo == hi then Some(vlens)
    else if ts[lo].en < 0 then None
    else if ts[lo].en == 0 then VerifStore(ts, vlens, lo + 1, hi)
    else if !StoreReady(ts[lo]) then None
    else VerifStore(ts, vlens[ts[lo].rd := 1], lo + 1, hi)
  }

  /** One command; None is EINVAL. */
  function Step(st: State, w: Word, res: seq<Res>): (r: Option<State>)
    requires Wf(st, res)
    ensures r.Some? ==> Wf(r.value, res) && |r.value.out| == |st.out| + 1
  {
    var st' := st.(out := st.out + [w]);
    match Decode(w)
    case SetAcc(t, _) => Some(st'.(ts := st.ts[t := st.ts[t].(aSet := true)]))
    case SetVl(t, len) => Some(st'.(ts := st.ts[t := st.ts[t].(vlen := len)]))
    case SetEn(t, en) => Some(st'.(ts := st.ts[t := st.ts[t].(en := if en then 1 else 0)]))
    case SetReg(reg, t, _) =>
      if st.cur >= |res| || res[st.cur].index > res[st.cur].blen then None
      else
        var r := res[st.cur];
        Some(State(st.ts[t := Bind(st.ts[t], reg, st.cur, r.blen - r.index)], st.cur + 1, st.vlens,
                   st.cmdpcs[st.cur := |st.out|], st.out + [PatchAddr(w, r.addr)]))
    case Prod(lo, hi) =>
      var v := VerifProd(st.ts, st.vlens, lo, hi);
      if v.None? then None else Some(st'.(vlens := v.value))
    case Store(lo, hi) =>
      var v := VerifStore(st.ts, st.vlens, lo, hi);
      if v.None? then None else Some(st'.(vlens := v.value))
    case Sync(stop, intr) => if stop || intr then None else Some(st')
    case Actf(_, _, _) => Some(st')
    case Nop => Some(st')
    case Invalid => None
  }

  function Run(st: State, ws: seq<Word>, res: seq<Res>): (r: Option<State>)
    requires Wf(st, res)
    ensures r.Some? ==> Wf(r.value, res) && |r.value.out| == |st.out| + |ws|
    decreases |ws|
  {
    if ws == [] then Some(st)
    else
      var s := Step(st, ws[0], res);
      if s.None? then None else Run(s.value, ws[1..], res)
  }

  /** The whole check of a program against its resources. */
  function Check(ws: seq<Word>, res: seq<Res>): (r: Option<State>)
    ensures r.Some? ==> Wf(r.value, res) && |r.value.out| == |ws|
  {
    Run(Init(|res|), ws, res)
  }

  lemma {:induction false} RunAppend(st: State, a: seq<Word>, b: seq<Word>, res: seq<Res>)
    requires Wf(st, res)
    ensures Run(st, a + b, res) ==
            (var m := Run(st, a, res); if m.None? then None else Run(m.value, b, res))
    decreases |a|
  {
    if a == [] {
      assert a + b == b;
    } else {
      assert (a + b)[0] == a[0] && (a + b)[1..] == a[1..] + b;
      var s := Step(st, a[0], res);
      if s.Some? {
        RunAppend(s.value, a[1..], b, res);
      }
    }
  }

  lemma RunSnoc(st: State, ws: seq<Word>, n: nat, res: seq<Res>)
    requires Wf(st, res) && n < |ws|
    ensures Run(st, ws[..n + 1], res) ==
            (var m := Run(st, ws[..n], res); if m.None? then None else Step(m.value, ws[n], res))
  {
    assert ws[..n + 1] == ws[..n] + [ws[n]];
    RunAppend(st, ws[..n], [ws[n]], res);
    var m := Run(st, ws[..n], res);
    if m.Some? && Step(m.value, ws[n], res).Some? {
      assert [ws[n]][1..] == [];
    }
  }

  /** Checking is compositional: a rejected prefix rejects the program. */
  lemma RunPrefix(st: State, ws: seq<Word>, n: nat, res: seq<Res>)
    requires Wf(st, res) && n <= |ws|
    ensures Run(st, ws, res).Some? ==> Run(st, ws[..n], res).Some?
  {
    assert ws == ws[..n] + ws[n..];
    RunAppend(st, ws[..n], ws[n..], res);
  }

  lemma {:induction false} VerifProdSplit(ts: seq<Thread>, vlens: seq<int>, lo: nat, mid: nat, hi: nat)
    requires lo <= mid <= hi <= |ts|
    requires forall t :: lo <= t < hi ==> ts[t].rs < |vlens| && ts[t].rt < |vlens|
    ensures VerifProd(ts, vlens, lo, hi) ==
            (var m := VerifProd(ts, vlens, lo, mid);
             if m.None? then None else VerifProd(ts, m.value, mid, hi))
    decreases mid - lo
  {
    if lo < mid && ts[lo].en >= 0 {
      if ts[lo].en == 0 {
        VerifProdSplit(ts, vlens, lo + 1, mid, hi);
      } else if ProdReady(ts[lo]) {
        VerifProdSplit(ts, vlens[ts[lo].rs := ts[lo].vlen][ts[lo].rt := ts[lo].vlen], lo + 1, mid, hi);
      }
    }
  }

  lemma {:induction false} VerifStoreSplit(ts: seq<Thread>, vlens: seq<int>, lo: nat, mid: nat, hi: nat)
    requires lo <= mid <= hi <= |ts|
    requires forall t :: lo <= t < hi ==> ts[t].rd < |vlens|
    ensures VerifStore(ts, vlens, lo, hi) ==
            (var m := VerifStore(ts, vlens, lo, mid);
             if m.None? then None else VerifStore(ts, m.value, mid, hi))
    decreases mid - lo
  {
    if lo < mid && ts[lo].en >= 0 {
      if ts[lo].en == 0 {
        VerifStoreSplit(ts, vlens, lo + 1, mid, hi);
      } else if StoreReady(ts[lo]) {
        VerifStoreSplit(ts, vlens[ts[lo].rd := 1], lo + 1, mid, hi);
      }
    }
  }

  /** What acceptance of a PROD says about every thread it reaches. */
  lemma {:induction false} VerifProdMeans(ts: seq<Thread>, vlens: seq<int>, lo: nat, hi: nat)
    requires lo <= hi <= |ts|
    requires forall t :: lo <= t < hi ==> ts[t].rs < |vlens| && ts[t].rt < |vlens|
    ensures VerifProd(ts, vlens, lo, hi).Some? <==>
            forall t :: lo <= t < hi ==> ts[t].en >= 0 && (ts[t].en != 0 ==> ProdReady(ts[t]))
    decreases hi - lo
  {
    if lo < hi && ts[lo].en >= 0 {
      if ts[lo].en == 0 {
        VerifProdMeans(ts, vlens, lo + 1, hi);
      } else if ProdReady(ts[lo]) {
        VerifProdMeans(ts, vlens[ts[lo].rs := ts[lo].vlen][ts[lo].rt := ts[lo].vlen], lo + 1, hi);
      }
    }
  }

  lemma {:induction false} VerifStoreMeans(ts: seq<Thread>, vlens: seq<int>, lo: nat, hi: nat)
    requires lo <= hi <= |ts|
    requires forall t :: lo <= t < hi ==> ts[t].rd < |vlens|
    ensures VerifStore(ts, vlens, lo, hi).Some? <==>
            forall t :: lo <= t < hi ==> ts[t].en >= 0 && (ts[t].en != 0 ==> StoreReady(ts[t]))
    decreases hi - lo
  {
    if lo < hi && ts[lo].en >= 0 {
      if ts[lo].en == 0 {
        VerifStoreMeans(ts, vlens, lo + 1, hi);
      } else if StoreReady(ts[lo]) {
        VerifStoreMeans(ts, vlens[ts[lo].rd := 1], lo + 1, hi);
      }
    }
  }

  // ---- Layout of the patched program ----

  /** Number of SETRx commands among the first n words. */
  function RegCount(ws: seq<Word>, n: nat): nat
    requires n <= |ws|
  {
    if n == 0 then 0 else RegCount(ws, n - 1) + (if Decode(ws[n - 1]).SetReg? then 1 else 0)
  }

  /** The k-th SETRx consumes resource k and is patched with its address; other words stay. */
  predicate WordsLaidOut(ws: seq<Word>, res: seq<Res>, st: State, n: nat)
    requires n <= |ws| && Wf(st, res)
  {
    && |st.out| == n && st.cur == RegCount(ws, n)
    && (forall j :: 0 <= j < n ==> if Decode(ws[j]).SetReg?
          then var k := RegCount(ws, j);
               k < st.cur && st.out[j] == PatchAddr(ws[j], res[k].addr) && st.cmdpcs[k] == j
          else st.out[j] == ws[j])
    && (forall k :: 0 <= k < st.cur ==>
          0 <= st.cmdpcs[k] < n && Decode(ws[st.cmdpcs[k]]).SetReg? && RegCount(ws, st.cmdpcs[k]) == k)
  }

  /** Resources that no SETRx has taken yet are untouched and unreferenced. */
  predicate RestUnused(res: seq<Res>, st: State)
    requires Wf(st, res)
  {
    && (forall k :: st.cur <= k < |res| ==> st.cmdpcs[k] == -1 && st.vlens[k] == -1)
    && (forall t :: 0 <= t < NR_TID ==>
          st.ts[t].rs < st.cur && st.ts[t].rt < st.cur && st.ts[t].rd < st.cur)
  }

  predicate Layout(ws: seq<Word>, res: seq<Res>, st: State, n: nat)
    requires n <= |ws| && Wf(st, res)
  {
    WordsLaidOut(ws, res, st, n) && RestUnused(res, st)
  }

  lemma {:induction false} VerifFrame(ts: seq<Thread>, vlens: seq<int>, lo: nat, hi: nat, cur: nat, k: nat)
    requires lo <= hi <= |ts| && cur <= k < |vlens|
    requires forall t :: lo <= t < hi ==> ts[t].rs < cur && ts[t].rt < cur && ts[t].rd < cur
    ensures var p := VerifProd(ts, vlens, lo, hi); p.Some? ==> p.value[k] == vlens[k]
    ensures var p := VerifStore(ts, vlens, lo, hi); p.Some? ==> p.value[k] == vlens[k]
    decreases hi - lo
  {
    if lo < hi {
      VerifFrame(ts, vlens, lo + 1, hi, cur, k);
      if ProdReady(ts[lo]) {
        VerifFrame(ts, vlens[ts[lo].rs := ts[lo].vlen][ts[lo].rt := ts[lo].vlen], lo + 1, hi, cur, k);
      }
      if StoreReady(ts[lo]) {
        VerifFrame(ts, vlens[ts[lo].rd := 1], lo + 1, hi, cur, k);
      }
    }
  }

  /** How one accepted command changes the resource counter, the output and the command indexes. */
  lemma StepShape(st: State, w: Word, res: seq<Res>)
    requires Wf(st, res)
    ensures var s := Step(st, w, res); s.Some? ==>
      if Decode(w).SetReg? then
        && st.cur < |res| && s.value.cur == st.cur + 1 && s.value.cmdpcs == st.cmdpcs[st.cur := |st.out|]
        && s.value.out == st.out + [PatchAddr(w, res[st.cur].addr)]
      else s.value.cur == st.cur && s.value.cmdpcs == st.cmdpcs && s.value.out == st.out + [w]
  {
  }

  lemma WordsStep(ws: seq<Word>, res: seq<Res>, st: State, v: State, n: nat)
    requires n < |ws| && Wf(st, res) && Wf(v, res) && WordsLaidOut(ws, res, st, n)
    requires
      if Decode(ws[n]).SetReg? then
        && st.cur < |res| && v.cur == st.cur + 1 && v.cmdpcs == st.cmdpcs[st.cur := |st.out|]
        && v.out == st.out + [PatchAddr(ws[n], res[st.cur].addr)]
      else v.cur == st.cur && v.cmdpcs == st.cmdpcs && v.out == st.out + [ws[n]]
    ensures WordsLaidOut(ws, res, v, n + 1)
  {
    hide Decode, PatchAddr;
    forall j | 0 <= j < n + 1
      ensures if Decode(ws[j]).SetReg?
        then var k := RegCount(ws, j);
             k < v.cur && v.out[j] == PatchAddr(ws[j], res[k].addr) && v.cmdpcs[k] == j
        else v.out[j] == ws[j]
    {
      if j < n {
        assert v.out[j] == st.out[j];
      }
    }
  }

  lemma RestStep(res: seq<Res>, st: State, w: Word)
    requires Wf(st, res) && RestUnused(res, st)
    ensures var s := Step(st, w, res); s.Some? ==> RestUnused(res, s.value)
  {
    match Decode(w)
    case Prod(lo, hi) =>
      forall k | st.cur <= k < |res| { VerifFrame(st.ts, st.vlens, lo, hi, st.cur, k); }
    case Store(lo, hi) =>
      forall k | st.cur <= k < |res| { VerifFrame(st.ts, st.vlens, lo, hi, st.cur, k); }
    case _ =>
  }

  /** An accepted program is the original one with each SETRx patched from its own resource. */
  lemma {:induction false} CheckLayout(ws: seq<Word>, res: seq<Res>, n: nat)
    requires n <= |ws|
    ensures var s := Run(Init(|res|), ws[..n], res); s.Some? ==> Layout(ws, res, s.value, n)
  {
    if n > 0 {
      CheckLayout(ws, res, n - 1);
      RunSnoc(Init(|res|), ws, n - 1, res);
      var s := Run(Init(|res|), ws[..n - 1], res);
      if s.Some? {
        StepShape(s.value, ws[n - 1], res);
        RestStep(res, s.value, ws[n - 1]);
        var v := Step(s.value, ws[n - 1], res);
        if v.Some? {
          WordsStep(ws, res, s.value, v.value, n - 1);
        }
      }
    }
  }

  lemma Accepted(ws: seq<Word>, res: seq<Res>)
    ensures var s := Check(ws, res); s.Some? ==> Layout(ws, res, s.value, |ws|)
  {
    CheckLayout(ws, res, |ws|);
    assert ws[..|ws|] == ws;
  }
}
