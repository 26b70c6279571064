/**
 The kernel's view of a checked program: SETRx commands are patched with DMA word addresses.
 */
module KernelProg {
  // The hardware dereferences the addresses blindly, and a command buffer can later be re-bound
  // to other buffers (vxe_prog_swap_res) on the strength of the recorded vector lengths alone.

  import opened Isa
  import opened Wrappers
  import C = Checker
  import D = Demand

  /** Size of a vector element in bytes. */
  const VESZ: nat := 4
  /** The device addresses 40 bits. */
  const DMA_LIMIT: nat := 0x100_0000_0000

  /** A DMA buffer: size in bytes and bus address. */
  datatype Buf = Buf(size: nat, dma: nat)

  predicate Mapped(b: Buf) { b.dma % VESZ == 0 && b.dma + b.size <= DMA_LIMIT }

  function ResOf(b: Buf, index: nat): C.Res { C.Res(b.size / VESZ, index, b.dma / VESZ + index) }

  function ResAll(bufs: seq<Buf>, indexes: seq<nat>): (res: seq<C.Res>)
    requires |bufs| == |indexes|
    ensures |res| == |bufs|
  {
    seq(|bufs|, i requires 0 <= i < |bufs| => ResOf(bufs[i], indexes[i]))
  }

  // ---- What the hardware touches ----

  /** Registers of a hardware thread that decide which memory it touches. */
  datatype HwRegs = HwRegs(en: bool, rs: nat, rt: nat, rd: nat, vlen: nat)

  /** len words from a word address. */
  datatype Access = Access(addr: nat, len: nat)

  /** len words of the buffer bound as resource res, from its index on. */
  datatype Touch = Touch(res: int, len: int)

  function SetHw(t: HwRegs, reg: Reg, addr: nat): HwRegs {
    match reg
    case Rs => t.(rs := addr)
    case Rt => t.(rt := addr)
    case Rd => t.(rd := addr)
  }

  function ProdAccesses(ts: seq<HwRegs>, lo: nat, hi: nat): seq<Access>
    requires lo <= hi <= |ts|
    decreases hi - lo
  {
    if lo == hi then []
    else (if ts[lo].en then [Access(ts[lo].rs, ts[lo].vlen), Access(ts[lo].rt, ts[lo].vlen)] else [])
         + ProdAccesses(ts, lo + 1, hi)
  }

  function StoreAccesses(ts: seq<HwRegs>, lo: nat, hi: nat): seq<Access>
    requires lo <= hi <= |ts|
    decreases hi - lo
  {
    if lo == hi then []
    else (if ts[lo].en then [Access(ts[lo].rd, 1)] else []) + StoreAccesses(ts, lo + 1, hi)
  }

  function HwNext(ts: seq<HwRegs>, w: Word): (r: seq<HwRegs>)
    requires |ts| == NR_TID
    ensures |r| == NR_TID
  {
    match Decode(w)
    case SetVl(t, len) => ts[t := ts[t].(vlen := len)]
    case SetEn(t, en) => ts[t := ts[t].(en := en)]
    case SetReg(reg, t, addr) => ts[t := SetHw(ts[t], reg, addr)]
    case _ => ts
  }

  function HwAccesses(ts: seq<HwRegs>, w: Word): seq<Access>
    requires |ts| == NR_TID
  {
    match Decode(w)
    case Prod(lo, hi) => ProdAccesses(ts, lo, hi)
    case Store(lo, hi) => StoreAccesses(ts, lo, hi)
    case _ => []
  }

  /** All memory accesses of a program, in order, from any register contents. */
  function HwRun(ts: seq<HwRegs>, ws: seq<Word>): seq<Access>
    requires |ts| == NR_TID
    decreases |ws|
  {
    if ws == [] then [] else HwAccesses(ts, ws[0]) + HwRun(HwNext(ts, ws[0]), ws[1..])
  }

  // ---- What the command words say about it ----

  function ProdTouches(ts: seq<D.Thread>, lo: nat, hi: nat): seq<Touch>
    requires lo <= hi <= |ts|
    decreases hi - lo
  {
    if lo == hi then []
    else (if ts[lo].en > 0 then [Touch(ts[lo].rs, ts[lo].vlen), Touch(ts[lo].rt, ts[lo].vlen)] else [])
         + ProdTouches(ts, lo + 1, hi)
  }

  function StoreTouches(ts: seq<D.Thread>, lo: nat, hi: nat): seq<Touch>
    requires lo <= hi <= |ts|
    decreases hi - lo
  {
    if lo == hi then []
    else (if ts[lo].en > 0 then [Touch(ts[lo].rd, 1)] else []) + StoreTouches(ts, lo + 1, hi)
  }

  function StepTouches(d: D.State, w: Word): seq<Touch>
    requires |d.ts| == NR_TID
  {
    match Decode(w)
    case Prod(lo, hi) => ProdTouches(d.ts, lo, hi)
    case Store(lo, hi) => StoreTouches(d.ts, lo, hi)
    case _ => []
  }

  function Touches(d: D.State, ws: seq<Word>, n: nat): seq<Touch>
    requires D.Wf(d, n) && D.Run(d, ws, n).Some?
    decreases |ws|
  {
    if ws == [] then [] else StepTouches(d, ws[0]) + Touches(D.Step(d, ws[0], n).value, ws[1..], n)
  }

  function ProgramTouches(ws: seq<Word>, n: nat): seq<Touch>
    requires D.Of(ws, n).Some?
  {
    Touches(D.Init(n), ws, n)
  }

  // ---- The hardware does exactly that ----

  /** Where a touch lands, given the word addresses of the resources. */
  function Locate(addrs: seq<nat>, t: Touch): Access
    requires 0 <= t.res < |addrs| && t.len >= 0
  {
    Access(addrs[t.res] % ADDR_LIMIT, t.len)
  }

  predicate Known(i: int, hw: nat, addrs: seq<nat>) { i >= 0 ==> i < |addrs| && hw == addrs[i] % ADDR_LIMIT }

  predicate HwSim(d: D.State, ts: seq<HwRegs>, addrs: seq<nat>) {
    && |d.ts| == |ts| == NR_TID
    && forall t :: 0 <= t < NR_TID ==>
         && (d.ts[t].en >= 0 ==> (ts[t].en <==> d.ts[t].en > 0))
         && (d.ts[t].vlen >= 0 ==> ts[t].vlen == d.ts[t].vlen)
         && Known(d.ts[t].rs, ts[t].rs, addrs) && Known(d.ts[t].rt, ts[t].rt, addrs)
         && Known(d.ts[t].rd, ts[t].rd, addrs)
  }

  /** A word as patched when the next resource is number cur. */
  function PatchedWord(w: Word, cur: nat, addrs: seq<nat>): Word
    requires cur <= |addrs|
  {
    if Decode(w).SetReg? && cur < |addrs| then PatchAddr(w, addrs[cur]) else w
  }

  function PatchedWords(ws: seq<Word>, cur: nat, addrs: seq<nat>): (r: seq<Word>)
    requires cur <= |addrs|
    ensures |r| == |ws|
    decreases |ws|
  {
    if ws == [] then []
    else
      var next := if Decode(ws[0]).SetReg? && cur < |addrs| then cur + 1 else cur;
      [PatchedWord(ws[0], cur, addrs)] + PatchedWords(ws[1..], next, addrs)
  }

  predicate Located(ts: seq<Touch>, xs: seq<Access>, addrs: seq<nat>) {
    && |ts| == |xs|
    && forall k :: 0 <= k < |ts| ==> 0 <= ts[k].res < |addrs| && ts[k].len >= 0 && xs[k] == Locate(addrs, ts[k])
  }

  lemma LocatedAppend(a: seq<Touch>, x: seq<Access>, b: seq<Touch>, y: seq<Access>, addrs: seq<nat>)
    requires Located(a, x, addrs) && Located(b, y, addrs)
    ensures Located(a + b, x + y, addrs)
  {
  }

  lemma NothingLocated(addrs: seq<nat>)
    ensures Located([], [], addrs)
  {
  }

  lemma {:induction false} ProdLocated(d: D.State, ts: seq<HwRegs>, u: D.Use, addrs: seq<nat>, lo: nat, hi: nat)
    requires D.Wf(d, |addrs|) && HwSim(d, ts, addrs) && lo <= hi <= NR_TID && D.WfUse(u, |addrs|)
    requires D.Prod(d.ts, u, |addrs|, lo, hi).Some?
    ensures Located(ProdTouches(d.ts, lo, hi), ProdAccesses(ts, lo, hi), addrs)
    decreases hi - lo
  {
    assert |ts| == NR_TID;
    hide HwSim, Located, D.Note;
    NothingLocated(addrs);
    if lo < hi {
      var t := d.ts[lo];
      assert D.WfThread(t, |addrs|);
      if t.en > 0 {
        ProdLocated(d, ts, D.Note(D.Note(u, t.rs, t.vlen), t.rt, t.vlen), addrs, lo + 1, hi);
        LocatedAppend([Touch(t.rs, t.vlen), Touch(t.rt, t.vlen)], [Access(ts[lo].rs, ts[lo].vlen), Access(ts[lo].rt, ts[lo].vlen)],
                      ProdTouches(d.ts, lo + 1, hi), ProdAccesses(ts, lo + 1, hi), addrs);
      } else {
        ProdLocated(d, ts, u, addrs, lo + 1, hi);
        LocatedAppend([], [], ProdTouches(d.ts, lo + 1, hi), ProdAccesses(ts, lo + 1, hi), addrs);
      }
    }
  }

  lemma {:induction false} StoreLocated(d: D.State, ts: seq<HwRegs>, u: D.Use, addrs: seq<nat>, lo: nat, hi: nat)
    requires D.Wf(d, |addrs|) && HwSim(d, ts, addrs) && lo <= hi <= NR_TID && D.WfUse(u, |addrs|)
    requires D.Store(d.ts, u, |addrs|, lo, hi).Some?
    ensures Located(StoreTouches(d.ts, lo, hi), StoreAccesses(ts, lo, hi), addrs)
    decreases hi - lo
  {
    assert |ts| == NR_TID;
    hide HwSim, Located, D.Note;
    NothingLocated(addrs);
    if lo < hi {
      var t := d.ts[lo];
      assert D.WfThread(t, |addrs|);
      if t.en > 0 {
        StoreLocated(d, ts, D.Note(u, t.rd, 1), addrs, lo + 1, hi);
        LocatedAppend([Touch(t.rd, 1)], [Access(ts[lo].rd, 1)],
                      StoreTouches(d.ts, lo + 1, hi), StoreAccesses(ts, lo + 1, hi), addrs);
      } else {
        StoreLocated(d, ts, u, addrs, lo + 1, hi);
        LocatedAppend([], [], StoreTouches(d.ts, lo + 1, hi), StoreAccesses(ts, lo + 1, hi), addrs);
      }
    }
  }

  lemma SetRegLocated(d: D.State, ts: seq<HwRegs>, w: Word, addrs: seq<nat>)
    requires D.Wf(d, |addrs|) && HwSim(d, ts, addrs) && D.Step(d, w, |addrs|).Some? && Decode(w).SetReg?
    ensures
      var p := PatchedWord(w, d.cur, addrs);
      HwAccesses(ts, p) == [] && HwSim(D.Step(d, w, |addrs|).value, HwNext(ts, p), addrs)
  {
    hide Decode;
    PatchDecodes(w, addrs[d.cur]);
  }

  lemma OtherLocated(d: D.State, ts: seq<HwRegs>, w: Word, addrs: seq<nat>)
    requires D.Wf(d, |addrs|) && HwSim(d, ts, addrs) && D.Step(d, w, |addrs|).Some? && !Decode(w).SetReg?
    ensures HwSim(D.Step(d, w, |addrs|).value, HwNext(ts, w), addrs)
  {
    hide Decode;
  }

  lemma StepLocated(d: D.State, ts: seq<HwRegs>, w: Word, addrs: seq<nat>)
    requires D.Wf(d, |addrs|) && HwSim(d, ts, addrs) && D.Step(d, w, |addrs|).Some?
    ensures
      var p := PatchedWord(w, d.cur, addrs);
      && Located(StepTouches(d, w), HwAccesses(ts, p), addrs)
      && HwSim(D.Step(d, w, |addrs|).value, HwNext(ts, p), addrs)
  {
    hide HwSim, Decode, HwNext, Located;
    NothingLocated(addrs);
    if Decode(w).SetReg? {
      SetRegLocated(d, ts, w, addrs);
    } else {
      OtherLocated(d, ts, w, addrs);
    }
    match Decode(w)
    case Prod(lo, hi) => ProdLocated(d, ts, d.use, addrs, lo, hi);
    case Store(lo, hi) => StoreLocated(d, ts, d.use, addrs, lo, hi);
    case _ =>
  }

  lemma StepCur(d: D.State, w: Word, n: nat)
    requires D.Wf(d, n) && D.Step(d, w, n).Some?
    ensures D.Step(d, w, n).value.cur == if Decode(w).SetReg? && d.cur < n then d.cur + 1 else d.cur
  {
  }

  /** Whatever the registers held, the patched program touches what its words say, located by addrs. */
  lemma {:induction false} RunLocated(d: D.State, ts: seq<HwRegs>, ws: seq<Word>, addrs: seq<nat>)
    requires D.Wf(d, |addrs|) && HwSim(d, ts, addrs) && D.Run(d, ws, |addrs|).Some?
    ensures Located(Touches(d, ws, |addrs|), HwRun(ts, PatchedWords(ws, d.cur, addrs)), addrs)
    decreases |ws|
  {
    assert |ts| == NR_TID && |d.ts| == NR_TID && d.cur <= |addrs|;
    hide HwSim, StepTouches, HwAccesses, HwNext, PatchedWord, D.Step, Decode, Located;
    NothingLocated(addrs);
    if ws != [] {
      var p, s := PatchedWord(ws[0], d.cur, addrs), D.Step(d, ws[0], |addrs|).value;
      StepLocated(d, ts, ws[0], addrs);
      StepCur(d, ws[0], |addrs|);
      RunLocated(s, HwNext(ts, p), ws[1..], addrs);
      var words := PatchedWords(ws, d.cur, addrs);
      assert words[0] == p && words[1..] == PatchedWords(ws[1..], s.cur, addrs);
      LocatedAppend(StepTouches(d, ws[0]), HwAccesses(ts, p), Touches(s, ws[1..], |addrs|), HwRun(HwNext(ts, p), words[1..]), addrs);
    }
  }

  function Addrs(res: seq<C.Res>): (r: seq<nat>)
    ensures |r| == |res|
  {
    seq(|res|, i requires 0 <= i < |res| => res[i].addr)
  }

  lemma {:induction false} OutIsPatched(st: C.State, ws: seq<Word>, res: seq<C.Res>)
    requires C.Wf(st, res) && C.Run(st, ws, res).Some?
    ensures C.Run(st, ws, res).value.out == st.out + PatchedWords(ws, st.cur, Addrs(res))
    decreases |ws|
  {
    hide C.Step, Decode, C.Wf;
    if ws == [] {
      assert st.out + [] == st.out;
    } else {
      var s := C.Step(st, ws[0], res).value;
      C.StepShape(st, ws[0], res);
      CurBounded(st, res);
      OutIsPatched(s, ws[1..], res);
      Assoc(st.out, [PatchedWord(ws[0], st.cur, Addrs(res))], PatchedWords(ws[1..], s.cur, Addrs(res)));
    }
  }

  lemma CurBounded(st: C.State, res: seq<C.Res>)
    requires C.Wf(st, res)
    ensures st.cur <= |res|
  {
  }

  // ---- Touches and demand ----

  predicate InRange(t: Touch, res: seq<C.Res>) {
    && 0 <= t.res < |res| && 0 <= t.len && res[t.res].index <= res[t.res].blen
    && t.len <= res[t.res].blen - res[t.res].index
  }

  predicate AllInRange(ts: seq<Touch>, res: seq<C.Res>) { forall k :: 0 <= k < |ts| ==> InRange(ts[k], res) }

  /** need is the greatest length among the touches of a resource, on top of what it was before. */
  ghost predicate Raised(u: D.Use, v: D.Use, ts: seq<Touch>, n: nat) {
    && D.WfUse(u, n) && D.WfUse(v, n)
    && (forall i :: 0 <= i < n ==> u.need[i] <= v.need[i])
    && (forall k :: 0 <= k < |ts| ==> 0 <= ts[k].res < n && 0 <= ts[k].len <= v.need[ts[k].res])
    && (forall i :: 0 <= i < n && u.need[i] != v.need[i] ==> Touch(i, v.need[i]) in ts)
  }

  lemma RaisedChain(u: D.Use, v: D.Use, w: D.Use, a: seq<Touch>, b: seq<Touch>, n: nat)
    requires Raised(u, v, a, n) && Raised(v, w, b, n)
    ensures Raised(u, w, a + b, n)
  {
    forall i | 0 <= i < n && u.need[i] != w.need[i]
      ensures Touch(i, w.need[i]) in a + b
    {
      if v.need[i] == w.need[i] {
        assert Touch(i, v.need[i]) in a;
      } else {
        assert Touch(i, w.need[i]) in b;
      }
    }
  }

  lemma NoteRaises(u: D.Use, i: nat, len: nat, n: nat)
    requires D.WfUse(u, n) && i < n
    ensures Raised(u, D.Note(u, i, len), [Touch(i, len)], n)
  {
    assert [Touch(i, len)][0] == Touch(i, len);
  }

  lemma {:induction false} ProdRaises(ts: seq<D.Thread>, u: D.Use, n: nat, lo: nat, hi: nat)
    requires lo <= hi <= |ts| && D.WfUse(u, n) && forall t :: lo <= t < hi ==> ts[t].rs < n && ts[t].rt < n && ts[t].rd < n
    requires D.Prod(ts, u, n, lo, hi).Some?
    ensures Raised(u, D.Prod(ts, u, n, lo, hi).value, ProdTouches(ts, lo, hi), n)
    decreases hi - lo
  {
    hide Raised, D.Note;
    if lo == hi {
      NothingRaises(u, n);
    } else {
      var t := ts[lo];
      if t.en > 0 {
        NoteRaises(u, t.rs, t.vlen, n);
        var v := D.Note(u, t.rs, t.vlen);
        NoteRaises(v, t.rt, t.vlen, n);
        var w := D.Note(v, t.rt, t.vlen);
        RaisedChain(u, v, w, [Touch(t.rs, t.vlen)], [Touch(t.rt, t.vlen)], n);
        ProdRaises(ts, w, n, lo + 1, hi);
        assert [Touch(t.rs, t.vlen)] + [Touch(t.rt, t.vlen)] == [Touch(t.rs, t.vlen), Touch(t.rt, t.vlen)];
        RaisedChain(u, w, D.Prod(ts, w, n, lo + 1, hi).value, [Touch(t.rs, t.vlen), Touch(t.rt, t.vlen)],
                    ProdTouches(ts, lo + 1, hi), n);
      } else {
        ProdRaises(ts, u, n, lo + 1, hi);
        assert [] + ProdTouches(ts, lo + 1, hi) == ProdTouches(ts, lo + 1, hi);
      }
    }
  }

  lemma NothingRaises(u: D.Use, n: nat)
    requires D.WfUse(u, n)
    ensures Raised(u, u, [], n)
  {
  }

  lemma {:induction false} StoreRaises(ts: seq<D.Thread>, u: D.Use, n: nat, lo: nat, hi: nat)
    requires lo <= hi <= |ts| && D.WfUse(u, n) && forall t :: lo <= t < hi ==> ts[t].rs < n && ts[t].rt < n && ts[t].rd < n
    requires D.Store(ts, u, n, lo, hi).Some?
    ensures Raised(u, D.Store(ts, u, n, lo, hi).value, StoreTouches(ts, lo, hi), n)
    decreases hi - lo
  {
    hide Raised, D.Note;
    if lo == hi {
      NothingRaises(u, n);
    } else {
      var t := ts[lo];
      if t.en > 0 {
        NoteRaises(u, t.rd, 1, n);
        var v := D.Note(u, t.rd, 1);
        StoreRaises(ts, v, n, lo + 1, hi);
        RaisedChain(u, v, D.Store(ts, v, n, lo + 1, hi).value, [Touch(t.rd, 1)], StoreTouches(ts, lo + 1, hi), n);
      } else {
        StoreRaises(ts, u, n, lo + 1, hi);
        assert [] + StoreTouches(ts, lo + 1, hi) == StoreTouches(ts, lo + 1, hi);
      }
    }
  }

  lemma {:induction false} RunRaises(d: D.State, ws: seq<Word>, n: nat)
    requires D.Wf(d, n) && D.Run(d, ws, n).Some?
    ensures Raised(d.use, D.Run(d, ws, n).value.use, Touches(d, ws, n), n)
    decreases |ws|
  {
    hide Raised, D.Prod, D.Store;
    if ws == [] {
      NothingRaises(d.use, n);
    } else {
      var s := D.Step(d, ws[0], n).value;
      match Decode(ws[0]) {
        case Prod(lo, hi) => ProdRaises(d.ts, d.use, n, lo, hi);
        case Store(lo, hi) => StoreRaises(d.ts, d.use, n, lo, hi);
        case _ => NothingRaises(d.use, n);
      }
      RunRaises(s, ws[1..], n);
      RaisedChain(d.use, s.use, D.Run(s, ws[1..], n).value.use, StepTouches(d, ws[0]), Touches(s, ws[1..], n), n);
    }
  }

  /** All touches are in range exactly when every used resource has room for its greatest length. */
  lemma RangeIffRoom(ws: seq<Word>, res: seq<C.Res>)
    requires D.Of(ws, |res|).Some?
    ensures
      var need := D.Of(ws, |res|).value.use.need;
      AllInRange(ProgramTouches(ws, |res|), res) <==>
      forall i :: 0 <= i < |res| && need[i] >= 0 ==> D.Room(res[i], need[i])
  {
    hide D.Run;
    RunRaises(D.Init(|res|), ws, |res|);
    var need, ts := D.Of(ws, |res|).value.use.need, ProgramTouches(ws, |res|);
    if AllInRange(ts, res) {
      forall i | 0 <= i < |res| && need[i] >= 0 ensures D.Room(res[i], need[i]) {
        assert Touch(i, need[i]) in ts;
      }
    }
  }

  // ---- Safety of a freshly assembled program ----

  /** A touch in range lies in the DMA range of its buffer, byte for byte. */
  lemma InsideBuffer(bufs: seq<Buf>, indexes: seq<nat>, t: Touch)
    requires |bufs| == |indexes| && InRange(t, ResAll(bufs, indexes)) && Mapped(bufs[t.res]) && t.len > 0
    ensures
      var b := bufs[t.res];
      var x := Locate(Addrs(ResAll(bufs, indexes)), t);
      x.addr == b.dma / VESZ + indexes[t.res] && b.dma <= x.addr * VESZ && (x.addr + x.len) * VESZ <= b.dma + b.size
  {
    var b := bufs[t.res];
    var addr := b.dma / VESZ + indexes[t.res];
    assert addr * VESZ == b.dma + indexes[t.res] * VESZ && addr < ADDR_LIMIT;
  }

  /** The state and words vxe_prog_assemble leaves for a command buffer. */
  function Assemble(ws: seq<Word>, bufs: seq<Buf>, indexes: seq<nat>): Option<C.State>
    requires |bufs| == |indexes|
  {
    C.Check(ws, ResAll(bufs, indexes))
  }

  lemma InitSim(ts: seq<HwRegs>, addrs: seq<nat>)
    requires |ts| == NR_TID
    ensures HwSim(D.Init(|addrs|), ts, addrs)
  {
  }

  // ---- Re-binding ----

  /** The check a swap makes: room for the recorded length of every resource that was used. */
  predicate SwapOk(vlens: seq<int>, res: seq<C.Res>) {
    |vlens| == |res| && forall i :: 0 <= i < |res| && vlens[i] >= 0 ==> D.Room(res[i], vlens[i])
  }

  /** Patch the commands of the used resources among the first n. */
  function SwapWords(prog: seq<Word>, vlens: seq<int>, cmdixs: seq<int>, res: seq<C.Res>, n: nat): (r: seq<Word>)
    requires n <= |vlens| == |cmdixs| == |res|
    requires forall i :: 0 <= i < n && vlens[i] >= 0 ==> 0 <= cmdixs[i] < |prog|
    ensures |r| == |prog|
    decreases n
  {
    if n == 0 then prog
    else
      var p := SwapWords(prog, vlens, cmdixs, res, n - 1);
      if vlens[n - 1] < 0 then p else p[cmdixs[n - 1] := ReplaceAddr(p[cmdixs[n - 1]], res[n - 1].addr)]
  }

  /** New addresses for the used resources among the first n, old ones for the rest. */
  function Mixed(vlens: seq<int>, old_: seq<nat>, new_: seq<nat>, n: nat): (r: seq<nat>)
    requires n <= |vlens| == |old_| == |new_|
    ensures |r| == |vlens|
  {
    seq(|vlens|, i requires 0 <= i < |vlens| => if i < n && vlens[i] >= 0 then new_[i] else old_[i])
  }

  /** Word j of a patched program. */
  lemma {:induction false} PatchedAt(ws: seq<Word>, cur: nat, addrs: seq<nat>, j: nat)
    requires cur + C.RegCount(ws, |ws|) <= |addrs| && j < |ws|
    ensures
      var k := cur + C.RegCount(ws, j);
      PatchedWords(ws, cur, addrs)[j] ==
      if Decode(ws[j]).SetReg? && k < |addrs| then PatchAddr(ws[j], addrs[k]) else ws[j]
    decreases |ws|
  {
    hide Decode, PatchAddr;
    CountTail(ws, |ws|);
    CountTail(ws, j);
    if j > 0 {
      var next := if Decode(ws[0]).SetReg? && cur < |addrs| then cur + 1 else cur;
      PatchedAt(ws[1..], next, addrs, j - 1);
    }
  }

  /** Counting SETRx commands after the first word. */
  lemma {:induction false} CountTail(ws: seq<Word>, n: nat)
    requires ws != [] && n <= |ws|
    ensures n > 0 ==> C.RegCount(ws, n) == (if Decode(ws[0]).SetReg? then 1 else 0) + C.RegCount(ws[1..], n - 1)
    decreases n
  {
    hide Decode;
    if n > 1 {
      CountTail(ws, n - 1);
      assert ws[1..][n - 2] == ws[n - 1];
    }
  }

  /** What the checker records: used resources were consumed, and their command is known. */
  predicate Recorded(ws: seq<Word>, st: C.State, n: nat) {
    && |st.vlens| == |st.cmdpcs| == n && C.RegCount(ws, |ws|) <= n
    && (forall i :: 0 <= i < n && st.vlens[i] >= 0 ==>
          0 <= st.cmdpcs[i] < |ws| && Decode(ws[st.cmdpcs[i]]).SetReg? && C.RegCount(ws, st.cmdpcs[i]) == i)
    && (forall j :: 0 <= j < |ws| && Decode(ws[j]).SetReg? ==>
          var k := C.RegCount(ws, j); k < n && st.cmdpcs[k] == j)
  }

  lemma CheckRecords(ws: seq<Word>, res: seq<C.Res>)
    requires C.Check(ws, res).Some?
    ensures Recorded(ws, C.Check(ws, res).value, |res|)
  {
    hide C.Run, Decode;
    C.Accepted(ws, res);
  }

  /** One patched command changes one address of the mixture. */
  lemma SwapOne(ws: seq<Word>, st: C.State, a: seq<nat>, b: seq<nat>, k: nat, x: nat, j: nat)
    requires |a| == |b| && k < |a| && Recorded(ws, st, |a|) && st.vlens[k] >= 0 && j < |ws|
    requires b[k] == x && forall i :: 0 <= i < |a| && i != k ==> b[i] == a[i]
    ensures
      var p := PatchedWords(ws, 0, a);
      PatchedWords(ws, 0, b)[j] == p[st.cmdpcs[k] := ReplaceAddr(p[st.cmdpcs[k]], x)][j]
  {
    hide Decode, PatchAddr, ReplaceAddr, PatchedWords;
    PatchedAt(ws, 0, a, j);
    PatchedAt(ws, 0, b, j);
    ReplacePatched(ws[j], a[k], x);
  }

  lemma SwapEvery(ws: seq<Word>, st: C.State, a: seq<nat>, b: seq<nat>, k: nat, x: nat)
    requires |a| == |b| && k < |a| && Recorded(ws, st, |a|) && st.vlens[k] >= 0
    requires b[k] == x && forall i :: 0 <= i < |a| && i != k ==> b[i] == a[i]
    ensures
      var p := PatchedWords(ws, 0, a);
      PatchedWords(ws, 0, b) == p[st.cmdpcs[k] := ReplaceAddr(p[st.cmdpcs[k]], x)]
  {
    assert 0 <= st.cmdpcs[k] < |ws|;
    hide Recorded, PatchedWords, ReplaceAddr;
    forall j | 0 <= j < |ws|
      ensures PatchedWords(ws, 0, b)[j] ==
              PatchedWords(ws, 0, a)[st.cmdpcs[k] := ReplaceAddr(PatchedWords(ws, 0, a)[st.cmdpcs[k]], x)][j]
    {
      SwapOne(ws, st, a, b, k, x, j);
    }
  }

  lemma MixedStep(vlens: seq<int>, old_: seq<nat>, new_: seq<nat>, n: nat)
    requires n < |vlens| == |old_| == |new_|
    ensures
      var a, b := Mixed(vlens, old_, new_, n), Mixed(vlens, old_, new_, n + 1);
      && (vlens[n] < 0 ==> a == b)
      && (vlens[n] >= 0 ==> b[n] == new_[n] && forall i :: 0 <= i < |a| && i != n ==> b[i] == a[i])
  {
  }

  /** Swapping patches exactly the used commands, each as assembling with the new buffer would. */
  lemma {:induction false} SwapIsPatched(ws: seq<Word>, st: C.State, a: seq<nat>, res: seq<C.Res>, n: nat)
    requires n <= |res| == |a| && Recorded(ws, st, |res|)
    ensures SwapWords(PatchedWords(ws, 0, a), st.vlens, st.cmdpcs, res, n) ==
            PatchedWords(ws, 0, Mixed(st.vlens, a, Addrs(res), n))
    decreases n
  {
    assert |st.vlens| == |st.cmdpcs| == |res|;
    assert n > 0 && st.vlens[n - 1] >= 0 ==> 0 <= st.cmdpcs[n - 1] < |ws|;
    assert n > 0 ==> Addrs(res)[n - 1] == res[n - 1].addr;
    hide PatchedWords, Recorded, ReplaceAddr, Mixed, Addrs;
    if n == 0 {
      MixedNone(st.vlens, a, Addrs(res));
    } else {
      SwapIsPatched(ws, st, a, res, n - 1);
      MixedStep(st.vlens, a, Addrs(res), n - 1);
      var m, b := Mixed(st.vlens, a, Addrs(res), n - 1), Mixed(st.vlens, a, Addrs(res), n);
      if st.vlens[n - 1] >= 0 {
        SwapEvery(ws, st, m, b, n - 1, res[n - 1].addr);
      }
    }
  }

  lemma MixedNone(vlens: seq<int>, old_: seq<nat>, new_: seq<nat>)
    requires |vlens| == |old_| == |new_|
    ensures Mixed(vlens, old_, new_, 0) == old_
  {
  }

  lemma SameRecords(ws: seq<Word>, before: seq<C.Res>, res: seq<C.Res>)
    requires |before| == |res| && C.Check(ws, before).Some? && C.Check(ws, res).Some?
    ensures
      var a, b := C.Check(ws, before).value, C.Check(ws, res).value;
      a.vlens == b.vlens && a.cmdpcs == b.cmdpcs
  {
    hide C.Run, D.Run, Decode;
    D.AcceptIff(ws, before);
    D.AcceptIff(ws, res);
    C.Accepted(ws, before);
    C.Accepted(ws, res);
    var a, b := C.Check(ws, before).value, C.Check(ws, res).value;
    forall k | 0 <= k < |res| ensures a.cmdpcs[k] == b.cmdpcs[k] {
      if k < a.cur {
        assert Decode(ws[a.cmdpcs[k]]).SetReg? && C.RegCount(ws, a.cmdpcs[k]) == k;
      }
    }
  }

  lemma UsedHaveCommands(ws: seq<Word>, res: seq<C.Res>)
    requires C.Check(ws, res).Some?
    ensures
      var st := C.Check(ws, res).value;
      && |st.out| == |ws| && |st.vlens| == |st.cmdpcs| == |res|
      && forall i :: 0 <= i < |res| && st.vlens[i] >= 0 ==> 0 <= st.cmdpcs[i] < |ws|
  {
    CheckRecords(ws, res);
  }

  /** The words are those of the program with every used resource at its present address. */
  ghost predicate Carries(words: seq<Word>, ws: seq<Word>, vlens: seq<int>, res: seq<C.Res>) {
    |vlens| == |res| && exists a: seq<nat> :: CarriesAt(words, ws, vlens, res, a)
  }

  predicate CarriesAt(words: seq<Word>, ws: seq<Word>, vlens: seq<int>, res: seq<C.Res>, a: seq<nat>)
    requires |vlens| == |res|
  {
    |a| == |res| && words == PatchedWords(ws, 0, a) && forall i :: 0 <= i < |res| && vlens[i] >= 0 ==> a[i] == res[i].addr
  }

  lemma AssembledCarries(ws: seq<Word>, res: seq<C.Res>)
    requires C.Check(ws, res).Some?
    ensures Carries(C.Check(ws, res).value.out, ws, C.Check(ws, res).value.vlens, res)
  {
    hide C.Run, PatchedWords;
    UsedHaveCommands(ws, res);
    OutIsPatched(C.Init(|res|), ws, res);
    assert [] + PatchedWords(ws, 0, Addrs(res)) == PatchedWords(ws, 0, Addrs(res));
    assert CarriesAt(C.Check(ws, res).value.out, ws, C.Check(ws, res).value.vlens, res, Addrs(res));
  }

  /** Any swap, also of a buffer swapped before, leaves the words carrying the new addresses. */
  lemma SwapCarries(ws: seq<Word>, first: seq<C.Res>, words: seq<Word>, before: seq<C.Res>, res: seq<C.Res>)
    requires |first| == |before| == |res| && C.Check(ws, first).Some?
    requires Carries(words, ws, C.Check(ws, first).value.vlens, before)
    ensures
      var st := C.Check(ws, first).value;
      && |st.vlens| == |st.cmdpcs| == |res| && |words| == |ws|
      && (forall i :: 0 <= i < |res| && st.vlens[i] >= 0 ==> 0 <= st.cmdpcs[i] < |ws|)
      && Carries(SwapWords(words, st.vlens, st.cmdpcs, res, |res|), ws, st.vlens, res)
  {
    hide C.Run, PatchedWords, SwapWords, Recorded;
    var st := C.Check(ws, first).value;
    CheckRecords(ws, first);
    UsedHaveCommands(ws, first);
    var a :| CarriesAt(words, ws, st.vlens, before, a);
    SwapIsPatched(ws, st, a, res, |res|);
    assert CarriesAt(SwapWords(words, st.vlens, st.cmdpcs, res, |res|), ws, st.vlens, res,
                     Mixed(st.vlens, a, Addrs(res), |res|));
  }

  /**
   Swap equals reassembly: on every command whose resource is used, the words are those
   assembling afresh with the present bindings gives; and the recorded lengths and command
   indexes are those of the fresh assembly.
   */
  lemma CarriedMatchesAssembly(ws: seq<Word>, first: seq<C.Res>, words: seq<Word>, res: seq<C.Res>, j: nat)
    requires |first| == |res| && C.Check(ws, first).Some? && C.Check(ws, res).Some? && j < |ws|
    requires Carries(words, ws, C.Check(ws, first).value.vlens, res)
    ensures
      var st, again := C.Check(ws, first).value, C.Check(ws, res).value;
      && again.vlens == st.vlens && again.cmdpcs == st.cmdpcs && |again.out| == |words| == |ws|
      && (Decode(ws[j]).SetReg? ==> C.RegCount(ws, j) < |res|)
      && ((Decode(ws[j]).SetReg? ==> st.vlens[C.RegCount(ws, j)] >= 0) ==> words[j] == again.out[j])
  {
    hide C.Run, Decode, PatchedWords, PatchAddr;
    SameRecords(ws, first, res);
    CheckRecords(ws, first);
    OutIsPatched(C.Init(|res|), ws, res);
    assert [] + PatchedWords(ws, 0, Addrs(res)) == PatchedWords(ws, 0, Addrs(res));
    var a :| CarriesAt(words, ws, C.Check(ws, first).value.vlens, res, a);
    PatchedAt(ws, 0, Addrs(res), j);
    PatchedAt(ws, 0, a, j);
  }

  // ---- When is a swap safe? ----

  /** Touches only mention used resources, so unused addresses may stay old. */
  lemma LocatedUsed(ts: seq<Touch>, xs: seq<Access>, a: seq<nat>, b: seq<nat>)
    requires Located(ts, xs, a) && |a| == |b| && forall k :: 0 <= k < |ts| && 0 <= ts[k].res < |a| ==> a[ts[k].res] == b[ts[k].res]
    ensures Located(ts, xs, b)
  {
  }

  /** However often it was swapped, the program makes the same accesses, located in its present buffers. */
  lemma CarriedTouches(ws: seq<Word>, first: seq<C.Res>, words: seq<Word>, res: seq<C.Res>, ts: seq<HwRegs>)
    requires |first| == |res| && C.Check(ws, first).Some? && |ts| == NR_TID
    requires Carries(words, ws, C.Check(ws, first).value.vlens, res)
    ensures D.Of(ws, |res|).Some? && Located(ProgramTouches(ws, |res|), HwRun(ts, words), Addrs(res))
  {
    hide C.Run, D.Run, HwRun, Locate, PatchedWords;
    D.AcceptIff(ws, first);
    var st, n := C.Check(ws, first).value, |res|;
    var a :| CarriesAt(words, ws, st.vlens, res, a);
    InitSim(ts, a);
    RunLocated(D.Init(n), ts, ws, a);
    RunRaises(D.Init(n), ws, n);
    LocatedUsed(ProgramTouches(ws, n), HwRun(ts, words), a, Addrs(res));
  }

  /** The bytes of an access lie in the DMA range of a buffer. */
  predicate InDma(x: Access, b: Buf) { b.dma <= x.addr * VESZ && (x.addr + x.len) * VESZ <= b.dma + b.size }

  predicate AllMapped(bufs: seq<Buf>) { forall i :: 0 <= i < |bufs| ==> Mapped(bufs[i]) }

  /** Access k has the length of touch k, and its bytes lie in the buffer bound as the touched resource. */
  predicate AllInDma(ts: seq<Touch>, xs: seq<Access>, bufs: seq<Buf>) {
    && |ts| == |xs|
    && forall k :: 0 <= k < |ts| ==>
         && 0 <= ts[k].res < |bufs| && xs[k].len == ts[k].len
         && (xs[k].len > 0 ==> InDma(xs[k], bufs[ts[k].res]))
  }

  lemma TouchesInDma(ts: seq<Touch>, xs: seq<Access>, bufs: seq<Buf>, indexes: seq<nat>)
    requires |bufs| == |indexes| && AllMapped(bufs)
    requires AllInRange(ts, ResAll(bufs, indexes)) && Located(ts, xs, Addrs(ResAll(bufs, indexes)))
    ensures AllInDma(ts, xs, bufs)
  {
    forall k | 0 <= k < |ts| && xs[k].len > 0 ensures InDma(xs[k], bufs[ts[k].res]) {
      InsideBuffer(bufs, indexes, ts[k]);
    }
  }

  /**
   Kernel safety: the hardware, started on an accepted program with any register contents,
   makes exactly the accesses the command words describe, every byte inside the DMA range of
   the buffer bound to the resource.
   */
  lemma AssembledSafe(ws: seq<Word>, bufs: seq<Buf>, indexes: seq<nat>, ts: seq<HwRegs>)
    requires |bufs| == |indexes| && |ts| == NR_TID && Assemble(ws, bufs, indexes).Some?
    ensures
      var res := ResAll(bufs, indexes);
      var xs := HwRun(ts, Assemble(ws, bufs, indexes).value.out);
      && D.Of(ws, |res|).Some? && AllInRange(ProgramTouches(ws, |res|), res)
      && Located(ProgramTouches(ws, |res|), xs, Addrs(res))
      && (AllMapped(bufs) ==> AllInDma(ProgramTouches(ws, |res|), xs, bufs))
  {
    hide D.Run, C.Run, HwRun, Located, AllInRange, ProgramTouches, Carries, AllMapped, AllInDma;
    var res := ResAll(bufs, indexes);
    var out := C.Check(ws, res).value.out;
    D.AcceptIff(ws, res);
    RangeIffRoom(ws, res);
    AssembledCarries(ws, res);
    CarriedTouches(ws, res, out, res, ts);
    if AllMapped(bufs) {
      TouchesInDma(ProgramTouches(ws, |res|), HwRun(ts, out), bufs, indexes);
    }
  }

  /** Every resource is used with one length only, so the recorded length is the greatest. */
  predicate SingleLength(ws: seq<Word>, n: nat) {
    D.Of(ws, n).Some? && D.Of(ws, n).value.use.need == D.Of(ws, n).value.use.last
  }

  /**
   Exactly when swapping is safe: the swap's check protects every access of the re-bound
   program, whatever the new buffers, if and only if the program uses each resource with a
   single length.  Otherwise buffers exist that pass the check and are overrun.
   */
  lemma SwapSafeIff(ws: seq<Word>, before: seq<C.Res>)
    requires C.Check(ws, before).Some?
    ensures D.Of(ws, |before|).Some?
    ensures
      var st := C.Check(ws, before).value;
      SingleLength(ws, |before|) <==>
      forall res: seq<C.Res> :: |res| == |before| && SwapOk(st.vlens, res) ==> AllInRange(ProgramTouches(ws, |before|), res)
  {
    hide C.Run, D.Run, AllInRange, ProgramTouches;
    D.AcceptIff(ws, before);
    var st, u, n := C.Check(ws, before).value, D.Of(ws, |before|).value.use, |before|;
    if SingleLength(ws, n) {
      forall res: seq<C.Res> | |res| == n && SwapOk(st.vlens, res)
        ensures AllInRange(ProgramTouches(ws, n), res)
      {
        RangeIffRoom(ws, res);
      }
    } else {
      var i :| 0 <= i < n && u.need[i] != u.last[i];
      var res := seq(n, k requires 0 <= k < n => C.Res(if k == i then u.last[i] else D.Max(0, u.need[k]), 0, 0));
      assert SwapOk(st.vlens, res);
      assert !D.Room(res[i], u.need[i]);
      RangeIffRoom(ws, res);
    }
  }

  /** Swaps one after the other; a refused one changes nothing. */
  function SwapAll(words: seq<Word>, vlens: seq<int>, cmdixs: seq<int>, cur: seq<C.Res>, swaps: seq<seq<C.Res>>): (r: (seq<Word>, seq<C.Res>))
    requires |vlens| == |cmdixs| == |cur| && forall i :: 0 <= i < |vlens| && vlens[i] >= 0 ==> 0 <= cmdixs[i] < |words|
    ensures |r.0| == |words| && |r.1| == |cur|
    decreases |swaps|
  {
    if swaps == [] then (words, cur)
    else
      var (p, c) := SwapAll(words, vlens, cmdixs, cur, swaps[..|swaps| - 1]);
      var res := swaps[|swaps| - 1];
      if SwapOk(vlens, res) then (SwapWords(p, vlens, cmdixs, res, |vlens|), res) else (p, c)
  }

  /**
   After any history of attempted swaps, a program that uses each resource with a single
   length touches only the buffers bound by the last successful one, from any register state.
   */
  lemma {:induction false} HistorySafe(ws: seq<Word>, first: seq<C.Res>, swaps: seq<seq<C.Res>>, ts: seq<HwRegs>)
    requires C.Check(ws, first).Some? && SingleLength(ws, |first|) && |ts| == NR_TID
    ensures
      var st := C.Check(ws, first).value;
      && |st.vlens| == |st.cmdpcs| == |first|
      && (forall i :: 0 <= i < |first| && st.vlens[i] >= 0 ==> 0 <= st.cmdpcs[i] < |st.out|)
      && var (words, res) := SwapAll(st.out, st.vlens, st.cmdpcs, first, swaps);
         && Carries(words, ws, st.vlens, res)
         && AllInRange(ProgramTouches(ws, |first|), res)
         && Located(ProgramTouches(ws, |first|), HwRun(ts, words), Addrs(res))
    decreases |swaps|
  {
    hide C.Run, D.Run, HwRun, ProgramTouches, Located, AllInRange, SwapWords, Carries;
    var st := C.Check(ws, first).value;
    UsedHaveCommands(ws, first);
    SwapSafeIff(ws, first);
    if swaps == [] {
      AssembledCarries(ws, first);
      D.AcceptIff(ws, first);
      RangeIffRoom(ws, first);
      CarriedTouches(ws, first, st.out, first, ts);
    } else {
      HistorySafe(ws, first, swaps[..|swaps| - 1], ts);
      var (words, cur) := SwapAll(st.out, st.vlens, st.cmdpcs, first, swaps[..|swaps| - 1]);
      var res := swaps[|swaps| - 1];
      if SwapOk(st.vlens, res) {
        SwapCarries(ws, first, words, cur, res);
        CarriedTouches(ws, first, SwapWords(words, st.vlens, st.cmdpcs, res, |res|), res, ts);
      }
    }
  }

  // ---- Swaps of DMA buffers ----

  datatype BufList = BufList(bufs: seq<Buf>, indexes: seq<nat>)

  /** Buffers and start indexes, one of each per resource. */
  type Binds = b: BufList | |b.bufs| == |b.indexes| witness BufList([], [])

  function Res(b: Binds): (res: seq<C.Res>)
    ensures |res| == |b.bufs|
  {
    ResAll(b.bufs, b.indexes)
  }

  function ResLists(tries: seq<Binds>): (r: seq<seq<C.Res>>)
    ensures |r| == |tries|
  {
    seq(|tries|, i requires 0 <= i < |tries| => Res(tries[i]))
  }

  /** The bindings in force after attempted swaps: the last ones that passed the check. */
  function LastBound(vlens: seq<int>, cur: Binds, tries: seq<Binds>): (r: Binds)
    requires |vlens| == |cur.bufs|
    ensures |r.bufs| == |vlens|
    decreases |tries|
  {
    if tries == [] then cur
    else if SwapOk(vlens, Res(tries[|tries| - 1])) then tries[|tries| - 1]
    else LastBound(vlens, cur, tries[..|tries| - 1])
  }

  /** What assembly promises about the lengths of its results. */
  predicate Fits(st: C.State, n: nat) {
    |st.vlens| == |st.cmdpcs| == n && forall i :: 0 <= i < n && st.vlens[i] >= 0 ==> 0 <= st.cmdpcs[i] < |st.out|
  }

  /** Every used resource's vector, in bytes from the start of its buffer, ends inside the buffer. */
  predicate RoomInBytes(vlens: seq<int>, b: Binds) {
    && |vlens| == |b.bufs|
    && forall i :: 0 <= i < |vlens| && vlens[i] >= 0 ==> 4 * (b.indexes[i] + vlens[i]) <= b.bufs[i].size
  }

  lemma SwapOkInBytes(vlens: seq<int>, b: Binds)
    ensures SwapOk(vlens, Res(b)) <==> RoomInBytes(vlens, b)
  {
    if |vlens| == |b.bufs| {
      forall i | 0 <= i < |vlens| && vlens[i] >= 0
        ensures D.Room(Res(b)[i], vlens[i]) <==> 4 * (b.indexes[i] + vlens[i]) <= b.bufs[i].size
      {
        assert Res(b)[i].blen == b.bufs[i].size / 4 && Res(b)[i].index == b.indexes[i];
      }
    }
  }

  /** The words of an assembled program after attempted swaps. */
  function SwappedWords(st: C.State, first: Binds, tries: seq<Binds>): (r: seq<Word>)
    requires Fits(st, |first.bufs|)
    ensures |r| == |st.out|
  {
    SwapAll(st.out, st.vlens, st.cmdpcs, Res(first), ResLists(tries)).0
  }

  lemma {:induction false} SwapsEndBound(words: seq<Word>, vlens: seq<int>, cmdixs: seq<int>, first: Binds, tries: seq<Binds>)
    requires |vlens| == |cmdixs| == |first.bufs| && forall i :: 0 <= i < |vlens| && vlens[i] >= 0 ==> 0 <= cmdixs[i] < |words|
    ensures SwapAll(words, vlens, cmdixs, Res(first), ResLists(tries)).1 == Res(LastBound(vlens, first, tries))
    decreases |tries|
  {
    hide SwapOk, SwapWords, ResAll;
    if tries != [] {
      assert ResLists(tries)[..|tries| - 1] == ResLists(tries[..|tries| - 1]);
      SwapsEndBound(words, vlens, cmdixs, first, tries[..|tries| - 1]);
    }
  }

  /** One more attempt. */
  lemma SwappedMore(st: C.State, first: Binds, tries: seq<Binds>, b: Binds)
    requires Fits(st, |first.bufs|)
    ensures
      var p := SwappedWords(st, first, tries);
      SwappedWords(st, first, tries + [b]) ==
      if SwapOk(st.vlens, Res(b)) then SwapWords(p, st.vlens, st.cmdpcs, Res(b), |st.vlens|) else p
    ensures LastBound(st.vlens, first, tries + [b]) == if SwapOk(st.vlens, Res(b)) then b else LastBound(st.vlens, first, tries)
  {
    hide SwapOk, SwapWords, ResAll;
    assert ResLists(tries + [b])[..|tries|] == ResLists(tries);
    assert (tries + [b])[..|tries|] == tries;
  }

  lemma AssembledFits(ws: seq<Word>, b: Binds)
    requires Assemble(ws, b.bufs, b.indexes).Some?
    ensures Fits(Assemble(ws, b.bufs, b.indexes).value, |b.bufs|)
  {
    hide C.Check;
    UsedHaveCommands(ws, Res(b));
  }

  /**
   Kernel safety after any history of attempted swaps, for programs that use each resource
   with a single length: every byte the hardware touches is inside the DMA range of the
   buffer bound last, from any register contents.
   */
  lemma SwappedSafe(ws: seq<Word>, first: Binds, tries: seq<Binds>, ts: seq<HwRegs>)
    requires Assemble(ws, first.bufs, first.indexes).Some? && SingleLength(ws, |first.bufs|) && |ts| == NR_TID
    ensures
      var st := Assemble(ws, first.bufs, first.indexes).value;
      && Fits(st, |first.bufs|)
      && var last, xs := LastBound(st.vlens, first, tries), HwRun(ts, SwappedWords(st, first, tries));
         && Located(ProgramTouches(ws, |first.bufs|), xs, Addrs(Res(last)))
         && AllInRange(ProgramTouches(ws, |first.bufs|), Res(last))
         && (AllMapped(last.bufs) ==> AllInDma(ProgramTouches(ws, |first.bufs|), xs, last.bufs))
  {
    hide C.Check, D.Run, HwRun, ProgramTouches, Located, AllInRange, Carries, AllMapped, AllInDma, SwapAll, ResAll;
    AssembledFits(ws, first);
    HistorySafe(ws, Res(first), ResLists(tries), ts);
    var st := Assemble(ws, first.bufs, first.indexes).value;
    SwapsEndBound(st.out, st.vlens, st.cmdpcs, first, tries);
    var last := LastBound(st.vlens, first, tries);
    if AllMapped(last.bufs) {
      TouchesInDma(ProgramTouches(ws, |first.bufs|), HwRun(ts, SwappedWords(st, first, tries)), last.bufs, last.indexes);
    }
  }

  /** The closing SYNC does not get in the way of patching in place. */
  lemma {:induction false} SwapWithSync(prog: seq<Word>, w: Word, vlens: seq<int>, cmdixs: seq<int>, res: seq<C.Res>, n: nat)
    requires n <= |vlens| == |cmdixs| == |res|
    requires forall i :: 0 <= i < n && vlens[i] >= 0 ==> 0 <= cmdixs[i] < |prog|
    ensures SwapWords(prog + [w], vlens, cmdixs, res, n) == SwapWords(prog, vlens, cmdixs, res, n) + [w]
    decreases n
  {
    hide ReplaceAddr;
    if n > 0 {
      SwapWithSync(prog, w, vlens, cmdixs, res, n - 1);
    }
  }

  /** Nor does it make the hardware touch anything. */
  lemma {:induction false} SyncTouchesNothing(ts: seq<HwRegs>, ws: seq<Word>)
    requires |ts| == NR_TID
    ensures HwRun(ts, ws + [C.SYNC_STOP]) == HwRun(ts, ws)
    decreases |ws|
  {
    hide HwNext;
    if ws != [] {
      assert (ws + [C.SYNC_STOP])[1..] == ws[1..] + [C.SYNC_STOP];
      hide HwAccesses;
      SyncTouchesNothing(HwNext(ts, ws[0]), ws[1..]);
    } else {
      assert Decode(C.SYNC_STOP).Sync?;
      assert [C.SYNC_STOP][1..] == [];
    }
  }

  // ---- The command buffer object ----

  /**
   A checked command buffer: its words, the buffers bound to it and what assembly recorded.
   The ghost fields remember how it came about: the program submitted, the buffers it was
   assembled with, and every swap attempted since.
   */
  class CmdBuffer {
    const prog: array<Word>
    const vlens: seq<int>
    const cmdixs: seq<int>
    var bufs: seq<Buf>
    ghost const source: seq<Word>
    ghost const first: Binds
    ghost var tried: seq<Binds>

    ghost predicate Valid() reads this, prog {
      && Assemble(source, first.bufs, first.indexes).Some?
      && var st := Assemble(source, first.bufs, first.indexes).value;
         && Fits(st, |first.bufs|) && vlens == st.vlens && cmdixs == st.cmdpcs
         && bufs == LastBound(st.vlens, first, tried).bufs
         && prog[..] == SwappedWords(st, first, tried) + [C.SYNC_STOP]
    }

    /** Move an assembled program, closed with SYNC stop, intr, into a command buffer. */
    constructor (ghost ws: seq<Word>, buffers: seq<Buf>, ghost indexes: seq<nat>, st: C.State)
      requires |buffers| == |indexes| && Assemble(ws, buffers, indexes) == Some(st)
      ensures Valid() && fresh(prog) && prog[..] == st.out + [C.SYNC_STOP]
      ensures vlens == st.vlens && cmdixs == st.cmdpcs && bufs == buffers
      ensures source == ws && first == BufList(buffers, indexes) && tried == []
    {
      hide C.Check;
      AssembledFits(ws, BufList(buffers, indexes));
      source, first, tried := ws, BufList(buffers, indexes), [];
      prog := new Word[|st.out| + 1];
      vlens, cmdixs, bufs := st.vlens, st.cmdpcs, buffers;
      new;
      var i := 0;
      while i < |st.out|
        invariant 0 <= i <= |st.out| && prog[..i] == st.out[..i] && bufs == buffers && tried == []
      {
        prog[i] := st.out[i];
        i := i + 1;
      }
      prog[i] := C.SYNC_STOP;
      assert st.out[..i] == st.out;
    }

    /** Verify indexes and sizes of the used resources. */
    method VerifySwap(buffers: seq<Buf>, indexes: seq<nat>) returns (ok: bool)
      requires |buffers| == |indexes| == |vlens|
      ensures ok <==> SwapOk(vlens, ResAll(buffers, indexes))
      ensures ok <==> RoomInBytes(vlens, BufList(buffers, indexes))
    {
      SwapOkInBytes(vlens, BufList(buffers, indexes));
      ghost var res := ResAll(buffers, indexes);
      var i := 0;
      while i < |vlens|
        invariant 0 <= i <= |vlens|
        invariant forall k :: 0 <= k < i && vlens[k] >= 0 ==> D.Room(res[k], vlens[k])
      {
        if vlens[i] >= 0 {
          var blen, idx := buffers[i].size / VESZ, indexes[i];
          assert res[i] == C.Res(blen, idx, buffers[i].dma / VESZ + idx);
          if idx > blen { return false; }
          if blen - idx < vlens[i] { return false; }
        }
        i := i + 1;
      }
      ok := true;
    }

    /** Re-bind in place; a refused swap changes no word and no resource. */
    method SwapRes(buffers: seq<Buf>, indexes: seq<nat>) returns (old_: Option<seq<Buf>>)
      requires Valid() && |buffers| == |indexes| == |vlens|
      modifies this, prog
      ensures Valid() && tried == old(tried) + [BufList(buffers, indexes)]
      ensures old_.Some? <==> SwapOk(vlens, ResAll(buffers, indexes))
      ensures old_.Some? <==> RoomInBytes(vlens, BufList(buffers, indexes))
      ensures old_.None? ==> prog[..] == old(prog[..]) && bufs == old(bufs)
      ensures old_.Some? ==>
                && old_.value == old(bufs) && bufs == buffers
                && prog[..] == SwapWords(old(prog[..]), vlens, cmdixs, ResAll(buffers, indexes), |vlens|)
    {
      hide C.Check, SwapOk, RoomInBytes, SwappedWords, LastBound, ResAll, ReplaceAddr;
      ghost var st, b := Assemble(source, first.bufs, first.indexes).value, BufList(buffers, indexes);
      ghost var res, was, words := Res(b), prog[..], SwappedWords(st, first, tried);
      SwapOkInBytes(vlens, b);
      SwappedMore(st, first, tried, b);
      tried := tried + [b];
      var ok := VerifySwap(buffers, indexes);
      if !ok {
        return None;
      }
      SwapWithSync(words, C.SYNC_STOP, vlens, cmdixs, res, |vlens|);
      old_ := Some(bufs);
      PatchAll(buffers, indexes);
      bufs := buffers;
    }

    /** Patch the commands of all used resources. */
    method PatchAll(buffers: seq<Buf>, indexes: seq<nat>)
      requires |buffers| == |indexes| == |vlens| == |cmdixs|
      requires forall i :: 0 <= i < |vlens| && vlens[i] >= 0 ==> 0 <= cmdixs[i] < prog.Length
      modifies prog
      ensures prog[..] == SwapWords(old(prog[..]), vlens, cmdixs, ResAll(buffers, indexes), |vlens|)
    {
      ghost var res, was := ResAll(buffers, indexes), prog[..];
      var i := 0;
      while i < |vlens|
        invariant 0 <= i <= |vlens| && prog[..] == SwapWords(was, vlens, cmdixs, res, i)
      {
        if vlens[i] >= 0 {
          assert res[i].addr == buffers[i].dma / VESZ + indexes[i];
          prog[cmdixs[i]] := ReplaceAddr(prog[cmdixs[i]], buffers[i].dma / VESZ + indexes[i]);
        }
        i := i + 1;
      }
    }
  }

  /**
   The words a command buffer holds, after however many swaps, make the hardware touch
   nothing but the DMA ranges of the buffers it holds.
   */
  lemma CmdBufferSafe(c: CmdBuffer, ts: seq<HwRegs>)
    requires c.Valid() && SingleLength(c.source, |c.bufs|) && AllMapped(c.bufs) && |ts| == NR_TID
    ensures AllInDma(ProgramTouches(c.source, |c.bufs|), HwRun(ts, c.prog[..]), c.bufs)
  {
    hide C.Check, D.Run, HwRun, ProgramTouches, Located, AllInRange, AllMapped, AllInDma, SwappedWords, LastBound;
    var st := Assemble(c.source, c.first.bufs, c.first.indexes).value;
    assert |c.bufs| == |c.first.bufs|;
    SwappedSafe(c.source, c.first, c.tried, ts);
    SyncTouchesNothing(ts, SwappedWords(st, c.first, c.tried));
  }
}
