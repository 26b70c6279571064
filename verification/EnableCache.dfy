/**
 How the generated words decode, and the enable cache: leaving out a SETEN that would
 repeat the remembered bit never changes which threads a later command runs on.

 The bits are followed through the words emitted so far, so the invariant relates the fields
 of the generator object to what running its program does, after any sequence of its calls.
 */
module EnableCache {
  import opened Isa
  import opened Wrappers
  import opened Semantics
  import opened CodeGen

  predicate OnBoard(t: HwThread) { t.vpu < NR_VPU && t.thr < NR_THR }

  /** The destination field addresses the thread it was made for. */
  lemma PackTid(op: nat, t: HwThread, payload: nat)
    requires op < 32 && payload < DST_UNIT && OnBoard(t)
    ensures var w := Pack(op, MakeDst(t.vpu, t.thr), payload);
            Op(w) == op && Tid(w) == TidOf(t) && w % DST_UNIT == payload
  {
    if t.vpu == 0 {
      assert MakeDst(t.vpu, t.thr) == t.thr;
    } else {
      assert MakeDst(t.vpu, t.thr) == 8 + t.thr;
    }
  }

  lemma DecodeSetEn(t: HwThread, en: bool)
    requires OnBoard(t)
    ensures Decode(SetEnWord(t, en)) == SetEn(TidOf(t), en)
  {
    hide Op, Tid, Dst, Decode;
    PackTid(SETEN, t, if en then 1 else 0);
    DecodePayload(SetEnWord(t, en), if en then 1 else 0);
  }

  lemma DecodeSetAcc(t: HwThread, bits: nat)
    requires OnBoard(t) && bits < U32
    ensures Decode(SetAccWord(t, bits)) == SetAcc(TidOf(t), bits)
  {
    hide Op, Tid, Dst, Decode;
    PackTid(SETACC, t, bits);
    DivModUnique(bits, U32, 0, bits);
    DecodePayload(SetAccWord(t, bits), bits);
  }

  lemma DecodeSetReg(t: HwThread, reg: Reg, addr: nat)
    requires OnBoard(t)
    ensures Decode(SetRegWord(t, reg, addr)) == SetReg(reg, TidOf(t), addr / 4 % ADDR_LIMIT)
  {
    hide Op, Tid, Dst, Decode;
    PackTid(match reg case Rs => SETRS case Rt => SETRT case Rd => SETRD, t, addr / 4 % ADDR_LIMIT);
    DecodePayload(SetRegWord(t, reg, addr), addr / 4 % ADDR_LIMIT);
  }

  lemma DecodeSetVl(t: HwThread, len: nat)
    requires OnBoard(t) && len < LEN_LIMIT
    ensures Decode(SetVlWord(t, len)) == SetVl(TidOf(t), len)
  {
    hide Op, Tid, Dst, Decode;
    PackTid(SETVL, t, len);
    DivModUnique(len, LEN_LIMIT, 0, len);
    DecodePayload(SetVlWord(t, len), len);
  }

  function ActOf(sp: Special): ActFn
    requires !sp.NoAct?
  {
    match sp
    case ReluAct => Relu
    case LReluAct(ned) => LRelu(SignExtend7(ned))
  }

  /** The batch tail addresses all sixteen threads; the scale factor survives its 7-bit field. */
  lemma DecodeTail(sp: Special)
    ensures Decode(PROD_ALL) == Prod(0, NR_TID) && Decode(STORE_ALL) == Store(0, NR_TID)
    ensures !sp.NoAct? ==> ActWords(sp) == [ActWords(sp)[0]] && Decode(ActWords(sp)[0]) == Actf(0, NR_TID, ActOf(sp))
  {
    match sp
    case NoAct =>
    case ReluAct => PayloadFields(RELU_ALL, 0);
    case LReluAct(ned) => DecodeLRelu(ned);
  }

  lemma DecodeLRelu(ned: int)
    ensures Decode(LReluWord(ned)) == Actf(0, NR_TID, LRelu(SignExtend7(ned)))
  {
    var w, p: nat := LReluWord(ned), AF_UNIT + ned % 128;
    PayloadFields(w, p);
    AddMultiple(0x8_0000_0000, 128, ned % 128);
    DivModUnique(p, AF_UNIT, 1, ned % 128);
    assert w % 128 == ned % 128 && w / AF_UNIT % 64 == 1;
    assert Op(w) == ACTF && Dst(w) == 0;
  }

  // ---- The enable cache ----

  /** The enable bit of a thread after running the words: -1 when no SETEN reached it. */
  function EnableAfter(ws: seq<Word>, t: nat): int
    decreases |ws|
  {
    if ws == [] then -1
    else
      match Decode(ws[|ws| - 1])
      case SetEn(u, en) => if u == t then (if en then 1 else 0) else EnableAfter(ws[..|ws| - 1], t)
      case _ => EnableAfter(ws[..|ws| - 1], t)
  }

  lemma EnableSnoc(ws: seq<Word>, w: Word, t: nat)
    ensures EnableAfter(ws + [w], t) ==
            match Decode(w)
            case SetEn(u, en) => if u == t then (if en then 1 else 0) else EnableAfter(ws, t)
            case _ => EnableAfter(ws, t)
  {
    assert (ws + [w])[..|ws + [w]| - 1] == ws;
  }

  predicate NoSetEn(ws: seq<Word>) { forall i :: 0 <= i < |ws| ==> !Decode(ws[i]).SetEn? }

  lemma {:induction false} EnableSame(a: seq<Word>, b: seq<Word>, t: nat)
    requires NoSetEn(b)
    ensures EnableAfter(a + b, t) == EnableAfter(a, t)
    decreases |b|
  {
    if b == [] {
      assert a + b == a;
    } else {
      var n := |b| - 1;
      EnableSame(a, b[..n], t);
      EnableSnoc(a + b[..n], b[n], t);
      assert a + b == (a + b[..n]) + [b[n]];
    }
  }

  /** Remembered bits are right, and every masked-out thread is off. */
  predicate CacheOk(g: Gen, base: nat) {
    && OnDevice(g, base)
    && (forall k :: 0 <= k < |g.threads| ==>
          -1 <= g.threads[k].en <= 1 && EnableAfter(g.program, base + k) == g.threads[k].en)
    && (forall k :: 0 <= k < g.cur ==> g.threads[k].en == 1)
    && (forall u :: NR_THR - base <= u < NR_THR - base + |g.inactive| ==> EnableAfter(g.program, u) == 0)
  }

  lemma OnDeviceBoards(g: Gen, base: nat)
    requires OnDevice(g, base)
    ensures forall k :: 0 <= k < |g.threads| ==> OnBoard(g.threads[k])
    ensures forall k :: 0 <= k < |g.inactive| ==> OnBoard(g.inactive[k])
  {
    forall k | 0 <= k < |g.threads| ensures OnBoard(g.threads[k]) {
      assert TidOf(g.threads[k]) == base + k;
    }
    forall k | 0 <= k < |g.inactive| ensures OnBoard(g.inactive[k]) {
      assert TidOf(g.inactive[k]) == NR_THR - base + k;
    }
  }

  /** Loading a job leaves its thread enabled and no other thread's bit changed. */
  lemma LoadEnables(ws: seq<Word>, t: HwThread, j: Job, nb: nat, u: nat)
    requires OnBoard(t) && WfJob(j)
    ensures EnableAfter(ws + LoadWords(t, j, nb), u) ==
            if u == TidOf(t) && t.en != 1 then 1 else EnableAfter(ws, u)
  {
    var on := t.(en := 1);
    if t.en == 1 {
      EnableSame(ws, LoadWords(t, j, nb), u);
    } else {
      var w := SetEnWord(t, true);
      assert LoadWords(t, j, nb) == [w] + LoadWords(on, j, nb);
      Assoc(ws, [w], LoadWords(on, j, nb));
      EnableSame(ws + [w], LoadWords(on, j, nb), u);
      EnableSnoc(ws, w, u);
      DecodeSetEn(t, true);
    }
  }

  lemma AllocKeepsCache(g: Gen, j: Job, base: nat)
    requires CacheOk(g, base) && g.cur < |g.threads| && WfJob(j)
    ensures CacheOk(Alloc(g, j), base)
  {
    hide LoadWords, EnableAfter;
    OnDeviceBoards(g, base);
    var r := Alloc(g, j);
    var t := g.threads[g.cur];
    forall u | 0 <= u < NR_TID
      ensures EnableAfter(r.program, u) == if u == base + g.cur && t.en != 1 then 1 else EnableAfter(g.program, u)
    {
      LoadEnables(g.program, t, j, |g.bindings|, u);
    }
  }

  /** Disabling threads k.. turns exactly those off, given that skipped ones were off. */
  lemma {:induction false} DisableDisables(ws: seq<Word>, ts: seq<HwThread>, k: nat, base: nat, u: nat)
    requires k <= |ts| && Encodable(ts) && forall i :: 0 <= i < |ts| ==> OnBoard(ts[i]) && TidOf(ts[i]) == base + i
    requires forall i :: k <= i < |ts| && ts[i].en == 0 ==> EnableAfter(ws, base + i) == 0
    ensures EnableAfter(ws + DisableWords(ts, k), u) ==
            if base + k <= u < base + |ts| then 0 else EnableAfter(ws, u)
    decreases |ts| - k
  {
    hide Decode, SetEnWord, EnableAfter;
    if k == |ts| {
      assert ws + DisableWords(ts, k) == ws;
    } else if ts[k].en == 0 {
      assert DisableWords(ts, k) == DisableWords(ts, k + 1);
      DisableDisables(ws, ts, k + 1, base, u);
    } else {
      var w := SetEnWord(ts[k], false);
      DecodeSetEn(ts[k], false);
      forall v: nat { EnableSnoc(ws, w, v); }
      DisableDisables(ws + [w], ts, k + 1, base, u);
      Assoc(ws, [w], DisableWords(ts, k + 1));
    }
  }

  /** After finalize() exactly the threads allocated since the previous one are enabled. */
  lemma FinalizeExact(g: Gen, base: nat)
    requires CacheOk(g, base)
    ensures CacheOk(Finalize(g), base)
    ensures forall u :: base <= u < base + |g.threads| ==>
              EnableAfter(Finalize(g).program, u) == if u < base + g.cur then 1 else 0
  {
    hide DisableWords, EnableAfter;
    OnDeviceBoards(g, base);
    var f := Finalize(g);
    forall u: nat
      ensures EnableAfter(f.program, u) ==
              if base + g.cur <= u < base + |g.threads| then 0 else EnableAfter(g.program, u)
    {
      DisableDisables(g.program, g.threads, g.cur, base, u);
    }
    forall u | base <= u < base + |g.threads|
      ensures EnableAfter(f.program, u) == if u < base + g.cur then 1 else 0
    {
      assert g.threads[u - base].en == 1 || u >= base + g.cur;
    }
  }

  lemma {:induction false} PrepareDisables(ts: seq<HwThread>, n: nat, u: nat)
    requires n <= |ts| && Encodable(ts) && forall i :: 0 <= i < |ts| ==> OnBoard(ts[i]) && TidOf(ts[i]) == TidOf(ts[0]) + i
    ensures EnableAfter(PrepareWords(ts)[..n], u) == if n > 0 && TidOf(ts[0]) <= u < TidOf(ts[0]) + n then 0 else -1
    decreases n
  {
    if n > 0 {
      PrepareDisables(ts, n - 1, u);
      var w := PrepareWords(ts)[n - 1];
      assert PrepareWords(ts)[..n] == PrepareWords(ts)[..n - 1] + [w];
      EnableSnoc(PrepareWords(ts)[..n - 1], w, u);
      DecodeSetEn(ts[n - 1], false);
    }
  }

  lemma PreparedCache(mask: nat)
    requires mask % 4 != 0
    ensures Wf(Fresh(mask)) && CacheOk(Prepare(Fresh(mask)), BaseOf(mask))
  {
    hide EnableAfter;
    FreshOnDevice(mask);
    var g := Fresh(mask);
    OnDeviceBoards(g, BaseOf(mask));
    var ws := PrepareWords(g.inactive);
    assert [] + ws == ws && ws[..|ws|] == ws;
    var first := NR_THR - BaseOf(mask);
    forall u: nat ensures EnableAfter(ws, u) == if first <= u < first + |g.inactive| then 0 else -1 {
      PrepareDisables(g.inactive, |g.inactive|, u);
    }
  }

  // ---- No SETEN is emitted in vain ----

  /** Every SETEN changes what is known of its thread. */
  predicate Lean(ws: seq<Word>) { forall j :: 0 <= j < |ws| ==> Changes(ws[..j], ws[j]) }

  predicate Changes(ws: seq<Word>, w: Word) {
    match Decode(w)
    case SetEn(t, en) => EnableAfter(ws, t) != (if en then 1 else 0)
    case _ => true
  }

  lemma LeanSnoc(ws: seq<Word>, w: Word)
    requires Lean(ws) && Changes(ws, w)
    ensures Lean(ws + [w])
  {
    hide Changes;
    forall j | 0 <= j < |ws + [w]| ensures Changes((ws + [w])[..j], (ws + [w])[j]) {
      if j < |ws| {
        assert Changes(ws[..j], ws[j]) && (ws + [w])[..j] == ws[..j];
      } else {
        assert (ws + [w])[..j] == ws;
      }
    }
  }

  lemma {:induction false} LeanSame(a: seq<Word>, b: seq<Word>)
    requires Lean(a) && NoSetEn(b)
    ensures Lean(a + b)
    decreases |b|
  {
    hide Lean;
    if b == [] {
      assert a + b == a;
    } else {
      var n := |b| - 1;
      LeanSame(a, b[..n]);
      LeanSnoc(a + b[..n], b[n]);
      assert a + b == (a + b[..n]) + [b[n]];
    }
  }

  lemma LoadLean(ws: seq<Word>, t: HwThread, j: Job, nb: nat)
    requires Lean(ws) && OnBoard(t) && WfJob(j) && (t.en != 1 ==> EnableAfter(ws, TidOf(t)) != 1)
    ensures Lean(ws + LoadWords(t, j, nb))
  {
    hide Lean;
    var on := t.(en := 1);
    if t.en == 1 {
      LeanSame(ws, LoadWords(t, j, nb));
    } else {
      var w := SetEnWord(t, true);
      DecodeSetEn(t, true);
      assert LoadWords(t, j, nb) == [w] + LoadWords(on, j, nb);
      Assoc(ws, [w], LoadWords(on, j, nb));
      LeanSnoc(ws, w);
      LeanSame(ws + [w], LoadWords(on, j, nb));
    }
  }

  lemma {:induction false} DisableLean(ws: seq<Word>, ts: seq<HwThread>, k: nat, base: nat)
    requires k <= |ts| && Encodable(ts) && Lean(ws) && forall i :: 0 <= i < |ts| ==> OnBoard(ts[i]) && TidOf(ts[i]) == base + i
    requires forall i :: k <= i < |ts| && ts[i].en != 0 ==> EnableAfter(ws, base + i) != 0
    ensures Lean(ws + DisableWords(ts, k))
    decreases |ts| - k
  {
    hide Decode, SetEnWord, EnableAfter, Lean;
    if k == |ts| {
      assert ws + DisableWords(ts, k) == ws;
    } else if ts[k].en == 0 {
      assert DisableWords(ts, k) == DisableWords(ts, k + 1);
      DisableLean(ws, ts, k + 1, base);
    } else {
      var w := SetEnWord(ts[k], false);
      DecodeSetEn(ts[k], false);
      LeanSnoc(ws, w);
      forall v: nat { EnableSnoc(ws, w, v); }
      DisableLean(ws + [w], ts, k + 1, base);
      Assoc(ws, [w], DisableWords(ts, k + 1));
    }
  }

  lemma {:induction false} PrepareLean(ts: seq<HwThread>, n: nat)
    requires n <= |ts| && Encodable(ts) && forall i :: 0 <= i < |ts| ==> OnBoard(ts[i]) && TidOf(ts[i]) == TidOf(ts[0]) + i
    ensures Lean(PrepareWords(ts)[..n])
    decreases n
  {
    hide Lean;
    if n > 0 {
      PrepareLean(ts, n - 1);
      PrepareDisables(ts, n - 1, TidOf(ts[n - 1]));
      var w := PrepareWords(ts)[n - 1];
      DecodeSetEn(ts[n - 1], false);
      LeanSnoc(PrepareWords(ts)[..n - 1], w);
      assert PrepareWords(ts)[..n] == PrepareWords(ts)[..n - 1] + [w];
    } else {
      NothingLean();
      assert PrepareWords(ts)[..n] == [];
    }
  }

  lemma NothingLean()
    ensures Lean([])
  {
  }

  /** The calls a client of the generator can make after prepare(). */
  datatype Call = AllocCall(j: Job) | FinalizeCall | ExecCall(sp: Special)

  /** execProd(), an activation and execStore(); an allocation without a free thread does nothing. */
  function Apply(g: Gen, c: Call): (r: Gen)
    requires Wf(g) && (c.AllocCall? ==> WfJob(c.j))
    ensures Wf(r)
  {
    match c
    case AllocCall(j) => if g.cur < |g.threads| then Alloc(g, j) else g
    case FinalizeCall => Finalize(g)
    case ExecCall(sp) => g.(program := g.program + BatchTail(sp))
  }

  function ApplyAll(g: Gen, cs: seq<Call>): (r: Gen)
    requires Wf(g) && forall i :: 0 <= i < |cs| ==> cs[i].AllocCall? ==> WfJob(cs[i].j)
    ensures Wf(r)
    decreases |cs|
  {
    if cs == [] then g else Apply(ApplyAll(g, cs[..|cs| - 1]), cs[|cs| - 1])
  }

  lemma TailKeepsCache(g: Gen, sp: Special, base: nat)
    requires CacheOk(g, base)
    ensures CacheOk(g.(program := g.program + BatchTail(sp)), base)
  {
    hide EnableAfter;
    DecodeTail(sp);
    assert NoSetEn(BatchTail(sp));
    forall u: nat ensures EnableAfter(g.program + BatchTail(sp), u) == EnableAfter(g.program, u) {
      EnableSame(g.program, BatchTail(sp), u);
    }
  }

  /**
   After any sequence of calls, every remembered enable bit is the one running the emitted
   program would give, so skipping a SETEN that repeats it is safe.
   */
  lemma {:induction false} CacheInvariant(mask: nat, cs: seq<Call>)
    requires mask % 4 != 0 && forall i :: 0 <= i < |cs| ==> cs[i].AllocCall? ==> WfJob(cs[i].j)
    ensures Wf(Fresh(mask)) && CacheOk(ApplyAll(Prepare(Fresh(mask)), cs), BaseOf(mask))
    decreases |cs|
  {
    hide CacheOk, BatchTail;
    PreparedCache(mask);
    if cs != [] {
      var n := |cs| - 1;
      CacheInvariant(mask, cs[..n]);
      var g := ApplyAll(Prepare(Fresh(mask)), cs[..n]);
      match cs[n]
      case AllocCall(j) => if g.cur < |g.threads| { AllocKeepsCache(g, j, BaseOf(mask)); }
      case FinalizeCall => FinalizeExact(g, BaseOf(mask));
      case ExecCall(sp) => TailKeepsCache(g, sp, BaseOf(mask));
    }
  }

  lemma FreshEmpty(mask: nat)
    ensures Fresh(mask).program == []
  {
  }

  lemma PreparedLean(mask: nat)
    requires mask % 4 != 0
    ensures Wf(Fresh(mask)) && Lean(Prepare(Fresh(mask)).program)
  {
    hide Lean, SetEnWord, Fresh;
    FreshOnDevice(mask);
    FreshEmpty(mask);
    var g := Fresh(mask);
    OnDeviceBoards(g, BaseOf(mask));
    PrepareLean(g.inactive, |g.inactive|);
    var ws := PrepareWords(g.inactive);
    assert [] + ws == ws && ws[..|ws|] == ws;
  }

  lemma ApplyLean(g: Gen, c: Call, base: nat)
    requires CacheOk(g, base) && Lean(g.program) && (c.AllocCall? ==> WfJob(c.j))
    ensures Lean(Apply(g, c).program)
  {
    hide Lean, LoadWords, DisableWords, EnableAfter, BatchTail;
    OnDeviceBoards(g, base);
    match c
    case AllocCall(j) =>
      if g.cur < |g.threads| {
        LoadLean(g.program, g.threads[g.cur], j, |g.bindings|);
      }
    case FinalizeCall => DisableLean(g.program, g.threads, g.cur, base);
    case ExecCall(sp) =>
      TailSetsNone(sp);
      LeanSame(g.program, BatchTail(sp));
  }

  lemma TailSetsNone(sp: Special)
    ensures NoSetEn(BatchTail(sp))
  {
    DecodeTail(sp);
  }

  /** After any sequence of calls no SETEN repeats what the program has already said of its thread. */
  lemma {:induction false} LeanInvariant(mask: nat, cs: seq<Call>)
    requires mask % 4 != 0 && forall i :: 0 <= i < |cs| ==> cs[i].AllocCall? ==> WfJob(cs[i].j)
    ensures Wf(Fresh(mask)) && Lean(ApplyAll(Prepare(Fresh(mask)), cs).program)
    decreases |cs|
  {
    hide CacheOk, Lean, Apply;
    PreparedLean(mask);
    if cs != [] {
      var n := |cs| - 1;
      LeanInvariant(mask, cs[..n]);
      CacheInvariant(mask, cs[..n]);
      ApplyLean(ApplyAll(Prepare(Fresh(mask)), cs[..n]), cs[n], BaseOf(mask));
    }
  }

  /** A thread is usable exactly when the mask's low bits have that of its VPU, and all others are switched off first. */
  lemma MaskMeans(mask: nat, vpu: nat, th: nat)
    requires mask % 4 != 0 && vpu < 2 && th < 8
    ensures Wf(Fresh(mask))
    ensures
      var g := Fresh(mask);
      var on := mask % 4 == 3 || mask % 4 == vpu + 1;
      && (on ==> exists k :: 0 <= k < |g.threads| && g.threads[k] == HwThread(vpu, th, -1))
      && (!on ==> exists k :: 0 <= k < |Prepare(g).program| && Decode(Prepare(g).program[k]) == SetEn(vpu * 8 + th, false))
  {
    hide Decode, SetEnWord;
    FreshWf(mask);
    ThreadsOfTwo();
    var g := Fresh(mask);
    var on := mask % 4 == 3 || mask % 4 == vpu + 1;
    var k := if mask % 4 == 3 then vpu * 8 + th else th;
    if on {
      assert g.threads[k] == HwThread(vpu, th, -1);
    } else {
      assert g.inactive[th] == HwThread(vpu, th, -1);
      DecodeSetEn(g.inactive[th], false);
      assert [] + PrepareWords(g.inactive) == PrepareWords(g.inactive);
      assert Prepare(g).program[th] == SetEnWord(g.inactive[th], false);
    }
  }
}
