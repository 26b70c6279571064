/** Which programs the checker accepts, said of the words themselves. */
module Acceptance {
  import opened Isa
  import opened Wrappers
  import opened Checker

  datatype Kind = KAcc | KVl | KEn | KReg(reg: Reg)

  /** The command sets something of thread t. */
  predicate Sets(c: Cmd, kind: Kind, t: nat) {
    match c
    case SetAcc(u, _) => kind.KAcc? && u == t
    case SetVl(u, _) => kind.KVl? && u == t
    case SetEn(u, _) => kind.KEn? && u == t
    case SetReg(reg, u, _) => kind == KReg(reg) && u == t
    case _ => false
  }

  /** The last of the first n words that sets something of thread t; -1 when none does. */
  function Last(ws: seq<Word>, n: nat, kind: Kind, t: nat): (r: int)
    requires n <= |ws|
    ensures -1 <= r < n
    ensures r >= 0 ==> Sets(Decode(ws[r]), kind, t)
    ensures forall k :: r < k < n ==> !Sets(Decode(ws[k]), kind, t)
  {
    if n == 0 then -1 else if Sets(Decode(ws[n - 1]), kind, t) then n - 1 else Last(ws, n - 1, kind, t)
  }

  /** The resource command k takes: commands that set registers take them one after the other. */
  function Taken(ws: seq<Word>, k: nat): nat
    requires k <= |ws|
  {
    RegCount(ws, k)
  }

  /** Elements from the start index of the resource that register reg of thread t holds before word n. */
  function Space(ws: seq<Word>, res: seq<Res>, n: nat, reg: Reg, t: nat): int
    requires n <= |ws| && RegCount(ws, n) <= |res|
  {
    var k := Last(ws, n, KReg(reg), t);
    if k < 0 then -1
    else
      TakenBefore(ws, k, n);
      res[Taken(ws, k)].blen - res[Taken(ws, k)].index
  }

  /** Command k takes a resource before word n, so it is among the first. */
  lemma {:induction false} TakenBefore(ws: seq<Word>, k: nat, n: nat)
    requires k < n <= |ws|
    ensures RegCount(ws, k) + (if Decode(ws[k]).SetReg? then 1 else 0) <= RegCount(ws, n)
    decreases n
  {
    if k < n - 1 {
      TakenBefore(ws, k, n - 1);
    }
  }

  /** What the last SETEN of thread t says; a thread without one is undecided. */
  predicate Decided(ws: seq<Word>, n: nat, t: nat, on: bool)
    requires n <= |ws|
  {
    var e := Last(ws, n, KEn, t);
    e >= 0 && Decode(ws[e]) == SetEn(t, on)
  }

  /** A thread takes part in a PROD: everything is set, and both vectors lie in their buffers. */
  predicate Multiplies(ws: seq<Word>, res: seq<Res>, n: nat, t: nat)
    requires n <= |ws| && RegCount(ws, n) <= |res|
  {
    && Last(ws, n, KAcc, t) >= 0
    && var v := Last(ws, n, KVl, t);
       v >= 0 && Decode(ws[v]).SetVl?
       && Decode(ws[v]).len <= Space(ws, res, n, Rs, t) && Decode(ws[v]).len <= Space(ws, res, n, Rt, t)
  }

  predicate Stores(ws: seq<Word>, res: seq<Res>, n: nat, t: nat)
    requires n <= |ws| && RegCount(ws, n) <= |res|
  {
    Last(ws, n, KAcc, t) >= 0 && Space(ws, res, n, Rd, t) >= 1
  }

  /** Resource i exists and starts inside its buffer. */
  predicate Starts(res: seq<Res>, i: nat) { i < |res| && res[i].index <= res[i].blen }

  /** What word n must satisfy, given the words before it. */
  predicate WordOk(ws: seq<Word>, res: seq<Res>, n: nat)
    requires n < |ws| && RegCount(ws, n) <= |res|
  {
    match Decode(ws[n])
    case Invalid => false
    case Sync(stop, intr) => !stop && !intr
    case SetReg(_, _, _) => Starts(res, Taken(ws, n))
    case Prod(lo, hi) => forall t :: lo <= t < hi ==> Decided(ws, n, t, false) || (Decided(ws, n, t, true) && Multiplies(ws, res, n, t))
    case Store(lo, hi) => forall t :: lo <= t < hi ==> Decided(ws, n, t, false) || (Decided(ws, n, t, true) && Stores(ws, res, n, t))
    case _ => true
  }

  predicate WordsOk(ws: seq<Word>, res: seq<Res>, n: nat)
    requires n <= |ws|
  {
    forall j :: 0 <= j < n ==> RegCount(ws, j) <= |res| && WordOk(ws, res, j)
  }

  // ---- What the checker knows ----

  /** A register of the checker's thread state: the resource last taken for it, and the room there. */
  predicate RegIs(ws: seq<Word>, res: seq<Res>, n: nat, reg: Reg, t: nat, i: int, len: int)
    requires n <= |ws| && RegCount(ws, n) <= |res|
  {
    var k := Last(ws, n, KReg(reg), t);
    if k < 0 then i == -1 else i == Taken(ws, k) && i >= 0 && len == Space(ws, res, n, reg, t)
  }

  predicate ThreadIs(ws: seq<Word>, res: seq<Res>, n: nat, t: nat, th: Thread)
    requires n <= |ws| && RegCount(ws, n) <= |res|
  {
    var e, v := Last(ws, n, KEn, t), Last(ws, n, KVl, t);
    && (if e < 0 then th.en == -1 else Decode(ws[e]) == SetEn(t, th.en == 1) && 0 <= th.en <= 1)
    && (th.aSet <==> Last(ws, n, KAcc, t) >= 0)
    && (if v < 0 then th.vlen == -1 else Decode(ws[v]).SetVl? && th.vlen == Decode(ws[v]).len)
    && RegIs(ws, res, n, Rs, t, th.rs, th.rsLen) && RegIs(ws, res, n, Rt, t, th.rt, th.rtLen) && RegIs(ws, res, n, Rd, t, th.rd, th.rdLen)
  }

  predicate Describes(ws: seq<Word>, res: seq<Res>, n: nat, st: State)
    requires n <= |ws| && Wf(st, res)
  {
    st.cur == RegCount(ws, n) && forall t :: 0 <= t < NR_TID ==> ThreadIs(ws, res, n, t, st.ts[t])
  }

  lemma LastNext(ws: seq<Word>, n: nat, kind: Kind, t: nat)
    requires n < |ws|
    ensures Last(ws, n + 1, kind, t) == if Sets(Decode(ws[n]), kind, t) then n else Last(ws, n, kind, t)
  {
  }

  lemma SpaceNext(ws: seq<Word>, res: seq<Res>, n: nat, reg: Reg, t: nat)
    requires n < |ws| && RegCount(ws, n + 1) <= |res|
    ensures RegCount(ws, n) <= RegCount(ws, n + 1)
    ensures Space(ws, res, n + 1, reg, t) ==
            if Sets(Decode(ws[n]), KReg(reg), t) then res[Taken(ws, n)].blen - res[Taken(ws, n)].index else Space(ws, res, n, reg, t)
  {
    hide Decode;
    LastNext(ws, n, KReg(reg), t);
  }

  /** A thread the word does not touch is described as before. */
  lemma ThreadKeeps(ws: seq<Word>, res: seq<Res>, n: nat, t: nat, th: Thread)
    requires n < |ws| && RegCount(ws, n + 1) <= |res| && RegCount(ws, n) <= |res| && ThreadIs(ws, res, n, t, th)
    requires forall kind: Kind :: !Sets(Decode(ws[n]), kind, t)
    ensures ThreadIs(ws, res, n + 1, t, th)
  {
    hide Decode, Last, Space, Sets;
    Nexts(ws, res, n, t);
  }

  lemma Nexts(ws: seq<Word>, res: seq<Res>, n: nat, t: nat)
    requires n < |ws| && RegCount(ws, n + 1) <= |res|
    ensures RegCount(ws, n) <= RegCount(ws, n + 1)
    ensures forall kind: Kind :: Last(ws, n + 1, kind, t) == if Sets(Decode(ws[n]), kind, t) then n else Last(ws, n, kind, t)
    ensures forall reg: Reg :: Space(ws, res, n + 1, reg, t) ==
              if Sets(Decode(ws[n]), KReg(reg), t) then res[Taken(ws, n)].blen - res[Taken(ws, n)].index else Space(ws, res, n, reg, t)
  {
    hide Decode, Space, Last;
    forall kind: Kind
      ensures Last(ws, n + 1, kind, t) == if Sets(Decode(ws[n]), kind, t) then n else Last(ws, n, kind, t)
    {
      LastNext(ws, n, kind, t);
    }
    forall reg: Reg
      ensures RegCount(ws, n) <= RegCount(ws, n + 1)
      ensures Space(ws, res, n + 1, reg, t) ==
              if Sets(Decode(ws[n]), KReg(reg), t) then res[Taken(ws, n)].blen - res[Taken(ws, n)].index else Space(ws, res, n, reg, t)
    {
      SpaceNext(ws, res, n, reg, t);
    }
    assert RegCount(ws, n) <= RegCount(ws, n + 1);
  }

  /** A thread after a command that takes resource cur if it sets a register. */
  function ThreadAfter(th: Thread, c: Cmd, t: nat, cur: nat, res: seq<Res>): Thread {
    match c
    case SetAcc(u, _) => if u == t then th.(aSet := true) else th
    case SetVl(u, len) => if u == t then th.(vlen := len) else th
    case SetEn(u, en) => if u == t then th.(en := if en then 1 else 0) else th
    case SetReg(reg, u, _) => if u == t && Starts(res, cur) then Bind(th, reg, cur, res[cur].blen - res[cur].index) else th
    case _ => th
  }

  lemma StepThread(st: State, w: Word, res: seq<Res>, t: nat)
    requires Wf(st, res) && t < NR_TID && Step(st, w, res).Some?
    ensures Decode(w).SetReg? ==> Starts(res, st.cur)
    ensures Step(st, w, res).value.ts[t] == ThreadAfter(st.ts[t], Decode(w), t, st.cur, res)
  {
    hide Decode, PatchAddr;
  }

  lemma AccSet(ws: seq<Word>, res: seq<Res>, n: nat, t: nat, th: Thread)
    requires n < |ws| && RegCount(ws, n + 1) <= |res| && RegCount(ws, n) <= |res| && ThreadIs(ws, res, n, t, th)
    requires Decode(ws[n]).SetAcc? && Decode(ws[n]).t == t
    ensures ThreadIs(ws, res, n + 1, t, th.(aSet := true))
  {
    hide Decode, Last, Space;
    Nexts(ws, res, n, t);
  }

  lemma VlSet(ws: seq<Word>, res: seq<Res>, n: nat, t: nat, th: Thread)
    requires n < |ws| && RegCount(ws, n + 1) <= |res| && RegCount(ws, n) <= |res| && ThreadIs(ws, res, n, t, th)
    requires Decode(ws[n]).SetVl? && Decode(ws[n]).t == t
    ensures ThreadIs(ws, res, n + 1, t, th.(vlen := Decode(ws[n]).len))
  {
    hide Decode, Last, Space;
    Nexts(ws, res, n, t);
  }

  lemma EnSet(ws: seq<Word>, res: seq<Res>, n: nat, t: nat, th: Thread)
    requires n < |ws| && RegCount(ws, n + 1) <= |res| && RegCount(ws, n) <= |res| && ThreadIs(ws, res, n, t, th)
    requires Decode(ws[n]).SetEn? && Decode(ws[n]).t == t
    ensures ThreadIs(ws, res, n + 1, t, th.(en := if Decode(ws[n]).en then 1 else 0))
  {
    hide Decode, Last, Space;
    Nexts(ws, res, n, t);
  }

  lemma RegSet(ws: seq<Word>, res: seq<Res>, n: nat, t: nat, th: Thread, reg: Reg)
    requires n < |ws| && RegCount(ws, n + 1) <= |res| && Starts(res, RegCount(ws, n)) && ThreadIs(ws, res, n, t, th)
    requires Decode(ws[n]).SetReg? && Decode(ws[n]).t == t && Decode(ws[n]).reg == reg
    ensures ThreadIs(ws, res, n + 1, t, Bind(th, reg, RegCount(ws, n), res[RegCount(ws, n)].blen - res[RegCount(ws, n)].index))
  {
    hide Decode, Last, Space, RegCount;
    Nexts(ws, res, n, t);
  }

  /** The thread a word sets is described by its new state. */
  lemma ThreadSet(ws: seq<Word>, res: seq<Res>, n: nat, t: nat, th: Thread)
    requires n < |ws| && RegCount(ws, n + 1) <= |res| && RegCount(ws, n) <= |res| && t < NR_TID && ThreadIs(ws, res, n, t, th)
    requires Decode(ws[n]).SetReg? ==> Starts(res, RegCount(ws, n))
    ensures ThreadIs(ws, res, n + 1, t, ThreadAfter(th, Decode(ws[n]), t, RegCount(ws, n), res))
  {
    hide Decode, Last, Space, ThreadIs;
    var c := Decode(ws[n]);
    if c.SetAcc? && c.t == t {
      AccSet(ws, res, n, t, th);
    } else if c.SetVl? && c.t == t {
      VlSet(ws, res, n, t, th);
    } else if c.SetEn? && c.t == t {
      EnSet(ws, res, n, t, th);
    } else if c.SetReg? && c.t == t {
      RegSet(ws, res, n, t, th, c.reg);
    } else {
      ThreadKeeps(ws, res, n, t, th);
    }
  }

  lemma StepDescribes(ws: seq<Word>, res: seq<Res>, n: nat, st: State)
    requires Wf(st, res) && n < |ws| && Describes(ws, res, n, st) && Step(st, ws[n], res).Some?
    ensures Describes(ws, res, n + 1, Step(st, ws[n], res).value)
  {
    hide ThreadIs, Step, Decode;
    StepShape(st, ws[n], res);
    assert RegCount(ws, n + 1) <= |res|;
    forall t | 0 <= t < NR_TID ensures ThreadIs(ws, res, n + 1, t, Step(st, ws[n], res).value.ts[t]) {
      StepThread(st, ws[n], res, t);
      ThreadSet(ws, res, n, t, st.ts[t]);
    }
  }

  lemma ProdAgrees(ws: seq<Word>, res: seq<Res>, n: nat, st: State, t: nat)
    requires Wf(st, res) && n <= |ws| && Describes(ws, res, n, st) && t < NR_TID
    ensures RegCount(ws, n) <= |res|
    ensures
      (st.ts[t].en >= 0 && (st.ts[t].en != 0 ==> ProdReady(st.ts[t]))) <==>
      Decided(ws, n, t, false) || (Decided(ws, n, t, true) && Multiplies(ws, res, n, t))
  {
    hide Decode, Last;
    assert ThreadIs(ws, res, n, t, st.ts[t]) && WfThread(st.ts[t], res);
  }

  lemma StoreAgrees(ws: seq<Word>, res: seq<Res>, n: nat, st: State, t: nat)
    requires Wf(st, res) && n <= |ws| && Describes(ws, res, n, st) && t < NR_TID
    ensures RegCount(ws, n) <= |res|
    ensures
      (st.ts[t].en >= 0 && (st.ts[t].en != 0 ==> StoreReady(st.ts[t]))) <==>
      Decided(ws, n, t, false) || (Decided(ws, n, t, true) && Stores(ws, res, n, t))
  {
    hide Decode, Last;
    assert ThreadIs(ws, res, n, t, st.ts[t]) && WfThread(st.ts[t], res);
  }

  /** One command is accepted exactly when the word meets its condition. */
  lemma StepIff(ws: seq<Word>, res: seq<Res>, n: nat, st: State)
    requires Wf(st, res) && n < |ws| && Describes(ws, res, n, st)
    ensures RegCount(ws, n) <= |res| && (Step(st, ws[n], res).Some? <==> WordOk(ws, res, n))
  {
    hide Decode, Describes, Decided, Multiplies, Stores, ProdReady, StoreReady, PatchAddr, RegCount;
    assert st.cur == RegCount(ws, n) <= |res| by { CurIs(ws, res, n, st); }
    match Decode(ws[n])
    case Prod(lo, hi) =>
      VerifProdMeans(st.ts, st.vlens, lo, hi);
      forall t | lo <= t < hi { ProdAgrees(ws, res, n, st, t); }
    case Store(lo, hi) =>
      VerifStoreMeans(st.ts, st.vlens, lo, hi);
      forall t | lo <= t < hi { StoreAgrees(ws, res, n, st, t); }
    case _ =>
  }

  lemma CurIs(ws: seq<Word>, res: seq<Res>, n: nat, st: State)
    requires Wf(st, res) && n <= |ws| && Describes(ws, res, n, st)
    ensures st.cur == RegCount(ws, n)
  {
  }

  lemma {:induction false} PrefixIff(ws: seq<Word>, res: seq<Res>, n: nat)
    requires n <= |ws|
    ensures var r := Run(Init(|res|), ws[..n], res);
            (r.Some? <==> WordsOk(ws, res, n)) && (r.Some? ==> Describes(ws, res, n, r.value))
    decreases n
  {
    hide Step, Describes, WordOk;
    if n == 0 {
      StartDescribed(ws, res);
      assert ws[..0] == [];
    } else {
      PrefixIff(ws, res, n - 1);
      RunSnoc(Init(|res|), ws, n - 1, res);
      var r := Run(Init(|res|), ws[..n - 1], res);
      if r.Some? {
        StepIff(ws, res, n - 1, r.value);
        if Step(r.value, ws[n - 1], res).Some? {
          StepDescribes(ws, res, n - 1, r.value);
        }
      }
    }
  }

  lemma StartDescribed(ws: seq<Word>, res: seq<Res>)
    ensures Describes(ws, res, 0, Init(|res|))
  {
  }

  /**
   Acceptance, word by word.  The checker accepts a program with given resources if and only if
   no word is invalid or a SYNC that stops or interrupts, every command that sets a register
   finds a resource that starts inside its buffer, and every thread a PROD or STORE reaches has
   been decided and, when on, has been given all it needs, with room for what it touches.
   */
  lemma AcceptedMeans(ws: seq<Word>, res: seq<Res>)
    ensures Check(ws, res).Some? <==> WordsOk(ws, res, |ws|)
  {
    hide Run, WordsOk, Describes;
    PrefixIff(ws, res, |ws|);
    assert ws[..|ws|] == ws;
  }
}
