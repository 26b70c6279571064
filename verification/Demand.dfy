/**
 What a program asks of its resources, computed from the command words alone.
 */
module Demand {
  // The checker mixes two questions: is the program well formed, and are the bound buffers
  // long enough?  Here the first one is separated.  Use records, for every resource, the
  // greatest length any PROD or STORE uses it with (need) and the length used last (last);
  // the checker keeps only the latter, and later re-binding relies on it.

  import opened Isa
  import opened Wrappers
  import C = Checker

  datatype Thread = Thread(en: int, aSet: bool, rs: int, rt: int, rd: int, vlen: int)
  datatype Use = Use(need: seq<int>, last: seq<int>)
  datatype State = State(ts: seq<Thread>, cur: nat, use: Use)

  const RESET := Thread(-1, false, -1, -1, -1, -1)

  function Init(n: nat): State {
    State(seq(NR_TID, i => RESET), 0, Use(seq(n, i => -1), seq(n, i => -1)))
  }

  predicate WfThread(t: Thread, n: nat) {
    -1 <= t.en <= 1 && -1 <= t.vlen < LEN_LIMIT && -1 <= t.rs < n && -1 <= t.rt < n && -1 <= t.rd < n
  }

  predicate WfUse(u: Use, n: nat) { |u.need| == n && |u.last| == n }

  predicate Wf(st: State, n: nat) {
    && |st.ts| == NR_TID && st.cur <= n && WfUse(st.use, n)
    && forall t :: 0 <= t < NR_TID ==> WfThread(st.ts[t], n)
  }

  function Bind(t: Thread, reg: Reg, i: nat): Thread {
    match reg
    case Rs => t.(rs := i)
    case Rt => t.(rt := i)
    case Rd => t.(rd := i)
  }

  function Max(a: int, b: int): int { if a < b then b else a }

  function Note(u: Use, i: nat, len: int): (r: Use)
    requires i < |u.need| && i < |u.last|
    ensures |r.need| == |u.need| && |r.last| == |u.last|
  {
    Use(u.need[i := Max(u.need[i], len)], u.last[i := len])
  }

  predicate ProdReady(t: Thread) { t.aSet && t.rs >= 0 && t.rt >= 0 && t.vlen >= 0 }
  predicate StoreReady(t: Thread) { t.aSet && t.rd >= 0 }

  function Prod(ts: seq<Thread>, u: Use, n: nat, lo: nat, hi: nat): (r: Option<Use>)
    requires lo <= hi <= |ts| && WfUse(u, n)
    requires forall t :: lo <= t < hi ==> ts[t].rs < n && ts[t].rt < n && ts[t].rd < n
    ensures r.Some? ==> WfUse(r.value, n)
    decreases hi - lo
  {
    if lo == hi then Some(u)
    else if ts[lo].en < 0 then None
    else if ts[lo].en == 0 then Prod(ts, u, n, lo + 1, hi)
    else if !ProdReady(ts[lo]) then None
    else Prod(ts, Note(Note(u, ts[lo].rs, ts[lo].vlen), ts[lo].rt, ts[lo].vlen), n, lo + 1, hi)
  }

  function Store(ts: seq<Thread>, u: Use, n: nat, lo: nat, hi: nat): (r: Option<Use>)
    requires lo <= hi <= |ts| && WfUse(u, n)
    requires forall t :: lo <= t < hi ==> ts[t].rs < n && ts[t].rt < n && ts[t].rd < n
    ensures r.Some? ==> WfUse(r.value, n)
    decreases hi - lo
  {
    if lo == hi then Some(u)
    else if ts[lo].en < 0 then None
    else if ts[lo].en == 0 then Store(ts, u, n, lo + 1, hi)
    else if !StoreReady(ts[lo]) then None
    else Store(ts, Note(u, ts[lo].rd, 1), n, lo + 1, hi)
  }

  function Step(st: State, w: Word, n: nat): (r: Option<State>)
    requires Wf(st, n)
    ensures r.Some? ==> Wf(r.value, n)
  {
    match Decode(w)
    case SetAcc(t, _) => Some(st.(ts := st.ts[t := st.ts[t].(aSet := true)]))
    case SetVl(t, len) => Some(st.(ts := st.ts[t := st.ts[t].(vlen := len)]))
    case SetEn(t, en) => Some(st.(ts := st.ts[t := st.ts[t].(en := if en then 1 else 0)]))
    case SetReg(reg, t, _) =>
      if st.cur >= n then None
      else Some(State(st.ts[t := Bind(st.ts[t], reg, st.cur)], st.cur + 1, st.use))
    case Prod(lo, hi) =>
      var u := Prod(st.ts, st.use, n, lo, hi);
      if u.None? then None else Some(st.(use := u.value))
    case Store(lo, hi) =>
      var u := Store(st.ts, st.use, n, lo, hi);
      if u.None? then None else Some(st.(use := u.value))
    case Sync(stop, intr) => if stop || intr then None else Some(st)
    case Actf(_, _, _) => Some(st)
    case Nop => Some(st)
    case Invalid => None
  }

  function Run(st: State, ws: seq<Word>, n: nat): (r: Option<State>)
    requires Wf(st, n)
    ensures r.Some? ==> Wf(r.value, n)
    decreases |ws|
  {
    if ws == [] then Some(st)
    else
      var s := Step(st, ws[0], n);
      if s.None? then None else Run(s.value, ws[1..], n)
  }

  /** The demand of a program with n resources; None when no binding could make it acceptable. */
  function Of(ws: seq<Word>, n: nat): (r: Option<State>)
    ensures r.Some? ==> Wf(r.value, n)
  {
    Run(Init(n), ws, n)
  }

  lemma {:induction false} RunAppend(st: State, a: seq<Word>, b: seq<Word>, n: nat)
    requires Wf(st, n)
    ensures Run(st, a + b, n) ==
            (var m := Run(st, a, n); if m.None? then None else Run(m.value, b, n))
    decreases |a|
  {
    if a == [] {
      assert a + b == b;
    } else {
      assert (a + b)[0] == a[0] && (a + b)[1..] == a[1..] + b;
      var s := Step(st, a[0], n);
      if s.Some? {
        RunAppend(s.value, a[1..], b, n);
      }
    }
  }

  // ---- Relation to the checker ----

  /** The buffers meet the demand recorded so far. */
  predicate Room(r: C.Res, need: int) { r.index <= r.blen && need <= r.blen - r.index }

  predicate Meets(st: State, res: seq<C.Res>)
    requires Wf(st, |res|)
  {
    forall i :: 0 <= i < st.cur ==> Room(res[i], st.use.need[i])
  }

  predicate SameThread(c: C.Thread, d: Thread) {
    c.en == d.en && c.aSet == d.aSet && c.rs == d.rs && c.rt == d.rt && c.rd == d.rd && c.vlen == d.vlen
  }

  /** Only resources consumed so far are referred to or have a recorded use. */
  predicate Consumed(st: State, n: nat)
    requires Wf(st, n)
  {
    && (forall t :: 0 <= t < NR_TID ==> st.ts[t].rs < st.cur && st.ts[t].rt < st.cur && st.ts[t].rd < st.cur)
    && (forall i :: st.cur <= i < n ==> st.use.need[i] == -1 && st.use.last[i] == -1)
    && (forall i :: 0 <= i < n ==> -1 <= st.use.last[i] <= st.use.need[i])
    && (forall i :: 0 <= i < n ==> (st.use.need[i] == -1 <==> st.use.last[i] == -1))
  }

  predicate Matches(c: C.State, d: State, res: seq<C.Res>)
    requires C.Wf(c, res) && Wf(d, |res|)
  {
    && c.cur == d.cur && c.vlens == d.use.last
    && (forall t :: 0 <= t < NR_TID ==> SameThread(c.ts[t], d.ts[t]))
  }

  predicate NeedGrows(u: Use, v: Use) {
    |u.need| == |v.need| && forall i :: 0 <= i < |u.need| ==> u.need[i] <= v.need[i]
  }

  /** Uses of threads lo..hi stay within what each consumed resource offers. */
  predicate UseFits(u: Use, cur: nat, res: seq<C.Res>)
    requires WfUse(u, |res|) && cur <= |res|
  {
    forall i :: 0 <= i < cur ==> Room(res[i], u.need[i])
  }

  lemma NoteKeeps(d: State, u: Use, i: nat, len: nat, n: nat)
    requires Wf(d, n) && WfUse(u, n) && Consumed(d.(use := u), n) && i < d.cur
    ensures
      var v := Note(u, i, len);
      && WfUse(v, n) && Consumed(d.(use := v), n) && NeedGrows(u, v)
      && v.need[i] == Max(u.need[i], len) && v.last == u.last[i := len]
      && forall j :: 0 <= j < n && j != i ==> v.need[j] == u.need[j]
  {
  }

  lemma UnfitStays(u: Use, v: Use, cur: nat, res: seq<C.Res>)
    requires WfUse(u, |res|) && WfUse(v, |res|) && cur <= |res| && NeedGrows(u, v) && !UseFits(u, cur, res)
    ensures !UseFits(v, cur, res)
  {
    var i :| 0 <= i < cur && !Room(res[i], u.need[i]);
    assert u.need[i] <= v.need[i] && !Room(res[i], v.need[i]);
  }

  lemma NoteFits(u: Use, i: nat, len: nat, cur: nat, res: seq<C.Res>)
    requires WfUse(u, |res|) && i < cur <= |res| && UseFits(u, cur, res)
    ensures UseFits(Note(u, i, len), cur, res) <==> len <= res[i].blen - res[i].index
  {
    var v := Note(u, i, len);
    assert Room(res[i], u.need[i]);
    if len <= res[i].blen - res[i].index {
      assert forall j :: 0 <= j < cur && j != i ==> v.need[j] == u.need[j];
    } else {
      assert !Room(res[i], v.need[i]);
    }
  }

  /** One enabled thread at a PROD: the checker's length test is the demand test. */
  lemma ProdThread(c: C.State, d: State, u: Use, res: seq<C.Res>, i: nat)
    requires C.Wf(c, res) && Wf(d, |res|) && Matches(c, d, res) && Consumed(d, |res|)
    requires i < NR_TID && WfUse(u, |res|) && Consumed(d.(use := u), |res|) && UseFits(u, d.cur, res)
    requires ProdReady(d.ts[i])
    ensures
      var t := d.ts[i];
      var v := Note(Note(u, t.rs, t.vlen), t.rt, t.vlen);
      && WfUse(v, |res|) && Consumed(d.(use := v), |res|) && NeedGrows(u, v)
      && v.last == u.last[t.rs := t.vlen][t.rt := t.vlen]
      && (UseFits(v, d.cur, res) <==> C.ProdReady(c.ts[i]))
  {
    var t := d.ts[i];
    assert SameThread(c.ts[i], t) && C.WfThread(c.ts[i], res);
    var w := Note(u, t.rs, t.vlen);
    NoteKeeps(d, u, t.rs, t.vlen, |res|);
    NoteKeeps(d, w, t.rt, t.vlen, |res|);
    NoteFits(u, t.rs, t.vlen, d.cur, res);
    if UseFits(w, d.cur, res) {
      NoteFits(w, t.rt, t.vlen, d.cur, res);
    } else {
      UnfitStays(w, Note(w, t.rt, t.vlen), d.cur, res);
    }
  }

  lemma GrowsChain(u: Use, v: Use, w: Use)
    requires NeedGrows(u, v) && NeedGrows(v, w)
    ensures NeedGrows(u, w)
  {
  }

  /** Once a resource is too short for its use, it stays so. */
  lemma ProdUnfit(d: State, v: Use, res: seq<C.Res>, lo: nat, hi: nat)
    requires Wf(d, |res|) && WfUse(v, |res|) && Consumed(d.(use := v), |res|) && lo <= hi <= NR_TID
    requires !UseFits(v, d.cur, res)
    ensures
      var q := Prod(d.ts, v, |res|, lo, hi);
      q.Some? ==> NeedGrows(v, q.value) && Consumed(d.(use := q.value), |res|) && !UseFits(q.value, d.cur, res)
  {
    ProdGrows(d, v, |res|, lo, hi);
    hide Prod, Consumed;
    var q := Prod(d.ts, v, |res|, lo, hi);
    if q.Some? {
      UnfitStays(v, q.value, d.cur, res);
    }
  }

  /** The thread states the checker and the demand walk over agree. */
  lemma SameAt(c: C.State, d: State, res: seq<C.Res>, i: nat)
    requires C.Wf(c, res) && Wf(d, |res|) && Matches(c, d, res) && i < NR_TID
    ensures SameThread(c.ts[i], d.ts[i]) && C.WfThread(c.ts[i], res) && WfThread(d.ts[i], |res|)
  {
  }

  lemma {:induction false} ProdFactor(c: C.State, d: State, u: Use, res: seq<C.Res>, lo: nat, hi: nat)
    requires C.Wf(c, res) && Wf(d, |res|) && Matches(c, d, res) && Consumed(d, |res|)
    requires lo <= hi <= NR_TID && WfUse(u, |res|) && Consumed(d.(use := u), |res|) && UseFits(u, d.cur, res)
    ensures
      var p, q := C.VerifProd(c.ts, u.last, lo, hi), Prod(d.ts, u, |res|, lo, hi);
      && (p.Some? <==> q.Some? && UseFits(q.value, d.cur, res))
      && (p.Some? ==> p.value == q.value.last)
    ensures
      var q := Prod(d.ts, u, |res|, lo, hi);
      q.Some? ==> NeedGrows(u, q.value) && Consumed(d.(use := q.value), |res|)
    decreases hi - lo
  {
    hide Consumed, UseFits, NeedGrows, Note, Matches;
    NeedSame(u);
    if lo < hi {
      SameAt(c, d, res, lo);
      var t := d.ts[lo];
      if t.en == 0 {
        ProdFactor(c, d, u, res, lo + 1, hi);
      } else if t.en > 0 && ProdReady(t) {
        var v := Note(Note(u, t.rs, t.vlen), t.rt, t.vlen);
        ProdThread(c, d, u, res, lo);
        if UseFits(v, d.cur, res) {
          ProdFactor(c, d, v, res, lo + 1, hi);
        } else {
          ProdUnfit(d, v, res, lo + 1, hi);
        }
        var q := Prod(d.ts, v, |res|, lo + 1, hi);
        if q.Some? {
          GrowsChain(u, v, q.value);
        }
      }
    }
  }

  lemma NeedSame(u: Use)
    requires |u.need| == |u.last|
    ensures NeedGrows(u, u)
  {
  }

  lemma {:induction false} ProdGrows(d: State, u: Use, n: nat, lo: nat, hi: nat)
    requires Wf(d, n) && WfUse(u, n) && Consumed(d.(use := u), n) && lo <= hi <= NR_TID
    ensures
      var q := Prod(d.ts, u, n, lo, hi);
      q.Some? ==> NeedGrows(u, q.value) && Consumed(d.(use := q.value), n)
    decreases hi - lo
  {
    if lo < hi {
      var t := d.ts[lo];
      if t.en == 0 {
        ProdGrows(d, u, n, lo + 1, hi);
      } else if t.en > 0 && ProdReady(t) {
        NoteKeeps(d, u, t.rs, t.vlen, n);
        NoteKeeps(d, Note(u, t.rs, t.vlen), t.rt, t.vlen, n);
        ProdGrows(d, Note(Note(u, t.rs, t.vlen), t.rt, t.vlen), n, lo + 1, hi);
      }
    }
  }

  lemma {:induction false} StoreFactor(c: C.State, d: State, u: Use, res: seq<C.Res>, lo: nat, hi: nat)
    requires C.Wf(c, res) && Wf(d, |res|) && Matches(c, d, res) && Consumed(d, |res|)
    requires lo <= hi <= NR_TID && WfUse(u, |res|) && Consumed(d.(use := u), |res|) && UseFits(u, d.cur, res)
    ensures
      var p, q := C.VerifStore(c.ts, u.last, lo, hi), Store(d.ts, u, |res|, lo, hi);
      && (p.Some? <==> q.Some? && UseFits(q.value, d.cur, res))
      && (p.Some? ==> p.value == q.value.last)
    ensures
      var q := Store(d.ts, u, |res|, lo, hi);
      q.Some? ==> NeedGrows(u, q.value) && Consumed(d.(use := q.value), |res|)
    decreases hi - lo
  {
    if lo < hi {
      assert SameThread(c.ts[lo], d.ts[lo]) && C.WfThread(c.ts[lo], res) && WfThread(d.ts[lo], |res|);
      var t := d.ts[lo];
      if t.en == 0 {
        StoreFactor(c, d, u, res, lo + 1, hi);
      } else if t.en > 0 && StoreReady(t) {
        NoteKeeps(d, u, t.rd, 1, |res|);
        var v := Note(u, t.rd, 1);
        NoteFits(u, t.rd, 1, d.cur, res);
        assert UseFits(v, d.cur, res) <==> C.StoreReady(c.ts[lo]);
        if UseFits(v, d.cur, res) {
          StoreFactor(c, d, v, res, lo + 1, hi);
        } else {
          StoreGrows(d, v, |res|, lo + 1, hi);
          var q := Store(d.ts, v, |res|, lo + 1, hi);
          if q.Some? {
            UnfitStays(v, q.value, d.cur, res);
          }
        }
      }
    }
  }

  lemma {:induction false} StoreGrows(d: State, u: Use, n: nat, lo: nat, hi: nat)
    requires Wf(d, n) && WfUse(u, n) && Consumed(d.(use := u), n) && lo <= hi <= NR_TID
    ensures
      var q := Store(d.ts, u, n, lo, hi);
      q.Some? ==> NeedGrows(u, q.value) && Consumed(d.(use := q.value), n)
    decreases hi - lo
  {
    if lo < hi {
      var t := d.ts[lo];
      if t.en == 0 {
        StoreGrows(d, u, n, lo + 1, hi);
      } else if t.en > 0 && StoreReady(t) {
        NoteKeeps(d, u, t.rd, 1, n);
        StoreGrows(d, Note(u, t.rd, 1), n, lo + 1, hi);
      }
    }
  }

  lemma StepGrows(d: State, w: Word, n: nat)
    requires Wf(d, n) && Consumed(d, n)
    ensures
      var q := Step(d, w, n);
      q.Some? ==> Consumed(q.value, n) && NeedGrows(d.use, q.value.use) && d.cur <= q.value.cur
  {
    match Decode(w)
    case Prod(lo, hi) => ProdGrows(d, d.use, n, lo, hi);
    case Store(lo, hi) => StoreGrows(d, d.use, n, lo, hi);
    case _ =>
  }

  lemma {:induction false} RunGrows(d: State, ws: seq<Word>, n: nat)
    requires Wf(d, n) && Consumed(d, n)
    ensures
      var q := Run(d, ws, n);
      q.Some? ==> Consumed(q.value, n) && NeedGrows(d.use, q.value.use) && d.cur <= q.value.cur
    decreases |ws|
  {
    if ws != [] {
      StepGrows(d, ws[0], n);
      var s := Step(d, ws[0], n);
      if s.Some? {
        RunGrows(s.value, ws[1..], n);
      }
    }
  }

  lemma SetFactor(c: C.State, d: State, w: Word, res: seq<C.Res>)
    requires C.Wf(c, res) && Wf(d, |res|) && Matches(c, d, res) && Consumed(d, |res|) && Meets(d, res)
    requires !Decode(w).Prod? && !Decode(w).Store? && !Decode(w).SetReg?
    ensures
      var p, q := C.Step(c, w, res), Step(d, w, |res|);
      && (p.Some? <==> q.Some? && Meets(q.value, res))
      && (p.Some? ==> Matches(p.value, q.value, res))
  {
    hide Decode;
  }

  lemma SetRegFactor(c: C.State, d: State, w: Word, res: seq<C.Res>)
    requires C.Wf(c, res) && Wf(d, |res|) && Matches(c, d, res) && Consumed(d, |res|) && Meets(d, res)
    requires Decode(w).SetReg?
    ensures
      var p, q := C.Step(c, w, res), Step(d, w, |res|);
      && (p.Some? <==> q.Some? && Meets(q.value, res))
      && (p.Some? ==> Matches(p.value, q.value, res))
  {
    hide Decode;
    if d.cur < |res| && res[d.cur].index > res[d.cur].blen {
      assert !Room(res[d.cur], -1);
      assert !Meets(Step(d, w, |res|).value, res);
    }
  }

  lemma ProdStepFactor(c: C.State, d: State, w: Word, res: seq<C.Res>)
    requires C.Wf(c, res) && Wf(d, |res|) && Matches(c, d, res) && Consumed(d, |res|) && Meets(d, res)
    requires Decode(w).Prod? || Decode(w).Store?
    ensures
      var p, q := C.Step(c, w, res), Step(d, w, |res|);
      && (p.Some? <==> q.Some? && Meets(q.value, res))
      && (p.Some? ==> Matches(p.value, q.value, res))
  {
    hide Decode, Consumed;
    match Decode(w)
    case Prod(lo, hi) => ProdFactor(c, d, d.use, res, lo, hi);
    case Store(lo, hi) => StoreFactor(c, d, d.use, res, lo, hi);
  }

  lemma StepFactor(c: C.State, d: State, w: Word, res: seq<C.Res>)
    requires C.Wf(c, res) && Wf(d, |res|) && Matches(c, d, res) && Consumed(d, |res|) && Meets(d, res)
    ensures
      var p, q := C.Step(c, w, res), Step(d, w, |res|);
      && (p.Some? <==> q.Some? && Meets(q.value, res))
      && (p.Some? ==> Matches(p.value, q.value, res) && Consumed(q.value, |res|))
  {
    hide Decode, C.Step, Step, Consumed, Matches, Meets;
    StepGrows(d, w, |res|);
    if Decode(w).SetReg? {
      SetRegFactor(c, d, w, res);
    } else if Decode(w).Prod? || Decode(w).Store? {
      ProdStepFactor(c, d, w, res);
    } else {
      SetFactor(c, d, w, res);
    }
  }

  lemma {:induction false} RunFactor(c: C.State, d: State, ws: seq<Word>, res: seq<C.Res>)
    requires C.Wf(c, res) && Wf(d, |res|) && Matches(c, d, res) && Consumed(d, |res|) && Meets(d, res)
    ensures
      var p, q := C.Run(c, ws, res), Run(d, ws, |res|);
      && (p.Some? <==> q.Some? && Meets(q.value, res))
      && (p.Some? ==> Matches(p.value, q.value, res) && Consumed(q.value, |res|))
    decreases |ws|
  {
    if ws != [] {
      StepFactor(c, d, ws[0], res);
      StepGrows(d, ws[0], |res|);
      var p, q := C.Step(c, ws[0], res), Step(d, ws[0], |res|);
      if p.Some? {
        RunFactor(p.value, q.value, ws[1..], res);
      } else if q.Some? {
        RunGrows(q.value, ws[1..], |res|);
        var e := Run(q.value, ws[1..], |res|);
        if e.Some? {
          var i :| 0 <= i < q.value.cur && !Room(res[i], q.value.use.need[i]);
          assert !Room(res[i], e.value.use.need[i]);
        }
      }
    }
  }

  /**
   Acceptance separates: a program is accepted with given resources exactly when it is well
   formed by itself and every resource it consumes has room for the greatest length it is
   used with.  The recorded vector lengths are the last ones used.
   */
  lemma AcceptIff(ws: seq<Word>, res: seq<C.Res>)
    ensures C.Check(ws, res).Some? <==> Of(ws, |res|).Some? && Meets(Of(ws, |res|).value, res)
    ensures C.Check(ws, res).Some? ==>
              && Matches(C.Check(ws, res).value, Of(ws, |res|).value, res)
              && Consumed(Of(ws, |res|).value, |res|)
  {
    RunFactor(C.Init(|res|), Init(|res|), ws, res);
  }
}
