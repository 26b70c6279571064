/**
 What generated code asks of its resources: every program the generator emits is well
 formed, its k-th SETRx takes binding k, and each binding is used with exactly one length.

 The proofs follow the generator call by call.  A generator state tracks a demand state when
 running its program from nothing gives that demand, with the jobs placed since the last
 finished batch loaded into the first threads and all other threads off.
 */
module Completeness {
  import opened Isa
  import opened Wrappers
  import opened Semantics
  import opened CodeGen
  import opened Stages
  import opened EnableCache
  import D = Demand

  /** The length binding i is used with: the job's vector length, or one element for a result. */
  function UseOf(all: seq<Job>, i: nat): int
    requires i < 3 * |all|
  {
    if i % 3 == 2 then 1 else all[i / 3].len
  }

  /** Bindings below m have been used as UseOf says, the others not at all. */
  predicate UsedUpTo(u: D.Use, all: seq<Job>, m: nat, n: nat) {
    && D.WfUse(u, n) && m <= 3 * |all| && m <= n
    && (forall i :: 0 <= i < m ==> u.need[i] == UseOf(all, i) && u.last[i] == UseOf(all, i))
    && (forall i :: m <= i < n ==> u.need[i] == -1 && u.last[i] == -1)
  }

  /** A checker thread that has been loaded with a job whose first binding is r. */
  predicate Holds(t: D.Thread, r: int, len: nat) {
    t.en == 1 && t.aSet && t.rs == r && t.rt == r + 1 && t.rd == r + 2 && t.vlen == len
  }

  /** Enable bits known to the generator are the checker's. */
  predicate BitsAgree(g: Gen, base: nat, d: D.State) {
    && |d.ts| == NR_TID && OnDevice(g, base)
    && (forall k :: 0 <= k < |g.threads| ==>
          -1 <= g.threads[k].en <= 1 && (g.threads[k].en != -1 ==> d.ts[base + k].en == g.threads[k].en))
    && (forall u :: NR_THR - base <= u < NR_THR - base + |g.inactive| ==> d.ts[u].en == 0)
  }

  /** The pending jobs are the last g.cur ones, loaded on the first g.cur threads. */
  predicate PendingLoaded(g: Gen, base: nat, d: D.State, all: seq<Job>) {
    && |d.ts| == NR_TID && g.cur <= |all| && base + g.cur <= NR_TID && g.cur <= |g.threads|
    && (forall k :: 0 <= k < g.cur ==> g.threads[k].en == 1)
    && (forall t :: base <= t < base + g.cur ==>
          Holds(d.ts[t], 3 * (|all| - g.cur + t - base), all[|all| - g.cur + t - base].len))
  }

  predicate Loaded(g: Gen, base: nat, d: D.State, n: nat, all: seq<Job>) {
    && D.Wf(d, n) && |g.bindings| == 3 * |all| == d.cur
    && BitsAgree(g, base, d) && PendingLoaded(g, base, d, all)
    && UsedUpTo(d.use, all, 3 * (|all| - g.cur), n)
  }

  lemma RunCons(d: D.State, w: Word, ws: seq<Word>, n: nat)
    requires D.Wf(d, n)
    ensures D.Run(d, [w] + ws, n) ==
            (var s := D.Step(d, w, n); if s.None? then None else D.Run(s.value, ws, n))
  {
    assert ([w] + ws)[0] == w && ([w] + ws)[1..] == ws;
  }

  /** The thread record after a job has been loaded on it. */
  function LoadedThread(t: D.Thread, en: int, nb: nat, len: nat): D.Thread {
    D.Thread(en, true, nb, nb + 1, nb + 2, len)
  }

  lemma LoadEnabledRun(d: D.State, t: HwThread, j: Job, nb: nat, n: nat)
    requires D.Wf(d, n) && OnBoard(t) && WfJob(j) && t.en == 1 && d.cur == nb && nb + 3 <= n
    ensures
      var u := TidOf(t);
      var e := d.(ts := d.ts[u := LoadedThread(d.ts[u], d.ts[u].en, nb, j.len)], cur := nb + 3);
      D.Wf(e, n) && D.Run(d, LoadWords(t, j, nb), n) == Some(e)
  {
    hide D.Run, SetAccWord, SetRegWord, SetVlWord, SetEnWord, Decode;
    var u := TidOf(t);
    var w0, w1, w2 := SetAccWord(t, j.bias), SetRegWord(t, Rs, nb * 16), SetRegWord(t, Rt, (nb + 1) * 16);
    var w3, w4 := SetRegWord(t, Rd, (nb + 2) * 16), SetVlWord(t, j.len);
    DecodeSetAcc(t, j.bias);
    DecodeSetReg(t, Rs, nb * 16);
    DecodeSetReg(t, Rt, (nb + 1) * 16);
    DecodeSetReg(t, Rd, (nb + 2) * 16);
    DecodeSetVl(t, j.len);
    assert LoadWords(t, j, nb) == [w0] + ([w1] + ([w2] + ([w3] + ([w4] + []))));
    var d0 := D.Step(d, w0, n).value;
    var d1 := D.Step(d0, w1, n).value;
    var d2 := D.Step(d1, w2, n).value;
    var d3 := D.Step(d2, w3, n).value;
    var d4 := D.Step(d3, w4, n).value;
    RunCons(d, w0, [w1] + ([w2] + ([w3] + ([w4] + []))), n);
    RunCons(d0, w1, [w2] + ([w3] + ([w4] + [])), n);
    RunCons(d1, w2, [w3] + ([w4] + []), n);
    RunCons(d2, w3, [w4] + [], n);
    RunCons(d3, w4, [], n);
    RunNothing(d4, n);
    assert d4.ts == d.ts[u := LoadedThread(d.ts[u], d.ts[u].en, nb, j.len)];
  }

  lemma RunNothing(d: D.State, n: nat)
    requires D.Wf(d, n)
    ensures D.Run(d, [], n) == Some(d)
  {
  }

  lemma LoadRun(d: D.State, t: HwThread, j: Job, nb: nat, n: nat)
    requires D.Wf(d, n) && OnBoard(t) && WfJob(j) && d.cur == nb && nb + 3 <= n
    ensures
      var u := TidOf(t);
      var en := if t.en != 1 then 1 else d.ts[u].en;
      var e := d.(ts := d.ts[u := LoadedThread(d.ts[u], en, nb, j.len)], cur := nb + 3);
      D.Wf(e, n) && D.Run(d, LoadWords(t, j, nb), n) == Some(e)
  {
    if t.en == 1 {
      LoadEnabledRun(d, t, j, nb, n);
    } else {
      hide D.Run, Decode, SetEnWord;
      var u, on, w := TidOf(t), t.(en := 1), SetEnWord(t, true);
      DecodeSetEn(t, true);
      assert LoadWords(t, j, nb) == [w] + LoadWords(on, j, nb);
      RunCons(d, w, LoadWords(on, j, nb), n);
      var d0 := D.Step(d, w, n).value;
      LoadEnabledRun(d0, on, j, nb, n);
      assert d0.ts[u := LoadedThread(d0.ts[u], 1, nb, j.len)] == d.ts[u := LoadedThread(d.ts[u], 1, nb, j.len)];
    }
  }

  lemma AllocAgrees(g: Gen, base: nat, d: D.State, e: D.State, all: seq<Job>, j: Job)
    requires Wf(g) && BitsAgree(g, base, d) && PendingLoaded(g, base, d, all) && g.cur < |g.threads| && WfJob(j)
    requires |g.bindings| == 3 * |all|
    requires
      var u := base + g.cur;
      var en := if g.threads[g.cur].en != 1 then 1 else d.ts[u].en;
      u < NR_TID && e.ts == d.ts[u := LoadedThread(d.ts[u], en, |g.bindings|, j.len)]
    ensures BitsAgree(Alloc(g, j), base, e) && PendingLoaded(Alloc(g, j), base, e, all + [j])
  {
    hide LoadWords;
    assert forall v :: 0 <= v < NR_TID && v != base + g.cur ==> e.ts[v] == d.ts[v];
  }

  lemma AllocLoads(g: Gen, base: nat, d: D.State, n: nat, all: seq<Job>, j: Job)
    requires Wf(g) && Loaded(g, base, d, n, all) && g.cur < |g.threads| && WfJob(j) && 3 * |all| + 3 <= n
    ensures
      var r := D.Run(d, LoadWords(g.threads[g.cur], j, |g.bindings|), n);
      r.Some? && Loaded(Alloc(g, j), base, r.value, n, all + [j])
  {
    assert g.cur <= |all|;
    hide D.Run, LoadWords, D.Step, Decode, UsedUpTo, PendingLoaded;
    OnDeviceBoards(g, base);
    var t := g.threads[g.cur];
    assert TidOf(t) == base + g.cur;
    LoadRun(d, t, j, |g.bindings|, n);
    AllocAgrees(g, base, d, D.Run(d, LoadWords(t, j, |g.bindings|), n).value, all, j);
    UsedLonger(d.use, all, j, 3 * (|all| - g.cur), n);
  }

  lemma UsedLonger(u: D.Use, all: seq<Job>, j: Job, m: nat, n: nat)
    requires UsedUpTo(u, all, m, n)
    ensures UsedUpTo(u, all + [j], m, n)
  {
    forall i | 0 <= i < m
      ensures UseOf(all + [j], i) == UseOf(all, i)
    {
    }
  }

  // ---- Closing a batch ----

  predicate DisabledFrom(d: D.State, e: D.State, ts: seq<HwThread>, k: nat, base: nat) {
    && |d.ts| == |e.ts| == NR_TID && e.cur == d.cur && e.use == d.use
    && (forall u :: 0 <= u < NR_TID ==>
          e.ts[u] == if base + k <= u < base + |ts| && ts[u - base].en != 0 then d.ts[u].(en := 0) else d.ts[u])
  }

  lemma DisableStep(d: D.State, t: HwThread, n: nat)
    requires D.Wf(d, n) && OnBoard(t)
    ensures
      var e := d.(ts := d.ts[TidOf(t) := d.ts[TidOf(t)].(en := 0)]);
      D.Wf(e, n) && D.Step(d, SetEnWord(t, false), n) == Some(e)
  {
    hide SetEnWord, Decode;
    DecodeSetEn(t, false);
  }

  lemma DisabledNone(d: D.State, ts: seq<HwThread>, base: nat)
    requires |d.ts| == NR_TID
    ensures DisabledFrom(d, d, ts, |ts|, base)
  {
  }

  lemma DisabledChain(d: D.State, r: D.State, ts: seq<HwThread>, k: nat, base: nat)
    requires k < |ts| && ts[k].en != 0 && |d.ts| == NR_TID && base + k < NR_TID
    requires DisabledFrom(d.(ts := d.ts[base + k := d.ts[base + k].(en := 0)]), r, ts, k + 1, base)
    ensures DisabledFrom(d, r, ts, k, base)
  {
  }

  lemma DisabledSkip(d: D.State, r: D.State, ts: seq<HwThread>, k: nat, base: nat)
    requires k < |ts| && ts[k].en == 0 && DisabledFrom(d, r, ts, k + 1, base)
    ensures DisabledFrom(d, r, ts, k, base)
  {
  }

  lemma {:induction false} DisableRun(d: D.State, ts: seq<HwThread>, k: nat, base: nat, n: nat)
    requires D.Wf(d, n) && k <= |ts| && Encodable(ts)
    requires forall i :: 0 <= i < |ts| ==> OnBoard(ts[i]) && TidOf(ts[i]) == base + i
    ensures
      var r := D.Run(d, DisableWords(ts, k), n);
      r.Some? && DisabledFrom(d, r.value, ts, k, base)
    decreases |ts| - k
  {
    hide D.Run, D.Step, DisabledFrom, Decode, SetEnWord;
    DisabledNone(d, ts, base);
    if k == |ts| {
      RunNothing(d, n);
    } else if ts[k].en == 0 {
      assert DisableWords(ts, k) == DisableWords(ts, k + 1);
      DisableRun(d, ts, k + 1, base, n);
      DisabledSkip(d, D.Run(d, DisableWords(ts, k + 1), n).value, ts, k, base);
    } else {
      DisableStep(d, ts[k], n);
      RunCons(d, SetEnWord(ts[k], false), DisableWords(ts, k + 1), n);
      var e := d.(ts := d.ts[base + k := d.ts[base + k].(en := 0)]);
      DisableRun(e, ts, k + 1, base, n);
      DisabledChain(d, D.Run(e, DisableWords(ts, k + 1), n).value, ts, k, base);
    }
  }

  /** Thread states at the tail of a batch: the first c threads loaded, all others off. */
  predicate BatchReady(ts: seq<D.Thread>, base: nat, c: nat, all: seq<Job>) {
    && |ts| == NR_TID && c <= |all| && base + c <= NR_TID
    && forall t :: 0 <= t < NR_TID ==>
         if base <= t < base + c
         then Holds(ts[t], 3 * (|all| - c + t - base), all[|all| - c + t - base].len)
         else ts[t].en == 0
  }

  /** Binding i belongs to a job of the batch whose thread is not below lo. */
  predicate InBatch(i: int, lo: nat, base: nat, c: nat, all: seq<Job>) {
    3 * (|all| - c) <= i < 3 * |all| && base + (i / 3 - (|all| - c)) >= lo
  }

  predicate SmallRefs(ts: seq<D.Thread>, n: nat) {
    forall t :: 0 <= t < |ts| ==> ts[t].rs < n && ts[t].rt < n && ts[t].rd < n
  }

  predicate ProdMarked(u: D.Use, v: D.Use, lo: nat, base: nat, c: nat, all: seq<Job>, n: nat) {
    && D.WfUse(u, n) && D.WfUse(v, n) && 3 * |all| <= n && c <= |all|
    && forall i :: 0 <= i < n ==>
         if InBatch(i, lo, base, c, all) && i % 3 != 2
         then v.need[i] == D.Max(u.need[i], UseOf(all, i)) && v.last[i] == UseOf(all, i)
         else v.need[i] == u.need[i] && v.last[i] == u.last[i]
  }

  lemma ProdMarkStep(u: D.Use, r: D.Use, lo: nat, base: nat, c: nat, all: seq<Job>, n: nat)
    requires base <= lo < base + c && c <= |all| && D.WfUse(u, n) && 3 * |all| <= n
    requires
      var k := |all| - c + lo - base;
      ProdMarked(D.Note(D.Note(u, 3 * k, all[k].len), 3 * k + 1, all[k].len), r, lo + 1, base, c, all, n)
    ensures ProdMarked(u, r, lo, base, c, all, n)
  {
    var k := |all| - c + lo - base;
    forall i | 0 <= i < n
      ensures if InBatch(i, lo, base, c, all) && i % 3 != 2
              then r.need[i] == D.Max(u.need[i], UseOf(all, i)) && r.last[i] == UseOf(all, i)
              else r.need[i] == u.need[i] && r.last[i] == u.last[i]
    {
      assert InBatch(i, lo, base, c, all) <==> InBatch(i, lo + 1, base, c, all) || i / 3 == k;
    }
  }

  lemma ProdMarkSkip(u: D.Use, r: D.Use, lo: nat, base: nat, c: nat, all: seq<Job>, n: nat)
    requires !(base <= lo < base + c) && ProdMarked(u, r, lo + 1, base, c, all, n)
    ensures ProdMarked(u, r, lo, base, c, all, n)
  {
    forall i | 0 <= i < n
      ensures InBatch(i, lo, base, c, all) <==> InBatch(i, lo + 1, base, c, all)
    {
    }
  }

  lemma ProdMarkNone(u: D.Use, base: nat, c: nat, all: seq<Job>, n: nat)
    requires D.WfUse(u, n) && 3 * |all| <= n && c <= |all| && base + c <= NR_TID
    ensures ProdMarked(u, u, NR_TID, base, c, all, n)
  {
  }

  lemma {:induction false} BatchProd(ts: seq<D.Thread>, u: D.Use, n: nat, lo: nat, base: nat, c: nat, all: seq<Job>)
    requires lo <= NR_TID && BatchReady(ts, base, c, all) && SmallRefs(ts, n) && D.WfUse(u, n) && 3 * |all| <= n
    ensures
      var r := D.Prod(ts, u, n, lo, NR_TID);
      r.Some? && ProdMarked(u, r.value, lo, base, c, all, n)
    decreases NR_TID - lo
  {
    hide ProdMarked, D.Note;
    if lo == NR_TID {
      ProdMarkNone(u, base, c, all, n);
    } else if base <= lo < base + c {
      var k := |all| - c + lo - base;
      assert Holds(ts[lo], 3 * k, all[k].len);
      var v := D.Note(D.Note(u, 3 * k, all[k].len), 3 * k + 1, all[k].len);
      BatchProd(ts, v, n, lo + 1, base, c, all);
      ProdMarkStep(u, D.Prod(ts, v, n, lo + 1, NR_TID).value, lo, base, c, all, n);
    } else {
      BatchProd(ts, u, n, lo + 1, base, c, all);
      ProdMarkSkip(u, D.Prod(ts, u, n, lo + 1, NR_TID).value, lo, base, c, all, n);
    }
  }

  predicate StoreMarked(u: D.Use, v: D.Use, lo: nat, base: nat, c: nat, all: seq<Job>, n: nat) {
    && D.WfUse(u, n) && D.WfUse(v, n) && 3 * |all| <= n && c <= |all|
    && forall i :: 0 <= i < n ==>
         if InBatch(i, lo, base, c, all) && i % 3 == 2
         then v.need[i] == D.Max(u.need[i], 1) && v.last[i] == 1
         else v.need[i] == u.need[i] && v.last[i] == u.last[i]
  }

  lemma {:induction false} BatchStore(ts: seq<D.Thread>, u: D.Use, n: nat, lo: nat, base: nat, c: nat, all: seq<Job>)
    requires lo <= NR_TID && BatchReady(ts, base, c, all) && SmallRefs(ts, n) && D.WfUse(u, n) && 3 * |all| <= n
    ensures
      var r := D.Store(ts, u, n, lo, NR_TID);
      r.Some? && StoreMarked(u, r.value, lo, base, c, all, n)
    decreases NR_TID - lo
  {
    if lo < NR_TID {
      if base <= lo < base + c {
        var k := |all| - c + lo - base;
        assert Holds(ts[lo], 3 * k, all[k].len);
        var v := D.Note(u, 3 * k + 2, 1);
        BatchStore(ts, v, n, lo + 1, base, c, all);
        var r := D.Store(ts, v, n, lo + 1, NR_TID).value;
        forall i | 0 <= i < n
          ensures if InBatch(i, lo, base, c, all) && i % 3 == 2
                  then r.need[i] == D.Max(u.need[i], 1) && r.last[i] == 1
                  else r.need[i] == u.need[i] && r.last[i] == u.last[i]
        {
          assert InBatch(i, lo, base, c, all) <==> InBatch(i, lo + 1, base, c, all) || i / 3 == k;
        }
      } else {
        BatchStore(ts, u, n, lo + 1, base, c, all);
        forall i | 0 <= i < n
          ensures InBatch(i, lo, base, c, all) <==> InBatch(i, lo + 1, base, c, all)
        {
        }
      }
    }
  }

  lemma TailUses(u: D.Use, p: D.Use, s: D.Use, base: nat, c: nat, all: seq<Job>, n: nat)
    requires AllWf(all) && c <= |all| && UsedUpTo(u, all, 3 * (|all| - c), n)
    requires ProdMarked(u, p, 0, base, c, all, n) && StoreMarked(p, s, 0, base, c, all, n)
    ensures UsedUpTo(s, all, 3 * |all|, n)
  {
    forall i | 0 <= i < 3 * |all|
      ensures s.need[i] == UseOf(all, i) && s.last[i] == UseOf(all, i)
    {
      assert InBatch(i, 0, base, c, all) <==> 3 * (|all| - c) <= i;
      assert WfJob(all[i / 3]);
    }
  }

  /** The commands of a batch tail, one after the other. */
  lemma TailSteps(d: D.State, n: nat, sp: Special)
    requires D.Wf(d, n)
    requires D.Prod(d.ts, d.use, n, 0, NR_TID).Some?
    requires D.Store(d.ts, D.Prod(d.ts, d.use, n, 0, NR_TID).value, n, 0, NR_TID).Some?
    ensures
      var p := D.Prod(d.ts, d.use, n, 0, NR_TID).value;
      D.Run(d, BatchTail(sp), n) == Some(d.(use := D.Store(d.ts, p, n, 0, NR_TID).value))
  {
    hide D.Run, D.Prod, D.Store, Decode;
    DecodeTail(sp);
    var p := D.Step(d, PROD_ALL, n).value;
    var s := D.Step(p, STORE_ALL, n).value;
    assert BatchTail(sp) == [PROD_ALL] + (ActWords(sp) + [STORE_ALL]);
    RunCons(d, PROD_ALL, ActWords(sp) + [STORE_ALL], n);
    RunCons(p, STORE_ALL, [], n);
    RunNothing(s, n);
    assert [STORE_ALL] + [] == [STORE_ALL];
    if sp.NoAct? {
      assert ActWords(sp) + [STORE_ALL] == [STORE_ALL];
    } else {
      RunCons(p, ActWords(sp)[0], [STORE_ALL], n);
    }
  }

  /** PROD, the activation and STORE on a ready batch use its bindings up. */
  lemma TailRun(d: D.State, n: nat, sp: Special, base: nat, c: nat, all: seq<Job>)
    requires D.Wf(d, n) && BatchReady(d.ts, base, c, all) && 3 * |all| <= n && AllWf(all)
    requires UsedUpTo(d.use, all, 3 * (|all| - c), n)
    ensures
      var r := D.Run(d, BatchTail(sp), n);
      r.Some? && r.value.ts == d.ts && r.value.cur == d.cur && UsedUpTo(r.value.use, all, 3 * |all|, n)
  {
    hide D.Run, D.Prod, D.Store, BatchTail, UsedUpTo, ProdMarked, StoreMarked, BatchReady;
    BatchProd(d.ts, d.use, n, 0, base, c, all);
    var p := D.Prod(d.ts, d.use, n, 0, NR_TID).value;
    BatchStore(d.ts, p, n, 0, base, c, all);
    TailSteps(d, n, sp);
    TailUses(d.use, p, D.Store(d.ts, p, n, 0, NR_TID).value, base, c, all, n);
  }

  lemma ClosedBatchReady(g: Gen, base: nat, d: D.State, e: D.State, n: nat, all: seq<Job>)
    requires Wf(g) && Loaded(g, base, d, n, all) && DisabledFrom(d, e, g.threads, g.cur, base)
    ensures BatchReady(e.ts, base, g.cur, all) && BitsAgree(Finalize(g), base, e)
  {
    var f := Finalize(g);
    forall t | 0 <= t < NR_TID
      ensures if base <= t < base + g.cur
              then Holds(e.ts[t], 3 * (|all| - g.cur + t - base), all[|all| - g.cur + t - base].len)
              else e.ts[t].en == 0
    {
      if base <= t < base + |g.threads| {
        assert g.threads[t - base].en == 1 || t >= base + g.cur;
        assert -1 <= g.threads[t - base].en <= 1;
      } else {
        assert NR_THR - base <= t < NR_THR - base + |g.inactive|;
      }
    }
    forall k | 0 <= k < |f.threads|
      ensures f.threads[k].en != -1 ==> e.ts[base + k].en == f.threads[k].en
    {
      assert k < g.cur ==> g.threads[k].en == 1;
    }
  }

  /** Finishing a batch leaves nothing pending. */
  lemma FinishLoads(g: Gen, base: nat, d: D.State, n: nat, all: seq<Job>, sp: Special)
    requires Wf(g) && Loaded(g, base, d, n, all) && AllWf(all)
    ensures
      var r := D.Run(d, DisableWords(g.threads, g.cur) + BatchTail(sp), n);
      r.Some? && Loaded(FinishBatch(g, sp), base, r.value, n, all)
  {
    hide D.Run, DisableWords, BatchTail, BatchReady, DisabledFrom;
    OnDeviceBoards(g, base);
    DisableRun(d, g.threads, g.cur, base, n);
    var e := D.Run(d, DisableWords(g.threads, g.cur), n).value;
    ClosedBatchReady(g, base, d, e, n, all);
    DisabledKeeps(d, e, g.threads, g.cur, base);
    TailRun(e, n, sp, base, g.cur, all);
    D.RunAppend(d, DisableWords(g.threads, g.cur), BatchTail(sp), n);
  }

  lemma DisabledKeeps(d: D.State, e: D.State, ts: seq<HwThread>, k: nat, base: nat)
    requires DisabledFrom(d, e, ts, k, base)
    ensures e.cur == d.cur && e.use == d.use
  {
  }

  // ---- Whole programs ----

  /** The emitted program runs to a state the generator's own state describes. */
  ghost predicate Tracks(g: Gen, base: nat, n: nat, all: seq<Job>) {
    && Wf(g) && AllWf(all)
    && var r := D.Of(g.program, n); r.Some? && Loaded(g, base, r.value, n, all)
  }

  lemma RunMore(g: Gen, h: Gen, ws: seq<Word>, n: nat)
    requires h.program == g.program + ws && D.Of(g.program, n).Some?
    ensures D.Of(h.program, n) == D.Run(D.Of(g.program, n).value, ws, n)
  {
    D.RunAppend(D.Init(n), g.program, ws, n);
  }

  lemma AllocTracks(g: Gen, base: nat, n: nat, all: seq<Job>, j: Job)
    requires Tracks(g, base, n, all) && g.cur < |g.threads| && WfJob(j) && 3 * |all| + 3 <= n
    ensures Tracks(Alloc(g, j), base, n, all + [j])
  {
    hide Loaded, LoadWords, D.Run;
    AllocLoads(g, base, D.Of(g.program, n).value, n, all, j);
    RunMore(g, Alloc(g, j), LoadWords(g.threads[g.cur], j, |g.bindings|), n);
  }

  lemma FinishTracks(g: Gen, base: nat, n: nat, all: seq<Job>, sp: Special)
    requires Tracks(g, base, n, all)
    ensures Tracks(FinishBatch(g, sp), base, n, all)
  {
    hide Loaded, DisableWords, BatchTail, D.Run;
    FinishLoads(g, base, D.Of(g.program, n).value, n, all, sp);
    Assoc(g.program, DisableWords(g.threads, g.cur), BatchTail(sp));
    RunMore(g, FinishBatch(g, sp), DisableWords(g.threads, g.cur) + BatchTail(sp), n);
  }

  lemma HasThreads(g: Gen, base: nat, n: nat, all: seq<Job>)
    requires Tracks(g, base, n, all)
    ensures |g.threads| > 0
  {
  }

  lemma {:induction false} PlaceAllTracks(g: Gen, base: nat, n: nat, all: seq<Job>, jobs: seq<Job>, sp: Special)
    requires Tracks(g, base, n, all) && AllWf(jobs) && 3 * |all| + 3 * |jobs| <= n
    ensures Tracks(PlaceAll(g, jobs, sp), base, n, all + jobs)
    decreases |jobs|
  {
    hide Tracks, Alloc, FinishBatch;
    if jobs == [] {
      assert all + jobs == all;
    } else {
      var k := |jobs| - 1;
      TracksWf(g, base, n, all);
      PlaceAllTracks(g, base, n, all, jobs[..k], sp);
      var p := PlaceAll(g, jobs[..k], sp);
      HasThreads(p, base, n, all + jobs[..k]);
      assert all + jobs == (all + jobs[..k]) + [jobs[k]];
      if p.cur < |p.threads| {
        AllocTracks(p, base, n, all + jobs[..k], jobs[k]);
      } else {
        FinishTracks(p, base, n, all + jobs[..k], sp);
        AllocTracks(FinishBatch(p, sp), base, n, all + jobs[..k], jobs[k]);
      }
    }
  }

  lemma TracksWf(g: Gen, base: nat, n: nat, all: seq<Job>)
    requires Tracks(g, base, n, all)
    ensures Wf(g)
  {
  }

  lemma {:induction false} EmitAllTracks(g: Gen, base: nat, n: nat, vs: seq<VStage>)
    requires Wf(g) && Tracks(g, base, n, []) && 3 * |AllJobs(vs)| <= n
    ensures Tracks(EmitAll(g, vs), base, n, AllJobs(vs))
    decreases |vs|
  {
    hide Tracks, PlaceAll, FinishBatch, Jobs;
    if vs != [] {
      var k := |vs| - 1;
      EmitAllTracks(g, base, n, vs[..k]);
      var e := EmitAll(g, vs[..k]);
      PlaceAllTracks(e, base, n, AllJobs(vs[..k]), Jobs(vs[k]), SpecialFor(vs[k]));
      FinishTracks(PlaceAll(e, Jobs(vs[k]), SpecialFor(vs[k])), base, n, AllJobs(vs), SpecialFor(vs[k]));
    }
  }

  lemma {:induction false} PrepareIsDisable(ts: seq<HwThread>, k: nat)
    requires k <= |ts| && Encodable(ts) && forall i :: 0 <= i < |ts| ==> ts[i].en != 0
    ensures PrepareWords(ts)[k..] == DisableWords(ts, k)
    decreases |ts| - k
  {
    if k < |ts| {
      PrepareIsDisable(ts, k + 1);
      assert PrepareWords(ts)[k..] == [PrepareWords(ts)[k]] + PrepareWords(ts)[k + 1..];
    }
  }

  lemma FreshInactive(mask: nat)
    requires mask % 4 != 0
    ensures forall k :: 0 <= k < |Fresh(mask).inactive| ==> Fresh(mask).inactive[k].en == -1
  {
    ThreadsOfTwo();
  }

  lemma PreparedTracks(mask: nat, n: nat)
    requires mask % 4 != 0
    ensures Wf(Fresh(mask)) && Tracks(Prepare(Fresh(mask)), BaseOf(mask), n, [])
  {
    hide D.Run, DisableWords;
    FreshOnDevice(mask);
    FreshInactive(mask);
    var g, base := Fresh(mask), BaseOf(mask);
    var p, d := Prepare(g), D.Init(n);
    OnDeviceBoards(g, base);
    var ws := PrepareWords(g.inactive);
    PrepareIsDisable(g.inactive, 0);
    assert ws[0..] == ws && p.program == ws;
    DisableRun(d, g.inactive, 0, NR_THR - base, n);
    var e := D.Run(d, ws, n).value;
    assert BitsAgree(p, base, e);
    assert UsedUpTo(e.use, [], 0, n);
  }

  /**
   Every generated program is well formed whatever it is bound to; it consumes its bindings
   one by one, and uses each with a single length, which is therefore the one recorded.
   */
  lemma GeneratedDemand(mask: nat, vs: seq<VStage>)
    requires mask % 4 != 0
    ensures
      var all := AllJobs(vs);
      var n := 3 * |all|;
      var r := D.Of(Generate(mask, vs).program, n);
      && r.Some? && r.value.cur == n
      && forall i :: 0 <= i < n ==> r.value.use.need[i] == UseOf(all, i) && r.value.use.last[i] == UseOf(all, i)
  {
    hide D.Of, EmitAll, AllJobs;
    var n := 3 * |AllJobs(vs)|;
    PreparedTracks(mask, n);
    EmitAllTracks(Prepare(Fresh(mask)), BaseOf(mask), n, vs);
    EmittedIdle(Prepare(Fresh(mask)), vs);
  }

  lemma EmittedIdle(g: Gen, vs: seq<VStage>)
    requires Wf(g) && g.cur == 0
    ensures EmitAll(g, vs).cur == 0
  {
  }
}
