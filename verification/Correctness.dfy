/**
 Compile, check, execute: the whole chain computes what the stages mean, and the checker
 accepts generated code exactly when its jobs lie inside their buffers.
 */
module Correctness {
  import opened Isa
  import opened Wrappers
  import opened Semantics
  import opened CodeGen
  import opened Stages
  import opened EnableCache
  import opened Completeness
  import opened Reference
  import opened Soundness
  import opened Bindings
  import C = Checker
  import D = Demand

  /** The emulator enables both of its VPUs for execution. */
  const EXEC_MASK: nat := 3

  /** The binding list records the jobs in order. */
  predicate BindsAll(bs: seq<Binding>, all: seq<Job>) {
    && 3 * |all| <= |bs|
    && forall k :: 0 <= k < |all| ==>
         bs[3 * k] == all[k].rs && bs[3 * k + 1] == all[k].rt && bs[3 * k + 2] == all[k].rd
  }

  // ---- Acceptance ----

  lemma JobRooms<T>(mem: Memory<T>, bs: seq<Binding>, all: seq<Job>, k: nat)
    requires Bound(bs, mem) && BindsAll(bs, all) && k < |all|
    ensures
      var res := Resources(bs, mem);
      JobFits(mem, all[k]) <==>
        && D.Room(res[3 * k], UseOf(all, 3 * k)) && D.Room(res[3 * k + 1], UseOf(all, 3 * k + 1))
        && D.Room(res[3 * k + 2], UseOf(all, 3 * k + 2))
  {
  }

  /**
   Exact completeness: a generated program is accepted with its own bindings if and only if
   every job's vectors and result lie inside the bound buffers.
   */
  lemma AcceptedIffFits<T>(mask: nat, vs: seq<VStage>, mem: Memory<T>)
    requires mask % 4 != 0 && Bound(BindingsOf(AllJobs(vs)), mem)
    ensures
      var g := Generate(mask, vs);
      && g.bindings == BindingsOf(AllJobs(vs))
      && (Checked(g.program, g.bindings, mem).Some? <==> AllFit(mem, AllJobs(vs)))
  {
    hide D.Of, C.Run, BindingsOf, AllJobs, Generate;
    var g, all := Generate(mask, vs), AllJobs(vs);
    GeneratedBindings(mask, vs);
    GeneratedDemand(mask, vs);
    var bs, res := BindingsOf(all), Resources(BindingsOf(all), mem);
    BindingsAre(all);
    D.AcceptIff(g.program, res);
    var d := D.Of(g.program, |bs|).value;
    if AllFit(mem, all) {
      forall i | 0 <= i < |bs| ensures D.Room(res[i], d.use.need[i]) {
        assert i == 3 * (i / 3) + i % 3 && JobFits(mem, all[i / 3]);
        JobRooms(mem, bs, all, i / 3);
      }
    }
    if D.Meets(d, res) {
      forall k | 0 <= k < |all| ensures JobFits(mem, all[k]) {
        assert D.Room(res[3 * k], d.use.need[3 * k]) && D.Room(res[3 * k + 1], d.use.need[3 * k + 1]);
        assert D.Room(res[3 * k + 2], d.use.need[3 * k + 2]);
        JobRooms(mem, bs, all, k);
      }
    }
  }

  lemma BindingsAre(all: seq<Job>)
    ensures |BindingsOf(all)| == 3 * |all| && BindsAll(BindingsOf(all), all)
  {
  }

  // ---- Execution of register-loading commands ----

  predicate IsSet(c: Cmd) { c.SetAcc? || c.SetVl? || c.SetEn? || c.SetReg? }

  /** The accumulator of thread t after register-loading commands. */
  function AccAfter<T>(A: Arith<T>, acc: T, ws: seq<Word>, t: nat): T
    decreases |ws|
  {
    if ws == [] then acc
    else AccAfter(A, match Decode(ws[0]) case SetAcc(u, bits) => (if u == t then A.ofBits(bits) else acc) case _ => acc,
                  ws[1..], t)
  }

  lemma SetStepAcc<T>(A: Arith<T>, bs: seq<Binding>, st: C.State, m: Machine<T>, w: Word)
    requires Bound(bs, m.mem) && C.Wf(st, Resources(bs, m.mem)) && Sim(st, m, bs, EXEC_MASK)
    requires C.Step(st, w, Resources(bs, m.mem)).Some? && IsSet(Decode(w))
    ensures
      var s := C.Step(st, w, Resources(bs, m.mem)).value;
      var r := Step(A, EXEC_MASK, bs, m, s.out[|st.out|]);
      && r.Some? && r.value.mem == m.mem
      && forall t :: 0 <= t < NR_TID ==>
           r.value.ts[t].acc ==
           match Decode(w) case SetAcc(u, bits) => (if u == t then A.ofBits(bits) else m.ts[t].acc) case _ => m.ts[t].acc
  {
    hide Decode;
    if Decode(w).SetReg? {
      SetRegSound(A, EXEC_MASK, bs, st, m, w);
    }
  }

  lemma {:induction false} SetsRun<T>(A: Arith<T>, bs: seq<Binding>, st: C.State, m: Machine<T>, ws: seq<Word>)
    requires Bound(bs, m.mem) && C.Wf(st, Resources(bs, m.mem)) && Sim(st, m, bs, EXEC_MASK)
    requires C.Run(st, ws, Resources(bs, m.mem)).Some? && forall i :: 0 <= i < |ws| ==> IsSet(Decode(ws[i]))
    ensures
      var r := Run(A, EXEC_MASK, bs, m, Emitted(st, ws, Resources(bs, m.mem)));
      && r.Some? && r.value.mem == m.mem
      && forall t :: 0 <= t < NR_TID ==> r.value.ts[t].acc == AccAfter(A, m.ts[t].acc, ws, t)
    decreases |ws|
  {
    hide Decode, C.Step;
    var res := Resources(bs, m.mem);
    if ws != [] {
      EmittedCons(st, ws, res);
      SetStepAcc(A, bs, st, m, ws[0]);
      StepSound(A, EXEC_MASK, bs, st, m, ws[0]);
      var s := C.Step(st, ws[0], res).value;
      var w := s.out[|st.out|];
      var r := Step(A, EXEC_MASK, bs, m, w).value;
      SetsRun(A, bs, s, r, ws[1..]);
      assert Emitted(st, ws, res)[0] == w && Emitted(st, ws, res)[1..] == Emitted(s, ws[1..], res);
    }
  }

  lemma LoadSets<T>(A: Arith<T>, t: HwThread, j: Job, nb: nat, acc: T, u: nat)
    requires OnBoard(t) && WfJob(j)
    ensures forall i :: 0 <= i < |LoadWords(t, j, nb)| ==> IsSet(Decode(LoadWords(t, j, nb)[i]))
    ensures AccAfter(A, acc, LoadWords(t, j, nb), u) == if u == TidOf(t) then A.ofBits(j.bias) else acc
  {
    hide Decode, SetAccWord, SetRegWord, SetVlWord, SetEnWord;
    DecodeSetEn(t, true);
    DecodeSetAcc(t, j.bias);
    DecodeSetReg(t, Rs, nb * 16);
    DecodeSetReg(t, Rt, (nb + 1) * 16);
    DecodeSetReg(t, Rd, (nb + 2) * 16);
    DecodeSetVl(t, j.len);
    var core := [SetAccWord(t, j.bias), SetRegWord(t, Rs, nb * 16), SetRegWord(t, Rt, (nb + 1) * 16),
                 SetRegWord(t, Rd, (nb + 2) * 16), SetVlWord(t, j.len)];
    NoAccs(A, if u == TidOf(t) then A.ofBits(j.bias) else acc, core[1..], u);
    assert AccAfter(A, acc, core, u) == if u == TidOf(t) then A.ofBits(j.bias) else acc;
    if t.en != 1 {
      var ws := LoadWords(t, j, nb);
      assert ws == [SetEnWord(t, true)] + core;
      assert ws[0] == SetEnWord(t, true) && ws[1..] == core;
    } else {
      assert LoadWords(t, j, nb) == core;
    }
  }

  lemma {:induction false} NoAccs<T>(A: Arith<T>, acc: T, ws: seq<Word>, u: nat)
    requires forall i :: 0 <= i < |ws| ==> !Decode(ws[i]).SetAcc?
    ensures AccAfter(A, acc, ws, u) == acc
    decreases |ws|
  {
    hide Decode;
    if ws != [] {
      NoAccs(A, acc, ws[1..], u);
    }
  }

  lemma {:induction false} DisableSets(ts: seq<HwThread>, k: nat)
    requires k <= |ts| && Encodable(ts) && forall i :: 0 <= i < |ts| ==> OnBoard(ts[i])
    ensures forall i :: 0 <= i < |DisableWords(ts, k)| ==> Decode(DisableWords(ts, k)[i]).SetEn?
    decreases |ts| - k
  {
    hide Decode, SetEnWord;
    if k < |ts| {
      DecodeSetEn(ts[k], false);
      DisableSets(ts, k + 1);
    }
  }

  // ---- Execution of a batch tail ----

  /** The machine holds a ready batch: thread base + k is loaded with job k, the rest are off. */
  ghost predicate Holding<T>(A: Arith<T>, m: Machine<T>, base: nat, batch: seq<Job>) {
    && |m.ts| == NR_TID && base + |batch| <= NR_TID
    && forall t :: 0 <= t < NR_TID ==>
         if base <= t < base + |batch|
         then m.ts[t] == Thread(true, A.ofBits(batch[t - base].bias), PtrTo(batch[t - base].rs),
                                PtrTo(batch[t - base].rt), PtrTo(batch[t - base].rd), batch[t - base].len)
         else !m.ts[t].en
  }

  /** Machine threads after PROD and the activation: accumulators hold the jobs' values. */
  ghost predicate Computed<T>(A: Arith<T>, sp: Special, mem: Memory<T>, ts: seq<Thread<T>>, base: nat, batch: seq<Job>)
    requires AllFit(mem, batch)
  {
    && |ts| == NR_TID && base + |batch| <= NR_TID
    && forall t :: 0 <= t < NR_TID ==>
         if base <= t < base + |batch|
         then ts[t].en && ts[t].acc == Value(A, sp, mem, batch[t - base]) && ts[t].rd == PtrTo(batch[t - base].rd)
         else !ts[t].en
  }

  lemma StoreNext<T>(ts: seq<Thread<T>>, mem: Memory<T>, mask: nat, lo: nat, hi: nat)
    requires lo < hi <= |ts| && Enabled(mask, lo) && ts[lo].en && Readable(mem, ts[lo].rd, 1)
    ensures StoreAll(ts, mem, mask, lo, hi) == StoreAll(ts, Write(mem, ts[lo].rd, ts[lo].acc), mask, lo + 1, hi)
  {
    hide Write;
  }

  lemma WriteNext<T>(A: Arith<T>, sp: Special, src: Memory<T>, jobs: seq<Job>, k: nat)
    requires AllFit(src, jobs) && k < |jobs|
    ensures AllFit(src, jobs[..k]) && AllFit(src, jobs[..k + 1]) && JobFits(src, jobs[k])
    ensures
      var mem := WriteAll(A, sp, src, src, jobs[..k]);
      && Readable(mem, PtrTo(jobs[k].rd), 1)
      && WriteAll(A, sp, src, src, jobs[..k + 1]) == Write(mem, PtrTo(jobs[k].rd), Value(A, sp, src, jobs[k]))
  {
    hide Value, Write;
    FitsPrefix(src, jobs, k);
    FitsPrefix(src, jobs, k + 1);
    assert JobFits(src, jobs[k]);
    assert jobs[..k + 1][..|jobs[..k + 1]| - 1] == jobs[..k] && jobs[..k + 1][k] == jobs[k];
  }

  lemma AllEnabled(t: nat)
    ensures Enabled(EXEC_MASK, t)
  {
  }

  lemma {:induction false} StoresBatch<T>(A: Arith<T>, sp: Special, src: Memory<T>, ts: seq<Thread<T>>, base: nat, batch: seq<Job>, lo: nat, hi: nat)
    requires AllFit(src, batch) && Computed(A, sp, src, ts, base, batch) && base <= lo <= base + |batch| && hi == NR_TID
    ensures AllFit(src, batch[..lo - base])
    ensures StoreAll(ts, WriteAll(A, sp, src, src, batch[..lo - base]), EXEC_MASK, lo, hi)
         == Some(WriteAll(A, sp, src, src, batch))
    decreases base + |batch| - lo
  {
    hide Value, Write, StoreAll, WriteAll, JobFits, AllFit, Enabled;
    FitsPrefix(src, batch, lo - base);
    if lo < base + |batch| {
      var k := lo - base;
      WriteNext(A, sp, src, batch, k);
      assert ts[lo].en && ts[lo].acc == Value(A, sp, src, batch[k]) && ts[lo].rd == PtrTo(batch[k].rd);
      AllEnabled(lo);
      StoreNext(ts, WriteAll(A, sp, src, src, batch[..k]), EXEC_MASK, lo, hi);
      StoresBatch(A, sp, src, ts, base, batch, lo + 1, hi);
    } else {
      assert batch[..lo - base] == batch;
      StoreSkipped(ts, WriteAll(A, sp, src, src, batch), lo, hi);
    }
  }

  lemma {:induction false} StoreSkipped<T>(ts: seq<Thread<T>>, mem: Memory<T>, lo: nat, hi: nat)
    requires lo <= hi <= |ts| && forall t :: lo <= t < hi ==> !ts[t].en
    ensures StoreAll(ts, mem, EXEC_MASK, lo, hi) == Some(mem)
    decreases hi - lo
  {
    if lo < hi {
      StoreSkipped(ts, mem, lo + 1, hi);
    }
  }

  lemma BatchComputes<T>(A: Arith<T>, sp: Special, m: Machine<T>, base: nat, batch: seq<Job>)
    requires Holding(A, m, base, batch) && AllFit(m.mem, batch)
    ensures AllProdSafe(m, EXEC_MASK, 0, NR_TID)
    ensures
      var p := ProdAll(A, m, EXEC_MASK, 0, NR_TID);
      var q := if sp.NoAct? then p else ActAll(A, ActOf(sp), p, EXEC_MASK, 0, NR_TID);
      q.mem == m.mem && Computed(A, sp, m.mem, q.ts, base, batch)
  {
    forall t | 0 <= t < NR_TID && Reach(EXEC_MASK, 0, NR_TID, t)
      ensures ProdSafe(m.mem, m.ts[t])
    {
      if base <= t < base + |batch| {
        assert JobFits(m.mem, batch[t - base]);
      }
    }
  }

  lemma RunCons<T>(A: Arith<T>, bs: seq<Binding>, m: Machine<T>, w: Word, ws: seq<Word>)
    requires |m.ts| == NR_TID
    ensures Run(A, EXEC_MASK, bs, m, [w] + ws) ==
            (var s := Step(A, EXEC_MASK, bs, m, w); if s.None? then None else Run(A, EXEC_MASK, bs, s.value, ws))
  {
    assert ([w] + ws)[0] == w && ([w] + ws)[1..] == ws;
  }

  /** PROD, activation and STORE of a ready batch write its results. */
  lemma TailExecutes<T>(A: Arith<T>, bs: seq<Binding>, sp: Special, m: Machine<T>, base: nat, batch: seq<Job>)
    requires Holding(A, m, base, batch) && AllFit(m.mem, batch)
    ensures
      var r := Run(A, EXEC_MASK, bs, m, BatchTail(sp));
      r.Some? && r.value.mem == StageResult(A, sp, m.mem, batch)
  {
    hide Run, Decode, Computed, Holding, ProdAll, ActAll, AllProdSafe, StoreAll, StageResult, AllFit;
    DecodeTail(sp);
    BatchComputes(A, sp, m, base, batch);
    var p := ProdAll(A, m, EXEC_MASK, 0, NR_TID);
    var q := if sp.NoAct? then p else ActAll(A, ActOf(sp), p, EXEC_MASK, 0, NR_TID);
    FullStore(A, sp, m.mem, q.ts, base, batch);
    assert BatchTail(sp) == [PROD_ALL] + (ActWords(sp) + [STORE_ALL]);
    RunCons(A, bs, m, PROD_ALL, ActWords(sp) + [STORE_ALL]);
    if sp.NoAct? {
      assert ActWords(sp) + [STORE_ALL] == [STORE_ALL] + [];
    } else {
      assert ActWords(sp) + [STORE_ALL] == [ActWords(sp)[0]] + ([STORE_ALL] + []);
      RunCons(A, bs, p, ActWords(sp)[0], [STORE_ALL] + []);
    }
    RunCons(A, bs, q, STORE_ALL, []);
    RunNone(A, bs, Step(A, EXEC_MASK, bs, q, STORE_ALL).value);
  }

  lemma RunNone<T>(A: Arith<T>, bs: seq<Binding>, m: Machine<T>)
    requires |m.ts| == NR_TID
    ensures Run(A, EXEC_MASK, bs, m, []) == Some(m)
  {
  }

  lemma FullStore<T>(A: Arith<T>, sp: Special, src: Memory<T>, ts: seq<Thread<T>>, base: nat, batch: seq<Job>)
    requires AllFit(src, batch) && Computed(A, sp, src, ts, base, batch)
    ensures |ts| == NR_TID
    ensures StoreAll(ts, src, EXEC_MASK, 0, NR_TID) == Some(StageResult(A, sp, src, batch))
  {
    StoresBatch(A, sp, src, ts, base, batch, base, NR_TID);
    assert batch[..0] == [];
    StoreSkipped(ts, src, 0, base);
    StoreSplit(ts, src, EXEC_MASK, 0, base, NR_TID);
  }
}
