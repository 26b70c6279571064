/**
 Compiler correctness: compiling stages, checking the program and executing it leaves
 memory exactly as evaluating the stages one by one does.
 */
module EndToEnd {
  import opened Isa
  import opened Wrappers
  import opened Semantics
  import opened CodeGen
  import opened Stages
  import opened EnableCache
  import opened Reference
  import opened Hazards
  import opened Soundness
  import opened Correctness
  import S = Semantics
  import G = Completeness
  import C = Checker
  import D = Demand

  predicate Accepts<T>(bs: seq<Binding>, mem: Memory<T>, p: seq<Word>) {
    Bound(bs, mem) && C.Check(p, Resources(bs, mem)).Some?
  }

  /** The machine after running what the checker leaves of an accepted program. */
  ghost function Executed<T>(A: Arith<T>, bs: seq<Binding>, m0: Machine<T>, p: seq<Word>): (m: Machine<T>)
    requires |m0.ts| == NR_TID && Accepts(bs, m0.mem, p)
    ensures |m.ts| == NR_TID && Some(m) == Run(A, EXEC_MASK, bs, m0, C.Check(p, Resources(bs, m0.mem)).value.out)
    ensures S.SameShape(m0.mem, m.mem) && Bound(bs, m.mem) && Resources(bs, m.mem) == Resources(bs, m0.mem)
    ensures Sim(C.Check(p, Resources(bs, m0.mem)).value, m, bs, EXEC_MASK)
  {
    var res := Resources(bs, m0.mem);
    RunSound(A, EXEC_MASK, bs, C.Init(|bs|), m0, p);
    assert Emitted(C.Init(|bs|), p, res) == C.Check(p, res).value.out;
    var m := Run(A, EXEC_MASK, bs, m0, C.Check(p, res).value.out).value;
    ShapeKeepsResources(bs, m0.mem, m.mem);
    m
  }

  lemma AcceptsPrefix<T>(bs: seq<Binding>, mem: Memory<T>, p: seq<Word>, ws: seq<Word>)
    requires Accepts(bs, mem, p + ws)
    ensures Accepts(bs, mem, p)
    ensures
      var res := Resources(bs, mem);
      C.Check(p + ws, res) == C.Run(C.Check(p, res).value, ws, res)
  {
    C.RunAppend(C.Init(|bs|), p, ws, Resources(bs, mem));
  }

  /** Execution is compositional. */
  lemma ExecutedMore<T>(A: Arith<T>, bs: seq<Binding>, m0: Machine<T>, p: seq<Word>, ws: seq<Word>)
    requires |m0.ts| == NR_TID && Accepts(bs, m0.mem, p + ws)
    ensures Accepts(bs, m0.mem, p)
    ensures
      var res := Resources(bs, m0.mem);
      var s := C.Check(p, res).value;
      && C.Run(s, ws, res).Some? && C.Check(p + ws, res) == C.Run(s, ws, res)
      && Some(Executed(A, bs, m0, p + ws)) ==
         Run(A, EXEC_MASK, bs, Executed(A, bs, m0, p), Emitted(s, ws, res))
  {
    hide Run, Executed;
    AcceptsPrefix(bs, m0.mem, p, ws);
    var res := Resources(bs, m0.mem);
    var s := C.Check(p, res).value;
    OutGrows(s, ws, res);
    var out := C.Run(s, ws, res).value.out;
    assert out == s.out + Emitted(s, ws, res);
    RunAppend(A, EXEC_MASK, bs, m0, s.out, Emitted(s, ws, res));
  }

  // ---- One job, one batch ----

  /** The accumulators of the pending jobs hold their biases. */
  ghost predicate Biased<T>(A: Arith<T>, m: Machine<T>, g: Gen, base: nat, all: seq<Job>) {
    && |m.ts| == NR_TID && g.cur <= |all| && base + g.cur <= NR_TID
    && forall t :: base <= t < base + g.cur ==> m.ts[t].acc == A.ofBits(all[|all| - g.cur + t - base].bias)
  }

  lemma AllocBiased<T>(A: Arith<T>, m: Machine<T>, r: Machine<T>, g: Gen, base: nat, all: seq<Job>, j: Job)
    requires Wf(g) && g.cur < |g.threads| && WfJob(j) && Biased(A, m, g, base, all) && base + g.cur < NR_TID == |r.ts|
    requires forall t :: 0 <= t < NR_TID ==>
               r.ts[t].acc == if t == base + g.cur then A.ofBits(j.bias) else m.ts[t].acc
    ensures Biased(A, r, Alloc(g, j), base, all + [j])
  {
    hide LoadWords;
    var more, h := all + [j], Alloc(g, j);
    forall t | base <= t < base + h.cur
      ensures r.ts[t].acc == A.ofBits(more[|more| - h.cur + t - base].bias)
    {
      if t < base + g.cur {
        assert more[|more| - h.cur + t - base] == all[|all| - g.cur + t - base];
      }
    }
  }

  lemma AllocExecutes<T>(A: Arith<T>, bs: seq<Binding>, m0: Machine<T>, g: Gen, base: nat, all: seq<Job>, j: Job)
    requires |m0.ts| == NR_TID && OnDevice(g, base) && g.cur < |g.threads| && WfJob(j)
    requires Accepts(bs, m0.mem, Alloc(g, j).program) && Accepts(bs, m0.mem, g.program)
    requires Biased(A, Executed(A, bs, m0, g.program), g, base, all)
    ensures
      var m, r := Executed(A, bs, m0, g.program), Executed(A, bs, m0, Alloc(g, j).program);
      r.mem == m.mem && Biased(A, r, Alloc(g, j), base, all + [j])
  {
    hide LoadWords, Run, C.Run, Executed;
    OnDeviceBoards(g, base);
    var t, ws := g.threads[g.cur], LoadWords(g.threads[g.cur], j, |g.bindings|);
    ExecutedMore(A, bs, m0, g.program, ws);
    var m, r := Executed(A, bs, m0, g.program), Executed(A, bs, m0, Alloc(g, j).program);
    var s := C.Check(g.program, Resources(bs, m0.mem)).value;
    LoadSets(A, t, j, |g.bindings|, m.ts[0].acc, 0);
    SetsRun(A, bs, s, m, ws);
    forall u | 0 <= u < NR_TID
      ensures r.ts[u].acc == if u == base + g.cur then A.ofBits(j.bias) else m.ts[u].acc
    {
      LoadSets(A, t, j, |g.bindings|, m.ts[u].acc, u);
    }
    AllocBiased(A, m, r, g, base, all, j);
  }

  predicate NoSetReg(ws: seq<Word>) { forall i :: 0 <= i < |ws| ==> !Decode(ws[i]).SetReg? }

  /** Words that take no resource are emitted as they are. */
  lemma {:induction false} EmittedSame(st: C.State, ws: seq<Word>, res: seq<C.Res>)
    requires C.Wf(st, res) && C.Run(st, ws, res).Some? && NoSetReg(ws)
    ensures Emitted(st, ws, res) == ws
    decreases |ws|
  {
    hide C.Step;
    if ws != [] {
      EmittedCons(st, ws, res);
      C.StepShape(st, ws[0], res);
      EmittedSame(C.Step(st, ws[0], res).value, ws[1..], res);
    }
  }

  lemma TailHasNoSetReg(sp: Special)
    ensures NoSetReg(BatchTail(sp))
  {
    hide Decode;
    DecodeTail(sp);
  }

  /** What the checker knows when a batch is closed, seen from the machine. */
  lemma ReadyHolds<T>(A: Arith<T>, st: C.State, d: D.State, m: Machine<T>, bs: seq<Binding>, base: nat, c: nat, all: seq<Job>)
    requires Bound(bs, m.mem) && C.Wf(st, Resources(bs, m.mem)) && D.Wf(d, |bs|)
    requires D.Matches(st, d, Resources(bs, m.mem)) && Sim(st, m, bs, EXEC_MASK)
    requires G.BatchReady(d.ts, base, c, all) && BindsAll(bs, all)
    requires forall t :: base <= t < base + c ==> m.ts[t].acc == A.ofBits(all[|all| - c + t - base].bias)
    ensures Holding(A, m, base, all[|all| - c..])
  {
    var batch := all[|all| - c..];
    forall t | 0 <= t < NR_TID
      ensures if base <= t < base + |batch|
              then m.ts[t] == S.Thread(true, A.ofBits(batch[t - base].bias), PtrTo(batch[t - base].rs),
                                       PtrTo(batch[t - base].rt), PtrTo(batch[t - base].rd), batch[t - base].len)
              else !m.ts[t].en
    {
      assert D.SameThread(st.ts[t], d.ts[t]) && SimThread(st.ts[t], m.ts[t], bs);
      if base <= t < base + c {
        assert G.Holds(d.ts[t], 3 * (|all| - c + t - base), all[|all| - c + t - base].len);
      }
    }
  }

  /** Disabling words change neither memory nor accumulators. */
  lemma DisableExecutes<T>(A: Arith<T>, bs: seq<Binding>, m0: Machine<T>, g: Gen, base: nat)
    requires |m0.ts| == NR_TID && OnDevice(g, base)
    requires Accepts(bs, m0.mem, g.program) && Accepts(bs, m0.mem, g.program + DisableWords(g.threads, g.cur))
    ensures
      var m, r := Executed(A, bs, m0, g.program), Executed(A, bs, m0, g.program + DisableWords(g.threads, g.cur));
      r.mem == m.mem && forall t :: 0 <= t < NR_TID ==> r.ts[t].acc == m.ts[t].acc
  {
    hide DisableWords, Run, C.Run, Executed, Decode;
    OnDeviceBoards(g, base);
    var ws := DisableWords(g.threads, g.cur);
    ExecutedMore(A, bs, m0, g.program, ws);
    DisableSets(g.threads, g.cur);
    var m := Executed(A, bs, m0, g.program);
    SetsRun(A, bs, C.Check(g.program, Resources(bs, m0.mem)).value, m, ws);
    forall t | 0 <= t < NR_TID ensures AccAfter(A, m.ts[t].acc, ws, t) == m.ts[t].acc {
      NoAccs(A, m.ts[t].acc, ws, t);
    }
  }

  /** The checker's view of a closed batch. */
  lemma ClosedReady<T>(bs: seq<Binding>, mem: Memory<T>, g: Gen, base: nat, all: seq<Job>)
    requires G.Tracks(g, base, |bs|, all) && Accepts(bs, mem, g.program + DisableWords(g.threads, g.cur))
    ensures
      var p := g.program + DisableWords(g.threads, g.cur);
      && D.Of(p, |bs|).Some? && G.BatchReady(D.Of(p, |bs|).value.ts, base, g.cur, all)
      && D.Matches(C.Check(p, Resources(bs, mem)).value, D.Of(p, |bs|).value, Resources(bs, mem))
  {
    hide DisableWords, D.Run, C.Run, G.BatchReady, G.DisabledFrom, D.Matches;
    var n, d := |bs|, D.Of(g.program, |bs|).value;
    OnDeviceBoards(g, base);
    G.DisableRun(d, g.threads, g.cur, base, n);
    G.ClosedBatchReady(g, base, d, D.Run(d, DisableWords(g.threads, g.cur), n).value, n, all);
    D.RunAppend(D.Init(n), g.program, DisableWords(g.threads, g.cur), n);
    D.AcceptIff(g.program + DisableWords(g.threads, g.cur), Resources(bs, mem));
  }

  /** Closing a batch stores its results. */
  lemma FinishExecutes<T>(A: Arith<T>, bs: seq<Binding>, m0: Machine<T>, g: Gen, base: nat, all: seq<Job>, sp: Special)
    requires |m0.ts| == NR_TID && G.Tracks(g, base, |bs|, all) && BindsAll(bs, all)
    requires Accepts(bs, m0.mem, FinishBatch(g, sp).program) && Accepts(bs, m0.mem, g.program)
    requires Biased(A, Executed(A, bs, m0, g.program), g, base, all)
    requires AllFit(m0.mem, all[|all| - g.cur..])
    ensures
      var m, r := Executed(A, bs, m0, g.program), Executed(A, bs, m0, FinishBatch(g, sp).program);
      var batch := all[|all| - g.cur..];
      AllFit(m.mem, batch) && r.mem == StageResult(A, sp, m.mem, batch)
  {
    hide DisableWords, BatchTail, Run, C.Run, D.Run, Executed, G.Loaded, G.BatchReady, D.Matches, StageResult, Holding, AllFit;
    var p, tail := g.program + DisableWords(g.threads, g.cur), BatchTail(sp);
    var m := Executed(A, bs, m0, g.program);
    ExecutedMore(A, bs, m0, p, tail);
    TrackedOnDevice(g, base, |bs|, all);
    DisableExecutes(A, bs, m0, g, base);
    ClosedReady(bs, m0.mem, g, base, all);
    var st, e := C.Check(p, Resources(bs, m0.mem)).value, Executed(A, bs, m0, p);
    ReadyHolds(A, st, D.Of(p, |bs|).value, e, bs, base, g.cur, all);
    TailHasNoSetReg(sp);
    EmittedSame(st, tail, Resources(bs, m0.mem));
    FitsShape(m0.mem, m.mem, all[|all| - g.cur..]);
    TailExecutes(A, bs, sp, e, base, all[|all| - g.cur..]);
  }

  lemma TrackedOnDevice(g: Gen, base: nat, n: nat, all: seq<Job>)
    requires G.Tracks(g, base, n, all)
    ensures Wf(g) && OnDevice(g, base) && g.cur <= |all| && base + g.cur <= NR_TID
  {
  }

  // ---- A stage ----

  /** How many jobs are pending after len jobs of a stage: never none unless the stage is empty. */
  predicate Aligned(len: nat, cur: nat, n: nat) {
    n > 0 && if len == 0 then cur == 0 else 1 <= cur <= n && cur <= len && LastStart(len, n) == len - cur
  }

  lemma AlignedNext(len: nat, cur: nat, n: nat)
    requires Aligned(len, cur, n)
    ensures Aligned(len + 1, if cur < n then cur + 1 else 1, n)
  {
    if len > 0 {
      var q := (len - 1) / n;
      if cur < n {
        DivModUnique(len, n, q, cur);
      } else {
        DivModUnique(len, n, q + 1, 0);
      }
    }
  }

  /** The jobs of closed batches are stored, those of the open batch are pending. */
  ghost predicate Midway<T>(A: Arith<T>, sp: Special, mem0: Memory<T>, m: Machine<T>, g: Gen, base: nat,
                            all: seq<Job>, js: seq<Job>) {
    && |g.threads| > 0 && Aligned(|js|, g.cur, |g.threads|) && Biased(A, m, g, base, all + js)
    && AllFit(mem0, js[..|js| - g.cur]) && m.mem == Batched(A, sp, mem0, js[..|js| - g.cur], |g.threads|)
  }

  /** A closed batch, about to be followed by another one. */
  ghost predicate Closed<T>(A: Arith<T>, sp: Special, mem0: Memory<T>, m: Machine<T>, g: Gen, base: nat, js: seq<Job>) {
    && g.cur == 0 < |g.threads| && |m.ts| == NR_TID && base <= NR_TID && Aligned(|js| + 1, 1, |g.threads|)
    && AllFit(mem0, js) && m.mem == Batched(A, sp, mem0, js, |g.threads|)
  }

  lemma AllocKeepsMidway<T>(A: Arith<T>, sp: Special, mem0: Memory<T>, m: Machine<T>, r: Machine<T>, g: Gen, base: nat,
                            all: seq<Job>, js: seq<Job>, j: Job)
    requires Wf(g) && g.cur < |g.threads| && WfJob(j) && r.mem == m.mem
    requires Midway(A, sp, mem0, m, g, base, all, js) || Closed(A, sp, mem0, m, g, base, js)
    requires Biased(A, r, Alloc(g, j), base, all + (js + [j]))
    ensures Midway(A, sp, mem0, r, Alloc(g, j), base, all, js + [j])
  {
    assert g.cur <= |js|;
    hide LoadWords, Batched, Aligned, Biased;
    assert (js + [j])[..|js| - g.cur] == js[..|js| - g.cur];
    assert js[..|js|] == js;
    if Aligned(|js|, g.cur, |g.threads|) {
      AlignedNext(|js|, g.cur, |g.threads|);
    }
  }

  lemma AllocMidway<T>(A: Arith<T>, bs: seq<Binding>, m0: Machine<T>, mem0: Memory<T>, g: Gen, base: nat,
                       all: seq<Job>, js: seq<Job>, j: Job, sp: Special)
    requires |m0.ts| == NR_TID && OnDevice(g, base) && g.cur < |g.threads| && WfJob(j)
    requires Accepts(bs, m0.mem, Alloc(g, j).program) && Accepts(bs, m0.mem, g.program)
    requires
      var m := Executed(A, bs, m0, g.program);
      Midway(A, sp, mem0, m, g, base, all, js) || Closed(A, sp, mem0, m, g, base, js)
    ensures Midway(A, sp, mem0, Executed(A, bs, m0, Alloc(g, j).program), Alloc(g, j), base, all, js + [j])
  {
    var m := Executed(A, bs, m0, g.program);
    assert Biased(A, m, g, base, all + js);
    hide Executed, Accepts, Alloc, Midway, Closed, Biased;
    AllocExecutes(A, bs, m0, g, base, all + js, j);
    assert (all + js) + [j] == all + (js + [j]);
    AllocKeepsMidway(A, sp, mem0, m, Executed(A, bs, m0, Alloc(g, j).program), g, base, all, js, j);
  }

  lemma FinishMidway<T>(A: Arith<T>, bs: seq<Binding>, m0: Machine<T>, mem0: Memory<T>, g: Gen, base: nat,
                        all: seq<Job>, js: seq<Job>, sp: Special)
    requires |m0.ts| == NR_TID && G.Tracks(g, base, |bs|, all + js) && BindsAll(bs, all + js)
    requires Accepts(bs, m0.mem, FinishBatch(g, sp).program) && Accepts(bs, m0.mem, g.program)
    requires Midway(A, sp, mem0, Executed(A, bs, m0, g.program), g, base, all, js)
    requires S.SameShape(m0.mem, mem0) && AllFit(mem0, js)
    ensures |g.threads| > 0
    ensures Executed(A, bs, m0, FinishBatch(g, sp).program).mem == Batched(A, sp, mem0, js, |g.threads|)
  {
    hide Executed, Accepts, FinishBatch, Biased, StageResult, G.Tracks, AllFit, BindsAll, LastStart;
    var done, batch := js[..|js| - g.cur], js[|js| - g.cur..];
    assert (all + js)[|all + js| - g.cur..] == batch;
    FitsPrefix(mem0, js, |js| - g.cur);
    FitsShape(mem0, m0.mem, batch);
    FinishExecutes(A, bs, m0, g, base, all + js, sp);
    if js == [] {
      StageOfNothing(A, sp, mem0);
    }
  }

  lemma AcceptsLess<T>(bs: seq<Binding>, mem: Memory<T>, p: seq<Word>, q: seq<Word>)
    requires p <= q && Accepts(bs, mem, q)
    ensures Accepts(bs, mem, p)
  {
    assert q == p + q[|p|..];
    AcceptsPrefix(bs, mem, p, q[|p|..]);
  }

  lemma ProgramsGrow(g: Gen, j: Job, sp: Special)
    requires Wf(g) && WfJob(j)
    ensures g.program <= FinishBatch(g, sp).program
    ensures g.cur < |g.threads| ==> g.program <= Alloc(g, j).program
    ensures g.program <= Place(g, j, sp).program
  {
  }

  lemma PlaceMidway<T>(A: Arith<T>, bs: seq<Binding>, m0: Machine<T>, mem0: Memory<T>, g: Gen, base: nat,
                       all: seq<Job>, js: seq<Job>, j: Job, sp: Special)
    requires |m0.ts| == NR_TID && G.Tracks(g, base, |bs|, all + js) && BindsAll(bs, all + js) && WfJob(j)
    requires Wf(g) && Accepts(bs, m0.mem, Place(g, j, sp).program) && Accepts(bs, m0.mem, g.program)
    requires Midway(A, sp, mem0, Executed(A, bs, m0, g.program), g, base, all, js)
    requires S.SameShape(m0.mem, mem0) && AllFit(mem0, js)
    ensures Midway(A, sp, mem0, Executed(A, bs, m0, Place(g, j, sp).program), Place(g, j, sp), base, all, js + [j])
  {
    hide Executed, Accepts, Midway, Closed, G.Tracks, Alloc, FinishBatch, AllFit, BindsAll;
    TrackedOnDevice(g, base, |bs|, all + js);
    if g.cur < |g.threads| {
      AllocMidway(A, bs, m0, mem0, g, base, all, js, j, sp);
    } else {
      var f := FinishBatch(g, sp);
      G.HasThreads(g, base, |bs|, all + js);
      ProgramsGrow(f, j, sp);
      AcceptsLess(bs, m0.mem, f.program, Place(g, j, sp).program);
      FinishMidway(A, bs, m0, mem0, g, base, all, js, sp);
      FinishedClosed(A, sp, mem0, Executed(A, bs, m0, g.program), Executed(A, bs, m0, f.program), g, f, base, all, js);
      G.FinishTracks(g, base, |bs|, all + js, sp);
      TrackedOnDevice(f, base, |bs|, all + js);
      AllocMidway(A, bs, m0, mem0, f, base, all, js, j, sp);
    }
  }

  lemma FinishedClosed<T>(A: Arith<T>, sp: Special, mem0: Memory<T>, m: Machine<T>, r: Machine<T>, g: Gen, f: Gen, base: nat,
                          all: seq<Job>, js: seq<Job>)
    requires Midway(A, sp, mem0, m, g, base, all, js) && g.cur == |g.threads| == |f.threads| && f.cur == 0
    requires |r.ts| == NR_TID && base <= NR_TID && AllFit(mem0, js) && r.mem == Batched(A, sp, mem0, js, |g.threads|)
    ensures Closed(A, sp, mem0, r, f, base, js)
  {
    AlignedNext(|js|, g.cur, |g.threads|);
  }

  lemma StartMidway<T>(A: Arith<T>, sp: Special, m: Machine<T>, g: Gen, base: nat, all: seq<Job>)
    requires |m.ts| == NR_TID && g.cur == 0 < |g.threads| && base <= NR_TID
    ensures Midway(A, sp, m.mem, m, g, base, all, [])
  {
  }

  lemma {:induction false} PlaceAllExecutes<T>(A: Arith<T>, bs: seq<Binding>, m0: Machine<T>, mem0: Memory<T>, g: Gen, base: nat,
                                               all: seq<Job>, js: seq<Job>, sp: Special)
    requires |m0.ts| == NR_TID && G.Tracks(g, base, |bs|, all) && g.cur == 0 && AllWf(js)
    requires BindsAll(bs, all + js) && Accepts(bs, m0.mem, g.program)
    requires Wf(g) && Accepts(bs, m0.mem, PlaceAll(g, js, sp).program)
    requires Executed(A, bs, m0, g.program).mem == mem0 && AllFit(mem0, js)
    ensures G.Tracks(PlaceAll(g, js, sp), base, |bs|, all + js)
    ensures Midway(A, sp, mem0, Executed(A, bs, m0, PlaceAll(g, js, sp).program), PlaceAll(g, js, sp), base, all, js)
    decreases |js|
  {
    hide Executed, Accepts, Midway, G.Tracks, Place, AllFit, BindsAll, Alloc, FinishBatch;
    BindsFit(bs, all + js);
    G.PlaceAllTracks(g, base, |bs|, all, js, sp);
    if js == [] {
      TrackedOnDevice(g, base, |bs|, all);
      StartMidway(A, sp, Executed(A, bs, m0, g.program), g, base, all);
    } else {
      var k := |js| - 1;
      var p := PlaceAll(g, js[..k], sp);
      assert js == js[..k] + [js[k]] && all + js == (all + js[..k]) + [js[k]];
      ProgramsGrow(p, js[k], sp);
      AcceptsLess(bs, m0.mem, p.program, Place(p, js[k], sp).program);
      FitsPrefix(mem0, js, k);
      BindsPrefix(bs, all + js[..k], all + js);
      PlaceAllExecutes(A, bs, m0, mem0, g, base, all, js[..k], sp);
      PlaceMidway(A, bs, m0, mem0, p, base, all, js[..k], js[k], sp);
    }
  }

  lemma BindsFit(bs: seq<Binding>, all: seq<Job>)
    requires BindsAll(bs, all)
    ensures 3 * |all| <= |bs|
  {
  }

  lemma BindsPrefix(bs: seq<Binding>, a: seq<Job>, b: seq<Job>)
    requires BindsAll(bs, b) && a <= b
    ensures BindsAll(bs, a)
  {
  }

  // ---- A pipeline ----

  lemma {:induction false} PlaceAllGrows(g: Gen, js: seq<Job>, sp: Special)
    requires Wf(g) && AllWf(js)
    ensures g.program <= PlaceAll(g, js, sp).program
    decreases |js|
  {
    hide Place;
    if js != [] {
      PlaceAllGrows(g, js[..|js| - 1], sp);
      ProgramsGrow(PlaceAll(g, js[..|js| - 1], sp), js[|js| - 1], sp);
    }
  }

  lemma StageExecutes<T>(A: Arith<T>, bs: seq<Binding>, m0: Machine<T>, mem0: Memory<T>, g: Gen, base: nat,
                         all: seq<Job>, js: seq<Job>, sp: Special)
    requires |m0.ts| == NR_TID && G.Tracks(g, base, |bs|, all) && g.cur == 0 && AllWf(js)
    requires BindsAll(bs, all + js) && Accepts(bs, m0.mem, g.program)
    requires Wf(g) && Accepts(bs, m0.mem, EmitStage(g, js, sp).program)
    requires Executed(A, bs, m0, g.program).mem == mem0 && AllFit(mem0, js)
    ensures |g.threads| > 0 && G.Tracks(EmitStage(g, js, sp), base, |bs|, all + js)
    ensures Executed(A, bs, m0, EmitStage(g, js, sp).program).mem == Batched(A, sp, mem0, js, |g.threads|)
  {
    hide Executed, Accepts, Midway, G.Tracks, PlaceAll, AllFit, BindsAll, FinishBatch, Batched;
    var p := PlaceAll(g, js, sp);
    FinishGrows(p, sp);
    AcceptsLess(bs, m0.mem, p.program, FinishBatch(p, sp).program);
    PlaceAllExecutes(A, bs, m0, mem0, g, base, all, js, sp);
    FinishMidway(A, bs, m0, mem0, p, base, all, js, sp);
    G.FinishTracks(p, base, |bs|, all + js, sp);
  }

  lemma FinishGrows(g: Gen, sp: Special)
    requires Wf(g)
    ensures g.program <= FinishBatch(g, sp).program
  {
  }

  lemma {:induction false} EmitAllExecutes<T>(A: Arith<T>, bs: seq<Binding>, m0: Machine<T>, g: Gen, base: nat, vs: seq<VStage>)
    requires |m0.ts| == NR_TID && G.Tracks(g, base, |bs|, []) && g.cur == 0 && BindsAll(bs, AllJobs(vs))
    requires Wf(g) && Accepts(bs, m0.mem, g.program) && Accepts(bs, m0.mem, EmitAll(g, vs).program)
    requires Executed(A, bs, m0, g.program).mem == m0.mem && AllFit(m0.mem, AllJobs(vs))
    ensures |g.threads| > 0 && G.Tracks(EmitAll(g, vs), base, |bs|, AllJobs(vs))
    ensures Executed(A, bs, m0, EmitAll(g, vs).program).mem == PipelineBatched(A, m0.mem, vs, |g.threads|)
    decreases |vs|
  {
    hide Executed, Accepts, G.Tracks, AllFit, BindsAll, EmitStage, Batched;
    G.HasThreads(g, base, |bs|, []);
    if vs != [] {
      var k := |vs| - 1;
      var e, js := EmitAll(g, vs[..k]), Jobs(vs[k]);
      StageGrows(e, js, SpecialFor(vs[k]));
      AcceptsLess(bs, m0.mem, e.program, EmitAll(g, vs).program);
      BindsPrefix(bs, AllJobs(vs[..k]), AllJobs(vs));
      FitSplit(m0.mem, AllJobs(vs[..k]), js);
      EmitAllExecutes(A, bs, m0, g, base, vs[..k]);
      var mid := PipelineBatched(A, m0.mem, vs[..k], |g.threads|);
      FitsShape(m0.mem, mid, js);
      EmittedThreads(g, vs[..k]);
      StageExecutes(A, bs, m0, mid, e, base, AllJobs(vs[..k]), js, SpecialFor(vs[k]));
    }
  }

  lemma StageGrows(g: Gen, js: seq<Job>, sp: Special)
    requires Wf(g) && AllWf(js)
    ensures g.program <= EmitStage(g, js, sp).program
  {
    hide PlaceAll, FinishBatch;
    PlaceAllGrows(g, js, sp);
    FinishGrows(PlaceAll(g, js, sp), sp);
  }

  lemma {:induction false} EmittedThreads(g: Gen, vs: seq<VStage>)
    requires Wf(g) && g.cur == 0
    ensures EmitAll(g, vs).cur == 0 && |EmitAll(g, vs).threads| == |g.threads|
    decreases |vs|
  {
    if vs != [] {
      EmittedThreads(g, vs[..|vs| - 1]);
    }
  }

  lemma {:induction false} EmitAllGrows(g: Gen, vs: seq<VStage>)
    requires Wf(g)
    ensures g.program <= EmitAll(g, vs).program
    decreases |vs|
  {
    hide EmitStage;
    if vs != [] {
      EmitAllGrows(g, vs[..|vs| - 1]);
      StageGrows(EmitAll(g, vs[..|vs| - 1]), Jobs(vs[|vs| - 1]), SpecialFor(vs[|vs| - 1]));
    }
  }

  lemma PreparedExecutes<T>(A: Arith<T>, bs: seq<Binding>, m0: Machine<T>, mask: nat)
    requires |m0.ts| == NR_TID && mask % 4 != 0 && Wf(Fresh(mask)) && Accepts(bs, m0.mem, Prepare(Fresh(mask)).program)
    ensures Executed(A, bs, m0, Prepare(Fresh(mask)).program).mem == m0.mem
  {
    hide Run, C.Run, Executed, Decode, SetEnWord;
    FreshOnDevice(mask);
    var g := Fresh(mask);
    OnDeviceBoards(g, BaseOf(mask));
    var ws := PrepareWords(g.inactive);
    assert [] + ws == ws;
    forall i | 0 <= i < |ws| ensures IsSet(Decode(ws[i])) { DecodeSetEn(g.inactive[i], false); }
    var st := C.Init(|bs|);
    SetsRun(A, bs, st, m0, ws);
    assert Emitted(st, ws, Resources(bs, m0.mem)) == C.Check(ws, Resources(bs, m0.mem)).value.out;
    assert Prepare(g).program == ws;
  }

  function UsableThreads(mask: nat): nat { if mask % 4 == 3 then NR_TID else NR_THR }

  /**
   What compiled code computes, for all stages: if the jobs fit their buffers, the program
   is accepted, and from any thread states it leaves memory as the stages evaluated one by
   one, each in batches of as many jobs as there are usable threads.
   */
  lemma CompiledBatches<T>(A: Arith<T>, mask: nat, vs: seq<VStage>, m0: Machine<T>)
    requires |m0.ts| == NR_TID && mask % 4 != 0 && 3 * |AllJobs(vs)| <= U32 && AllFit(m0.mem, AllJobs(vs))
    ensures
      var g := Generate(mask, vs);
      && Bound(g.bindings, m0.mem) && Checked(g.program, g.bindings, m0.mem).Some?
      && var r := Run(A, EXEC_MASK, g.bindings, m0, Checked(g.program, g.bindings, m0.mem).value);
         r.Some? && r.value.mem == PipelineBatched(A, m0.mem, vs, UsableThreads(mask))
  {
    hide EmitAll, Run, C.Run, G.Tracks, PipelineBatched, AllFit, PrepareWords;
    var all, g := AllJobs(vs), Generate(mask, vs);
    BindingsBound(m0.mem, all);
    AcceptedIffFits(mask, vs, m0.mem);
    BindingsAre(all);
    var bs, base, p := g.bindings, BaseOf(mask), Prepare(Fresh(mask));
    G.PreparedTracks(mask, |bs|);
    EmitAllGrows(p, vs);
    AcceptsLess(bs, m0.mem, p.program, g.program);
    PreparedExecutes(A, bs, m0, mask);
    PreparedThreads(mask);
    EmitAllExecutes(A, bs, m0, p, base, vs);
    var out := C.Check(g.program, Resources(bs, m0.mem)).value.out;
    RunAppend(A, EXEC_MASK, bs, m0, out, [C.SYNC_STOP]);
    SyncStopIdles(A, EXEC_MASK, bs, Run(A, EXEC_MASK, bs, m0, out).value);
  }

  lemma PreparedThreads(mask: nat)
    requires mask % 4 != 0
    ensures Wf(Fresh(mask)) && Prepare(Fresh(mask)).cur == 0 && |Prepare(Fresh(mask)).threads| == UsableThreads(mask)
  {
    ThreadsOfTwo();
    FreshWf(mask);
  }

  lemma BindingsBound<T>(mem: Memory<T>, all: seq<Job>)
    requires AllFit(mem, all) && 3 * |all| <= U32
    ensures Bound(BindingsOf(all), mem)
  {
    hide BindingsOf;
    BindingsAre(all);
    var bs := BindingsOf(all);
    forall i | 0 <= i < |bs| ensures bs[i].buf in mem {
      JobBound(mem, all, bs, i, i / 3);
    }
  }

  lemma JobBound<T>(mem: Memory<T>, all: seq<Job>, bs: seq<Binding>, i: nat, k: nat)
    requires BindsAll(bs, all) && k < |all| && 3 * k <= i < 3 * k + 3 && JobFits(mem, all[k])
    ensures bs[i].buf in mem
  {
  }

  /**
   Compiler correctness.  If in addition no job whose result remains reads an element that an
   earlier batch of its stage writes, compiling, checking and executing is evaluating the
   stages one by one, every result being act(bias + products from left to right) and the last
   writer of an element winning; batches and starting thread states do not show.  Stages that
   never write what a later job of theirs reads meet this for every mask (HazardFreeUnfed).
   */
  lemma CompilerCorrect<T>(A: Arith<T>, mask: nat, vs: seq<VStage>, m0: Machine<T>)
    requires |m0.ts| == NR_TID && mask % 4 != 0 && 3 * |AllJobs(vs)| <= U32 && AllFit(m0.mem, AllJobs(vs))
    requires AllUnfed(vs, UsableThreads(mask))
    ensures
      var g := Generate(mask, vs);
      && Bound(g.bindings, m0.mem) && Checked(g.program, g.bindings, m0.mem).Some?
      && var r := Run(A, EXEC_MASK, g.bindings, m0, Checked(g.program, g.bindings, m0.mem).value);
         r.Some? && r.value.mem == PipelineResult(A, m0.mem, vs)
  {
    hide Generate, Run, PipelineBatched, Checked;
    CompiledBatches(A, mask, vs, m0);
    PipelineSplitIrrelevant(A, m0.mem, vs, UsableThreads(mask));
  }
}
