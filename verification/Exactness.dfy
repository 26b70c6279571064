/**
 How exact the hazard condition is: for a single compiled stage it is necessary as well, and
 there is a verified stage whose compiled result depends on the user's VPU mask.
 */
module Exactness {
  import opened Isa
  import opened Wrappers
  import opened Semantics
  import opened CodeGen
  import opened Stages
  import opened Reference
  import opened Hazards
  import opened Soundness
  import opened Correctness
  import opened EndToEnd
  import Fitting

  /** Compiling and running stage v alone leaves the memory of the stage evaluated at once. */
  ghost predicate Computes<T>(A: Arith<T>, mask: nat, v: VStage, m0: Machine<T>)
    requires |m0.ts| == NR_TID
  {
    var g := Generate(mask, [v]);
    && AllFit(m0.mem, Jobs(v)) && Bound(g.bindings, m0.mem) && Checked(g.program, g.bindings, m0.mem).Some?
    && var r := Run(A, EXEC_MASK, g.bindings, m0, Checked(g.program, g.bindings, m0.mem).value);
       r.Some? && r.value.mem == StageResult(A, SpecialFor(v), m0.mem, Jobs(v))
  }

  lemma OneBatched<T>(A: Arith<T>, mem: Memory<T>, v: VStage, n: nat)
    requires n > 0 && AllFit(mem, Jobs(v))
    ensures AllJobs([v]) == Jobs(v)
    ensures PipelineBatched(A, mem, [v], n) == Batched(A, SpecialFor(v), mem, Jobs(v), n)
  {
    hide Jobs, AllFit, Batched;
    Fitting.OneStage(v);
    assert [v][..0] == [];
  }

  lemma ComputesIf<T>(A: Arith<T>, mask: nat, v: VStage, m0: Machine<T>)
    requires mask % 4 != 0 && |m0.ts| == NR_TID && 3 * |Jobs(v)| <= U32 && AllFit(m0.mem, Jobs(v))
    ensures
      Computes(A, mask, v, m0) <==>
      Batched(A, SpecialFor(v), m0.mem, Jobs(v), UsableThreads(mask)) == StageResult(A, SpecialFor(v), m0.mem, Jobs(v))
  {
    hide Generate, Run, Checked, Jobs, AllJobs, AllFit, Batched, StageResult, PipelineBatched;
    OneBatched(A, m0.mem, v, UsableThreads(mask));
    CompiledBatches(A, mask, [v], m0);
  }

  function Idle(): (ts: seq<Thread<int>>)
    ensures |ts| == NR_TID
  {
    seq(NR_TID, _ => Thread(false, 0, Null, Null, Null, 0))
  }

  /**
   Compiler correctness of one stage, exactly: for buffers of any given lengths, the compiled
   stage computes the stage, for every arithmetic, contents and thread states, if and only if
   no job whose result remains reads an element that an earlier batch writes.
   */
  lemma StageCorrectIff(mask: nat, v: VStage, shape: Memory<int>)
    requires mask % 4 != 0 && 3 * |Jobs(v)| <= U32 && AllFit(shape, Jobs(v))
    ensures
      Unfed(Jobs(v), UsableThreads(mask)) <==>
      forall A: Arith<int>, m0: Machine<int> :: |m0.ts| == NR_TID && SameShape(shape, m0.mem) ==> Computes(A, mask, v, m0)
  {
    hide Jobs, AllFit, Computes, Remains, Fed, SameShape;
    var n := UsableThreads(mask);
    if Unfed(Jobs(v), n) {
      forall A: Arith<int>, m0: Machine<int> | |m0.ts| == NR_TID && SameShape(shape, m0.mem)
        ensures Computes(A, mask, v, m0)
      {
        UnfedComputes(A, mask, v, shape, m0);
      }
    } else {
      var l :| 0 <= l < |Jobs(v)| && Remains(Jobs(v), l) && Fed(Jobs(v), n, l);
      var m0 := Machine(Idle(), Zeros(shape));
      FedDisagrees(SpecialFor(v), shape, Jobs(v), n, l);
      FitsShape(shape, m0.mem, Jobs(v));
      ComputesIf(COUNT, mask, v, m0);
      assert !Computes(COUNT, mask, v, m0);
    }
  }

  lemma UnfedComputes<T>(A: Arith<T>, mask: nat, v: VStage, shape: Memory<T>, m0: Machine<T>)
    requires mask % 4 != 0 && 3 * |Jobs(v)| <= U32 && AllFit(shape, Jobs(v)) && Unfed(Jobs(v), UsableThreads(mask))
    requires |m0.ts| == NR_TID && SameShape(shape, m0.mem)
    ensures Computes(A, mask, v, m0)
  {
    hide Jobs, AllFit, Computes, Unfed, Batched, StageResult;
    FitsShape(shape, m0.mem, Jobs(v));
    BatchedIsStage(A, SpecialFor(v), m0.mem, Jobs(v), UsableThreads(mask));
    ComputesIf(A, mask, v, m0);
  }

  // ---- A stage whose result depends on the mask ----

  /** Eight products that write element 1, then one that reads it and writes element 2. */
  function Nine(): (s: Stage) {
    var one := Vec(0, 0, 1);
    VxV(StageVxV(seq(8, _ => one) + [Vec(0, 1, 1)], seq(9, _ => one), seq(8, _ => Vec(0, 1, 1)) + [Vec(0, 2, 1)], None, NoOp))
  }

  lemma NineVerifies()
    ensures Verified(Nine(), map[0 := 3])
  {
    var s := Nine().vv;
    forall i | 0 <= i < 9 ensures VerifAt(Nine(), map[0 := 3], i).Success? {
      assert s.src2[i] == Vec(0, 0, 1);
      assert s.src1[i] == if i < 8 then Vec(0, 0, 1) else Vec(0, 1, 1);
      assert s.dst[i] == if i < 8 then Vec(0, 1, 1) else Vec(0, 2, 1);
    }
  }

  function NineStage(): (v: VStage) {
    NineVerifies();
    Request(Nine(), map[0 := 3])
  }

  /** The jobs of a vector stage are those of its descriptors. */
  lemma {:induction false} VectorJobs(v: VStage, n: nat)
    requires v.stage.VxV? && n <= Count(v.stage)
    ensures |JobsUpTo(v, n)| == n && forall i :: 0 <= i < n ==> JobsUpTo(v, n)[i] == VxVJob(v, i)
    decreases n
  {
    hide VxVJob;
    if n > 0 {
      VectorJobs(v, n - 1);
    }
  }

  lemma NineJobs()
    ensures Jobs(NineStage()) == FeedingJobs(8)
  {
    var v := NineStage();
    var s := v.stage.vv;
    VectorJobs(v, 9);
    forall i | 0 <= i < 9 ensures Jobs(v)[i] == FeedingJobs(8)[i] {
      assert s.src2[i] == Vec(0, 0, 1);
      assert s.src1[i] == if i < 8 then Vec(0, 0, 1) else Vec(0, 1, 1);
      assert s.dst[i] == if i < 8 then Vec(0, 1, 1) else Vec(0, 2, 1);
    }
  }

  /** A stage of at most n jobs is one batch. */
  lemma SingleBatch<T>(A: Arith<T>, sp: Special, mem: Memory<T>, jobs: seq<Job>, n: nat)
    requires 0 < |jobs| <= n && AllFit(mem, jobs)
    ensures Batched(A, sp, mem, jobs, n) == StageResult(A, sp, mem, jobs)
  {
    hide StageResult, AllFit;
    DivModUnique(|jobs| - 1, n, 0, |jobs| - 1);
    assert LastStart(|jobs|, n) == 0 && jobs[0..] == jobs && jobs[..0] == [];
  }

  /**
   A stage that verifies, is accepted with both masks, and computes element 2 as 1 when the
   user allows one VPU and as 0 when he allows both.
   */
  lemma MaskShows(ts: seq<Thread<int>>)
    requires |ts| == NR_TID
    ensures
      var m0 := Machine(ts, map[0 := [1, 0, 0]]);
      var one, both := Generate(1, [NineStage()]), Generate(3, [NineStage()]);
      && Bound(one.bindings, m0.mem) && Checked(one.program, one.bindings, m0.mem).Some?
      && Bound(both.bindings, m0.mem) && Checked(both.program, both.bindings, m0.mem).Some?
      && var a := Run(PLAIN, EXEC_MASK, one.bindings, m0, Checked(one.program, one.bindings, m0.mem).value);
         var b := Run(PLAIN, EXEC_MASK, both.bindings, m0, Checked(both.program, both.bindings, m0.mem).value);
         && a.Some? && b.Some? && 0 in a.value.mem && 0 in b.value.mem
         && a.value.mem[0] == [1, 1, 1] && b.value.mem[0] == [1, 1, 0]
  {
    hide Generate, Run, Checked, NineStage, Jobs, AllJobs, AllFit, Batched, StageResult, PipelineBatched, FeedingJobs;
    var v, m0 := NineStage(), Machine(ts, map[0 := [1, 0, 0]]);
    NineJobs();
    NineCount();
    HazardShows(8);
    OneBatched(PLAIN, m0.mem, v, 8);
    OneBatched(PLAIN, m0.mem, v, 16);
    SingleBatch(PLAIN, NoAct, m0.mem, Jobs(v), 16);
    CompiledBatches(PLAIN, 1, [v], m0);
    CompiledBatches(PLAIN, 3, [v], m0);
  }

  lemma NineCount()
    ensures |FeedingJobs(8)| == 9 && SpecialFor(NineStage()) == NoAct
  {
  }
}
