/**
 Facts about generated code that concern its bindings: which ones it records, that a later
 update lists the same ones, that code depends on shapes only, and how many there can be.

 Two stages have the same shape when their descriptors agree in everything but buffers and
 offsets.  Then every generator call emits the same words for both.
 */
module Bindings {
  import opened Isa
  import opened Wrappers
  import opened Semantics
  import opened CodeGen
  import opened Stages

  lemma {:induction false} PlaceAllBindings(g: Gen, jobs: seq<Job>, sp: Special)
    requires Wf(g) && AllWf(jobs)
    ensures PlaceAll(g, jobs, sp).bindings ==
            if |g.threads| > 0 then g.bindings + BindingsOf(jobs) else g.bindings
    decreases |jobs|
  {
    if jobs == [] {
      assert g.bindings + BindingsOf(jobs) == g.bindings;
    } else {
      var n := |jobs| - 1;
      PlaceAllBindings(g, jobs[..n], sp);
      Assoc(g.bindings, BindingsOf(jobs[..n]), [jobs[n].rs, jobs[n].rt, jobs[n].rd]);
    }
  }

  lemma {:induction false} EmitAllBindings(g: Gen, vs: seq<VStage>)
    requires Wf(g)
    ensures EmitAll(g, vs).bindings == if |g.threads| > 0 then g.bindings + BindingsOf(AllJobs(vs)) else g.bindings
    ensures |EmitAll(g, vs).threads| == |g.threads|
    decreases |vs|
  {
    if vs == [] {
      assert g.bindings + BindingsOf([]) == g.bindings;
    } else {
      var n := |vs| - 1;
      EmitAllBindings(g, vs[..n]);
      PlaceAllBindings(EmitAll(g, vs[..n]), Jobs(vs[n]), SpecialFor(vs[n]));
      BindingsOfAppend(AllJobs(vs[..n]), Jobs(vs[n]));
      Assoc(g.bindings, BindingsOf(AllJobs(vs[..n])), BindingsOf(Jobs(vs[n])));
    }
  }

  /**
   Compiling records, in order, the three bindings of every job, unless the mask leaves no
   thread: then nothing at all is bound and the program computes nothing.
   */
  lemma GeneratedBindings(mask: nat, vs: seq<VStage>)
    ensures Generate(mask, vs).bindings == if mask % 4 != 0 then BindingsOf(AllJobs(vs)) else []
  {
    hide BindingsOf, AllJobs, EmitAll;
    EmitAllBindings(Prepare(Fresh(mask)), vs);
    ThreadsOfTwo();
    assert [] + BindingsOf(AllJobs(vs)) == BindingsOf(AllJobs(vs));
  }

  // ---- Code depends on shapes, biases and special operations only ----

  predicate SameLoad(a: seq<Job>, b: seq<Job>) {
    |a| == |b| && forall k :: 0 <= k < |a| ==> a[k].bias == b[k].bias && a[k].len == b[k].len
  }

  /** Two generators that differ in the recorded bindings at most. */
  predicate SameCode(g: Gen, h: Gen) {
    g.(bindings := []) == h.(bindings := []) && |g.bindings| == |h.bindings|
  }

  lemma PlaceSameCode(g: Gen, h: Gen, a: Job, b: Job, sp: Special)
    requires Wf(g) && Wf(h) && SameCode(g, h) && WfJob(a) && WfJob(b) && a.bias == b.bias && a.len == b.len
    ensures SameCode(Place(g, a, sp), Place(h, b, sp))
  {
  }

  lemma {:induction false} PlaceAllSameCode(g: Gen, h: Gen, a: seq<Job>, b: seq<Job>, sp: Special)
    requires Wf(g) && Wf(h) && SameCode(g, h) && AllWf(a) && AllWf(b) && SameLoad(a, b)
    ensures SameCode(PlaceAll(g, a, sp), PlaceAll(h, b, sp))
    decreases |a|
  {
    hide Place;
    if a != [] {
      var n := |a| - 1;
      PlaceAllSameCode(g, h, a[..n], b[..n], sp);
      PlaceSameCode(PlaceAll(g, a[..n], sp), PlaceAll(h, b[..n], sp), a[n], b[n], sp);
    }
  }

  /** Stages of equal shapes, biases and special operations. */
  predicate SameShape(a: VStage, b: VStage) {
    match (a.stage, b.stage)
    case (VxV(s), VxV(t)) =>
      && |s.src1| == |t.src1| && s.bias == t.bias && SpecialOf(s.op) == SpecialOf(t.op)
      && forall i :: 0 <= i < |s.src1| ==> s.src1[i].length == t.src1[i].length
    case (MxV(s), MxV(t)) =>
      && |s.src1| == |t.src1| && s.bias == t.bias && SpecialOf(s.op) == SpecialOf(t.op)
      && forall i :: 0 <= i < |s.src1| ==> s.src1[i].rows == t.src1[i].rows && s.src1[i].cols == t.src1[i].cols
    case (MxM(s), MxM(t)) =>
      && |s.src1| == |t.src1| && s.bias == t.bias && SpecialOf(s.op) == SpecialOf(t.op)
      && forall i :: 0 <= i < |s.src1| ==>
           s.src1[i].rows == t.src1[i].rows && s.src1[i].cols == t.src1[i].cols && s.src2[i].rows == t.src2[i].rows
    case _ => false
  }

  lemma {:induction false} RowsSameLoad(a: VStage, b: VStage, i: nat, n: nat)
    requires a.stage.MxM? && SameShape(a, b) && i < Count(a.stage) && n <= a.stage.mm.src1[i].rows
    ensures SameLoad(MxMRows(a, i, n), MxMRows(b, i, n))
    decreases n
  {
    if n > 0 {
      RowsSameLoad(a, b, i, n - 1);
      assert SameLoad(MxMCells(a, i, n - 1), MxMCells(b, i, n - 1));
    }
  }

  lemma DescSameLoad(a: VStage, b: VStage, i: nat)
    requires SameShape(a, b) && i < Count(a.stage)
    ensures SameLoad(DescJobs(a, i), DescJobs(b, i))
  {
    match a.stage
    case VxV(_) =>
    case MxV(_) =>
    case MxM(s) => RowsSameLoad(a, b, i, s.src1[i].rows);
  }

  lemma {:induction false} JobsSameLoad(a: VStage, b: VStage, n: nat)
    requires SameShape(a, b) && n <= Count(a.stage)
    ensures SameLoad(JobsUpTo(a, n), JobsUpTo(b, n))
    decreases n
  {
    hide DescJobs;
    if n > 0 {
      JobsSameLoad(a, b, n - 1);
      DescSameLoad(a, b, n - 1);
    }
  }

  predicate AllSameShape(a: seq<VStage>, b: seq<VStage>) {
    |a| == |b| && forall i :: 0 <= i < |a| ==> SameShape(a[i], b[i])
  }

  lemma {:induction false} EmitAllSameCode(g: Gen, a: seq<VStage>, b: seq<VStage>)
    requires Wf(g) && AllSameShape(a, b)
    ensures SameCode(EmitAll(g, a), EmitAll(g, b))
    decreases |a|
  {
    if a != [] {
      var n := |a| - 1;
      EmitAllSameCode(g, a[..n], b[..n]);
      assert SameShape(a[n], b[n]);
      JobsSameLoad(a[n], b[n], Count(a[n].stage));
      PlaceAllSameCode(EmitAll(g, a[..n]), EmitAll(g, b[..n]), Jobs(a[n]), Jobs(b[n]), SpecialFor(a[n]));
    }
  }

  /**
   Update equals recompile, first half: for descriptors of the same shapes, biases and
   special operations, recompiling gives the same command words, and exactly the bindings
   an update would list.
   */
  lemma RecompileOnlyRebinds(mask: nat, a: seq<VStage>, b: seq<VStage>)
    requires AllSameShape(a, b) && mask % 4 != 0
    ensures Generate(mask, b).program == Generate(mask, a).program
    ensures Generate(mask, b).bindings == BindingsOf(AllJobs(b))
    ensures |Generate(mask, b).bindings| == |Generate(mask, a).bindings|
  {
    FreshWf(mask);
    EmitAllSameCode(Prepare(Fresh(mask)), a, b);
    GeneratedBindings(mask, b);
  }

  // ---- How many bindings a program can have ----

  const MAX_COMMANDS: nat := 262144
  const MAX_BINDINGS: nat := 10 * MAX_COMMANDS / 17

  /** The ratio, up to the jobs of the unfinished batch, whose PROD and STORE are still to come. */
  predicate Ratio(g: Gen) {
    17 * |g.bindings| <= 10 * |g.program| + g.cur && g.cur <= |g.threads| <= NR_TID
  }

  lemma FinishRatio(g: Gen, sp: Special)
    requires Wf(g) && Ratio(g)
    ensures Ratio(FinishBatch(g, sp))
  {
    assert |BatchTail(sp)| >= 2;
  }

  lemma {:induction false} PlaceAllRatio(g: Gen, jobs: seq<Job>, sp: Special)
    requires Wf(g) && AllWf(jobs) && Ratio(g)
    ensures Ratio(PlaceAll(g, jobs, sp))
    decreases |jobs|
  {
    if jobs != [] {
      PlaceAllRatio(g, jobs[..|jobs| - 1], sp);
    }
  }

  lemma {:induction false} EmitAllRatio(g: Gen, vs: seq<VStage>)
    requires Wf(g) && Ratio(g)
    ensures Ratio(EmitAll(g, vs))
    decreases |vs|
  {
    if vs != [] {
      var n := |vs| - 1;
      EmitAllRatio(g, vs[..n]);
      PlaceAllRatio(EmitAll(g, vs[..n]), Jobs(vs[n]), SpecialFor(vs[n]));
      FinishRatio(PlaceAll(EmitAll(g, vs[..n]), Jobs(vs[n]), SpecialFor(vs[n])), SpecialFor(vs[n]));
    }
  }

  /**
   However the work is batched, a program has at most 10 bindings per 17 commands; so one
   that keeps the command limit of the driver keeps its binding limit too.
   */
  lemma BindingLimit(mask: nat, vs: seq<VStage>)
    ensures var g := Generate(mask, vs);
            && 17 * |g.bindings| <= 10 * |g.program|
            && (|g.program| <= MAX_COMMANDS ==> |g.bindings| <= MAX_BINDINGS)
  {
    FreshWf(mask);
    ThreadsOfTwo();
    EmitAllRatio(Prepare(Fresh(mask)), vs);
  }
}
