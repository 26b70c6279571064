/**
 When the cut into batches shows.  A batch sees the results of the batches before it, so a
 stage evaluated in batches can differ from the stage evaluated at once; this module says
 exactly for which stages and batch sizes it never does.
 */
module Hazards {
  import opened Isa
  import opened Wrappers
  import opened Semantics
  import opened CodeGen
  import opened Stages
  import opened Reference

  /** No later job writes the same element, so what job l writes remains. */
  predicate Remains(jobs: seq<Job>, l: nat)
    requires l < |jobs|
  {
    forall m :: l < m < |jobs| ==> !Hits(jobs[m], jobs[l].rd.buf, jobs[l].rd.index)
  }

  /** Where the batch of job l starts. */
  function BatchStart(l: nat, n: nat): (k: nat)
    requires n > 0
    ensures k <= l < k + n
  {
    l / n * n
  }

  /** Job l reads an element that an earlier batch writes. */
  predicate Fed(jobs: seq<Job>, n: nat, l: nat)
    requires n > 0 && l < |jobs|
  {
    exists k :: 0 <= k < BatchStart(l, n) && Reads(jobs[l], jobs[k].rd.buf, jobs[k].rd.index)
  }

  /** No job whose result remains reads what an earlier batch writes. */
  predicate Unfed(jobs: seq<Job>, n: nat)
    requires n > 0
  {
    forall l :: 0 <= l < |jobs| && Remains(jobs, l) ==> !Fed(jobs, n, l)
  }

  /** A stage that never writes what a later job reads can be cut anywhere. */
  lemma NoHazardUnfed(jobs: seq<Job>, n: nat)
    requires n > 0 && NoHazard(jobs)
    ensures Unfed(jobs, n)
  {
  }

  // ---- Elements after batches ----

  lemma LastStartIs(len: nat, n: nat, l: nat)
    requires n > 0 && l < len
    ensures LastStart(len, n) <= l ==> BatchStart(l, n) == LastStart(len, n)
  {
    var q := (len - 1) / n;
    if q * n <= l {
      DivModUnique(l, n, q, l - q * n);
    }
  }

  /** Elements no job writes keep their value. */
  lemma {:induction false} BatchedUntouched<T>(A: Arith<T>, sp: Special, mem: Memory<T>, jobs: seq<Job>, n: nat, b: int, i: nat)
    requires AllFit(mem, jobs) && n > 0 && b in mem && i < |mem[b]|
    requires forall l :: 0 <= l < |jobs| ==> !Hits(jobs[l], b, i)
    ensures Batched(A, sp, mem, jobs, n)[b][i] == mem[b][i]
    decreases |jobs|
  {
    hide WriteAll, Value;
    if jobs != [] {
      var k := LastStart(|jobs|, n);
      FitsPrefix(mem, jobs, k);
      BatchedUntouched(A, sp, mem, jobs[..k], n, b, i);
      var mid := Batched(A, sp, mem, jobs[..k], n);
      FitsShape(mem, mid, jobs[k..]);
      forall l | 0 <= l < |jobs[k..]| ensures !Hits(jobs[k..][l], b, i) { assert jobs[k..][l] == jobs[k + l]; }
      Untouched(A, sp, mid, mid, jobs[k..], b, i);
    }
  }

  /** A result that remains was computed from the memory its batch started with. */
  lemma {:induction false} BatchedRemains<T>(A: Arith<T>, sp: Special, mem: Memory<T>, jobs: seq<Job>, n: nat, l: nat)
    requires AllFit(mem, jobs) && n > 0 && l < |jobs| && Remains(jobs, l)
    ensures AllFit(mem, jobs[..BatchStart(l, n)])
    ensures
      var mid := Batched(A, sp, mem, jobs[..BatchStart(l, n)], n);
      JobFits(mid, jobs[l]) && Batched(A, sp, mem, jobs, n)[jobs[l].rd.buf][jobs[l].rd.index] == Value(A, sp, mid, jobs[l])
    decreases |jobs|
  {
    hide WriteAll, Value, LastStart, BatchStart;
    var k, s := LastStart(|jobs|, n), BatchStart(l, n);
    LastStartIs(|jobs|, n, l);
    FitsPrefix(mem, jobs, k);
    FitsPrefix(mem, jobs, s);
    var mid, rest := Batched(A, sp, mem, jobs[..k], n), jobs[k..];
    FitsShape(mem, mid, rest);
    if k <= l {
      RestRemains(jobs, k, l);
      LastWriter(A, sp, mid, mid, rest, l - k);
    } else {
      PrefixRemains(jobs, k, l);
      BatchedRemains(A, sp, mem, jobs[..k], n, l);
      assert jobs[..k][..s] == jobs[..s];
      RestMisses(jobs, k, l);
      Untouched(A, sp, mid, mid, rest, jobs[l].rd.buf, jobs[l].rd.index);
    }
  }

  lemma RestRemains(jobs: seq<Job>, k: nat, l: nat)
    requires k <= l < |jobs| && Remains(jobs, l)
    ensures jobs[k..][l - k] == jobs[l] && Remains(jobs[k..], l - k)
  {
    forall m | l - k < m < |jobs| - k ensures !Hits(jobs[k..][m], jobs[l].rd.buf, jobs[l].rd.index) {
      assert jobs[k..][m] == jobs[k + m];
    }
  }

  lemma PrefixRemains(jobs: seq<Job>, k: nat, l: nat)
    requires l < k <= |jobs| && Remains(jobs, l)
    ensures jobs[..k][l] == jobs[l] && Remains(jobs[..k], l)
  {
  }

  lemma RestMisses(jobs: seq<Job>, k: nat, l: nat)
    requires l < k <= |jobs| && Remains(jobs, l)
    ensures forall m :: 0 <= m < |jobs[k..]| ==> !Hits(jobs[k..][m], jobs[l].rd.buf, jobs[l].rd.index)
  {
    forall m | 0 <= m < |jobs[k..]| ensures !Hits(jobs[k..][m], jobs[l].rd.buf, jobs[l].rd.index) {
      assert jobs[k..][m] == jobs[k + m];
    }
  }

  predicate Hit(jobs: seq<Job>, b: int, i: int) { exists l :: 0 <= l < |jobs| && Hits(jobs[l], b, i) }

  /** An element that is written has a last writer. */
  lemma {:induction false} LastHit(jobs: seq<Job>, b: int, i: int) returns (l: nat)
    requires Hit(jobs, b, i)
    ensures l < |jobs| && Hits(jobs[l], b, i) && Remains(jobs, l)
    decreases |jobs|
  {
    var n := |jobs| - 1;
    if Hits(jobs[n], b, i) {
      l := n;
    } else {
      assert Hit(jobs[..n], b, i) by {
        var k :| 0 <= k < |jobs| && Hits(jobs[k], b, i);
        assert jobs[..n][k] == jobs[k];
      }
      l := LastHit(jobs[..n], b, i);
      assert jobs[..n][l] == jobs[l];
      forall m | l < m < |jobs| ensures !Hits(jobs[m], jobs[l].rd.buf, jobs[l].rd.index) {
        if m < n {
          assert jobs[..n][m] == jobs[m];
        }
      }
    }
  }

  // ---- Unfed stages may be cut ----

  /** A job that no earlier batch feeds has the value it has at the start of the stage. */
  lemma UnfedValue<T>(A: Arith<T>, sp: Special, mem: Memory<T>, jobs: seq<Job>, n: nat, l: nat)
    requires AllFit(mem, jobs) && n > 0 && l < |jobs| && !Fed(jobs, n, l)
    ensures AllFit(mem, jobs[..BatchStart(l, n)])
    ensures
      var mid := Batched(A, sp, mem, jobs[..BatchStart(l, n)], n);
      JobFits(mid, jobs[l]) && JobFits(mem, jobs[l]) && Value(A, sp, mid, jobs[l]) == Value(A, sp, mem, jobs[l])
  {
    hide Batched, BatchStart;
    var j, done := jobs[l], jobs[..BatchStart(l, n)];
    FitsPrefix(mem, jobs, BatchStart(l, n));
    var mid := Batched(A, sp, mem, done, n);
    FitsShape(mem, mid, jobs);
    assert JobFits(mem, j) && JobFits(mid, j);
    forall i | j.rs.index <= i < j.rs.index + j.len ensures mid[j.rs.buf][i] == mem[j.rs.buf][i] {
      BatchedUntouched(A, sp, mem, done, n, j.rs.buf, i);
    }
    forall i | j.rt.index <= i < j.rt.index + j.len ensures mid[j.rt.buf][i] == mem[j.rt.buf][i] {
      BatchedUntouched(A, sp, mem, done, n, j.rt.buf, i);
    }
    DotSame(A, mid, mem, A.ofBits(j.bias), j, j.len);
  }

  lemma UnfedElement<T>(A: Arith<T>, sp: Special, mem: Memory<T>, jobs: seq<Job>, n: nat, b: int, i: nat)
    requires AllFit(mem, jobs) && n > 0 && Unfed(jobs, n) && b in mem && i < |mem[b]|
    ensures Batched(A, sp, mem, jobs, n)[b][i] == StageResult(A, sp, mem, jobs)[b][i]
  {
    hide Batched, WriteAll, Value, Fed, BatchStart;
    if Hit(jobs, b, i) {
      var l := LastHit(jobs, b, i);
      BatchedRemains(A, sp, mem, jobs, n, l);
      UnfedValue(A, sp, mem, jobs, n, l);
      LastWriter(A, sp, mem, mem, jobs, l);
    } else {
      BatchedUntouched(A, sp, mem, jobs, n, b, i);
      Untouched(A, sp, mem, mem, jobs, b, i);
    }
  }

  lemma MemoryEqual<T>(a: Memory<T>, b: Memory<T>)
    requires SameShape(a, b) && forall k, i :: k in a && 0 <= i < |a[k]| ==> a[k][i] == b[k][i]
    ensures a == b
  {
    forall k | k in a ensures a[k] == b[k] { }
  }

  /** If no remaining result is fed by an earlier batch, batches of n do not show, whatever the arithmetic. */
  lemma BatchedIsStage<T>(A: Arith<T>, sp: Special, mem: Memory<T>, jobs: seq<Job>, n: nat)
    requires AllFit(mem, jobs) && n > 0 && Unfed(jobs, n)
    ensures Batched(A, sp, mem, jobs, n) == StageResult(A, sp, mem, jobs)
  {
    hide Batched, StageResult, Unfed;
    var a, b := Batched(A, sp, mem, jobs, n), StageResult(A, sp, mem, jobs);
    forall k, i | k in a && 0 <= i < |a[k]| ensures a[k][i] == b[k][i] {
      UnfedElement(A, sp, mem, jobs, n, k, i);
    }
    MemoryEqual(a, b);
  }

  /** Without hazards the batch size does not matter. */
  lemma BatchSizeIrrelevant<T>(A: Arith<T>, sp: Special, mem: Memory<T>, jobs: seq<Job>, n: nat)
    requires AllFit(mem, jobs) && n > 0 && NoHazard(jobs)
    ensures Batched(A, sp, mem, jobs, n) == StageResult(A, sp, mem, jobs)
  {
    hide NoHazard, Unfed, Batched, StageResult, AllFit;
    NoHazardUnfed(jobs, n);
    BatchedIsStage(A, sp, mem, jobs, n);
  }

  // ---- Other stages may not ----

  /** Arithmetic that adds up whatever is read, starting from 1: it tells written elements from zeros. */
  const COUNT: Arith<int> := Arith((b: nat) => 1, (x: int, y: int) => x + y, (x: int, y: int) => x + y, (x: int) => x, (e: int, x: int) => x)

  predicate Zero(mem: Memory<int>) { forall b, i :: b in mem && 0 <= i < |mem[b]| ==> mem[b][i] == 0 }
  predicate NonNegative(mem: Memory<int>) { forall b, i :: b in mem && 0 <= i < |mem[b]| ==> mem[b][i] >= 0 }

  /** A sum counts at least its start, and more if some element read is positive. */
  lemma {:induction false} CountDot(mem: Memory<int>, j: Job, n: nat)
    requires JobFits(mem, j) && NonNegative(mem) && n <= j.len
    ensures
      var d := Dot(COUNT, mem, 1, PtrTo(j.rs), PtrTo(j.rt), n);
      && d >= 1
      && ((exists i :: j.rs.index <= i < j.rs.index + n && mem[j.rs.buf][i] > 0) ==> d > 1)
      && ((exists i :: j.rt.index <= i < j.rt.index + n && mem[j.rt.buf][i] > 0) ==> d > 1)
    decreases n
  {
    if n > 0 {
      CountDot(mem, j, n - 1);
      assert mem[j.rs.buf][j.rs.index + n - 1] >= 0 && mem[j.rt.buf][j.rt.index + n - 1] >= 0;
    }
  }

  lemma {:induction false} ZeroDot(mem: Memory<int>, j: Job, n: nat)
    requires JobFits(mem, j) && Zero(mem) && n <= j.len
    ensures Dot(COUNT, mem, 1, PtrTo(j.rs), PtrTo(j.rt), n) == 1
    decreases n
  {
    if n > 0 {
      ZeroDot(mem, j, n - 1);
      assert mem[j.rs.buf][j.rs.index + n - 1] == 0 && mem[j.rt.buf][j.rt.index + n - 1] == 0;
    }
  }

  /** From zeros, evaluating in batches leaves every written element positive and the others zero. */
  lemma {:induction false} BatchedCounts(sp: Special, mem: Memory<int>, jobs: seq<Job>, n: nat)
    requires AllFit(mem, jobs) && n > 0 && Zero(mem)
    ensures
      var r := Batched(COUNT, sp, mem, jobs, n);
      forall b, i :: b in r && 0 <= i < |r[b]| ==> if Hit(jobs, b, i) then r[b][i] > 0 else r[b][i] == 0
    decreases |jobs|
  {
    hide Batched, WriteAll, Hit, BatchStart;
    var r := Batched(COUNT, sp, mem, jobs, n);
    forall b, i | b in r && 0 <= i < |r[b]|
      ensures if Hit(jobs, b, i) then r[b][i] > 0 else r[b][i] == 0
    {
      if Hit(jobs, b, i) {
        var l := LastHit(jobs, b, i);
        BatchedRemains(COUNT, sp, mem, jobs, n, l);
        var done := jobs[..BatchStart(l, n)];
        BatchedCounts(sp, mem, done, n);
        var mid := Batched(COUNT, sp, mem, done, n);
        assert NonNegative(mid);
        CountDot(mid, jobs[l], jobs[l].len);
      } else {
        assert forall l :: 0 <= l < |jobs| ==> !Hits(jobs[l], b, i) by { NotHit(jobs, b, i); }
        BatchedUntouched(COUNT, sp, mem, jobs, n, b, i);
      }
    }
  }

  lemma NotHit(jobs: seq<Job>, b: int, i: int)
    requires !Hit(jobs, b, i)
    ensures forall l :: 0 <= l < |jobs| ==> !Hits(jobs[l], b, i)
  {
  }

  /** The fed job counts more in its batch than in the stage evaluated at once. */
  lemma FedShows(sp: Special, mem: Memory<int>, jobs: seq<Job>, n: nat, l: nat)
    requires AllFit(mem, jobs) && n > 0 && Zero(mem) && l < |jobs| && Remains(jobs, l) && Fed(jobs, n, l)
    ensures Batched(COUNT, sp, mem, jobs, n)[jobs[l].rd.buf][jobs[l].rd.index] > 1
    ensures StageResult(COUNT, sp, mem, jobs)[jobs[l].rd.buf][jobs[l].rd.index] == 1
    ensures Batched(COUNT, sp, mem, jobs, n) != StageResult(COUNT, sp, mem, jobs)
  {
    hide Batched, WriteAll, BatchStart;
    var j, done := jobs[l], jobs[..BatchStart(l, n)];
    BatchedRemains(COUNT, sp, mem, jobs, n, l);
    BatchedCounts(sp, mem, done, n);
    var mid := Batched(COUNT, sp, mem, done, n);
    assert NonNegative(mid);
    CountDot(mid, j, j.len);
    var k :| 0 <= k < BatchStart(l, n) && Reads(j, jobs[k].rd.buf, jobs[k].rd.index);
    assert done[k] == jobs[k] && Hit(done, jobs[k].rd.buf, jobs[k].rd.index);
    LastWriter(COUNT, sp, mem, mem, jobs, l);
    ZeroDot(mem, j, j.len);
  }

  function Zeros(mem: Memory<int>): (r: Memory<int>) { map b | b in mem :: seq(|mem[b]|, _ => 0) }

  ghost predicate Agrees(A: Arith<int>, sp: Special, mem: Memory<int>, jobs: seq<Job>, n: nat)
    requires n > 0
  {
    AllFit(mem, jobs) && Batched(A, sp, mem, jobs, n) == StageResult(A, sp, mem, jobs)
  }

  /**
   Exactly when the batch size shows.  For buffers of any given lengths: evaluating a stage in
   batches of n agrees with evaluating it at once, for every contents and every arithmetic, if
   and only if no job whose result remains reads an element that an earlier batch writes.
   */
  lemma BatchesHiddenIff(sp: Special, shape: Memory<int>, jobs: seq<Job>, n: nat)
    requires AllFit(shape, jobs) && n > 0
    ensures
      Unfed(jobs, n) <==>
      forall A: Arith<int>, mem: Memory<int> :: SameShape(shape, mem) ==> Agrees(A, sp, mem, jobs, n)
  {
    hide Agrees, AllFit, Remains, Fed, SameShape;
    if Unfed(jobs, n) {
      forall A: Arith<int>, mem: Memory<int> | SameShape(shape, mem) ensures Agrees(A, sp, mem, jobs, n) {
        UnfedAgrees(A, sp, shape, mem, jobs, n);
      }
    } else {
      var l :| 0 <= l < |jobs| && Remains(jobs, l) && Fed(jobs, n, l);
      FedDisagrees(sp, shape, jobs, n, l);
      assert !Agrees(COUNT, sp, Zeros(shape), jobs, n);
    }
  }

  lemma UnfedAgrees(A: Arith<int>, sp: Special, shape: Memory<int>, mem: Memory<int>, jobs: seq<Job>, n: nat)
    requires AllFit(shape, jobs) && n > 0 && SameShape(shape, mem) && Unfed(jobs, n)
    ensures Agrees(A, sp, mem, jobs, n)
  {
    hide AllFit, Unfed;
    FitsShape(shape, mem, jobs);
    BatchedIsStage(A, sp, mem, jobs, n);
  }

  lemma FedDisagrees(sp: Special, shape: Memory<int>, jobs: seq<Job>, n: nat, l: nat)
    requires AllFit(shape, jobs) && n > 0 && l < |jobs| && Remains(jobs, l) && Fed(jobs, n, l)
    ensures SameShape(shape, Zeros(shape)) && !Agrees(COUNT, sp, Zeros(shape), jobs, n)
  {
    hide AllFit, Remains, Fed, Batched, StageResult;
    FitsShape(shape, Zeros(shape), jobs);
    FedShows(sp, Zeros(shape), jobs, n, l);
  }

  // ---- Pipelines ----

  predicate AllUnfed(vs: seq<VStage>, n: nat)
    requires n > 0
  {
    forall i :: 0 <= i < |vs| ==> Unfed(Jobs(vs[i]), n)
  }

  lemma HazardFreeUnfed(vs: seq<VStage>, n: nat)
    requires n > 0 && HazardFree(vs)
    ensures AllUnfed(vs, n)
  {
    hide NoHazard, Unfed, Jobs;
    forall i | 0 <= i < |vs| ensures Unfed(Jobs(vs[i]), n) { NoHazardUnfed(Jobs(vs[i]), n); }
  }

  lemma {:induction false} PipelineSplitIrrelevant<T>(A: Arith<T>, mem: Memory<T>, vs: seq<VStage>, n: nat)
    requires AllFit(mem, AllJobs(vs)) && n > 0 && AllUnfed(vs, n)
    ensures PipelineBatched(A, mem, vs, n) == PipelineResult(A, mem, vs)
    decreases |vs|
  {
    hide Batched, StageResult, Jobs, AllFit, Unfed;
    if vs != [] {
      var k := |vs| - 1;
      FitSplit(mem, AllJobs(vs[..k]), Jobs(vs[k]));
      PipelineSplitIrrelevant(A, mem, vs[..k], n);
      var mid := PipelineResult(A, mem, vs[..k]);
      FitsShape(mem, mid, Jobs(vs[k]));
      BatchedIsStage(A, SpecialFor(vs[k]), mid, Jobs(vs[k]), n);
    }
  }
}
