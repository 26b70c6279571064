/**
 The meaning of a stage, independent of batches, threads and commands: every job's value is
 computed from the memory the stage starts with, and results are written in job order.
 */
module Reference {
  import opened Isa
  import opened Wrappers
  import opened Semantics
  import opened CodeGen
  import opened Stages

  function PtrTo(b: Binding): Ptr { At(b.buf, b.index) }

  /** The buffers hold both source vectors and the result element. */
  predicate JobFits<T>(mem: Memory<T>, j: Job) {
    && j.rs.buf in mem && j.rs.index + j.len <= |mem[j.rs.buf]|
    && j.rt.buf in mem && j.rt.index + j.len <= |mem[j.rt.buf]|
    && j.rd.buf in mem && j.rd.index < |mem[j.rd.buf]|
  }

  predicate AllFit<T>(mem: Memory<T>, jobs: seq<Job>) { forall k :: 0 <= k < |jobs| ==> JobFits(mem, jobs[k]) }

  function Activate<T>(A: Arith<T>, sp: Special, x: T): T {
    match sp
    case NoAct => x
    case ReluAct => A.relu(x)
    case LReluAct(ned) => A.lrelu(SignExtend7(ned), x)
  }

  /** act(bias + sum of products, left to right). */
  function Value<T>(A: Arith<T>, sp: Special, mem: Memory<T>, j: Job): T
    requires JobFits(mem, j)
  {
    Activate(A, sp, Dot(A, mem, A.ofBits(j.bias), PtrTo(j.rs), PtrTo(j.rt), j.len))
  }

  /** Write the values of jobs, computed from src, over mem, in order. */
  function WriteAll<T>(A: Arith<T>, sp: Special, src: Memory<T>, mem: Memory<T>, jobs: seq<Job>): (r: Memory<T>)
    requires SameShape(src, mem) && AllFit(src, jobs)
    ensures SameShape(mem, r)
    decreases |jobs|
  {
    if jobs == [] then mem
    else
      var n := |jobs| - 1;
      Write(WriteAll(A, sp, src, mem, jobs[..n]), PtrTo(jobs[n].rd), Value(A, sp, src, jobs[n]))
  }

  function StageResult<T>(A: Arith<T>, sp: Special, mem: Memory<T>, jobs: seq<Job>): (r: Memory<T>)
    requires AllFit(mem, jobs)
    ensures SameShape(mem, r)
  {
    WriteAll(A, sp, mem, mem, jobs)
  }

  /** Element i of buffer b is the destination of a job. */
  predicate Hits(j: Job, b: int, i: int) { j.rd.buf == b && j.rd.index == i }

  lemma WrittenHere<T>(mem: Memory<T>, p: Ptr, x: T)
    requires p.At? && Readable(mem, p, 1)
    ensures Write(mem, p, x)[p.buf][p.idx] == x
  {
  }

  lemma WrittenElsewhere<T>(mem: Memory<T>, p: Ptr, x: T, b: int, i: nat)
    requires p.At? && Readable(mem, p, 1) && b in mem && i < |mem[b]| && !(p.buf == b && p.idx == i)
    ensures Write(mem, p, x)[b][i] == mem[b][i]
  {
  }

  /** Last writer wins: job k determines the element it writes unless a later job writes it too. */
  lemma {:induction false} LastWriter<T>(A: Arith<T>, sp: Special, src: Memory<T>, mem: Memory<T>, jobs: seq<Job>, k: nat)
    requires SameShape(src, mem) && AllFit(src, jobs) && k < |jobs|
    requires forall l :: k < l < |jobs| ==> !Hits(jobs[l], jobs[k].rd.buf, jobs[k].rd.index)
    ensures WriteAll(A, sp, src, mem, jobs)[jobs[k].rd.buf][jobs[k].rd.index] == Value(A, sp, src, jobs[k])
    decreases |jobs|
  {
    hide Write, Value;
    var n := |jobs| - 1;
    var before := WriteAll(A, sp, src, mem, jobs[..n]);
    assert JobFits(src, jobs[k]) && JobFits(src, jobs[n]);
    if k < n {
      assert !Hits(jobs[n], jobs[k].rd.buf, jobs[k].rd.index);
      LastWriter(A, sp, src, mem, jobs[..n], k);
      WrittenElsewhere(before, PtrTo(jobs[n].rd), Value(A, sp, src, jobs[n]), jobs[k].rd.buf, jobs[k].rd.index);
    } else {
      WrittenHere(before, PtrTo(jobs[n].rd), Value(A, sp, src, jobs[n]));
    }
  }

  /** Elements no job writes keep their value. */
  lemma {:induction false} Untouched<T>(A: Arith<T>, sp: Special, src: Memory<T>, mem: Memory<T>, jobs: seq<Job>, b: int, i: nat)
    requires SameShape(src, mem) && AllFit(src, jobs) && b in mem && i < |mem[b]|
    requires forall l :: 0 <= l < |jobs| ==> !Hits(jobs[l], b, i)
    ensures WriteAll(A, sp, src, mem, jobs)[b][i] == mem[b][i]
    decreases |jobs|
  {
    if jobs != [] {
      var n := |jobs| - 1;
      assert !Hits(jobs[n], b, i);
      Untouched(A, sp, src, mem, jobs[..n], b, i);
    }
  }

  lemma {:induction false} WriteAllAppend<T>(A: Arith<T>, sp: Special, src: Memory<T>, mem: Memory<T>, a: seq<Job>, b: seq<Job>)
    requires SameShape(src, mem) && AllFit(src, a) && AllFit(src, b)
    ensures AllFit(src, a + b) && SameShape(src, WriteAll(A, sp, src, mem, a))
    ensures WriteAll(A, sp, src, mem, a + b) == WriteAll(A, sp, src, WriteAll(A, sp, src, mem, a), b)
    decreases |b|
  {
    hide Value, Write;
    if b == [] {
      assert a + b == a;
    } else {
      var n := |b| - 1;
      FitSplit(src, a, b);
      WriteAllAppend(A, sp, src, mem, a, b[..n]);
      AppendLast(a, b);
    }
  }

  lemma AppendLast(a: seq<Job>, b: seq<Job>)
    requires b != []
    ensures (a + b)[..|a + b| - 1] == a + b[..|b| - 1] && (a + b)[|a + b| - 1] == b[|b| - 1]
  {
  }

  /** An element read by a job. */
  predicate Reads(j: Job, b: int, i: int) {
    || (j.rs.buf == b && j.rs.index <= i < j.rs.index + j.len)
    || (j.rt.buf == b && j.rt.index <= i < j.rt.index + j.len)
  }

  /** No job writes an element that a later job of the same stage reads. */
  predicate NoHazard(jobs: seq<Job>) {
    forall k, l :: 0 <= k < l < |jobs| ==> !Reads(jobs[l], jobs[k].rd.buf, jobs[k].rd.index)
  }

  lemma {:induction false} DotSame<T>(A: Arith<T>, a: Memory<T>, b: Memory<T>, acc: T, j: Job, n: nat)
    requires JobFits(a, j) && JobFits(b, j) && n <= j.len
    requires forall i :: j.rs.index <= i < j.rs.index + n ==> a[j.rs.buf][i] == b[j.rs.buf][i]
    requires forall i :: j.rt.index <= i < j.rt.index + n ==> a[j.rt.buf][i] == b[j.rt.buf][i]
    ensures Dot(A, a, acc, PtrTo(j.rs), PtrTo(j.rt), n) == Dot(A, b, acc, PtrTo(j.rs), PtrTo(j.rt), n)
    decreases n
  {
    if n > 0 {
      DotSame(A, a, b, acc, j, n - 1);
    }
  }

  lemma FitsShape<T>(a: Memory<T>, b: Memory<T>, jobs: seq<Job>)
    requires SameShape(a, b) && AllFit(a, jobs)
    ensures AllFit(b, jobs)
  {
    forall k | 0 <= k < |jobs| ensures JobFits(b, jobs[k]) {
      assert JobFits(a, jobs[k]);
    }
  }

  /** Jobs that none of the earlier ones feeds have the same values after them as before. */
  lemma ValueSame<T>(A: Arith<T>, sp: Special, src: Memory<T>, done: seq<Job>, j: Job)
    requires AllFit(src, done) && JobFits(src, j)
    requires forall l :: 0 <= l < |done| ==> !Reads(j, done[l].rd.buf, done[l].rd.index)
    ensures var mem := WriteAll(A, sp, src, src, done);
            JobFits(mem, j) && Value(A, sp, mem, j) == Value(A, sp, src, j)
  {
    var mem := WriteAll(A, sp, src, src, done);
    forall i | j.rs.index <= i < j.rs.index + j.len
      ensures mem[j.rs.buf][i] == src[j.rs.buf][i]
    {
      Untouched(A, sp, src, src, done, j.rs.buf, i);
    }
    forall i | j.rt.index <= i < j.rt.index + j.len
      ensures mem[j.rt.buf][i] == src[j.rt.buf][i]
    {
      Untouched(A, sp, src, src, done, j.rt.buf, i);
    }
    DotSame(A, mem, src, A.ofBits(j.bias), j, j.len);
  }

  lemma {:induction false} WriteAllSame<T>(A: Arith<T>, sp: Special, a: Memory<T>, b: Memory<T>, mem: Memory<T>, jobs: seq<Job>)
    requires SameShape(a, b) && SameShape(a, mem) && SameShape(b, mem) && AllFit(a, jobs) && AllFit(b, jobs)
    requires forall k :: 0 <= k < |jobs| ==> Value(A, sp, a, jobs[k]) == Value(A, sp, b, jobs[k])
    ensures WriteAll(A, sp, a, mem, jobs) == WriteAll(A, sp, b, mem, jobs)
    decreases |jobs|
  {
    if jobs != [] {
      WriteAllSame(A, sp, a, b, mem, jobs[..|jobs| - 1]);
    }
  }

  /** Without hazards a stage may be cut into batches anywhere: running them in turn is running it at once. */
  lemma BatchesCompose<T>(A: Arith<T>, sp: Special, mem: Memory<T>, done: seq<Job>, next: seq<Job>)
    requires AllFit(mem, done + next) && NoHazard(done + next)
    ensures AllFit(mem, done)
    ensures var mid := StageResult(A, sp, mem, done);
            AllFit(mid, next) && StageResult(A, sp, mid, next) == StageResult(A, sp, mem, done + next)
  {
    var both := done + next;
    forall k | 0 <= k < |done| ensures JobFits(mem, done[k]) { assert both[k] == done[k]; }
    forall k | 0 <= k < |next| ensures JobFits(mem, next[k]) { assert both[|done| + k] == next[k]; }
    var mid := StageResult(A, sp, mem, done);
    FitsShape(mem, mid, next);
    forall k | 0 <= k < |next|
      ensures Value(A, sp, mid, next[k]) == Value(A, sp, mem, next[k])
    {
      forall l | 0 <= l < |done| ensures !Reads(next[k], done[l].rd.buf, done[l].rd.index) {
        assert both[l] == done[l] && both[|done| + k] == next[k];
      }
      ValueSame(A, sp, mem, done, next[k]);
    }
    WriteAllSame(A, sp, mid, mem, mid, next);
    WriteAllAppend(A, sp, mem, mem, done, next);
  }

  // ---- Batches ----

  /** Where the last batch of len jobs starts when batches take n jobs. */
  function LastStart(len: nat, n: nat): (k: nat)
    requires n > 0
    ensures k <= len && (len > 0 ==> len - n <= k < len)
  {
    if len == 0 then 0 else (len - 1) / n * n
  }

  lemma FitsPrefix<T>(mem: Memory<T>, jobs: seq<Job>, k: nat)
    requires AllFit(mem, jobs) && k <= |jobs|
    ensures AllFit(mem, jobs[..k]) && AllFit(mem, jobs[k..])
  {
  }

  /** A stage evaluated in batches of n jobs: each batch sees the results of the ones before it. */
  ghost function Batched<T>(A: Arith<T>, sp: Special, mem: Memory<T>, jobs: seq<Job>, n: nat): (r: Memory<T>)
    requires AllFit(mem, jobs) && n > 0
    ensures SameShape(mem, r)
    decreases |jobs|
  {
    if jobs == [] then mem
    else
      var k := LastStart(|jobs|, n);
      FitsPrefix(mem, jobs, k);
      var mid := Batched(A, sp, mem, jobs[..k], n);
      FitsShape(mem, mid, jobs[k..]);
      StageResult(A, sp, mid, jobs[k..])
  }

  const PLAIN: Arith<int> := Arith((b: nat) => b, (x: int, y: int) => x + y, (x: int, y: int) => x * y, (x: int) => x, (e: int, x: int) => x)

  /** n jobs that write element 1 of buffer 0, then one that reads it and writes element 2. */
  function FeedingJobs(n: nat): seq<Job> {
    seq(n, _ => Job(0, Binding(0, 0), Binding(0, 0), Binding(0, 1), 1)) +
    [Job(0, Binding(0, 1), Binding(0, 0), Binding(0, 2), 1)]
  }

  /** With a hazard the batch size can show: here the reader in the next batch sees the new element. */
  lemma HazardShows(n: nat)
    requires n > 0
    ensures
      var mem := map[0 := [1, 0, 0]];
      && AllFit(mem, FeedingJobs(n)) && !NoHazard(FeedingJobs(n))
      && Batched(PLAIN, NoAct, mem, FeedingJobs(n), n)[0] == [1, 1, 1]
      && StageResult(PLAIN, NoAct, mem, FeedingJobs(n))[0] == [1, 1, 0]
  {
    var mem: Memory<int> := map[0 := [1, 0, 0]];
    var jobs := FeedingJobs(n);
    var feed, last := jobs[..n], jobs[n];
    assert AllFit(mem, jobs) && Reads(jobs[n], jobs[0].rd.buf, jobs[0].rd.index);
    DivModUnique(n, n, 1, 0);
    assert LastStart(|jobs|, n) == n && jobs[n..] == [last];
    FedOnce(feed, n);
    var mid := StageResult(PLAIN, NoAct, mem, feed);
    DivModUnique(n - 1, n, 0, n - 1);
    assert LastStart(n, n) == 0 && feed[0..] == feed && feed[..0] == [];
    assert Batched(PLAIN, NoAct, mem, feed, n) == mid;
    OneProduct(mid, last);
    OneProduct(mem, last);
    assert [last][..0] == [];
    StageOfNothing(PLAIN, NoAct, mid);
    assert [1, 1, 0][2 := 1] == [1, 1, 1] && [1, 1, 0][2 := 0] == [1, 1, 0];
    assert jobs[..|jobs| - 1] == feed;
  }

  lemma OneProduct(mem: Memory<int>, j: Job)
    requires j.len == 1 && j.bias == 0 && JobFits(mem, j)
    ensures Value(PLAIN, NoAct, mem, j) == mem[j.rs.buf][j.rs.index] * mem[j.rt.buf][j.rt.index]
  {
    assert Dot(PLAIN, mem, 0, PtrTo(j.rs), PtrTo(j.rt), 0) == 0;
  }

  lemma {:induction false} FedOnce(feed: seq<Job>, n: nat)
    requires n > 0 && feed == FeedingJobs(n)[..n]
    ensures var mem := map[0 := [1, 0, 0]];
            AllFit(mem, feed) && StageResult(PLAIN, NoAct, mem, feed)[0] == [1, 1, 0]
    decreases n
  {
    var mem: Memory<int> := map[0 := [1, 0, 0]];
    OneProduct(mem, feed[n - 1]);
    if n > 1 {
      assert feed[..n - 1] == FeedingJobs(n - 1)[..n - 1];
      FedOnce(feed[..n - 1], n - 1);
    } else {
      assert feed[..n - 1] == [];
      StageOfNothing(PLAIN, NoAct, mem);
    }
    assert [1, 0, 0][1 := 1] == [1, 1, 0] && [1, 1, 0][1 := 1] == [1, 1, 0];
  }

  lemma StageOfNothing<T>(A: Arith<T>, sp: Special, mem: Memory<T>)
    ensures StageResult(A, sp, mem, []) == mem
  {
  }

  // ---- Pipelines ----

  /** Evaluating the stages one by one, each in batches of n jobs. */
  ghost function PipelineBatched<T>(A: Arith<T>, mem: Memory<T>, vs: seq<VStage>, n: nat): (r: Memory<T>)
    requires AllFit(mem, AllJobs(vs)) && n > 0
    ensures SameShape(mem, r)
    decreases |vs|
  {
    if vs == [] then mem
    else
      var k := |vs| - 1;
      FitSplit(mem, AllJobs(vs[..k]), Jobs(vs[k]));
      var mid := PipelineBatched(A, mem, vs[..k], n);
      FitsShape(mem, mid, Jobs(vs[k]));
      Batched(A, SpecialFor(vs[k]), mid, Jobs(vs[k]), n)
  }

  /** Evaluating the stages of a pipeline one by one. */
  ghost function PipelineResult<T>(A: Arith<T>, mem: Memory<T>, vs: seq<VStage>): (r: Memory<T>)
    requires AllFit(mem, AllJobs(vs))
    ensures SameShape(mem, r)
    decreases |vs|
  {
    if vs == [] then mem
    else
      var n := |vs| - 1;
      FitSplit(mem, AllJobs(vs[..n]), Jobs(vs[n]));
      var mid := PipelineResult(A, mem, vs[..n]);
      FitsShape(mem, mid, Jobs(vs[n]));
      StageResult(A, SpecialFor(vs[n]), mid, Jobs(vs[n]))
  }

  predicate HazardFree(vs: seq<VStage>) { forall i :: 0 <= i < |vs| ==> NoHazard(Jobs(vs[i])) }

  lemma FitSplit<T>(mem: Memory<T>, a: seq<Job>, b: seq<Job>)
    ensures AllFit(mem, a + b) <==> AllFit(mem, a) && AllFit(mem, b)
  {
    var both := a + b;
    if AllFit(mem, both) {
      forall k | 0 <= k < |a| ensures JobFits(mem, a[k]) { assert both[k] == a[k]; }
      forall k | 0 <= k < |b| ensures JobFits(mem, b[k]) { assert both[|a| + k] == b[k]; }
    }
  }
}
