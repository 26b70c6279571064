/**
 The code generator: hands out hardware threads one job at a time, emitting commands and
 recording one binding per SETRx.  It remembers the enable bit it last set for each thread
 and leaves out SETEN commands that would change nothing.
 */
module CodeGen {
  import opened Isa
  import opened Wrappers
  import opened Semantics

  /** One dot product: bias bits, two sources, a destination and the vector length. */
  datatype Job = Job(bias: nat, rs: Binding, rt: Binding, rd: Binding, len: nat)

  datatype Special = NoAct | ReluAct | LReluAct(ned: int)

  /** en: -1 undefined, otherwise the enable bit last emitted. */
  datatype HwThread = HwThread(vpu: nat, thr: nat, en: int)

  datatype Gen = Gen(inactive: seq<HwThread>, threads: seq<HwThread>, cur: nat,
                     program: seq<Word>, bindings: seq<Binding>)

  function MakeDst(vpu: nat, th: nat): (d: nat)
    ensures vpu < 32 ==> d < 256
  {
    vpu * 8 + th % 8
  }

  predicate WfJob(j: Job) { j.bias < U32 && j.len < LEN_LIMIT }

  predicate Wf(g: Gen) {
    && g.cur <= |g.threads|
    && Encodable(g.threads) && Encodable(g.inactive)
  }

  /** VPU and thread numbers fit the destination field. */
  predicate Encodable(ts: seq<HwThread>) {
    forall k :: 0 <= k < |ts| ==> ts[k].vpu < 32 && ts[k].thr < 8
  }

  // ---- Encodings ----

  function SetEnWord(t: HwThread, en: bool): Word
    requires t.vpu < 32
  {
    Pack(SETEN, MakeDst(t.vpu, t.thr), if en then 1 else 0)
  }

  function SetAccWord(t: HwThread, bits: nat): Word
    requires t.vpu < 32 && bits < U32
  {
    Pack(SETACC, MakeDst(t.vpu, t.thr), bits)
  }

  /** The byte address is shifted to a word address and cut to 38 bits. */
  function SetRegWord(t: HwThread, reg: Reg, addr: nat): Word
    requires t.vpu < 32
  {
    Pack(match reg case Rs => SETRS case Rt => SETRT case Rd => SETRD,
         MakeDst(t.vpu, t.thr), addr / 4 % ADDR_LIMIT)
  }

  function SetVlWord(t: HwThread, len: nat): Word
    requires t.vpu < 32
  {
    Pack(SETVL, MakeDst(t.vpu, t.thr), len % LEN_LIMIT)
  }

  const PROD_ALL: Word := Pack(PROD, 0, 0)
  const STORE_ALL: Word := Pack(STORE, 0, 0)
  const RELU_ALL: Word := Pack(ACTF, 0, 0)
  function LReluWord(ed: int): Word { Pack(ACTF, 0, AF_UNIT + ed % 128) }

  function ActWords(sp: Special): seq<Word> {
    match sp
    case NoAct => []
    case ReluAct => [RELU_ALL]
    case LReluAct(ned) => [LReluWord(ned)]
  }

  // ---- The generator as a function of its state ----

  /** The six commands, or five when the thread is already enabled, that load a job. */
  function LoadWords(t: HwThread, j: Job, nb: nat): seq<Word>
    requires t.vpu < 32 && WfJob(j)
  {
    (if t.en != 1 then [SetEnWord(t, true)] else []) +
    [SetAccWord(t, j.bias), SetRegWord(t, Rs, nb * 16), SetRegWord(t, Rt, (nb + 1) * 16),
     SetRegWord(t, Rd, (nb + 2) * 16), SetVlWord(t, j.len)]
  }

  function Alloc(g: Gen, j: Job): (r: Gen)
    requires Wf(g) && g.cur < |g.threads| && WfJob(j)
    ensures Wf(r)
  {
    var t := g.threads[g.cur];
    g.(threads := g.threads[g.cur := t.(en := 1)], cur := g.cur + 1,
       program := g.program + LoadWords(t, j, |g.bindings|),
       bindings := g.bindings + [j.rs, j.rt, j.rd])
  }

  /** SETEN commands that disable threads k.. unless they are known to be disabled. */
  function DisableWords(ts: seq<HwThread>, k: nat): seq<Word>
    requires k <= |ts| && Encodable(ts)
    decreases |ts| - k
  {
    if k == |ts| then []
    else (if ts[k].en == 0 then [] else [SetEnWord(ts[k], false)]) + DisableWords(ts, k + 1)
  }

  function Disable(ts: seq<HwThread>, k: nat): seq<HwThread> {
    seq(|ts|, i requires 0 <= i < |ts| => if i < k then ts[i] else ts[i].(en := 0))
  }

  function Finalize(g: Gen): (r: Gen)
    requires Wf(g)
    ensures Wf(r) && r.cur == 0 && |r.threads| == |g.threads|
  {
    g.(threads := Disable(g.threads, g.cur), cur := 0, program := g.program + DisableWords(g.threads, g.cur))
  }

  function BatchTail(sp: Special): seq<Word> { [PROD_ALL] + ActWords(sp) + [STORE_ALL] }

  function FinishBatch(g: Gen, sp: Special): (r: Gen)
    requires Wf(g)
    ensures Wf(r) && r.cur == 0 && |r.threads| == |g.threads|
  {
    var f := Finalize(g);
    f.(program := f.program + BatchTail(sp))
  }

  /**
   Allocate a thread for a job, finishing the batch first when none is left.  The second
   allocation is not checked: with no usable thread at all the job is dropped.
   */
  function Place(g: Gen, j: Job, sp: Special): (r: Gen)
    requires Wf(g) && WfJob(j)
    ensures Wf(r) && |r.threads| == |g.threads|
  {
    if g.cur < |g.threads| then Alloc(g, j)
    else
      var f := FinishBatch(g, sp);
      if |g.threads| > 0 then Alloc(f, j) else f
  }

  function PlaceAll(g: Gen, jobs: seq<Job>, sp: Special): (r: Gen)
    requires Wf(g) && forall i :: 0 <= i < |jobs| ==> WfJob(jobs[i])
    ensures Wf(r) && |r.threads| == |g.threads|
    decreases |jobs|
  {
    if jobs == [] then g
    else Place(PlaceAll(g, jobs[..|jobs| - 1], sp), jobs[|jobs| - 1], sp)
  }

  /** The code of one stage. */
  function EmitStage(g: Gen, jobs: seq<Job>, sp: Special): (r: Gen)
    requires Wf(g) && forall i :: 0 <= i < |jobs| ==> WfJob(jobs[i])
    ensures Wf(r) && r.cur == 0 && |r.threads| == |g.threads|
  {
    FinishBatch(PlaceAll(g, jobs, sp), sp)
  }

  function VpuThreads(vpu: nat, n: nat): (r: seq<HwThread>) {
    seq(n, t requires 0 <= t < n => HwThread(vpu, t, -1))
  }

  /** Threads of the VPUs whose bits are set, lowest VPU first. */
  function ThreadsOf(bits: nat, vpu: nat): seq<HwThread>
    decreases bits
  {
    if bits == 0 then []
    else (if bits % 2 == 1 then VpuThreads(vpu, NR_THR) else []) + ThreadsOf(bits / 2, vpu + 1)
  }

  /** The VPUs the device has: two, as the emulator reports. */
  const DEVICE_VPUS: nat := 3
  function EnabledVpus(mask: nat): nat { mask % 4 }
  function DisabledVpus(mask: nat): nat { DEVICE_VPUS - mask % 4 }

  function Fresh(mask: nat): Gen {
    Gen(ThreadsOf(DisabledVpus(mask), 0), ThreadsOf(EnabledVpus(mask), 0), 0, [], [])
  }

  /** Masked-out threads are disabled explicitly before any code is emitted. */
  function Prepare(g: Gen): (r: Gen)
    requires Wf(g)
    ensures Wf(r)
  {
    g.(program := g.program + PrepareWords(g.inactive))
  }

  function PrepareWords(ts: seq<HwThread>): (r: seq<Word>)
    requires Encodable(ts)
  {
    seq(|ts|, k requires 0 <= k < |ts| => SetEnWord(ts[k], false))
  }

  function TidOf(t: HwThread): nat { t.vpu * NR_THR + t.thr }

  /** Usable threads are numbered base.. in order; the inactive ones are the rest of the sixteen. */
  predicate OnDevice(g: Gen, base: nat) {
    && Wf(g)
    && ((|g.threads| == NR_TID && base == 0 && |g.inactive| == 0) ||
        (|g.threads| == NR_THR && (base == 0 || base == NR_THR) && |g.inactive| == NR_THR))
    && (forall k :: 0 <= k < |g.threads| ==> TidOf(g.threads[k]) == base + k)
    && (forall k :: 0 <= k < |g.inactive| ==> TidOf(g.inactive[k]) == NR_THR - base + k)
  }

  function BaseOf(mask: nat): nat { if mask % 4 == 2 then NR_THR else 0 }

  lemma ThreadsOfTwo()
    ensures ThreadsOf(0, 0) == [] && ThreadsOf(1, 0) == VpuThreads(0, NR_THR)
    ensures ThreadsOf(2, 0) == VpuThreads(1, NR_THR)
    ensures ThreadsOf(3, 0) == VpuThreads(0, NR_THR) + VpuThreads(1, NR_THR)
  {
    assert ThreadsOf(0, 1) == [] && ThreadsOf(0, 2) == [];
    assert ThreadsOf(1, 1) == VpuThreads(1, NR_THR) + [];
    assert ThreadsOf(2, 0) == [] + ThreadsOf(1, 1);
    assert ThreadsOf(1, 0) == VpuThreads(0, NR_THR) + ThreadsOf(0, 1);
    assert ThreadsOf(3, 0) == VpuThreads(0, NR_THR) + ThreadsOf(1, 1);
  }

  lemma FreshWf(mask: nat)
    ensures Wf(Fresh(mask)) && Forgotten(Fresh(mask).threads) == Fresh(mask).threads
  {
    ThreadsOfTwo();
    var ts := Fresh(mask).threads;
    assert forall k :: 0 <= k < |ts| ==> Forgotten(ts)[k] == ts[k];
  }

  /** Unless the mask disables both VPUs, eight or sixteen threads are usable. */
  lemma FreshOnDevice(mask: nat)
    requires mask % 4 != 0
    ensures OnDevice(Fresh(mask), BaseOf(mask))
    ensures forall k :: 0 <= k < |Fresh(mask).threads| ==> Fresh(mask).threads[k].en == -1
  {
    ThreadsOfTwo();
    FreshWf(mask);
  }

  class CodeGenerator {
    var inactive: seq<HwThread>
    var threads: seq<HwThread>
    var curThread: nat
    var program: seq<Word>
    var bindings: seq<Binding>

    ghost function State(): Gen
      reads this
    {
      Gen(inactive, threads, curThread, program, bindings)
    }

    ghost predicate Valid() reads this { Wf(State()) }

    constructor (vpuMask: nat)
      ensures Valid() && State() == Fresh(vpuMask)
    {
      inactive, threads := [], [];
      curThread, program, bindings := 0, [], [];
      new;
      inactive := ThreadsOfBits(DisabledVpus(vpuMask));
      threads := ThreadsOfBits(EnabledVpus(vpuMask));
      FreshWf(vpuMask);
      Reset();
    }

    /** One thread record per hardware thread of each VPU whose bit is set. */
    static method ThreadsOfBits(vpus: nat) returns (ts: seq<HwThread>)
      ensures ts == ThreadsOf(vpus, 0)
    {
      ts := [];
      var bits, vpu := vpus, 0;
      while bits != 0
        invariant ts + ThreadsOf(bits, vpu) == ThreadsOf(vpus, 0)
        decreases bits
      {
        Assoc(ts, if bits % 2 == 1 then VpuThreads(vpu, NR_THR) else [], ThreadsOf(bits / 2, vpu + 1));
        if bits % 2 == 1 {
          ts := AddVpu(ts, vpu);
        } else {
          assert ts + [] == ts;
        }
        bits, vpu := bits / 2, vpu + 1;
      }
    }

    static method AddVpu(ts: seq<HwThread>, vpu: nat) returns (r: seq<HwThread>)
      ensures r == ts + VpuThreads(vpu, NR_THR)
    {
      r := ts;
      var t := 0;
      while t < NR_THR
        invariant 0 <= t <= NR_THR && r == ts + VpuThreads(vpu, t)
      {
        r := r + [HwThread(vpu, t, -1)];
        t := t + 1;
      }
    }

    method Reset()
      modifies this
      requires Valid()
      ensures Valid()
      ensures State() == Gen(old(inactive), old(Forgotten(threads)), 0, [], [])
    {
      curThread, program, bindings := 0, [], [];
      ghost var was := threads;
      var i := 0;
      while i < |threads|
        invariant 0 <= i <= |threads| == |was| && inactive == old(inactive)
        invariant curThread == 0 && program == [] && bindings == []
        invariant forall k :: 0 <= k < |was| ==> threads[k] == if k < i then was[k].(en := -1) else was[k]
      {
        threads := threads[i := threads[i].(en := -1)];
        i := i + 1;
      }
      assert threads == Forgotten(was);
    }

    method PrepareThreads()
      requires Valid()
      modifies this
      ensures Valid() && State() == Prepare(old(State()))
    {
      var i := 0;
      while i < |inactive|
        invariant 0 <= i <= |inactive| && Valid()
        invariant State() == old(State()).(program := old(program) + PrepareWords(inactive)[..i])
      {
        program := program + [SetEnWord(inactive[i], false)];
        i := i + 1;
      }
      assert PrepareWords(inactive)[..i] == PrepareWords(inactive);
    }

    function TotalThreads(): nat reads this { |threads| }
    function AvailThreads(): int reads this { TotalThreads() - curThread }

    /** Load a job onto the next free thread; false when every thread is taken. */
    method AllocThread(j: Job) returns (ok: bool)
      requires Valid() && WfJob(j)
      modifies this
      ensures Valid() && (ok <==> old(curThread) < |old(threads)|)
      ensures State() == if ok then Alloc(old(State()), j) else old(State())
    {
      if AvailThreads() == 0 {
        return false;
      }
      var t := threads[curThread];
      curThread := curThread + 1;
      if t.en != 1 {
        threads := threads[curThread - 1 := t.(en := 1)];
        program := program + [SetEnWord(t, true)];
      }
      program := program + [SetAccWord(t, j.bias)];
      program := program + [SetRegWord(t, Rs, |bindings| * 16)];
      bindings := bindings + [j.rs];
      program := program + [SetRegWord(t, Rt, |bindings| * 16)];
      bindings := bindings + [j.rt];
      program := program + [SetRegWord(t, Rd, |bindings| * 16)];
      bindings := bindings + [j.rd];
      program := program + [SetVlWord(t, j.len)];
      ok := true;
      assert threads == Alloc(old(State()), j).threads;
      assert program == old(program) + LoadWords(t, j, |old(bindings)|);
    }

    method DisableThread(i: nat)
      requires i < |threads| && threads[i].vpu < 32
      modifies this`threads, this`program
      ensures threads == old(threads)[i := old(threads)[i].(en := 0)]
      ensures program == old(program) + (if old(threads)[i].en == 0 then [] else [SetEnWord(old(threads)[i], false)])
    {
      if threads[i].en != 0 {
        threads := threads[i := threads[i].(en := 0)];
        program := program + [SetEnWord(threads[i], false)];
      }
    }

    /** Disable the threads that were not allocated and start a new batch. */
    method FinalizeBatch()
      requires Valid()
      modifies this
      ensures Valid() && State() == Finalize(old(State()))
    {
      ghost var was, code := threads, program;
      ghost var words: seq<Word> := [];
      var i := curThread;
      while i < |threads|
        invariant curThread == old(curThread) <= i <= |threads| == |was|
        invariant inactive == old(inactive) && bindings == old(bindings)
        invariant forall k :: 0 <= k < |was| ==>
                    threads[k] == if curThread <= k < i then was[k].(en := 0) else was[k]
        invariant program == code + words && words + DisableWords(was, i) == DisableWords(was, curThread)
      {
        ghost var step := if was[i].en == 0 then [] else [SetEnWord(was[i], false)];
        Assoc(words, step, DisableWords(was, i + 1));
        DisableThread(i);
        Assoc(code, words, step);
        words := words + step;
        i := i + 1;
      }
      curThread := 0;
      assert threads == Disable(was, old(curThread));
    }

    method Exec(w: Word)
      requires Valid()
      modifies this`program
      ensures Valid() && program == old(program) + [w]
    {
      program := program + [w];
    }

    /** Close a batch: disable the rest, multiply, activate, store. */
    method Finish(sp: Special)
      requires Valid()
      modifies this
      ensures Valid() && State() == FinishBatch(old(State()), sp)
    {
      FinalizeBatch();
      ghost var f := State();
      Exec(PROD_ALL);
      match sp {
        case ReluAct => Exec(RELU_ALL);
        case LReluAct(ned) => Exec(LReluWord(ned));
        case NoAct =>
      }
      Exec(STORE_ALL);
      assert program == f.program + BatchTail(sp);
    }

    /** Load a job, finishing the running batch first if it is full. */
    method PlaceJob(j: Job, sp: Special)
      requires Valid() && WfJob(j)
      modifies this
      ensures Valid() && State() == Place(old(State()), j, sp)
    {
      var ok := AllocThread(j);
      if !ok {
        Finish(sp);
        ok := AllocThread(j);
      }
    }
  }

  function Forgotten(ts: seq<HwThread>): seq<HwThread> {
    seq(|ts|, k requires 0 <= k < |ts| => ts[k].(en := -1))
  }
}
