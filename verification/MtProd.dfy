/**
 The multi-threaded executor: a dispatcher runs the program and hands each PROD to sixteen
 worker threads through pairs of binary semaphores.
 */
module MtProd {
  // Steps are as fine as the sources' shared accesses: one semaphore operation or one element
  // of a product at a time, in any interleaving.  Every run ends, and ends where the
  // single-threaded executor does.

  import opened Isa
  import opened Wrappers
  import opened Semantics

  /** A worker waits for work, looks at its enable bit, accumulates from element i on, or reports. */
  datatype Worker = WaitReady | Start | Compute(i: nat) | SignalDone

  /** The dispatcher fetches the next command, or starts or awaits the workers from number k on. */
  datatype Dispatcher = Fetch | Signal(k: nat) | Await(k: nat)

  datatype Sys<T> = Sys(m: Machine<T>, pc: nat, disp: Dispatcher, ready: seq<nat>, done: seq<nat>, ws: seq<Worker>)

  datatype Event = Dispatch | Work(t: nat)

  /** What is fixed during a run. */
  datatype Env<!T> = Env(A: Arith<T>, mask: nat, bs: seq<Binding>, prog: seq<Word>)

  const MAX_COUNT: nat := 1

  /** Raising a semaphore that is at its maximum is lost. */
  function Up(count: nat): nat { if count < MAX_COUNT then count + 1 else count }

  predicate Shaped<T>(s: Sys<T>) { |s.m.ts| == |s.ready| == |s.done| == |s.ws| == NR_TID }

  /** One step of the dispatcher; None when it is blocked, finished or would run into undefined behaviour. */
  function DispatchNext<T>(e: Env<T>, s: Sys<T>): (r: Option<Sys<T>>)
    requires Shaped(s)
    ensures r.Some? ==> Shaped(r.value)
  {
    if s.pc >= |e.prog| then None
    else
      match (s.disp, Decode(e.prog[s.pc]))
      case (Fetch, Prod(lo, hi)) => Some(s.(disp := Signal(lo)))
      case (Fetch, _) =>
        var m := Step(e.A, e.mask, e.bs, s.m, e.prog[s.pc]);
        if m.None? then None else Some(s.(m := m.value, pc := s.pc + 1))
      case (Signal(k), Prod(lo, hi)) =>
        if k >= hi then Some(s.(disp := Await(lo)))
        else if Enabled(e.mask, k) then Some(s.(ready := s.ready[k := Up(s.ready[k])], disp := Signal(k + 1)))
        else Some(s.(disp := Signal(k + 1)))
      case (Await(k), Prod(lo, hi)) =>
        if k >= hi then Some(s.(disp := Fetch, pc := s.pc + 1))
        else if !Enabled(e.mask, k) then Some(s.(disp := Await(k + 1)))
        else if s.done[k] == 0 then None
        else Some(s.(done := s.done[k := s.done[k] - 1], disp := Await(k + 1)))
      case _ => None
  }

  /** Element i of a thread's product. */
  function AddElement<T>(A: Arith<T>, mem: Memory<T>, th: Thread<T>, i: nat): Thread<T>
    requires Readable(mem, th.rs, i + 1) && Readable(mem, th.rt, i + 1)
  {
    th.(acc := A.add(th.acc, A.mul(mem[th.rs.buf][th.rs.idx + i], mem[th.rt.buf][th.rt.idx + i])))
  }

  /** One step of worker t. */
  function WorkNext<T>(e: Env<T>, s: Sys<T>, t: nat): (r: Option<Sys<T>>)
    requires Shaped(s) && t < NR_TID
    ensures r.Some? ==> Shaped(r.value)
  {
    match s.ws[t]
    case WaitReady =>
      if s.ready[t] == 0 then None else Some(s.(ready := s.ready[t := s.ready[t] - 1], ws := s.ws[t := Start]))
    case Start => Some(s.(ws := s.ws[t := if s.m.ts[t].en then Compute(0) else SignalDone]))
    case Compute(i) =>
      if i >= s.m.ts[t].vlen then Some(s.(ws := s.ws[t := SignalDone]))
      else if !Readable(s.m.mem, s.m.ts[t].rs, i + 1) || !Readable(s.m.mem, s.m.ts[t].rt, i + 1) then None
      else Some(s.(m := s.m.(ts := s.m.ts[t := AddElement(e.A, s.m.mem, s.m.ts[t], i)]), ws := s.ws[t := Compute(i + 1)]))
    case SignalDone => Some(s.(done := s.done[t := Up(s.done[t])], ws := s.ws[t := WaitReady]))
  }

  function Next<T>(e: Env<T>, s: Sys<T>, ev: Event): (r: Option<Sys<T>>)
    requires Shaped(s)
    ensures r.Some? ==> Shaped(r.value)
  {
    match ev
    case Dispatch => DispatchNext(e, s)
    case Work(t) => if t < NR_TID then WorkNext(e, s, t) else None
  }

  function Init<T>(m0: Machine<T>): Sys<T> {
    Sys(m0, 0, Fetch, seq(NR_TID, i => 0), seq(NR_TID, i => 0), seq(NR_TID, i => WaitReady))
  }

  /** A run: any sequence of steps that are possible in turn. */
  function RunEvents<T>(e: Env<T>, s: Sys<T>, evs: seq<Event>): (r: Option<Sys<T>>)
    requires Shaped(s)
    ensures r.Some? ==> Shaped(r.value)
    decreases |evs|
  {
    if evs == [] then Some(s)
    else
      var r := RunEvents(e, s, evs[..|evs| - 1]);
      if r.None? then None else Next(e, r.value, evs[|evs| - 1])
  }

  predicate Finished<T>(e: Env<T>, s: Sys<T>) { s.pc == |e.prog| && s.disp.Fetch? }

  // ---- The invariant ----

  /** Worker t sleeps and both its semaphores are down. */
  predicate Quiet<T>(s: Sys<T>, t: nat)
    requires Shaped(s) && t < NR_TID
  {
    s.ws[t].WaitReady? && s.ready[t] == 0 && s.done[t] == 0
  }

  /** Exactly one token of thread t is in flight, and its accumulator matches how far it got. */
  ghost predicate InFlight<T>(A: Arith<T>, s: Sys<T>, t: nat, was: Thread<T>)
    requires Shaped(s) && t < NR_TID && ProdSafe(s.m.mem, was)
  {
    match s.ws[t]
    case WaitReady =>
      if s.ready[t] == 1 then s.done[t] == 0 && s.m.ts[t] == was
      else s.ready[t] == 0 && s.done[t] == 1 && s.m.ts[t] == ProdThread(A, s.m.mem, was)
    case Start => s.ready[t] == 0 && s.done[t] == 0 && s.m.ts[t] == was
    case Compute(i) =>
      && s.ready[t] == 0 && s.done[t] == 0 && was.en && i <= was.vlen
      && s.m.ts[t] == was.(acc := Dot(A, s.m.mem, was.acc, was.rs, was.rt, i))
    case SignalDone => s.ready[t] == 0 && s.done[t] == 0 && s.m.ts[t] == ProdThread(A, s.m.mem, was)
  }

  /** Thread t while PROD lo..hi, started from thread states was, is being dispatched. */
  ghost predicate DuringProd<T>(e: Env<T>, s: Sys<T>, t: nat, was: Thread<T>, lo: nat, hi: nat)
    requires Shaped(s) && t < NR_TID
  {
    if !Reach(e.mask, lo, hi, t) then Quiet(s, t) && s.m.ts[t] == was
    else
      && ProdSafe(s.m.mem, was)
      && match s.disp
         case Fetch => false
         case Signal(k) => if t >= k then Quiet(s, t) && s.m.ts[t] == was else InFlight(e.A, s, t, was)
         case Await(k) => if t < k then Quiet(s, t) && s.m.ts[t] == ProdThread(e.A, s.m.mem, was) else InFlight(e.A, s, t, was)
  }

  /** The machine of the single-threaded executor in front of command pc. */
  function Sequential<T>(e: Env<T>, m0: Machine<T>, pc: nat): Option<Machine<T>>
    requires |m0.ts| == NR_TID && pc <= |e.prog|
  {
    Run(e.A, e.mask, e.bs, m0, e.prog[..pc])
  }

  ghost predicate Inv<T>(e: Env<T>, m0: Machine<T>, s: Sys<T>) {
    && |m0.ts| == NR_TID && Run(e.A, e.mask, e.bs, m0, e.prog).Some?
    && Shaped(s) && s.pc <= |e.prog| && Sequential(e, m0, s.pc).Some?
    && var q := Sequential(e, m0, s.pc).value;
       match s.disp
       case Fetch => s.m == q && forall t :: 0 <= t < NR_TID ==> Quiet(s, t)
       case _ => s.pc < |e.prog| && s.m.mem == q.mem && Dispatching(e, s, q)
  }

  ghost predicate Dispatching<T>(e: Env<T>, s: Sys<T>, q: Machine<T>)
    requires Shaped(s) && s.pc < |e.prog| && |q.ts| == NR_TID
  {
    match Decode(e.prog[s.pc])
    case Prod(lo, hi) =>
      && !s.disp.Fetch? && lo <= s.disp.k <= hi
      && forall t :: 0 <= t < NR_TID ==> DuringProd(e, s, t, q.ts[t], lo, hi)
    case _ => false
  }

  // ---- Every step keeps it ----

  lemma SequentialNext<T>(e: Env<T>, m0: Machine<T>, pc: nat)
    requires |m0.ts| == NR_TID && pc < |e.prog| && Run(e.A, e.mask, e.bs, m0, e.prog).Some?
    ensures Sequential(e, m0, pc).Some? && Sequential(e, m0, pc + 1).Some?
    ensures Sequential(e, m0, pc + 1) == Step(e.A, e.mask, e.bs, Sequential(e, m0, pc).value, e.prog[pc])
  {
    RunPrefix(e.A, e.mask, e.bs, m0, e.prog, pc + 1);
    RunSnoc(e.A, e.mask, e.bs, m0, e.prog, pc);
  }

  /** A worker's step keeps its own thread in flight. */
  lemma WorkerInFlight<T>(e: Env<T>, s: Sys<T>, t: nat, was: Thread<T>)
    requires Shaped(s) && t < NR_TID && ProdSafe(s.m.mem, was) && InFlight(e.A, s, t, was) && WorkNext(e, s, t).Some?
    ensures
      var r := WorkNext(e, s, t).value;
      ProdSafe(r.m.mem, was) && InFlight(e.A, r, t, was)
  {
  }

  predicate OthersSame<T>(s: Sys<T>, r: Sys<T>, t: nat)
    requires Shaped(s) && Shaped(r)
  {
    && r.pc == s.pc && r.disp == s.disp
    && forall v :: 0 <= v < NR_TID && v != t ==> r.ready[v] == s.ready[v] && r.done[v] == s.done[v] && r.ws[v] == s.ws[v]
  }

  lemma WorkFrame<T>(e: Env<T>, s: Sys<T>, t: nat)
    requires Shaped(s) && t < NR_TID && WorkNext(e, s, t).Some?
    ensures
      var r := WorkNext(e, s, t).value;
      && OthersSame(s, r, t) && r.m.mem == s.m.mem && !Quiet(s, t)
      && forall v :: 0 <= v < NR_TID && v != t ==> r.m.ts[v] == s.m.ts[v]
  {
  }

  lemma WorkKeeps<T>(e: Env<T>, s: Sys<T>, q: Machine<T>, u: nat)
    requires Shaped(s) && s.pc < |e.prog| && |q.ts| == NR_TID && u < NR_TID
    requires Dispatching(e, s, q) && WorkNext(e, s, u).Some?
    ensures Dispatching(e, WorkNext(e, s, u).value, q)
  {
    WorkFrame(e, s, u);
    var r := WorkNext(e, s, u).value;
    var c := Decode(e.prog[s.pc]);
    hide WorkNext, Decode;
    forall t | 0 <= t < NR_TID ensures DuringProd(e, r, t, q.ts[t], c.lo, c.hi) {
      assert DuringProd(e, s, t, q.ts[t], c.lo, c.hi);
      if t == u {
        WorkerInFlight(e, s, t, q.ts[t]);
      }
    }
  }

  /** Starting a PROD: nobody has been signalled yet. */
  lemma FetchKeeps<T>(e: Env<T>, m0: Machine<T>, s: Sys<T>)
    requires Inv(e, m0, s) && s.disp.Fetch? && DispatchNext(e, s).Some?
    ensures Inv(e, m0, DispatchNext(e, s).value)
  {
    hide Run, Decode;
    SequentialNext(e, m0, s.pc);
    var r := DispatchNext(e, s).value;
    match Decode(e.prog[s.pc])
    case Prod(lo, hi) =>
      forall t | 0 <= t < NR_TID ensures DuringProd(e, r, t, s.m.ts[t], lo, hi) {
        assert Quiet(s, t);
      }
    case _ =>
      assert forall t :: 0 <= t < NR_TID ==> Quiet(s, t) ==> Quiet(r, t);
  }

  /** Signalling thread k puts its token in flight; going on to wait changes nothing. */
  lemma SignalKeeps<T>(e: Env<T>, s: Sys<T>, q: Machine<T>)
    requires Shaped(s) && s.pc < |e.prog| && |q.ts| == NR_TID && Dispatching(e, s, q)
    requires s.disp.Signal? && DispatchNext(e, s).Some?
    ensures Dispatching(e, DispatchNext(e, s).value, q)
  {
    hide Decode;
    var r := DispatchNext(e, s).value;
    var c := Decode(e.prog[s.pc]);
    forall t | 0 <= t < NR_TID ensures DuringProd(e, r, t, q.ts[t], c.lo, c.hi) {
      assert DuringProd(e, s, t, q.ts[t], c.lo, c.hi);
    }
  }

  /** Taking done[k] ends thread k's part. */
  lemma AwaitKeeps<T>(e: Env<T>, s: Sys<T>, q: Machine<T>)
    requires Shaped(s) && s.pc < |e.prog| && |q.ts| == NR_TID && Dispatching(e, s, q)
    requires s.disp.Await? && s.disp.k < Decode(e.prog[s.pc]).hi && DispatchNext(e, s).Some?
    ensures Dispatching(e, DispatchNext(e, s).value, q)
  {
    hide Decode;
    var r := DispatchNext(e, s).value;
    var c := Decode(e.prog[s.pc]);
    forall t | 0 <= t < NR_TID ensures DuringProd(e, r, t, q.ts[t], c.lo, c.hi) {
      assert DuringProd(e, s, t, q.ts[t], c.lo, c.hi);
    }
  }

  /** When every thread has been awaited, the accumulators are those of the single-threaded PROD. */
  lemma ProdComplete<T>(e: Env<T>, s: Sys<T>, q: Machine<T>)
    requires Shaped(s) && s.pc < |e.prog| && |q.ts| == NR_TID && Dispatching(e, s, q) && s.m.mem == q.mem
    requires s.disp.Await? && s.disp.k == Decode(e.prog[s.pc]).hi
    ensures Step(e.A, e.mask, e.bs, q, e.prog[s.pc]) == Some(s.m) && forall t :: 0 <= t < NR_TID ==> Quiet(s, t)
  {
    hide Decode;
    var c := Decode(e.prog[s.pc]);
    forall t | 0 <= t < NR_TID
      ensures Quiet(s, t) && (Reach(e.mask, c.lo, c.hi, t) ==> ProdSafe(q.mem, q.ts[t]))
      ensures s.m.ts[t] == if Reach(e.mask, c.lo, c.hi, t) then ProdThread(e.A, q.mem, q.ts[t]) else q.ts[t]
    {
      assert DuringProd(e, s, t, q.ts[t], c.lo, c.hi);
    }
    assert s.m.ts == ProdAll(e.A, q, e.mask, c.lo, c.hi).ts;
  }

  lemma DispatchKeeps<T>(e: Env<T>, m0: Machine<T>, s: Sys<T>)
    requires Inv(e, m0, s) && DispatchNext(e, s).Some?
    ensures Inv(e, m0, DispatchNext(e, s).value)
  {
    hide Run, Decode, Dispatching, DuringProd;
    if s.disp.Fetch? {
      FetchKeeps(e, m0, s);
    } else {
      SequentialNext(e, m0, s.pc);
      var q := Sequential(e, m0, s.pc).value;
      InProd(e, s, q);
      if s.disp.Signal? {
        SignalKeeps(e, s, q);
      } else if s.disp.k < Decode(e.prog[s.pc]).hi {
        AwaitKeeps(e, s, q);
      } else {
        ProdComplete(e, s, q);
        assert forall t :: 0 <= t < NR_TID ==> Quiet(s, t) ==> Quiet(DispatchNext(e, s).value, t);
      }
    }
  }

  lemma InProd<T>(e: Env<T>, s: Sys<T>, q: Machine<T>)
    requires Shaped(s) && s.pc < |e.prog| && |q.ts| == NR_TID && Dispatching(e, s, q)
    ensures Decode(e.prog[s.pc]).Prod? && !s.disp.Fetch? && s.disp.k <= Decode(e.prog[s.pc]).hi
  {
  }

  lemma StepKeeps<T>(e: Env<T>, m0: Machine<T>, s: Sys<T>, ev: Event)
    requires Inv(e, m0, s) && Next(e, s, ev).Some?
    ensures Inv(e, m0, Next(e, s, ev).value)
  {
    hide Run, Dispatching;
    match ev
    case Dispatch => DispatchKeeps(e, m0, s);
    case Work(t) =>
      WorkFrame(e, s, t);
      if s.disp.Fetch? {
        assert false;
      } else {
        WorkKeeps(e, s, Sequential(e, m0, s.pc).value, t);
      }
  }

  lemma {:induction false} RunKeeps<T>(e: Env<T>, m0: Machine<T>, evs: seq<Event>)
    requires |m0.ts| == NR_TID && Run(e.A, e.mask, e.bs, m0, e.prog).Some?
    requires RunEvents(e, Init(m0), evs).Some?
    ensures Inv(e, m0, RunEvents(e, Init(m0), evs).value)
    decreases |evs|
  {
    hide Run, Next, Dispatching;
    if evs == [] {
      RunPrefix(e.A, e.mask, e.bs, m0, e.prog, 0);
      RunNothing(e, m0);
    } else {
      RunKeeps(e, m0, evs[..|evs| - 1]);
      StepKeeps(e, m0, RunEvents(e, Init(m0), evs[..|evs| - 1]).value, evs[|evs| - 1]);
    }
  }

  lemma RunNothing<T>(e: Env<T>, m0: Machine<T>)
    requires |m0.ts| == NR_TID
    ensures Sequential(e, m0, 0) == Some(m0)
  {
  }

  // ---- The theorems ----

  /**
   Refinement: in whatever order dispatcher and workers take their steps, when the program
   has ended the machine is the one single-threaded execution gives, all workers sleep and
   all semaphores are down.
   */
  lemma MultiRefinesSingle<T>(e: Env<T>, m0: Machine<T>, evs: seq<Event>)
    requires |m0.ts| == NR_TID && Run(e.A, e.mask, e.bs, m0, e.prog).Some?
    requires RunEvents(e, Init(m0), evs).Some? && Finished(e, RunEvents(e, Init(m0), evs).value)
    ensures
      var s := RunEvents(e, Init(m0), evs).value;
      Run(e.A, e.mask, e.bs, m0, e.prog) == Some(s.m) && forall t :: 0 <= t < NR_TID ==> Quiet(s, t)
  {
    RunKeeps(e, m0, evs);
    assert e.prog[..|e.prog|] == e.prog;
  }

  /** No signal is ever lost: a semaphore is only raised when it is down. */
  lemma NoSignalLost<T>(e: Env<T>, m0: Machine<T>, s: Sys<T>, t: nat)
    requires Inv(e, m0, s) && t < NR_TID
    ensures s.ws[t].SignalDone? ==> s.done[t] == 0
    ensures (s.disp == Signal(t) && s.pc < |e.prog| && Decode(e.prog[s.pc]).Prod? && t < Decode(e.prog[s.pc]).hi
             && Enabled(e.mask, t)) ==> s.ready[t] == 0
  {
    hide Run, Decode;
    if s.disp.Fetch? {
      assert Quiet(s, t);
    } else {
      var c := Decode(e.prog[s.pc]);
      assert DuringProd(e, s, t, Sequential(e, m0, s.pc).value.ts[t], c.lo, c.hi);
    }
  }

  /** The event that can always happen next while thread t's token is in flight. */
  lemma FlightMoves<T>(e: Env<T>, s: Sys<T>, t: nat, was: Thread<T>)
    requires Shaped(s) && t < NR_TID && ProdSafe(s.m.mem, was) && InFlight(e.A, s, t, was)
    ensures s.done[t] == 0 ==> WorkNext(e, s, t).Some?
    ensures WorkNext(e, s, t).None? ==> s.done[t] == 1
  {
  }

  /** Some thread can move, or the program has ended: there is no deadlock. */
  lemma NoDeadlock<T>(e: Env<T>, m0: Machine<T>, s: Sys<T>)
    requires Inv(e, m0, s) && !Finished(e, s)
    ensures exists ev: Event :: Next(e, s, ev).Some?
  {
    hide Run, Decode;
    SequentialNextIf(e, m0, s);
    if s.disp.Await? {
      var c, k := Decode(e.prog[s.pc]), s.disp.k;
      if k < c.hi && Enabled(e.mask, k) && s.done[k] == 0 {
        var was := Sequential(e, m0, s.pc).value.ts[k];
        assert DuringProd(e, s, k, was, c.lo, c.hi);
        FlightMoves(e, s, k, was);
        assert Next(e, s, Work(k)).Some?;
      } else {
        assert Next(e, s, Dispatch).Some?;
      }
    } else {
      assert Next(e, s, Dispatch).Some?;
    }
  }

  lemma SequentialNextIf<T>(e: Env<T>, m0: Machine<T>, s: Sys<T>)
    requires Inv(e, m0, s) && !Finished(e, s)
    ensures s.pc < |e.prog|
    ensures Step(e.A, e.mask, e.bs, Sequential(e, m0, s.pc).value, e.prog[s.pc]).Some?
  {
    hide Run, Dispatching;
    SequentialNext(e, m0, s.pc);
  }

  /** A worker never meets undefined behaviour: it is blocked only on its semaphore. */
  lemma WorkersSafe<T>(e: Env<T>, m0: Machine<T>, s: Sys<T>, t: nat)
    requires Inv(e, m0, s) && t < NR_TID
    ensures WorkNext(e, s, t).None? <==> s.ws[t].WaitReady? && s.ready[t] == 0
  {
    hide Run, Decode;
    if s.disp.Fetch? {
      assert Quiet(s, t);
    } else {
      var c := Decode(e.prog[s.pc]);
      assert DuringProd(e, s, t, Sequential(e, m0, s.pc).value.ts[t], c.lo, c.hi);
    }
  }

  // ---- Termination ----

  /** Work on this PROD is still to be handed to thread t. */
  predicate Pending<T>(s: Sys<T>, t: nat)
    requires Shaped(s) && t < NR_TID
  {
    s.ready[t] > 0 || s.disp.Fetch? || (s.disp.Signal? && t >= s.disp.k)
  }

  /** Steps worker t can still take for this PROD. */
  function Cost<T>(s: Sys<T>, t: nat): nat
    requires Shaped(s) && t < NR_TID
  {
    match s.ws[t]
    case WaitReady => if Pending(s, t) then s.m.ts[t].vlen + 5 else 0
    case Start => s.m.ts[t].vlen + 4
    case Compute(i) => if i < s.m.ts[t].vlen then s.m.ts[t].vlen - i + 2 else 2
    case SignalDone => 1
  }

  function Costs<T>(s: Sys<T>, n: nat): nat
    requires Shaped(s) && n <= NR_TID
  {
    if n == 0 then 0 else Costs(s, n - 1) + Cost(s, n - 1)
  }

  /** Steps the dispatcher can still take for this PROD, at most. */
  function Ahead(d: Dispatcher): nat {
    match d
    case Fetch => 2 * NR_TID + 3
    case Signal(k) => if k <= NR_TID then 2 * NR_TID + 2 - k else 0
    case Await(k) => if k <= NR_TID then NR_TID + 1 - k else 0
  }

  function Rest<T>(s: Sys<T>): nat
    requires Shaped(s)
  {
    Ahead(s.disp) + Costs(s, NR_TID)
  }

  lemma {:induction false} CostsLess<T>(s: Sys<T>, r: Sys<T>, n: nat)
    requires Shaped(s) && Shaped(r) && n <= NR_TID && forall t :: 0 <= t < n ==> Cost(r, t) <= Cost(s, t)
    ensures Costs(r, n) <= Costs(s, n)
    ensures (exists t :: 0 <= t < n && Cost(r, t) < Cost(s, t)) ==> Costs(r, n) < Costs(s, n)
    decreases n
  {
    hide Cost;
    if n > 0 {
      CostsLess(s, r, n - 1);
    }
  }

  lemma WorkShrinks<T>(e: Env<T>, m0: Machine<T>, s: Sys<T>, t: nat)
    requires Inv(e, m0, s) && t < NR_TID && WorkNext(e, s, t).Some?
    ensures WorkNext(e, s, t).value.pc == s.pc && Rest(WorkNext(e, s, t).value) < Rest(s)
  {
    hide Run, Decode;
    var r := WorkNext(e, s, t).value;
    WorkFrame(e, s, t);
    if !s.disp.Fetch? {
      var c := Decode(e.prog[s.pc]);
      assert DuringProd(e, s, t, Sequential(e, m0, s.pc).value.ts[t], c.lo, c.hi);
    }
    assert Cost(r, t) < Cost(s, t);
    forall v | 0 <= v < NR_TID ensures Cost(r, v) <= Cost(s, v) {
      if v != t {
        assert r.ready[v] == s.ready[v] && r.ws[v] == s.ws[v] && r.m.ts[v] == s.m.ts[v];
      }
    }
    CostsLess(s, r, NR_TID);
  }

  lemma DispatchShrinks<T>(e: Env<T>, m0: Machine<T>, s: Sys<T>)
    requires Inv(e, m0, s) && DispatchNext(e, s).Some?
    ensures
      var r := DispatchNext(e, s).value;
      r.pc == s.pc + 1 <= |e.prog| || (r.pc == s.pc && Rest(r) < Rest(s))
  {
    hide Run, Decode;
    var r := DispatchNext(e, s).value;
    if r.pc == s.pc {
      var c := Decode(e.prog[s.pc]);
      forall v | 0 <= v < NR_TID ensures Cost(r, v) <= Cost(s, v) {
        if s.disp.Fetch? {
          assert Quiet(s, v);
        } else {
          assert DuringProd(e, s, v, Sequential(e, m0, s.pc).value.ts[v], c.lo, c.hi);
        }
      }
      CostsLess(s, r, NR_TID);
      assert Ahead(r.disp) < Ahead(s.disp);
    }
  }

  /** Every step makes progress: the next command is reached, or less of the present one is left. */
  lemma EveryStepShrinks<T>(e: Env<T>, m0: Machine<T>, s: Sys<T>, ev: Event)
    requires Inv(e, m0, s) && Next(e, s, ev).Some?
    ensures
      var r := Next(e, s, ev).value;
      r.pc == s.pc + 1 <= |e.prog| || (r.pc == s.pc && Rest(r) < Rest(s))
  {
    hide Run, WorkNext, DispatchNext, Rest, Dispatching;
    match ev
    case Dispatch => DispatchShrinks(e, m0, s);
    case Work(t) => WorkShrinks(e, m0, s, t);
  }

  /** A scheduler sees the whole past; while the program has not ended it picks a step that is possible. */
  ghost predicate Schedules<T(!new)>(e: Env<T>, m0: Machine<T>, pick: seq<Sys<T>> -> Event) {
    forall past: seq<Sys<T>> :: Picks(e, m0, pick, past)
  }

  ghost predicate Picks<T>(e: Env<T>, m0: Machine<T>, pick: seq<Sys<T>> -> Event, past: seq<Sys<T>>) {
    past != [] && Inv(e, m0, Last(past)) && !Finished(e, Last(past)) ==> Next(e, Last(past), pick(past)).Some?
  }

  function Last<T>(past: seq<T>): T
    requires past != []
  {
    past[|past| - 1]
  }

  /** Where a scheduler takes the system; that this is well defined is termination. */
  ghost function Drive<T(!new)>(e: Env<T>, m0: Machine<T>, pick: seq<Sys<T>> -> Event, past: seq<Sys<T>>): (r: Sys<T>)
    requires past != [] && Inv(e, m0, Last(past)) && Schedules(e, m0, pick)
    ensures Inv(e, m0, r) && Finished(e, r)
    decreases |e.prog| - Last(past).pc, Rest(Last(past))
  {
    var s := Last(past);
    if Finished(e, s) then s
    else
      assert Picks(e, m0, pick, past);
      EveryStepShrinks(e, m0, s, pick(past));
      StepKeeps(e, m0, s, pick(past));
      Drive(e, m0, pick, past + [Next(e, s, pick(past)).value])
  }

  /** Total correctness: every scheduler ends, whatever its choices depend on, with the single-threaded result. */
  lemma EverySchedulerEnds<T(!new)>(e: Env<T>, m0: Machine<T>, pick: seq<Sys<T>> -> Event)
    requires |m0.ts| == NR_TID && Run(e.A, e.mask, e.bs, m0, e.prog).Some? && Schedules(e, m0, pick)
    ensures Inv(e, m0, Init(m0))
    ensures Run(e.A, e.mask, e.bs, m0, e.prog) == Some(Drive(e, m0, pick, [Init(m0)]).m)
  {
    RunKeeps(e, m0, []);
    assert e.prog[..|e.prog|] == e.prog;
  }

  ghost predicate Steps<T>(e: Env<T>, a: Sys<T>, b: Sys<T>) { Shaped(a) && exists ev: Event :: Next(e, a, ev) == Some(b) }

  /** State i of a sequence of states is final or followed by a state some step leads to. */
  ghost predicate Follows<T>(e: Env<T>, run: nat -> Sys<T>, i: nat) { Finished(e, run(i)) || Steps(e, run(i), run(i + 1)) }

  lemma {:induction false} EndsFrom<T>(e: Env<T>, m0: Machine<T>, run: nat -> Sys<T>, i: nat) returns (n: nat)
    requires Inv(e, m0, run(i)) && forall k :: Follows(e, run, k)
    ensures n >= i && Inv(e, m0, run(n)) && Finished(e, run(n))
    decreases |e.prog| - run(i).pc, Rest(run(i))
  {
    hide Inv, Rest, Finished, Next;
    if Finished(e, run(i)) {
      n := i;
    } else {
      assert Follows(e, run, i);
      var ev: Event :| Next(e, run(i), ev) == Some(run(i + 1));
      StepKeeps(e, m0, run(i), ev);
      EveryStepShrinks(e, m0, run(i), ev);
      n := EndsFrom(e, m0, run, i + 1);
    }
  }

  /**
   No run goes on for ever: any sequence of states that starts at the beginning and takes a
   step from every state that is not final reaches a final one, with the single-threaded result.
   */
  lemma NoInfiniteRun<T>(e: Env<T>, m0: Machine<T>, run: nat -> Sys<T>)
    requires |m0.ts| == NR_TID && Run(e.A, e.mask, e.bs, m0, e.prog).Some?
    requires run(0) == Init(m0) && forall k :: Follows(e, run, k)
    ensures exists n :: Finished(e, run(n)) && Run(e.A, e.mask, e.bs, m0, e.prog) == Some(run(n).m)
  {
    RunKeeps(e, m0, []);
    var n := EndsFrom(e, m0, run, 0);
    assert e.prog[..|e.prog|] == e.prog;
  }
}
