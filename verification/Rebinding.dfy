/**
 Re-binding compiled programs in the kernel: always safe, because generated code uses every
 binding with one length; and a program for which the kernel's check is too weak.
 */
module Rebinding {
  import opened Isa
  import opened Wrappers
  import opened CodeGen
  import opened Stages
  import opened EnableCache
  import opened KernelProg
  import S = Semantics
  import G = Completeness
  import C = Checker
  import D = Demand

  /** Generated programs use every binding with a single length. */
  lemma CompiledSingleLength(mask: nat, vs: seq<VStage>)
    requires mask % 4 != 0
    ensures SingleLength(Generate(mask, vs).program, 3 * |AllJobs(vs)|)
  {
    hide Generate, AllJobs, D.Run, G.UseOf;
    G.GeneratedDemand(mask, vs);
    var n := 3 * |AllJobs(vs)|;
    var u := D.Of(Generate(mask, vs).program, n).value.use;
    assert forall i :: 0 <= i < n ==> u.need[i] == u.last[i];
  }

  /** Compiled programs stay inside their buffers through any history of swaps. */
  lemma CompiledHistorySafe(mask: nat, vs: seq<VStage>, first: seq<C.Res>, swaps: seq<seq<C.Res>>, ts: seq<HwRegs>)
    requires mask % 4 != 0 && |first| == 3 * |AllJobs(vs)| && |ts| == NR_TID
    requires C.Check(Generate(mask, vs).program, first).Some?
    ensures
      var ws := Generate(mask, vs).program;
      var st := C.Check(ws, first).value;
      && |st.vlens| == |st.cmdpcs| == |first| && D.Of(ws, |first|).Some?
      && (forall i :: 0 <= i < |first| && st.vlens[i] >= 0 ==> 0 <= st.cmdpcs[i] < |st.out|)
      && var (words, res) := SwapAll(st.out, st.vlens, st.cmdpcs, first, swaps);
         && AllInRange(ProgramTouches(ws, |first|), res)
         && Located(ProgramTouches(ws, |first|), HwRun(ts, words), Addrs(res))
  {
    hide Generate, AllJobs, C.Run, D.Run, HwRun, Located, AllInRange, SwapAll, ProgramTouches;
    CompiledSingleLength(mask, vs);
    HistorySafe(Generate(mask, vs).program, first, swaps, ts);
  }

  /**
   The same for the buffers themselves: a command buffer made from a compiled program, after
   any sequence of swaps, makes the hardware touch no byte outside the DMA ranges of the
   buffers it holds, three for each job.
   */
  lemma CompiledBufferSafe(c: CmdBuffer, mask: nat, vs: seq<VStage>, ts: seq<HwRegs>)
    requires mask % 4 != 0 && c.Valid() && c.source == Generate(mask, vs).program && |c.bufs| == 3 * |AllJobs(vs)|
    requires AllMapped(c.bufs) && |ts| == NR_TID
    ensures D.Of(c.source, |c.bufs|).Some?
    ensures AllInDma(ProgramTouches(c.source, |c.bufs|), HwRun(ts, c.prog[..]), c.bufs)
  {
    hide Generate, AllJobs, C.Run, D.Run, HwRun, AllInDma, AllMapped, ProgramTouches, SwappedWords, LastBound;
    CompiledSingleLength(mask, vs);
    CmdBufferSafe(c, ts);
  }

  // ---- A program with two lengths ----

  const FIVE: Job := Job(0, S.Binding(0, 0), S.Binding(0, 0), S.Binding(0, 0), 5)
  const THREAD0: HwThread := HwThread(0, 0, -1)

  lemma PlaceOnFresh()
    ensures Wf(Fresh(3)) && Wf(Prepare(Fresh(3))) && Prepare(Fresh(3)).cur == 0
    ensures |Prepare(Fresh(3)).threads| == NR_TID && Prepare(Fresh(3)).threads[0] == THREAD0
    ensures BaseOf(3) == 0
  {
    ThreadsOfTwo();
    FreshWf(3);
  }

  /** Thread 0 is loaded with a job of length 5, all other threads are off. */
  function LoadFive(): seq<Word> {
    PlaceOnFresh();
    Finalize(Alloc(Prepare(Fresh(3)), FIVE)).program
  }

  /** Multiply five elements, shorten the vectors to one element, multiply again. */
  function TwoLengths(): seq<Word> {
    LoadFive() + [PROD_ALL, SetVlWord(THREAD0, 1), PROD_ALL]
  }

  lemma LoadFiveReady()
    ensures D.Of(LoadFive(), 3).Some?
    ensures
      var d := D.Of(LoadFive(), 3).value;
      d.cur == 3 && G.BatchReady(d.ts, 0, 1, [FIVE]) && d.use == D.Init(3).use
  {
    hide D.Run, LoadWords, DisableWords, PrepareWords, G.BatchReady, G.DisabledFrom, G.BitsAgree;
    PlaceOnFresh();
    var g := Prepare(Fresh(3));
    G.PreparedTracks(3, 3);
    G.AllocTracks(g, 0, 3, [], FIVE);
    assert [] + [FIVE] == [FIVE];
    var h := Alloc(g, FIVE);
    var d := D.Of(h.program, 3).value;
    OnDeviceBoards(h, 0);
    G.DisableRun(d, h.threads, h.cur, 0, 3);
    var e := D.Run(d, DisableWords(h.threads, h.cur), 3).value;
    G.ClosedBatchReady(h, 0, d, e, 3, [FIVE]);
    G.DisabledKeeps(d, e, h.threads, h.cur, 0);
    D.RunAppend(D.Init(3), h.program, DisableWords(h.threads, h.cur), 3);
  }

  /** The recorded length of the first source is 1 although five elements were read. */
  lemma TwoLengthsDemand()
    ensures D.Of(TwoLengths(), 3).Some?
    ensures var u := D.Of(TwoLengths(), 3).value.use; u.need == [5, 5, -1] && u.last == [1, 1, -1]
  {
    hide D.Run, LoadFive, D.Prod, SetVlWord, Decode, G.BatchReady;
    LoadFiveReady();
    var d := D.Of(LoadFive(), 3).value;
    var one := FIVE.(len := 1);
    DecodeTail(NoAct);
    DecodeSetVl(THREAD0, 1);
    G.BatchProd(d.ts, d.use, 3, 0, 0, 1, [FIVE]);
    var p := D.Step(d, PROD_ALL, 3).value;
    var q := D.Step(p, SetVlWord(THREAD0, 1), 3).value;
    ShorterReady(d.ts, q.ts);
    G.BatchProd(q.ts, q.use, 3, 0, 0, 1, [one]);
    var r := D.Step(q, PROD_ALL, 3).value;
    G.RunCons(d, PROD_ALL, [SetVlWord(THREAD0, 1)] + ([PROD_ALL] + []), 3);
    G.RunCons(p, SetVlWord(THREAD0, 1), [PROD_ALL] + [], 3);
    G.RunCons(q, PROD_ALL, [], 3);
    G.RunNothing(r, 3);
    var tail := [PROD_ALL, SetVlWord(THREAD0, 1), PROD_ALL];
    assert tail == [PROD_ALL] + ([SetVlWord(THREAD0, 1)] + ([PROD_ALL] + []));
    D.RunAppend(D.Init(3), LoadFive(), tail, 3);
  }

  lemma ShorterReady(a: seq<D.Thread>, b: seq<D.Thread>)
    requires G.BatchReady(a, 0, 1, [FIVE]) && b == a[0 := a[0].(vlen := 1)]
    ensures G.BatchReady(b, 0, 1, [FIVE.(len := 1)])
  {
    assert G.Holds(a[0], 0, 5);
  }

  /**
   The recorded length is the last one, not the greatest.  So there is a program, accepted
   with buffers of five elements, for which the kernel's swap check lets through buffers of
   one element; the first PROD then reads past their end.
   */
  lemma SwapCanOverrun()
    ensures
      var five, one := [C.Res(5, 0, 0), C.Res(5, 0, 0), C.Res(5, 0, 0)], [C.Res(1, 0, 0), C.Res(1, 0, 0), C.Res(1, 0, 0)];
      && C.Check(TwoLengths(), five).Some? && SwapOk(C.Check(TwoLengths(), five).value.vlens, one)
      && D.Of(TwoLengths(), 3).Some? && !AllInRange(ProgramTouches(TwoLengths(), 3), one)
  {
    hide D.Run, C.Run, TwoLengths, AllInRange, ProgramTouches;
    var five, one := [C.Res(5, 0, 0), C.Res(5, 0, 0), C.Res(5, 0, 0)], [C.Res(1, 0, 0), C.Res(1, 0, 0), C.Res(1, 0, 0)];
    TwoLengthsDemand();
    D.AcceptIff(TwoLengths(), five);
    RangeIffRoom(TwoLengths(), one);
    assert !D.Room(one[0], D.Of(TwoLengths(), 3).value.use.need[0]);
  }
}
