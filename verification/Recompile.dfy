/**
 Re-binding a compiled pipeline: an accepted update with the bindings of new descriptors
 leaves exactly the entry that compiling the new descriptors and creating a command buffer
 from them would make.
 */
module Recompile {
  import opened Isa
  import opened Wrappers
  import opened Semantics
  import opened CodeGen
  import opened Stages
  import opened Backend
  import BI = Bindings
  import G = Completeness
  import R = Rebinding
  import C = Checker
  import D = Demand
  import KP = KernelProg

  /** In a compiled program every slot is used. */
  lemma CompiledUsesAll<T>(mask: nat, vs: seq<VStage>, bufs: Table<T>, b: Buf<T>)
    requires mask % 4 != 0 && b.CmdBuf? && CmdOk(bufs, b) && b.source == Generate(mask, vs).program
    requires |b.slots| == 3 * |AllJobs(vs)|
    ensures forall i :: 0 <= i < |b.slots| ==> b.slots[i].vlen >= 0
  {
    hide Generate, AllJobs, C.Run, D.Run, SlotsTyped;
    G.GeneratedDemand(mask, vs);
    var first: seq<C.Res> :| Origin(b.prog, b.slots, b.source, first);
    D.AcceptIff(b.source, first);
    forall i | 0 <= i < |b.slots| ensures b.slots[i].vlen >= 0 {
      assert C.Check(b.source, first).value.vlens[i] == G.UseOf(AllJobs(vs), i);
    }
  }

  lemma AllRebound(slots: seq<Slot>, bs: seq<Binding>)
    requires |slots| == |bs| && forall i :: 0 <= i < |slots| ==> slots[i].vlen >= 0
    ensures Backend.Bindings(Rebound(slots, bs)) == bs
  {
  }

  lemma SameResources<T>(bufs: Table<T>, slots: seq<Slot>, bs: seq<Binding>)
    requires SlotsTyped(bufs, slots) && Backend.Bindings(slots) == bs
    ensures NamesData(bufs, bs, |bs|) && BindingRes(bufs, bs) == SlotRes(bufs, slots)
  {
    forall i | 0 <= i < |bs|
      ensures bs[i].buf == slots[i].buf && bs[i].index == slots[i].index
    {
      assert Backend.Bindings(slots)[i] == bs[i];
    }
  }

  lemma UpdateIsRecompile<T>(mask: nat, a: seq<VStage>, b: seq<VStage>, before: Table<T>, after: Table<T>, id: int)
    requires mask % 4 != 0 && BI.AllSameShape(a, b) && Inv(before) && Inv(after)
    requires id in before && before[id].CmdBuf? && before[id].source == Generate(mask, a).program
    requires |before[id].slots| == 3 * |AllJobs(a)| == |Generate(mask, b).bindings|
    requires Updated(before, after, id, Rebound(before[id].slots, Generate(mask, b).bindings))
    ensures
      var g := Generate(mask, b);
      && NamesData(after, g.bindings, |g.bindings|)
      && var r := C.Check(g.program, BindingRes(after, g.bindings));
         r.Some? && after[id] == CmdBuf(r.value.out + [C.SYNC_STOP], CheckedSlots(g.bindings, r.value), g.program)
  {
    hide Generate, AllJobs, C.Run, D.Run, Rebound, KP.SingleLength, Conserved, Typed, Origin;
    var g := Generate(mask, b);
    BI.RecompileOnlyRebinds(mask, a, b);
    assert CmdOk(before, before[id]) && CmdOk(after, after[id]);
    CompiledUsesAll(mask, a, before, before[id]);
    AllRebound(before[id].slots, g.bindings);
    R.CompiledSingleLength(mask, a);
    SameAsFresh(after, after[id]);
    SameResources(after, after[id].slots, g.bindings);
  }
}
