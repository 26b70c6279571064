/**
 The emulator's buffer table: data buffers with bind counts, command buffers whose slots
 name them, ids handed out again after use, and re-binding that is all or nothing.

 The table is a map from ids to entries that the methods of EmuContext change one entry at a
 time.  Its invariant ties every bind count to the slots that name the buffer, and every command
 buffer to the program it was made from.
 */
module Backend {
  import opened Isa
  import opened Wrappers
  import opened Totals
  import opened Semantics
  import opened Soundness
  import KP = KernelProg
  import C = Checker
  import D = Demand
  import TI = Tightness
  import Assembler

  const ENOENT: int := 2
  const EPERM: int := 1
  const ENOMEM: int := 12
  const EINVAL: int := 22
  const ENOSPC: int := 28
  const MAX_BUFFERS: nat := 1024

  /** A resource slot: bound buffer and index, and what the checker recorded. */
  datatype Slot = Slot(buf: int, index: nat, vlen: int, cmdpc: int)

  /**
   A table entry.  source is the submitted program, kept for statements only.  Freed is what
   a failed command buffer creation leaves: a pointer to a deleted object.
   */
  datatype Buf<T> =
    | DataBuf(data: seq<T>, count: nat)
    | CmdBuf(prog: seq<Word>, slots: seq<Slot>, source: seq<Word>)
    | Freed

  type Table<T> = map<int, Buf<T>>

  function MemOf<T>(bufs: Table<T>): Memory<T> {
    map id | id in bufs && bufs[id].DataBuf? :: bufs[id].data
  }

  function SlotIds(slots: seq<Slot>): (ids: seq<int>)
    ensures |ids| == |slots|
  {
    seq(|slots|, i requires 0 <= i < |slots| => slots[i].buf)
  }

  function Uses(slots: seq<Slot>, id: int): nat { multiset(SlotIds(slots))[id] }

  function EntryUses<T>(b: Buf<T>, id: int): nat { if b.CmdBuf? then Uses(b.slots, id) else 0 }

  /** Slots naming buffer id in entries below n. */
  function UsesBelow<T>(bufs: Table<T>, id: int, n: nat): nat {
    if n == 0 then 0
    else UsesBelow(bufs, id, n - 1) + (if n - 1 in bufs then EntryUses(bufs[n - 1], id) else 0)
  }

  function Refs<T>(bufs: Table<T>, id: int): nat { UsesBelow(bufs, id, MAX_BUFFERS) }

  predicate SlotsTyped<T>(bufs: Table<T>, slots: seq<Slot>) {
    forall i :: 0 <= i < |slots| ==> slots[i].buf in bufs && bufs[slots[i].buf].DataBuf?
  }

  /** Every slot names a data buffer of the table; all ids are in range. */
  predicate Typed<T>(bufs: Table<T>) {
    && (forall id :: id in bufs ==> 0 <= id < MAX_BUFFERS)
    && (forall id :: id in bufs && bufs[id].CmdBuf? ==> SlotsTyped(bufs, bufs[id].slots))
  }

  /** Conservation: a data buffer's bind count is the number of slots naming it. */
  predicate Conserved<T>(bufs: Table<T>) {
    forall id :: id in bufs && bufs[id].DataBuf? ==> bufs[id].count == Refs(bufs, id)
  }

  // ---- Counting ----

  /** Two tables with equal entries below n, as far as slots are concerned. */
  lemma {:induction false} UsesSame<T>(a: Table<T>, b: Table<T>, id: int, n: nat)
    requires forall k :: 0 <= k < n ==> (k in a && a[k].CmdBuf? <==> k in b && b[k].CmdBuf?)
    requires forall k :: 0 <= k < n && k in a && k in b && a[k].CmdBuf? ==> a[k].slots == b[k].slots
    ensures UsesBelow(a, id, n) == UsesBelow(b, id, n)
    decreases n
  {
    hide Uses;
    if n > 0 {
      UsesSame(a, b, id, n - 1);
    }
  }

  function UsesAt<T>(bufs: Table<T>, k: int, id: int): nat { if k in bufs then EntryUses(bufs[k], id) else 0 }

  /** Changing one entry changes the count by that entry's uses. */
  lemma {:induction false} UsesChange<T>(a: Table<T>, b: Table<T>, c: nat, id: int, n: nat)
    requires c < n && forall k :: 0 <= k < n && k != c ==> (k in a && a[k].CmdBuf? <==> k in b && b[k].CmdBuf?)
    requires forall k :: 0 <= k < n && k != c && k in a && k in b && a[k].CmdBuf? ==> a[k].slots == b[k].slots
    ensures UsesBelow(b, id, n) + UsesAt(a, c, id) == UsesBelow(a, id, n) + UsesAt(b, c, id)
    decreases n
  {
    hide Uses;
    if c < n - 1 {
      UsesChange(a, b, c, id, n - 1);
    } else {
      UsesSame(a, b, id, n - 1);
    }
  }

  lemma {:induction false} UsesBound<T>(bufs: Table<T>, c: nat, id: int, n: nat)
    requires c < n
    ensures UsesAt(bufs, c, id) <= UsesBelow(bufs, id, n)
    decreases n
  {
    hide Uses;
    if c < n - 1 {
      UsesBound(bufs, c, id, n - 1);
    }
  }

  function One(a: int, b: int): nat { if a == b then 1 else 0 }

  lemma UsesSet(slots: seq<Slot>, i: nat, s: Slot, id: int)
    requires i < |slots|
    ensures Uses(slots[i := s], id) + One(slots[i].buf, id) == Uses(slots, id) + One(s.buf, id)
  {
    assert SlotIds(slots[i := s]) == SlotIds(slots)[i := s.buf];
  }

  lemma UsesPrefix(slots: seq<Slot>, i: nat, id: int)
    requires i < |slots|
    ensures Uses(slots[..i + 1], id) == Uses(slots[..i], id) + One(slots[i].buf, id)
  {
    assert SlotIds(slots[..i + 1]) == SlotIds(slots[..i]) + [slots[i].buf];
  }

  lemma UsesIn(slots: seq<Slot>, i: nat)
    requires i < |slots|
    ensures Uses(slots, slots[i].buf) > 0
  {
    assert SlotIds(slots)[i] == slots[i].buf;
  }

  lemma NoUses(id: int)
    ensures Uses([], id) == 0
  {
  }

  lemma AllUses(slots: seq<Slot>, id: int, i: nat)
    requires i <= |slots|
    ensures Uses(slots[..i], id) <= Uses(slots, id)
  {
    assert SlotIds(slots) == SlotIds(slots[..i]) + SlotIds(slots[i..]);
  }

  // ---- What a command buffer's slots promise ----

  /** The slots as resources of the checker: SETRx was patched with the slot number. */
  function SlotRes<T>(bufs: Table<T>, slots: seq<Slot>): (res: seq<C.Res>)
    requires SlotsTyped(bufs, slots)
    ensures |res| == |slots|
  {
    seq(|slots|, i requires 0 <= i < |slots| => C.Res(|bufs[slots[i].buf].data|, slots[i].index, i))
  }

  function Bindings(slots: seq<Slot>): (bs: seq<Binding>)
    ensures |bs| == |slots|
  {
    seq(|slots|, i requires 0 <= i < |slots| => Binding(slots[i].buf, slots[i].index))
  }

  /** Words and records are those the checker made, with some resources, when the buffer was created. */
  predicate Origin(prog: seq<Word>, slots: seq<Slot>, source: seq<Word>, first: seq<C.Res>) {
    && |first| == |slots| && (forall i :: 0 <= i < |first| ==> first[i].addr == i)
    && C.Check(source, first).Some?
    && var st := C.Check(source, first).value;
       prog == st.out + [C.SYNC_STOP] && forall i :: 0 <= i < |slots| ==> slots[i].vlen == st.vlens[i] && slots[i].cmdpc == st.cmdpcs[i]
  }

  /** Slots a SETRx command consumed have a valid index and room for the recorded length. */
  predicate Roomy<T>(bufs: Table<T>, slots: seq<Slot>) {
    && SlotsTyped(bufs, slots)
    && forall i :: 0 <= i < |slots| && slots[i].cmdpc >= 0 ==>
         && slots[i].index <= |bufs[slots[i].buf].data|
         && slots[i].vlen <= |bufs[slots[i].buf].data| - slots[i].index
  }

  ghost predicate CmdOk<T>(bufs: Table<T>, b: Buf<T>)
    requires b.CmdBuf?
  {
    Roomy(bufs, b.slots) && exists first: seq<C.Res> :: Origin(b.prog, b.slots, b.source, first)
  }

  ghost predicate CmdsOk<T>(bufs: Table<T>) {
    forall id :: id in bufs && bufs[id].CmdBuf? ==> CmdOk(bufs, bufs[id])
  }

  ghost predicate Inv<T>(bufs: Table<T>) { Typed(bufs) && Conserved(bufs) && CmdsOk(bufs) }

  /** b has the entries of a, possibly with other counts. */
  ghost predicate Recounted<T>(a: Table<T>, b: Table<T>) {
    && a.Keys == b.Keys
    && forall id :: id in a ==> if a[id].DataBuf? then b[id].DataBuf? && b[id].data == a[id].data else b[id] == a[id]
  }

  lemma RecountedUses<T>(a: Table<T>, b: Table<T>, id: int, n: nat)
    requires Recounted(a, b)
    ensures UsesBelow(b, id, n) == UsesBelow(a, id, n)
  {
    UsesSame(a, b, id, n);
  }

  lemma RecountedOk<T>(a: Table<T>, b: Table<T>)
    requires Recounted(a, b) && Typed(a) && CmdsOk(a)
    ensures Typed(b) && CmdsOk(b)
  {
    hide Origin;
    forall id | id in b && b[id].CmdBuf? ensures CmdOk(b, b[id]) {
      assert CmdOk(a, a[id]);
    }
  }

  // ---- Re-binding ----

  /** The check of one slot; 0 when it passes or the slot is not used. */
  function SlotError<T>(bufs: Table<T>, s: Slot, b: Binding): int {
    if s.vlen < 0 then 0
    else if b.buf !in bufs then ENOENT
    else if !bufs[b.buf].DataBuf? then EINVAL
    else if b.index > |bufs[b.buf].data| || |bufs[b.buf].data| - b.index < s.vlen then EINVAL
    else 0
  }

  /** The first failing slot from i on decides. */
  function UpdateError<T>(bufs: Table<T>, slots: seq<Slot>, bs: seq<Binding>, i: nat): int
    requires i <= |slots| == |bs|
    decreases |slots| - i
  {
    if i == |slots| then 0
    else if SlotError(bufs, slots[i], bs[i]) != 0 then SlotError(bufs, slots[i], bs[i])
    else UpdateError(bufs, slots, bs, i + 1)
  }

  lemma {:induction false} UpdateErrorMeans<T>(bufs: Table<T>, slots: seq<Slot>, bs: seq<Binding>, i: nat)
    requires i <= |slots| == |bs|
    ensures UpdateError(bufs, slots, bs, i) == 0 <==> forall k :: i <= k < |slots| ==> SlotError(bufs, slots[k], bs[k]) == 0
    decreases |slots| - i
  {
    if i < |slots| {
      UpdateErrorMeans(bufs, slots, bs, i + 1);
    }
  }

  /** A used slot can take a binding: it names a data buffer with room for the recorded length. */
  predicate Takes<T>(bufs: Table<T>, s: Slot, b: Binding) {
    s.vlen >= 0 ==> b.buf in bufs && bufs[b.buf].DataBuf? && b.index + s.vlen <= |bufs[b.buf].data|
  }

  /** Which error an update reports for slot k: the binding names nothing, or nothing that fits. */
  predicate RefusedAt<T>(bufs: Table<T>, slots: seq<Slot>, bs: seq<Binding>, k: nat, err: int)
    requires |slots| == |bs|
  {
    && k < |slots| && !Takes(bufs, slots[k], bs[k]) && (forall j :: 0 <= j < k ==> Takes(bufs, slots[j], bs[j]))
    && err == if bs[k].buf in bufs then 22 else 2
  }

  /** An update is accepted exactly when every used slot can take its binding; the first that cannot decides the error. */
  lemma {:induction false} UpdateAccepted<T>(bufs: Table<T>, slots: seq<Slot>, bs: seq<Binding>, i: nat)
    requires i <= |slots| == |bs| && forall k :: 0 <= k < i ==> Takes(bufs, slots[k], bs[k])
    ensures UpdateError(bufs, slots, bs, i) == 0 <==> forall k :: 0 <= k < |slots| ==> Takes(bufs, slots[k], bs[k])
    ensures UpdateError(bufs, slots, bs, i) != 0 ==> exists k :: RefusedAt(bufs, slots, bs, k, UpdateError(bufs, slots, bs, i))
    decreases |slots| - i
  {
    if i < |slots| {
      if Takes(bufs, slots[i], bs[i]) {
        UpdateAccepted(bufs, slots, bs, i + 1);
      } else {
        assert RefusedAt(bufs, slots, bs, i, UpdateError(bufs, slots, bs, i));
      }
    }
  }

  function ReboundSlot(s: Slot, b: Binding): Slot { if s.vlen < 0 then s else s.(buf := b.buf, index := b.index) }

  /** Used slots take the new bindings, unused ones keep theirs. */
  function Rebound(slots: seq<Slot>, bs: seq<Binding>): (r: seq<Slot>)
    requires |slots| == |bs|
    ensures |r| == |slots|
  {
    seq(|slots|, i requires 0 <= i < |slots| => ReboundSlot(slots[i], bs[i]))
  }

  function AddCount<T>(b: Buf<T>, m: int): Buf<T>
    requires b.DataBuf? && b.count + m >= 0
  {
    b.(count := b.count + m)
  }

  /** Entries of a table during or after an update of command buffer c. */
  ghost predicate Updated<T>(a: Table<T>, b: Table<T>, c: int, slots: seq<Slot>) {
    && a.Keys == b.Keys && c in a && a[c].CmdBuf? && b[c] == a[c].(slots := slots)
    && forall id :: id in a && id != c ==> if a[id].DataBuf? then b[id].DataBuf? && b[id].data == a[id].data else b[id] == a[id]
  }

  lemma UpdatedTyped<T>(a: Table<T>, b: Table<T>, c: int, slots: seq<Slot>)
    requires Updated(a, b, c, slots) && Typed(a) && SlotsTyped(a, slots)
    ensures Typed(b)
  {
  }

  /** A data buffer in use has a positive count. */
  lemma UsedCount<T>(bufs: Table<T>, c: int, i: nat)
    requires Typed(bufs) && Conserved(bufs) && c in bufs && bufs[c].CmdBuf? && i < |bufs[c].slots|
    ensures var x := bufs[c].slots[i].buf; x in bufs && bufs[x].DataBuf? && bufs[x].count > 0
  {
    var x := bufs[c].slots[i].buf;
    UsesIn(bufs[c].slots, i);
    UsesBound(bufs, c, x, MAX_BUFFERS);
  }

  /** Moving slot i of command buffer c from one data buffer to another keeps conservation. */
  lemma SlotMoved<T>(a: Table<T>, b: Table<T>, c: int, i: nat, s: Slot)
    requires Typed(a) && Conserved(a) && c in a && a[c].CmdBuf? && i < |a[c].slots|
    requires Updated(a, b, c, a[c].slots[i := s])
    requires forall id :: id in a && a[id].DataBuf? ==>
               b[id].count + One(a[c].slots[i].buf, id) == a[id].count + One(s.buf, id)
    ensures Conserved(b)
  {
    hide Uses;
    forall id | id in b && b[id].DataBuf? ensures b[id].count == Refs(b, id) {
      UsesChange(a, b, c, id, MAX_BUFFERS);
      UsesSet(a[c].slots, i, s, id);
    }
  }

  lemma NotUsed(slots: seq<Slot>, id: int)
    requires forall i :: 0 <= i < |slots| ==> slots[i].buf != id
    ensures Uses(slots, id) == 0
  {
    assert id !in SlotIds(slots);
  }

  lemma {:induction false} Unnamed<T>(bufs: Table<T>, id: int, n: nat)
    requires Typed(bufs) && (id !in bufs || !bufs[id].DataBuf?)
    ensures UsesBelow(bufs, id, n) == 0
    decreases n
  {
    if n > 0 {
      Unnamed(bufs, id, n - 1);
      if n - 1 in bufs && bufs[n - 1].CmdBuf? {
        NotUsed(bufs[n - 1].slots, id);
      }
    }
  }

  /** A fresh entry that is not a command buffer changes no reference. */
  lemma AddedConserved<T>(a: Table<T>, c: int, x: Buf<T>)
    requires Typed(a) && Conserved(a) && c !in a && 0 <= c < MAX_BUFFERS && (x.Freed? || (x.DataBuf? && x.count == 0))
    ensures Typed(a[c := x]) && Conserved(a[c := x])
  {
    hide Uses;
    var b := a[c := x];
    forall id | id in b && b[id].DataBuf? ensures b[id].count == Refs(b, id) {
      UsesChange(a, b, c, id, MAX_BUFFERS);
      if id == c {
        Unnamed(a, c, MAX_BUFFERS);
      }
    }
  }

  lemma AddedOk<T>(a: Table<T>, c: int, x: Buf<T>)
    requires Typed(a) && CmdsOk(a) && c !in a && !x.CmdBuf?
    ensures CmdsOk(a[c := x])
  {
    hide Origin;
    var b := a[c := x];
    forall id | id in b && b[id].CmdBuf? ensures CmdOk(b, b[id]) {
      assert CmdOk(a, a[id]);
    }
  }

  function Without<T>(bufs: Table<T>, c: int): Table<T> { map id | id in bufs && id != c :: bufs[id] }

  /** Removing an entry no slot names. */
  lemma RemovedOk<T>(a: Table<T>, c: int)
    requires Typed(a) && CmdsOk(a) && c in a && (a[c].DataBuf? ==> Refs(a, c) == 0)
    ensures Typed(Without(a, c)) && CmdsOk(Without(a, c))
  {
    hide Origin;
    var b := Without(a, c);
    forall id | id in b && b[id].CmdBuf? ensures SlotsTyped(b, b[id].slots) && CmdOk(b, b[id]) {
      assert CmdOk(a, a[id]);
      forall i | 0 <= i < |a[id].slots| ensures a[id].slots[i].buf != c {
        UsesIn(a[id].slots, i);
        UsesBound(a, id, a[id].slots[i].buf, MAX_BUFFERS);
      }
    }
  }

  lemma RemovedUses<T>(a: Table<T>, c: int, id: int)
    requires Typed(a) && c in a
    ensures Refs(Without(a, c), id) + EntryUses(a[c], id) == Refs(a, id)
  {
    hide Uses;
    UsesChange(a, Without(a, c), c, id, MAX_BUFFERS);
  }

  /** Counts are off by the given number of pending unbindings of a command buffer's first i slots. */
  ghost predicate CountsLess<T>(bufs: Table<T>, slots: seq<Slot>, i: nat)
    requires i <= |slots|
  {
    forall id :: id in bufs && bufs[id].DataBuf? ==> bufs[id].count + Uses(slots[..i], id) == Refs(bufs, id)
  }

  lemma CountsNone<T>(bufs: Table<T>, slots: seq<Slot>)
    requires Conserved(bufs)
    ensures CountsLess(bufs, slots, 0)
  {
    forall id | id in bufs && bufs[id].DataBuf? ensures bufs[id].count + Uses(slots[..0], id) == Refs(bufs, id) {
      assert slots[..0] == [];
      NoUses(id);
    }
  }

  lemma CountsNext<T>(a: Table<T>, b: Table<T>, slots: seq<Slot>, i: nat)
    requires i < |slots| && CountsLess(a, slots, i) && slots[i].buf in a && a[slots[i].buf].DataBuf? && a[slots[i].buf].count > 0
    requires b == a[slots[i].buf := AddCount(a[slots[i].buf], -1)]
    ensures CountsLess(b, slots, i + 1) && Recounted(a, b)
  {
    hide Uses, Refs;
    forall id | id in b && b[id].DataBuf? ensures b[id].count + Uses(slots[..i + 1], id) == Refs(b, id) {
      UsesPrefix(slots, i, id);
      RecountedRefs(a, b, id);
    }
  }

  lemma RecountedRefs<T>(a: Table<T>, b: Table<T>, id: int)
    requires Recounted(a, b)
    ensures Refs(b, id) == Refs(a, id)
  {
    RecountedUses(a, b, id, MAX_BUFFERS);
  }

  /** The next unbinding finds a positive count. */
  lemma StillCounted<T>(bufs: Table<T>, c: int, i: nat)
    requires Typed(bufs) && c in bufs && bufs[c].CmdBuf? && i < |bufs[c].slots| && CountsLess(bufs, bufs[c].slots, i)
    ensures var x := bufs[c].slots[i].buf; x in bufs && bufs[x].DataBuf? && bufs[x].count > 0
  {
    hide Uses;
    var x := bufs[c].slots[i].buf;
    UsesBound(bufs, c, x, MAX_BUFFERS);
    UsesPrefix(bufs[c].slots, i, x);
    AllUses(bufs[c].slots, x, i + 1);
  }

  /** The first n bindings name data buffers. */
  predicate NamesData<T>(bufs: Table<T>, bs: seq<Binding>, n: nat)
    requires n <= |bs|
  {
    forall i :: 0 <= i < n ==> bs[i].buf in bufs && bufs[bs[i].buf].DataBuf?
  }

  function BindingRes<T>(bufs: Table<T>, bs: seq<Binding>): (res: seq<C.Res>)
    requires NamesData(bufs, bs, |bs|)
    ensures |res| == |bs|
  {
    seq(|bs|, i requires 0 <= i < |bs| => C.Res(|bufs[bs[i].buf].data|, bs[i].index, i))
  }

  function CheckedSlots(bs: seq<Binding>, st: C.State): (r: seq<Slot>)
    requires |st.vlens| == |st.cmdpcs| == |bs|
    ensures |r| == |bs|
  {
    seq(|bs|, i requires 0 <= i < |bs| => Slot(bs[i].buf, bs[i].index, st.vlens[i], st.cmdpcs[i]))
  }

  /** The entry a successful creation makes; nothing else changes but counts. */
  ghost predicate Created<T>(a: Table<T>, b: Table<T>, id: int, program: seq<Word>, bs: seq<Binding>) {
    && NamesData(a, bs, |bs|) && id !in a && b.Keys == a.Keys + {id}
    && var r := C.Check(program, BindingRes(a, bs));
       && r.Some? && b[id] == CmdBuf(r.value.out + [C.SYNC_STOP], CheckedSlots(bs, r.value), program)
       && forall k :: k in a ==> if a[k].DataBuf? then b[k].DataBuf? && b[k].data == a[k].data else b[k] == a[k]
  }

  /** Bindings of slots i.. are still to be counted. */
  ghost predicate CountsMore<T>(bufs: Table<T>, slots: seq<Slot>, i: nat)
    requires i <= |slots|
  {
    forall id :: id in bufs && bufs[id].DataBuf? ==> bufs[id].count + Uses(slots, id) == Refs(bufs, id) + Uses(slots[..i], id)
  }

  lemma MoreNext<T>(a: Table<T>, b: Table<T>, slots: seq<Slot>, i: nat)
    requires i < |slots| && CountsMore(a, slots, i) && slots[i].buf in a && a[slots[i].buf].DataBuf?
    requires b == a[slots[i].buf := AddCount(a[slots[i].buf], 1)]
    ensures CountsMore(b, slots, i + 1) && Recounted(a, b)
  {
    hide Uses, Refs;
    forall id | id in b && b[id].DataBuf? ensures b[id].count + Uses(slots, id) == Refs(b, id) + Uses(slots[..i + 1], id) {
      UsesPrefix(slots, i, id);
      RecountedRefs(a, b, id);
    }
  }

  lemma MoreAll<T>(bufs: Table<T>, slots: seq<Slot>)
    requires CountsMore(bufs, slots, |slots|)
    ensures Conserved(bufs)
  {
    assert slots[..|slots|] == slots;
  }

  /** A checked program's recorded lengths fit: it was accepted. */
  lemma AcceptedRoomy<T>(bufs: Table<T>, program: seq<Word>, bs: seq<Binding>)
    requires NamesData(bufs, bs, |bs|) && C.Check(program, BindingRes(bufs, bs)).Some?
    ensures Roomy(bufs, CheckedSlots(bs, C.Check(program, BindingRes(bufs, bs)).value))
  {
    hide C.Run, D.Run;
    var res := BindingRes(bufs, bs);
    D.AcceptIff(program, res);
    C.Accepted(program, res);
    var st, d := C.Check(program, res).value, D.Of(program, |res|).value;
    forall i | 0 <= i < |bs| && st.cmdpcs[i] >= 0
      ensures bs[i].index <= |bufs[bs[i].buf].data| && st.vlens[i] <= |bufs[bs[i].buf].data| - bs[i].index
    {
      assert i < st.cur && D.Room(res[i], d.use.need[i]);
    }
  }

  lemma InstalledOk<T>(a: Table<T>, id: int, program: seq<Word>, bs: seq<Binding>, slots: seq<Slot>, prog: seq<Word>)
    requires Inv(a) && 0 <= id < MAX_BUFFERS && id !in a && NamesData(a, bs, |bs|)
    requires
      var r := C.Check(program, BindingRes(a, bs));
      r.Some? && slots == CheckedSlots(bs, r.value) && prog == r.value.out + [C.SYNC_STOP]
    ensures var b := a[id := CmdBuf(prog, slots, program)];
            Typed(b) && CmdsOk(b) && CountsMore(b, slots, 0)
  {
    AcceptedRoomy(a, program, bs);
    var b := a[id := CmdBuf(prog, slots, program)];
    assert Origin(prog, slots, program, BindingRes(a, bs));
    forall k | k in b && b[k].CmdBuf? ensures CmdOk(b, b[k]) {
      if k != id {
        assert CmdOk(a, a[k]);
      }
    }
    hide Uses, Origin, CmdOk;
    assert slots[..0] == [];
    forall x | x in b && b[x].DataBuf? ensures b[x].count + Uses(slots, x) == Refs(b, x) + Uses(slots[..0], x) {
      NoUses(x);
      UsesChange(a, b, id, x, MAX_BUFFERS);
    }
  }

  /** The id an allocation gives: the one freed longest ago, else a new one; -1 when all are taken. */
  function NextId(avail: seq<int>, next: nat): int {
    if avail != [] then avail[0] else if next < MAX_BUFFERS then next else -1
  }

  /** The first binding that cannot be resolved decides; the new entry id is a command buffer itself. */
  function ResolveError<T>(bufs: Table<T>, bs: seq<Binding>, id: int, i: nat): (err: int)
    requires i <= |bs|
    decreases |bs| - i
  {
    if i == |bs| then 0
    else if bs[i].buf == id then EINVAL
    else if bs[i].buf !in bufs then ENOENT
    else if !bufs[bs[i].buf].DataBuf? then EINVAL
    else ResolveError(bufs, bs, id, i + 1)
  }

  lemma {:induction false} ResolveErrorMeans<T>(bufs: Table<T>, bs: seq<Binding>, id: int, i: nat)
    requires i <= |bs| && id !in bufs
    ensures ResolveError(bufs, bs, id, i) == 0 <==>
            forall k :: i <= k < |bs| ==> bs[k].buf in bufs && bufs[bs[k].buf].DataBuf?
    decreases |bs| - i
  {
    if i < |bs| {
      ResolveErrorMeans(bufs, bs, id, i + 1);
    }
  }

  /** Binding k is the first that names no data buffer: what creation reports then. */
  predicate UnresolvedAt<T>(bufs: Table<T>, bs: seq<Binding>, id: int, k: nat, err: int) {
    && k < |bs| && !(bs[k].buf in bufs && bufs[bs[k].buf].DataBuf?)
    && (forall j :: 0 <= j < k ==> bs[j].buf in bufs && bufs[bs[j].buf].DataBuf?)
    && err == if bs[k].buf == id || bs[k].buf in bufs then 22 else 2
  }

  lemma {:induction false} FirstUnresolved<T>(bufs: Table<T>, bs: seq<Binding>, id: int, i: nat)
    requires i <= |bs| && id !in bufs && forall j :: 0 <= j < i ==> bs[j].buf in bufs && bufs[bs[j].buf].DataBuf?
    ensures ResolveError(bufs, bs, id, i) != 0 ==> exists k :: UnresolvedAt(bufs, bs, id, k, ResolveError(bufs, bs, id, i))
    decreases |bs| - i
  {
    if i < |bs| {
      if bs[i].buf in bufs && bufs[bs[i].buf].DataBuf? {
        FirstUnresolved(bufs, bs, id, i + 1);
      } else {
        assert UnresolvedAt(bufs, bs, id, i, ResolveError(bufs, bs, id, i));
      }
    }
  }

  /** Creating a command buffer fails without a trace when there is no id, no memory or no free entry. */
  function EntryError<T>(bufs: Table<T>, id: int, memOk: bool): int {
    if id < 0 then ENOSPC else if !memOk || id in bufs then ENOMEM else 0
  }

  /** After the entry was made: unresolved bindings, then a refused program. */
  function ProgramError<T>(bufs: Table<T>, id: int, program: seq<Word>, bs: seq<Binding>): int
    requires id !in bufs
  {
    ResolveErrorMeans(bufs, bs, id, 0);
    if ResolveError(bufs, bs, id, 0) != 0 then ResolveError(bufs, bs, id, 0)
    else if C.Check(program, BindingRes(bufs, bs)).None? then EINVAL else 0
  }

  /** Every outcome of a creation: 28 without an id, 12 without memory or entry, 2 or 22 for a binding, 22 for the program. */
  lemma CreationErrors<T>(bufs: Table<T>, avail: seq<int>, next: nat, memOk: bool, program: seq<Word>, bs: seq<Binding>)
    requires forall i :: 0 <= i < |avail| ==> avail[i] >= 0
    ensures
      var id := NextId(avail, next);
      && (EntryError(bufs, id, memOk) == 28 <==> avail == [] && next >= 1024)
      && (EntryError(bufs, id, memOk) == 12 <==> !(avail == [] && next >= 1024) && (!memOk || id in bufs))
      && (EntryError(bufs, id, memOk) == 0 <==> !(avail == [] && next >= 1024) && memOk && id !in bufs)
      && (id !in bufs ==>
            var err := ProgramError(bufs, id, program, bs);
            if NamesData(bufs, bs, |bs|) then err == (if C.Check(program, BindingRes(bufs, bs)).Some? then 0 else 22)
            else exists k :: UnresolvedAt(bufs, bs, id, k, err))
  {
    hide C.Check;
    var id := NextId(avail, next);
    if id !in bufs {
      ResolveErrorMeans(bufs, bs, id, 0);
      FirstUnresolved(bufs, bs, id, 0);
      if !NamesData(bufs, bs, |bs|) {
        var k :| UnresolvedAt(bufs, bs, id, k, ResolveError(bufs, bs, id, 0));
        assert UnresolvedAt(bufs, bs, id, k, ProgramError(bufs, id, program, bs));
      }
    }
  }

  /** Bytes of a data buffer: rounded up to whole elements, in 32 bits. */
  function Bytes(size: nat): nat { (size + 3) / 4 * 4 % U32 }

  class EmuContext<T> {
    var bufs: Table<T>
    var avail: seq<int>
    var next: nat

    ghost predicate Valid() reads this {
      && Inv(bufs) && next <= MAX_BUFFERS
      && (forall id :: id in bufs ==> 0 <= id < next)
      && (forall i :: 0 <= i < |avail| ==> 0 <= avail[i] < next)
    }

    constructor ()
      ensures Valid() && bufs == map[]
    {
      bufs, avail, next := map[], [], 0;
      new;
      assert forall id: int :: id in bufs ==> false;
    }

    /** Freed ids come out first, in the order they were freed; then new ones up to the limit. */
    method AllocId() returns (id: int)
      requires Valid()
      modifies this`avail, this`next
      ensures Valid() && bufs == old(bufs) && -1 <= id < next && id < MAX_BUFFERS
      ensures id == NextId(old(avail), old(next))
      ensures old(avail) != [] ==> old(avail) == [id] + avail && next == old(next)
      ensures old(avail) == [] ==> avail == [] && next == if id >= 0 then old(next) + 1 else old(next)
    {
      id := -1;
      if avail != [] {
        id := avail[0];
        avail := avail[1..];
      } else if next < MAX_BUFFERS {
        id := next;
        next := next + 1;
      }
    }

    /** A data buffer for size bytes, rounded up to whole elements; its contents are whatever memory held. */
    method BufferCreate(size: nat, memOk: bool, junk: seq<T>) returns (err: int, id: int)
      requires Valid() && size < U32 && |junk| == (size + 3) / 4
      modifies this
      ensures Valid()
      ensures id == NextId(old(avail), old(next))
      ensures err == if id < 0 then ENOSPC else if Bytes(size) == 0 || !memOk || id in old(bufs) then ENOMEM else 0
      ensures err != 0 ==> bufs == old(bufs)
      ensures err == 0 ==> bufs == old(bufs)[id := DataBuf(junk, 0)] && Bytes(size) == 4 * |junk|
      ensures id >= 0 && old(avail) != [] ==> avail == old(avail)[1..] + if err == 0 then [] else [id]
      ensures id >= 0 && old(avail) == [] ==> avail == if err == 0 then [] else [id]
    {
      id := AllocId();
      if id < 0 { return ENOSPC, id; }
      if Bytes(size) == 0 || !memOk || id in bufs {
        avail := avail + [id];
        return ENOMEM, id;
      }
      AddedConserved(bufs, id, DataBuf(junk, 0));
      AddedOk(bufs, id, DataBuf(junk, 0));
      bufs := bufs[id := DataBuf(junk, 0)];
      err := 0;
    }

    /** Remove an unlocked buffer; a command buffer gives up its bindings. */
    method BufferDestroy(id: int) returns (err: int)
      requires Valid() && (id in bufs ==> !bufs[id].Freed?)
      modifies this
      ensures Valid()
      ensures err == (if id !in old(bufs) then ENOENT
                      else if old(bufs)[id].DataBuf? && old(bufs)[id].count != 0 then EPERM else 0)
      ensures err != 0 ==> bufs == old(bufs)
      ensures err == 0 ==> Recounted(Without(old(bufs), id), bufs)
      ensures avail == old(avail) + (if err == 0 then [id] else []) && next == old(next)
    {
      if id !in bufs { return ENOENT; }
      if bufs[id].DataBuf? && bufs[id].count != 0 { return EPERM; }
      if bufs[id].CmdBuf? {
        UnbindSlots(id);
      } else {
        RemoveEntry(id);
      }
      avail := avail + [id];
      err := 0;
    }

    /** An unbound data buffer leaves the table. */
    method RemoveEntry(id: int)
      requires Valid() && id in bufs && bufs[id].DataBuf? && bufs[id].count == 0
      modifies this`bufs
      ensures Valid() && bufs == Without(old(bufs), id)
    {
      hide Uses, UsesBelow;
      RemovedOk(bufs, id);
      forall x: int { RemovedUses(bufs, id, x); }
      bufs := Without(bufs, id);
    }

    /** A command buffer's bindings are counted down, then it leaves the table. */
    method UnbindSlots(id: int)
      requires Valid() && id in bufs && bufs[id].CmdBuf?
      modifies this`bufs
      ensures Valid() && Recounted(Without(old(bufs), id), bufs)
    {
      hide Origin, Uses, Refs, UsesBelow, Conserved, CmdOk, Typed, CountsLess;
      ghost var was, slots := bufs, bufs[id].slots;
      CountsNone(bufs, slots);
      var i := 0;
      while i < |bufs[id].slots|
        invariant 0 <= i <= |slots| && Recounted(was, bufs) && Typed(bufs) && CmdsOk(bufs)
        invariant CountsLess(bufs, slots, i)
      {
        ghost var mid := bufs;
        StillCounted(bufs, id, i);
        var x := bufs[id].slots[i].buf;
        bufs := bufs[x := AddCount(bufs[x], -1)];
        CountsNext(mid, bufs, slots, i);
        RecountedOk(mid, bufs);
        i := i + 1;
      }
      UnboundRemoved(bufs, id);
      RemovedOk(bufs, id);
      bufs := Without(bufs, id);
    }

    /**
     Create a command buffer: take an id, resolve the bindings, check and patch the program,
     bind.  A failure after the entry was made leaves a pointer to a deleted object behind.
     The byte size of the program is computed in 32 bits; a longer program would be copied
     past the end of its allocation.
     */
    method CmdBufferCreate(program: seq<Word>, bs: seq<Binding>, memOk: bool) returns (err: int, id: int)
      requires Valid() && 8 * (|program| + 1) < U32
      requires forall i :: 0 <= i < |bs| && bs[i].buf in bufs ==> !bufs[bs[i].buf].Freed?
      modifies this
      ensures Valid()
      ensures id == NextId(old(avail), old(next))
      ensures
        if EntryError(old(bufs), id, memOk) != 0 then err == EntryError(old(bufs), id, memOk) && bufs == old(bufs)
        else
          && err == ProgramError(old(bufs), id, program, bs)
          && if err != 0 then bufs == old(bufs)[id := Freed] else Created(old(bufs), bufs, id, program, bs)
      ensures id >= 0 && old(avail) != [] ==> avail == old(avail)[1..] + if err == 0 then [] else [id]
      ensures id >= 0 && old(avail) == [] ==> avail == if err == 0 then [] else [id]
    {
      hide Origin, Uses, Refs, UsesBelow, Conserved, CmdOk, Typed;
      id := AllocId();
      if id < 0 { return ENOSPC, id; }
      if !memOk || id in bufs {
        avail := avail + [id];
        return ENOMEM, id;
      }
      ResolveErrorMeans(bufs, bs, id, 0);
      err := ResolveAll(bs, id);
      if err == 0 {
        var slots, prog := [], [];
        err, slots, prog := Assemble(program, bs);
        if err == 0 {
          BindSlots(id, program, bs, slots, prog);
        }
      }
      if err != 0 {
        AddedConserved(bufs, id, Freed);
        AddedOk(bufs, id, Freed);
        bufs := bufs[id := Freed];
        avail := avail + [id];
      }
    }

    /** Look the bindings up; the new entry itself is a command buffer. */
    method ResolveAll(bs: seq<Binding>, id: int) returns (err: int)
      requires id !in bufs
      ensures err == ResolveError(bufs, bs, id, 0)
    {
      var i := 0;
      while i < |bs|
        invariant 0 <= i <= |bs| && ResolveError(bufs, bs, id, 0) == ResolveError(bufs, bs, id, i)
      {
        if bs[i].buf == id { return EINVAL; }
        if bs[i].buf !in bufs { return ENOENT; }
        if !bufs[bs[i].buf].DataBuf? { return EINVAL; }
        i := i + 1;
      }
      err := 0;
    }

    /** Run the program checker and take its results over into the slots. */
    method Assemble(program: seq<Word>, bs: seq<Binding>) returns (err: int, slots: seq<Slot>, prog: seq<Word>)
      requires NamesData(bufs, bs, |bs|)
      ensures var r := C.Check(program, BindingRes(bufs, bs));
              if r.None? then err == EINVAL
              else err == 0 && slots == CheckedSlots(bs, r.value) && prog == r.value.out + [C.SYNC_STOP]
    {
      var a := new Assembler.ProgramAssembler(program, BindingRes(bufs, bs));
      err := a.PrepareProg();
      slots, prog := [], [];
      if err == 0 {
        ghost var st := C.Check(program, BindingRes(bufs, bs)).value;
        var i := 0;
        while i < |bs|
          invariant 0 <= i <= |bs| && slots == CheckedSlots(bs, st)[..i]
        {
          slots := slots + [Slot(bs[i].buf, bs[i].index, a.vlens[i], a.cmdpcs[i])];
          i := i + 1;
        }
        assert CheckedSlots(bs, st)[..i] == CheckedSlots(bs, st);
        prog := a.prog[..];
        assert prog == a.prog[..a.prog.Length - 1] + [a.prog[a.prog.Length - 1]];
      }
    }

    /** Install the checked program and count its bindings. */
    method BindSlots(id: int, program: seq<Word>, bs: seq<Binding>, slots: seq<Slot>, prog: seq<Word>)
      requires Valid() && 0 <= id < next && id !in bufs && NamesData(bufs, bs, |bs|)
      requires
        var r := C.Check(program, BindingRes(bufs, bs));
        r.Some? && slots == CheckedSlots(bs, r.value) && prog == r.value.out + [C.SYNC_STOP]
      modifies this`bufs
      ensures Valid() && Created(old(bufs), bufs, id, program, bs)
    {
      hide Origin, Uses, Refs, UsesBelow, Conserved, CmdOk, Typed, CountsLess, CountsMore;
      ghost var was := bufs;
      bufs := bufs[id := CmdBuf(prog, slots, program)];
      ghost var full := bufs;
      InstalledOk(was, id, program, bs, slots, prog);
      var i := 0;
      while i < |slots|
        invariant 0 <= i <= |slots| && Recounted(full, bufs) && Typed(bufs) && CmdsOk(bufs)
        invariant CountsMore(bufs, slots, i)
      {
        ghost var mid := bufs;
        bufs := bufs[slots[i].buf := AddCount(bufs[slots[i].buf], 1)];
        MoreNext(mid, bufs, slots, i);
        RecountedOk(mid, bufs);
        i := i + 1;
      }
      MoreAll(bufs, slots);
    }

    /** Re-bind a command buffer: verify every used slot first, then swap. */
    method CmdBufferUpdate(id: int, bs: seq<Binding>) returns (err: int)
      requires Valid()
      requires id in bufs ==> !bufs[id].Freed?
      requires forall i :: 0 <= i < |bs| && bs[i].buf in bufs ==> !bufs[bs[i].buf].Freed?
      modifies this
      ensures Valid()
      ensures err == (if id !in old(bufs) then ENOENT
                      else if !old(bufs)[id].CmdBuf? || |old(bufs)[id].slots| != |bs| then EINVAL
                      else UpdateError(old(bufs), old(bufs)[id].slots, bs, 0))
      ensures err == 0 <==>
                && id in old(bufs) && old(bufs)[id].CmdBuf? && |old(bufs)[id].slots| == |bs|
                && forall k :: 0 <= k < |bs| ==> Takes(old(bufs), old(bufs)[id].slots[k], bs[k])
      ensures err != 0 ==> bufs == old(bufs)
      ensures err == 0 ==> Updated(old(bufs), bufs, id, Rebound(old(bufs)[id].slots, bs))
    {
      if id !in bufs { return ENOENT; }
      if !bufs[id].CmdBuf? { return EINVAL; }
      if |bufs[id].slots| != |bs| { return EINVAL; }
      ghost var was, slots := bufs, bufs[id].slots;
      UpdateAccepted(was, slots, bs, 0);
      var i := 0;
      while i < |bufs[id].slots|
        invariant 0 <= i <= |slots| && bufs == was && Valid()
        invariant UpdateError(was, slots, bs, 0) == UpdateError(was, slots, bs, i)
      {
        if bufs[id].slots[i].vlen >= 0 {
          if bs[i].buf !in bufs { return ENOENT; }
          if !bufs[bs[i].buf].DataBuf? { return EINVAL; }
          var blen := |bufs[bs[i].buf].data|;
          if bs[i].index > blen { return EINVAL; }
          if blen - bs[i].index < bufs[id].slots[i].vlen { return EINVAL; }
        }
        i := i + 1;
      }
      UpdateErrorMeans(was, slots, bs, 0);
      SwapSlots(id, bs);
      err := 0;
    }

    /** One used slot: unbind the old buffer, bind the new one. */
    method SwapSlot(id: int, i: nat, b: Binding)
      requires Typed(bufs) && Conserved(bufs) && id in bufs && bufs[id].CmdBuf? && i < |bufs[id].slots|
      requires b.buf in bufs && bufs[b.buf].DataBuf?
      modifies this`bufs
      ensures Typed(bufs) && Conserved(bufs)
      ensures var slots := old(bufs)[id].slots;
              Updated(old(bufs), bufs, id, slots[i := slots[i].(buf := b.buf, index := b.index)])
    {
      hide Uses, Refs, UsesBelow, Typed, Conserved, SlotsTyped;
      ghost var was, slots := bufs, bufs[id].slots;
      UsedCount(bufs, id, i);
      var s := bufs[id].slots[i];
      bufs := bufs[s.buf := AddCount(bufs[s.buf], -1)];
      bufs := bufs[b.buf := AddCount(bufs[b.buf], 1)];
      bufs := bufs[id := bufs[id].(slots := bufs[id].slots[i := s.(buf := b.buf, index := b.index)])];
      SlotMoved(was, bufs, id, i, s.(buf := b.buf, index := b.index));
      SlotTyped(was, id, i, s.(buf := b.buf, index := b.index));
      UpdatedTyped(was, bufs, id, bufs[id].slots);
    }

    /** The swap loop over all used slots. */
    method SwapSlots(id: int, bs: seq<Binding>)
      requires Valid() && id in bufs && bufs[id].CmdBuf? && |bufs[id].slots| == |bs|
      requires forall k :: 0 <= k < |bs| ==> SlotError(bufs, bufs[id].slots[k], bs[k]) == 0
      modifies this`bufs
      ensures Valid() && Updated(old(bufs), bufs, id, Rebound(old(bufs)[id].slots, bs))
    {
      hide Origin, Uses, Refs, UsesBelow, Typed, Conserved, CmdOk, Mix;
      ghost var was, slots := bufs, bufs[id].slots;
      ghost var goal := Rebound(slots, bs);
      MixEnds(goal, slots);
      var i := 0;
      while i < |bufs[id].slots|
        invariant 0 <= i <= |slots|
        invariant Updated(was, bufs, id, Mix(goal, slots, i))
        invariant Typed(bufs) && Conserved(bufs)
      {
        ghost var mid := bufs;
        MixNext(goal, slots, i);
        if bufs[id].slots[i].vlen >= 0 {
          assert SlotError(was, slots[i], bs[i]) == 0;
          SwapSlot(id, i, bs[i]);
          UpdatedChain(was, mid, bufs, id, Mix(goal, slots, i), Mix(goal, slots, i + 1));
        }
        i := i + 1;
      }
      UpdatedOk(was, bufs, id, bs);
    }
  }

  /** The first i slots are swapped. */
  function Mix(goal: seq<Slot>, slots: seq<Slot>, i: nat): (r: seq<Slot>)
    requires i <= |goal| == |slots|
    ensures |r| == |slots|
  {
    goal[..i] + slots[i..]
  }

  lemma MixEnds(goal: seq<Slot>, slots: seq<Slot>)
    requires |goal| == |slots|
    ensures Mix(goal, slots, 0) == slots && Mix(goal, slots, |slots|) == goal
  {
  }

  lemma MixNext(goal: seq<Slot>, slots: seq<Slot>, i: nat)
    requires i < |goal| == |slots|
    ensures Mix(goal, slots, i)[i] == slots[i] && Mix(goal, slots, i + 1) == Mix(goal, slots, i)[i := goal[i]]
    ensures goal[i] == slots[i] ==> Mix(goal, slots, i + 1) == Mix(goal, slots, i)
  {
  }

  lemma UnboundRemoved<T>(bufs: Table<T>, c: int)
    requires Typed(bufs) && c in bufs && bufs[c].CmdBuf? && CountsLess(bufs, bufs[c].slots, |bufs[c].slots|)
    ensures Conserved(Without(bufs, c))
  {
    hide Uses, Refs;
    assert bufs[c].slots[..|bufs[c].slots|] == bufs[c].slots;
    var b := Without(bufs, c);
    forall id | id in b && b[id].DataBuf? ensures b[id].count == Refs(b, id) {
      RemovedUses(bufs, c, id);
    }
  }

  lemma SlotTyped<T>(bufs: Table<T>, c: int, i: nat, s: Slot)
    requires Typed(bufs) && c in bufs && bufs[c].CmdBuf? && i < |bufs[c].slots| && s.buf in bufs && bufs[s.buf].DataBuf?
    ensures SlotsTyped(bufs, bufs[c].slots[i := s])
  {
  }

  lemma UpdatedChain<T>(a: Table<T>, m: Table<T>, b: Table<T>, c: int, s1: seq<Slot>, s2: seq<Slot>)
    requires Updated(a, m, c, s1) && Updated(m, b, c, s2)
    ensures Updated(a, b, c, s2)
  {
  }

  /** After an update every command buffer still keeps its promises. */
  lemma UpdatedOk<T>(a: Table<T>, b: Table<T>, c: int, bs: seq<Binding>)
    requires Typed(a) && CmdsOk(a) && c in a && a[c].CmdBuf? && |a[c].slots| == |bs|
    requires Updated(a, b, c, Rebound(a[c].slots, bs))
    requires forall k :: 0 <= k < |bs| ==> SlotError(a, a[c].slots[k], bs[k]) == 0
    ensures CmdsOk(b)
  {
    forall id | id in b && b[id].CmdBuf? ensures CmdOk(b, b[id]) {
      assert CmdOk(a, a[id]);
      if id == c {
        var first: seq<C.Res> :| Origin(a[c].prog, a[c].slots, a[c].source, first);
        assert Origin(b[c].prog, b[c].slots, b[c].source, first);
        assert Roomy(a, a[c].slots);
        forall k | 0 <= k < |bs|
          ensures var s := b[c].slots[k];
                  && s.buf in b && b[s.buf].DataBuf?
                  && (s.cmdpc >= 0 ==> s.index <= |b[s.buf].data| && s.vlen <= |b[s.buf].data| - s.index)
        {
          assert SlotError(a, a[c].slots[k], bs[k]) == 0;
        }
      }
    }
  }

  // ---- Created, updated and run ----

  /** The slots seen as bindings resolve to the buffers' memory. */
  lemma BindingsBound<T>(bufs: Table<T>, slots: seq<Slot>)
    requires SlotsTyped(bufs, slots) && |slots| <= U32
    ensures Bound(Bindings(slots), MemOf(bufs)) && Resources(Bindings(slots), MemOf(bufs)) == SlotRes(bufs, slots)
  {
  }

  lemma SameAddrs(a: seq<C.Res>, b: seq<C.Res>)
    requires |a| == |b| && forall i :: 0 <= i < |a| ==> a[i].addr == b[i].addr
    ensures KP.Addrs(a) == KP.Addrs(b)
  {
  }

  /** Consumed resources with room for the greatest need make the program acceptable. */
  lemma RoomyAccepts<T>(bufs: Table<T>, b: Buf<T>)
    requires b.CmdBuf? && CmdOk(bufs, b) && KP.SingleLength(b.source, |b.slots|)
    ensures C.Check(b.source, SlotRes(bufs, b.slots)).Some?
  {
    hide C.Run, D.Run;
    var first: seq<C.Res> :| Origin(b.prog, b.slots, b.source, first);
    var res, n := SlotRes(bufs, b.slots), |b.slots|;
    D.AcceptIff(b.source, first);
    C.Accepted(b.source, first);
    D.AcceptIff(b.source, res);
    var d, st := D.Of(b.source, n).value, C.Check(b.source, first).value;
    forall i | 0 <= i < d.cur ensures D.Room(res[i], d.use.need[i]) {
      assert b.slots[i].cmdpc == st.cmdpcs[i] >= 0 && b.slots[i].vlen == d.use.last[i];
    }
  }

  /**
   Update equals recreation: however often a command buffer was re-bound, if its program
   uses each resource with one length, its words and records are those a fresh creation with
   the present bindings would make.
   */
  lemma SameAsFresh<T>(bufs: Table<T>, b: Buf<T>)
    requires b.CmdBuf? && CmdOk(bufs, b) && KP.SingleLength(b.source, |b.slots|)
    ensures
      var r := C.Check(b.source, SlotRes(bufs, b.slots));
      && r.Some? && b.prog == r.value.out + [C.SYNC_STOP]
      && b.slots == CheckedSlots(Bindings(b.slots), r.value)
  {
    hide C.Run, D.Run, KP.SingleLength;
    RoomyAccepts(bufs, b);
    var first: seq<C.Res> :| Origin(b.prog, b.slots, b.source, first);
    var res := SlotRes(bufs, b.slots);
    KP.SameRecords(b.source, first, res);
    KP.OutIsPatched(C.Init(|first|), b.source, first);
    KP.OutIsPatched(C.Init(|res|), b.source, res);
    SameAddrs(first, res);
    assert Bindings(b.slots) == Bindings(CheckedSlots(Bindings(b.slots), C.Check(b.source, res).value));
  }

  /**
   An update is accepted exactly when creating afresh is: for an entry whose program uses
   single lengths and whose slots are all used, re-binding succeeds if and only if the new
   bindings name data buffers and the program checker accepts the program with them.
   */
  lemma UpdateIffFresh<T>(bufs: Table<T>, b: Buf<T>, bs: seq<Binding>)
    requires b.CmdBuf? && CmdOk(bufs, b) && KP.SingleLength(b.source, |b.slots|) && |bs| == |b.slots|
    requires forall i :: 0 <= i < |b.slots| ==> b.slots[i].vlen >= 0
    ensures
      UpdateError(bufs, b.slots, bs, 0) == 0 <==>
      NamesData(bufs, bs, |bs|) && C.Check(b.source, BindingRes(bufs, bs)).Some?
  {
    hide C.Run, D.Run;
    var first: seq<C.Res> :| Origin(b.prog, b.slots, b.source, first);
    UpdateAccepted(bufs, b.slots, bs, 0);
    D.AcceptIff(b.source, first);
    var d := D.Of(b.source, |bs|).value;
    forall i | 0 <= i < |bs| ensures b.slots[i].vlen == d.use.need[i] && i < d.cur {
      assert d.use.last[i] == b.slots[i].vlen >= 0;
    }
    hide Origin, Roomy, CmdOk;
    if NamesData(bufs, bs, |bs|) {
      var res := BindingRes(bufs, bs);
      D.AcceptIff(b.source, res);
      forall i | 0 <= i < |bs| ensures Takes(bufs, b.slots[i], bs[i]) <==> D.Room(res[i], d.use.need[i]) {
        assert res[i].blen == |bufs[bs[i].buf].data| && res[i].index == bs[i].index;
      }
    }
  }

  /**
   Exactly when running a command buffer of a valid table is defined, whatever thread states
   earlier programs left: when a fresh creation with its present bindings would be accepted.
   */
  lemma RunsIff<T>(A: Arith<T>, mask: nat, bufs: Table<T>, id: int, ts: seq<Thread<T>>)
    requires Inv(bufs) && id in bufs && bufs[id].CmdBuf? && |bufs[id].slots| <= U32 && |ts| == NR_TID && mask % 4 == 3
    ensures
      Run(A, mask, Bindings(bufs[id].slots), Machine(ts, MemOf(bufs)), bufs[id].prog).Some? <==>
      C.Check(bufs[id].source, SlotRes(bufs, bufs[id].slots)).Some?
  {
    hide C.Run, D.Run, Run, Conserved, Typed, KP.PatchedWords;
    var b := bufs[id];
    assert CmdOk(bufs, b);
    var bs, m := Bindings(b.slots), Machine(ts, MemOf(bufs));
    BindingsBound(bufs, b.slots);
    var first: seq<C.Res> :| Origin(b.prog, b.slots, b.source, first);
    var res := SlotRes(bufs, b.slots);
    D.AcceptIff(b.source, first);
    KP.OutIsPatched(C.Init(|first|), b.source, first);
    SameAddrs(first, res);
    var words := KP.PatchedWords(b.source, 0, KP.Addrs(res));
    assert [] + words == words;
    TI.AcceptedIffDefined(A, mask, b.source, bs, m);
    RunAppend(A, mask, bs, m, words, [C.SYNC_STOP]);
    if Run(A, mask, bs, m, words).Some? {
      SyncStopIdles(A, mask, bs, Run(A, mask, bs, m, words).value);
    }
  }

  /**
   In particular a program that uses each resource with one length runs safely, for every VPU
   mask and however often it was re-bound, and leaves all buffers in place.
   */
  lemma RunsSafely<T>(A: Arith<T>, mask: nat, bufs: Table<T>, id: int, ts: seq<Thread<T>>)
    requires Inv(bufs) && id in bufs && bufs[id].CmdBuf? && |bufs[id].slots| <= U32 && |ts| == NR_TID
    requires KP.SingleLength(bufs[id].source, |bufs[id].slots|)
    ensures
      var r := Run(A, mask, Bindings(bufs[id].slots), Machine(ts, MemOf(bufs)), bufs[id].prog);
      r.Some? && SameShape(MemOf(bufs), r.value.mem)
  {
    hide C.Run, Run, KP.SingleLength, Conserved, Typed;
    var b := bufs[id];
    assert CmdOk(bufs, b);
    BindingsBound(bufs, b.slots);
    SameAsFresh(bufs, b);
    CheckerSound(A, mask, b.source, Bindings(b.slots), Machine(ts, MemOf(bufs)));
  }
}
