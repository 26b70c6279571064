/**
 What a checked program does: the sixteen hardware threads and the data buffers.
 */
module Semantics {
  // Element arithmetic stays abstract: every statement holds for any choice of the five
  // operations, in particular for rounding floating point, because the product sum is a
  // fixed left fold.  None stands for undefined behaviour of the source: a null or
  // out-of-range pointer dereference, or a resource number outside the table.

  import opened Isa
  import opened Wrappers

  datatype Arith<!T> = Arith(
    ofBits: nat -> T, add: (T, T) -> T, mul: (T, T) -> T, relu: T -> T, lrelu: (int, T) -> T)

  /** A pointer into a data buffer. */
  datatype Ptr = Null | At(buf: int, idx: nat)

  datatype Thread<T> = Thread(en: bool, acc: T, rs: Ptr, rt: Ptr, rd: Ptr, vlen: nat)

  type Memory<T> = map<int, seq<T>>
  datatype Machine<T> = Machine(ts: seq<Thread<T>>, mem: Memory<T>)

  /** VxeBinding: a data buffer and the index of an element in it. */
  datatype Binding = Binding(buf: int, index: nat)

  /** The mask switches whole VPUs; threads 0..8 belong to VPU 0, the others to VPU 1. */
  predicate Enabled(mask: nat, t: nat) {
    if t < NR_THR then mask % 2 == 1 else mask / 2 % 2 == 1
  }

  predicate Readable<T>(mem: Memory<T>, p: Ptr, n: nat) {
    n == 0 || (p.At? && p.buf in mem && p.idx + n <= |mem[p.buf]|)
  }

  /** Left-to-right product sum starting from an accumulator. */
  function Dot<T>(A: Arith<T>, mem: Memory<T>, acc: T, p: Ptr, q: Ptr, n: nat): T
    requires Readable(mem, p, n) && Readable(mem, q, n)
  {
    if n == 0 then acc
    else A.add(Dot(A, mem, acc, p, q, n - 1),
               A.mul(mem[p.buf][p.idx + n - 1], mem[q.buf][q.idx + n - 1]))
  }

  predicate ProdSafe<T>(mem: Memory<T>, th: Thread<T>) {
    th.en ==> Readable(mem, th.rs, th.vlen) && Readable(mem, th.rt, th.vlen)
  }

  function ProdThread<T>(A: Arith<T>, mem: Memory<T>, th: Thread<T>): Thread<T>
    requires ProdSafe(mem, th)
  {
    if th.en then th.(acc := Dot(A, mem, th.acc, th.rs, th.rt, th.vlen)) else th
  }

  function Act<T>(A: Arith<T>, fn: ActFn, x: T): T {
    match fn
    case Relu => A.relu(x)
    case LRelu(e) => A.lrelu(e, x)
  }

  function ActThread<T>(A: Arith<T>, fn: ActFn, th: Thread<T>): Thread<T> {
    if th.en then th.(acc := Act(A, fn, th.acc)) else th
  }

  predicate Reach(mask: nat, lo: nat, hi: nat, t: nat) { lo <= t < hi && Enabled(mask, t) }

  predicate AllProdSafe<T>(m: Machine<T>, mask: nat, lo: nat, hi: nat) {
    forall t :: 0 <= t < |m.ts| && Reach(mask, lo, hi, t) ==> ProdSafe(m.mem, m.ts[t])
  }

  function ProdAll<T>(A: Arith<T>, m: Machine<T>, mask: nat, lo: nat, hi: nat): (r: Machine<T>)
    requires AllProdSafe(m, mask, lo, hi)
    ensures |r.ts| == |m.ts| && r.mem == m.mem
  {
    m.(ts := seq(|m.ts|, t requires 0 <= t < |m.ts| =>
      if Reach(mask, lo, hi, t) then ProdThread(A, m.mem, m.ts[t]) else m.ts[t]))
  }

  function ActAll<T>(A: Arith<T>, fn: ActFn, m: Machine<T>, mask: nat, lo: nat, hi: nat): (r: Machine<T>)
    ensures |r.ts| == |m.ts| && r.mem == m.mem
  {
    m.(ts := seq(|m.ts|, t requires 0 <= t < |m.ts| =>
      if Reach(mask, lo, hi, t) then ActThread(A, fn, m.ts[t]) else m.ts[t]))
  }

  function Write<T>(mem: Memory<T>, p: Ptr, x: T): (r: Memory<T>)
    requires Readable(mem, p, 1)
    ensures r.Keys == mem.Keys && forall b :: b in mem ==> |r[b]| == |mem[b]|
  {
    mem[p.buf := mem[p.buf][p.idx := x]]
  }

  /** STORE writes accumulators in thread order, so the last writer of an element wins. */
  function StoreAll<T>(ts: seq<Thread<T>>, mem: Memory<T>, mask: nat, lo: nat, hi: nat): Option<Memory<T>>
    requires lo <= hi <= |ts|
    decreases hi - lo
  {
    if lo == hi then Some(mem)
    else if Enabled(mask, lo) && ts[lo].en then
      if !Readable(mem, ts[lo].rd, 1) then None
      else StoreAll(ts, Write(mem, ts[lo].rd, ts[lo].acc), mask, lo + 1, hi)
    else StoreAll(ts, mem, mask, lo + 1, hi)
  }

  function SetPtr<T>(th: Thread<T>, reg: Reg, p: Ptr): Thread<T> {
    match reg
    case Rs => th.(rs := p)
    case Rt => th.(rt := p)
    case Rd => th.(rd := p)
  }

  /** The resource table lookup of SETRx; the address field is cut to 32 bits. */
  predicate Resolves<T>(bs: seq<Binding>, mem: Memory<T>, addr: nat) {
    var ri := addr % U32;
    ri < |bs| && bs[ri].buf in mem && bs[ri].index <= |mem[bs[ri].buf]|
  }

  function Step<T>(A: Arith<T>, mask: nat, bs: seq<Binding>, m: Machine<T>, w: Word): (r: Option<Machine<T>>)
    requires |m.ts| == NR_TID
    ensures r.Some? ==> |r.value.ts| == NR_TID
  {
    match Decode(w)
    case SetAcc(t, bits) =>
      Some(if Enabled(mask, t) then m.(ts := m.ts[t := m.ts[t].(acc := A.ofBits(bits))]) else m)
    case SetVl(t, len) =>
      Some(if Enabled(mask, t) then m.(ts := m.ts[t := m.ts[t].(vlen := len)]) else m)
    case SetEn(t, en) =>
      Some(if Enabled(mask, t) then m.(ts := m.ts[t := m.ts[t].(en := en)]) else m)
    case SetReg(reg, t, addr) =>
      if !Enabled(mask, t) then Some(m)
      else if !Resolves(bs, m.mem, addr) then None
      else
        var b := bs[addr % U32];
        Some(m.(ts := m.ts[t := SetPtr(m.ts[t], reg, At(b.buf, b.index))]))
    case Prod(lo, hi) =>
      if AllProdSafe(m, mask, lo, hi) then Some(ProdAll(A, m, mask, lo, hi)) else None
    case Store(lo, hi) =>
      var mem := StoreAll(m.ts, m.mem, mask, lo, hi);
      if mem.None? then None else Some(m.(mem := mem.value))
    case Actf(lo, hi, fn) => Some(ActAll(A, fn, m, mask, lo, hi))
    case Sync(_, _) => Some(m)
    case Nop => Some(m)
    case Invalid => Some(m)
  }

  function Run<T>(A: Arith<T>, mask: nat, bs: seq<Binding>, m: Machine<T>, ws: seq<Word>): (r: Option<Machine<T>>)
    requires |m.ts| == NR_TID
    ensures r.Some? ==> |r.value.ts| == NR_TID
    decreases |ws|
  {
    if ws == [] then Some(m)
    else
      var s := Step(A, mask, bs, m, ws[0]);
      if s.None? then None else Run(A, mask, bs, s.value, ws[1..])
  }

  lemma {:induction false} RunAppend<T>(A: Arith<T>, mask: nat, bs: seq<Binding>, m: Machine<T>, a: seq<Word>, b: seq<Word>)
    requires |m.ts| == NR_TID
    ensures Run(A, mask, bs, m, a + b) ==
            (var r := Run(A, mask, bs, m, a); if r.None? then None else Run(A, mask, bs, r.value, b))
    decreases |a|
  {
    if a == [] {
      assert a + b == b;
    } else {
      assert (a + b)[0] == a[0] && (a + b)[1..] == a[1..] + b;
      var s := Step(A, mask, bs, m, a[0]);
      if s.Some? {
        RunAppend(A, mask, bs, s.value, a[1..], b);
      }
    }
  }

  lemma RunSnoc<T>(A: Arith<T>, mask: nat, bs: seq<Binding>, m: Machine<T>, ws: seq<Word>, n: nat)
    requires |m.ts| == NR_TID && n < |ws|
    ensures Run(A, mask, bs, m, ws[..n + 1]) ==
            (var r := Run(A, mask, bs, m, ws[..n]); if r.None? then None else Step(A, mask, bs, r.value, ws[n]))
  {
    assert ws[..n + 1] == ws[..n] + [ws[n]];
    RunAppend(A, mask, bs, m, ws[..n], [ws[n]]);
    var r := Run(A, mask, bs, m, ws[..n]);
    if r.Some? && Step(A, mask, bs, r.value, ws[n]).Some? {
      assert [ws[n]][1..] == [];
    }
  }

  lemma RunPrefix<T>(A: Arith<T>, mask: nat, bs: seq<Binding>, m: Machine<T>, ws: seq<Word>, n: nat)
    requires |m.ts| == NR_TID && n <= |ws|
    ensures Run(A, mask, bs, m, ws).Some? ==> Run(A, mask, bs, m, ws[..n]).Some?
  {
    assert ws == ws[..n] + ws[n..];
    RunAppend(A, mask, bs, m, ws[..n], ws[n..]);
  }

  /** Buffers keep their identity and their lengths. */
  ghost predicate SameShape<T>(a: Memory<T>, b: Memory<T>) {
    a.Keys == b.Keys && forall k :: k in a ==> |a[k]| == |b[k]|
  }

  lemma {:induction false} StoreKeepsShape<T>(ts: seq<Thread<T>>, mem: Memory<T>, mask: nat, lo: nat, hi: nat)
    requires lo <= hi <= |ts|
    ensures var r := StoreAll(ts, mem, mask, lo, hi); r.Some? ==> SameShape(mem, r.value)
    decreases hi - lo
  {
    if lo < hi {
      if Enabled(mask, lo) && ts[lo].en {
        if Readable(mem, ts[lo].rd, 1) {
          StoreKeepsShape(ts, Write(mem, ts[lo].rd, ts[lo].acc), mask, lo + 1, hi);
        }
      } else {
        StoreKeepsShape(ts, mem, mask, lo + 1, hi);
      }
    }
  }

  /** STORE of lo..hi is STORE of lo..mid followed by STORE of mid..hi. */
  lemma {:induction false} StoreSplit<T>(ts: seq<Thread<T>>, mem: Memory<T>, mask: nat, lo: nat, mid: nat, hi: nat)
    requires lo <= mid <= hi <= |ts|
    ensures StoreAll(ts, mem, mask, lo, hi) ==
            (var r := StoreAll(ts, mem, mask, lo, mid); if r.None? then None else StoreAll(ts, r.value, mask, mid, hi))
    decreases mid - lo
  {
    if lo < mid {
      if Enabled(mask, lo) && ts[lo].en {
        if Readable(mem, ts[lo].rd, 1) {
          StoreSplit(ts, Write(mem, ts[lo].rd, ts[lo].acc), mask, lo + 1, mid, hi);
        }
      } else {
        StoreSplit(ts, mem, mask, lo + 1, mid, hi);
      }
    }
  }
}
