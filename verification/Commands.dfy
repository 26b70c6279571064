/**
 What each command does to the machine, thread by thread and element by element, without the
 functions the executor is proved against.
 */
module Commands {
  import opened Isa
  import opened Wrappers
  import opened Semantics
  import opened Elements

  /** The VPU of thread t is switched on by the mask, whose bit 0 is VPU 0 and bit 1 VPU 1. */
  predicate On(mask: nat, t: nat) { mask % 4 == 3 || mask % 4 == t / 8 + 1 }

  lemma OnMeans(mask: nat, t: nat)
    requires t < NR_TID
    ensures On(mask, t) <==> Enabled(mask, t)
  {
    var q, b := mask / 4, mask % 4;
    assert mask == 4 * q + b && b < 4;
    DivModUnique(mask, 2, 2 * q + b / 2, b % 2);
    DivModUnique(2 * q + b / 2, 2, q, b / 2);
  }

  /** Thread t takes part in a command for threads lo..hi. */
  predicate Takes<T>(m: Machine<T>, mask: nat, lo: nat, hi: nat, t: nat)
    requires |m.ts| == NR_TID
  {
    lo <= t < hi && t < NR_TID && On(mask, t) && m.ts[t].en
  }

  /** n elements from a pointer lie inside a buffer. */
  predicate Inside<T>(mem: Memory<T>, p: Ptr, n: nat) { n == 0 || (p.At? && p.buf in mem && p.idx + n <= |mem[p.buf]|) }

  function Vector<T>(mem: Memory<T>, p: Ptr, n: nat): (v: seq<T>)
    requires Inside(mem, p, n)
    ensures |v| == n
  {
    if n == 0 then [] else mem[p.buf][p.idx..p.idx + n]
  }

  /**
   PROD is defined if and only if both vectors of every thread taking part lie inside their
   buffers; each such thread adds up its products from its accumulator on, from left to right,
   and nothing else changes.
   */
  lemma ProdMeans<T>(A: Arith<T>, mask: nat, bs: seq<Binding>, m: Machine<T>, w: Word, lo: nat, hi: nat)
    requires |m.ts| == NR_TID && Decode(w) == Prod(lo, hi)
    ensures
      Step(A, mask, bs, m, w).Some? <==>
      forall t :: 0 <= t < NR_TID && Takes(m, mask, lo, hi, t) ==>
        Inside(m.mem, m.ts[t].rs, m.ts[t].vlen) && Inside(m.mem, m.ts[t].rt, m.ts[t].vlen)
    ensures
      Step(A, mask, bs, m, w).Some? ==>
      var r := Step(A, mask, bs, m, w).value;
      && r.mem == m.mem && |r.ts| == NR_TID
      && forall t :: 0 <= t < NR_TID ==>
           if Takes(m, mask, lo, hi, t)
           then exists p: seq<T> ::
             && PartialSums(A, p, m.ts[t].acc, Vector(m.mem, m.ts[t].rs, m.ts[t].vlen), Vector(m.mem, m.ts[t].rt, m.ts[t].vlen))
             && r.ts[t] == m.ts[t].(acc := p[m.ts[t].vlen])
           else r.ts[t] == m.ts[t]
  {
    hide Decode, Vector;
    forall t | 0 <= t < NR_TID ensures On(mask, t) <==> Enabled(mask, t) { OnMeans(mask, t); }
    hide On, Enabled;
    assert Step(A, mask, bs, m, w).Some? <==> AllProdSafe(m, mask, lo, hi);
    if AllProdSafe(m, mask, lo, hi) {
      forall t | 0 <= t < NR_TID && Takes(m, mask, lo, hi, t)
        ensures exists p: seq<T> ::
          && PartialSums(A, p, m.ts[t].acc, Vector(m.mem, m.ts[t].rs, m.ts[t].vlen), Vector(m.mem, m.ts[t].rt, m.ts[t].vlen))
          && Step(A, mask, bs, m, w).value.ts[t] == m.ts[t].(acc := p[m.ts[t].vlen])
      {
        assert Reach(mask, lo, hi, t) && ProdSafe(m.mem, m.ts[t]);
        var p := ThreadSums(A, m.mem, m.ts[t]);
      }
    }
  }

  lemma ThreadSums<T>(A: Arith<T>, mem: Memory<T>, th: Thread<T>) returns (p: seq<T>)
    requires Inside(mem, th.rs, th.vlen) && Inside(mem, th.rt, th.vlen)
    ensures PartialSums(A, p, th.acc, Vector(mem, th.rs, th.vlen), Vector(mem, th.rt, th.vlen))
    ensures |p| == th.vlen + 1 && Dot(A, mem, th.acc, th.rs, th.rt, th.vlen) == p[th.vlen]
  {
    p := SumsExist(A, th.acc, Vector(mem, th.rs, th.vlen), Vector(mem, th.rt, th.vlen));
    if th.vlen > 0 {
      DotIsLastSum(A, mem, th.acc, th.rs, th.rt, th.vlen, p);
    }
  }

  /** ACTF applies the activation to the accumulators of the threads taking part. */
  lemma ActMeans<T>(A: Arith<T>, mask: nat, bs: seq<Binding>, m: Machine<T>, w: Word, lo: nat, hi: nat, fn: ActFn)
    requires |m.ts| == NR_TID && Decode(w) == Actf(lo, hi, fn)
    ensures
      var r := Step(A, mask, bs, m, w);
      && r.Some? && r.value.mem == m.mem && |r.value.ts| == NR_TID
      && forall t :: 0 <= t < NR_TID ==>
           if Takes(m, mask, lo, hi, t)
           then r.value.ts[t] == m.ts[t].(acc := match fn case Relu => A.relu(m.ts[t].acc) case LRelu(e) => A.lrelu(e, m.ts[t].acc))
           else r.value.ts[t] == m.ts[t]
  {
    hide Decode;
    forall t | 0 <= t < NR_TID ensures On(mask, t) <==> Enabled(mask, t) { OnMeans(mask, t); }
    hide On, Enabled;
  }

  /** Thread t's result pointer is element i of buffer b. */
  predicate Points<T>(m: Machine<T>, t: nat, b: int, i: int)
    requires |m.ts| == NR_TID && t < NR_TID
  {
    m.ts[t].rd.At? && m.ts[t].rd.buf == b && m.ts[t].rd.idx == i
  }

  /** No thread after t that takes part stores to element i of buffer b. */
  predicate NoneAfter<T>(m: Machine<T>, mask: nat, lo: nat, hi: nat, t: int, b: int, i: int)
    requires |m.ts| == NR_TID
  {
    forall u :: 0 <= u < NR_TID && t < u && Takes(m, mask, lo, hi, u) ==> !Points(m, u, b, i)
  }

  lemma {:induction false} StoreElement<T>(m: Machine<T>, mem: Memory<T>, mask: nat, lo: nat, at: nat, hi: nat, b: int, i: nat)
    requires |m.ts| == NR_TID && lo <= at <= hi <= NR_TID && b in mem && i < |mem[b]|
    requires forall t :: 0 <= t < NR_TID ==> (On(mask, t) <==> Enabled(mask, t))
    ensures
      StoreAll(m.ts, mem, mask, at, hi).Some? ==>
      var r := StoreAll(m.ts, mem, mask, at, hi).value;
      && b in r && |r[b]| == |mem[b]|
      && (NoneAfter(m, mask, lo, hi, at - 1, b, i) ==> r[b][i] == mem[b][i])
      && forall t :: at <= t < hi && Takes(m, mask, lo, hi, t) && Points(m, t, b, i) && NoneAfter(m, mask, lo, hi, t, b, i) ==>
           r[b][i] == m.ts[t].acc
    decreases hi - at
  {
    hide On, Enabled;
    if at < hi && StoreAll(m.ts, mem, mask, at, hi).Some? {
      if Enabled(mask, at) && m.ts[at].en {
        var next := Write(mem, m.ts[at].rd, m.ts[at].acc);
        StoreElement(m, next, mask, lo, at + 1, hi, b, i);
        assert Takes(m, mask, lo, hi, at);
        assert next[b][i] == if Points(m, at, b, i) then m.ts[at].acc else mem[b][i];
      } else {
        StoreElement(m, mem, mask, lo, at + 1, hi, b, i);
        assert !Takes(m, mask, lo, hi, at);
      }
    }
  }

  /**
   After STORE an element holds the accumulator of the last thread taking part that points to
   it, or what it held before; registers stay.
   */
  lemma StoreMeans<T>(A: Arith<T>, mask: nat, bs: seq<Binding>, m: Machine<T>, w: Word, lo: nat, hi: nat, b: int, i: nat)
    requires |m.ts| == NR_TID && Decode(w) == Store(lo, hi) && b in m.mem && i < |m.mem[b]|
    ensures
      Step(A, mask, bs, m, w).Some? ==>
      var r := Step(A, mask, bs, m, w).value;
      && r.ts == m.ts && b in r.mem && |r.mem[b]| == |m.mem[b]|
      && (NoneAfter(m, mask, lo, hi, -1, b, i) ==> r.mem[b][i] == m.mem[b][i])
      && forall t :: 0 <= t < NR_TID && Takes(m, mask, lo, hi, t) && Points(m, t, b, i) && NoneAfter(m, mask, lo, hi, t, b, i) ==>
           r.mem[b][i] == m.ts[t].acc
  {
    hide Decode, StoreAll, Takes;
    forall t | 0 <= t < NR_TID ensures On(mask, t) <==> Enabled(mask, t) { OnMeans(mask, t); }
    hide On, Enabled;
    assert lo <= hi <= NR_TID by { Bounds(w, lo, hi); }
    StoreElement(m, m.mem, mask, lo, lo, hi, b, i);
    Below(m, mask, lo, hi, b, i);
  }

  lemma Bounds(w: Word, lo: nat, hi: nat)
    requires Decode(w) == Store(lo, hi)
    ensures lo <= hi <= NR_TID
  {
  }

  lemma Below<T>(m: Machine<T>, mask: nat, lo: nat, hi: nat, b: int, i: int)
    requires |m.ts| == NR_TID
    ensures NoneAfter(m, mask, lo, hi, -1, b, i) ==> NoneAfter(m, mask, lo, hi, lo - 1, b, i)
    ensures forall t :: 0 <= t < NR_TID && Takes(m, mask, lo, hi, t) ==> lo <= t < hi
  {
  }

  /** Setting one thread: only that thread, and only when its VPU is on. */
  lemma SetMeans<T>(A: Arith<T>, mask: nat, bs: seq<Binding>, m: Machine<T>, w: Word)
    requires |m.ts| == NR_TID
    ensures
      var c, r := Decode(w), Step(A, mask, bs, m, w);
      && (c.SetAcc? ==> c.t < NR_TID && r == Some(if On(mask, c.t) then m.(ts := m.ts[c.t := m.ts[c.t].(acc := A.ofBits(c.bits))]) else m))
      && (c.SetVl? ==> c.t < NR_TID && r == Some(if On(mask, c.t) then m.(ts := m.ts[c.t := m.ts[c.t].(vlen := c.len)]) else m))
      && (c.SetEn? ==> c.t < NR_TID && r == Some(if On(mask, c.t) then m.(ts := m.ts[c.t := m.ts[c.t].(en := c.en)]) else m))
      && (c.Sync? || c.Nop? || c.Invalid? ==> r == Some(m))
  {
    var c := Decode(w);
    hide Decode;
    if c.SetAcc? || c.SetVl? || c.SetEn? {
      OnMeans(mask, c.t);
    }
    hide On, Enabled;
  }

  /** The thread's registers that a SETRx command leaves alone keep their pointers. */
  ghost predicate OnlySets<T>(a: Thread<T>, b: Thread<T>, reg: Reg, p: Ptr) {
    && b.en == a.en && b.acc == a.acc && b.vlen == a.vlen
    && b.rs == (if reg == Rs then p else a.rs) && b.rt == (if reg == Rt then p else a.rt) && b.rd == (if reg == Rd then p else a.rd)
  }

  /** SETRx looks its resource up by number; on a thread that is on, an unknown one is undefined behaviour. */
  lemma SetRegMeans<T>(A: Arith<T>, mask: nat, bs: seq<Binding>, m: Machine<T>, w: Word, reg: Reg, t: nat, addr: nat)
    requires |m.ts| == NR_TID && Decode(w) == SetReg(reg, t, addr)
    ensures t < NR_TID
    ensures
      var n, r := addr % 0x1_0000_0000, Step(A, mask, bs, m, w);
      if !On(mask, t) then r == Some(m)
      else
        && (r.Some? <==> n < |bs| && bs[n].buf in m.mem && bs[n].index <= |m.mem[bs[n].buf]|)
        && (r.Some? ==>
              && r.value.mem == m.mem && |r.value.ts| == NR_TID && n < |bs|
              && OnlySets(m.ts[t], r.value.ts[t], reg, At(bs[n].buf, bs[n].index))
              && forall u :: 0 <= u < NR_TID && u != t ==> r.value.ts[u] == m.ts[u])
  {
    assert ValidCmd(Decode(w));
    hide Decode;
    OnMeans(mask, t);
    hide On, Enabled;
  }
}
