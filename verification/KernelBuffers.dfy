/**
 Reference counting of kernel buffers: binding and unbinding walk an array in which a
 buffer may occur several times, and the LOCKED flag follows the count.
 */
module KernelBuffers {
  import opened Totals

  /** Effect of m bindings on a count and its LOCKED flag. */
  function BoundCount(count: nat, m: nat): nat { count + m }
  function BoundLock(locked: bool, count: nat, m: nat): bool { locked || (count == 0 && m > 0) }

  /** Effect of m unbindings: the count never goes below zero. */
  function UnboundCount(count: nat, m: nat): nat { if m <= count then count - m else 0 }
  function UnboundLock(locked: bool, count: nat, m: nat): bool { locked && !(0 < count <= m) }

  class VxeBuffer {
    var bindCount: nat
    var locked: bool

    constructor ()
      ensures bindCount == 0 && !locked
    {
      bindCount, locked := 0, false;
    }
  }

  lemma PrefixCount<X>(xs: seq<X>, i: nat, x: X)
    requires i < |xs|
    ensures multiset(xs[..i + 1])[x] == multiset(xs[..i])[x] + if xs[i] == x then 1 else 0
  {
    assert xs[..i + 1] == xs[..i] + [xs[i]];
  }

  /** vxe_buffer_bind_unlocked: null entries are skipped, duplicates count. */
  method BindUnlocked(bufs: seq<VxeBuffer?>)
    modifies set b | b in bufs && b != null
    ensures forall b: VxeBuffer :: b in bufs ==>
              && b.bindCount == BoundCount(old(b.bindCount), multiset(bufs)[b])
              && b.locked == BoundLock(old(b.locked), old(b.bindCount), multiset(bufs)[b])
  {
    var i := 0;
    while i < |bufs|
      invariant 0 <= i <= |bufs|
      invariant forall b: VxeBuffer :: b in bufs ==>
                  && b.bindCount == BoundCount(old(b.bindCount), multiset(bufs[..i])[b])
                  && b.locked == BoundLock(old(b.locked), old(b.bindCount), multiset(bufs[..i])[b])
    {
      forall b: VxeBuffer | b in bufs
        ensures multiset(bufs[..i + 1])[b] == multiset(bufs[..i])[b] + if bufs[i] == b then 1 else 0
      {
        PrefixCount<VxeBuffer?>(bufs, i, b);
      }
      if bufs[i] != null {
        bufs[i].bindCount := bufs[i].bindCount + 1;
        if bufs[i].bindCount == 1 {
          bufs[i].locked := true;
        }
      }
      i := i + 1;
    }
    assert bufs[..i] == bufs;
  }

  /** vxe_buffer_unbind_unlocked: null entries and buffers that are not bound are skipped. */
  method UnbindUnlocked(bufs: seq<VxeBuffer?>)
    modifies set b | b in bufs && b != null
    ensures forall b: VxeBuffer :: b in bufs ==>
              && b.bindCount == UnboundCount(old(b.bindCount), multiset(bufs)[b])
              && b.locked == UnboundLock(old(b.locked), old(b.bindCount), multiset(bufs)[b])
  {
    var i := 0;
    while i < |bufs|
      invariant 0 <= i <= |bufs|
      invariant forall b: VxeBuffer :: b in bufs ==>
                  && b.bindCount == UnboundCount(old(b.bindCount), multiset(bufs[..i])[b])
                  && b.locked == UnboundLock(old(b.locked), old(b.bindCount), multiset(bufs[..i])[b])
    {
      forall b: VxeBuffer | b in bufs
        ensures multiset(bufs[..i + 1])[b] == multiset(bufs[..i])[b] + if bufs[i] == b then 1 else 0
      {
        PrefixCount<VxeBuffer?>(bufs, i, b);
      }
      if bufs[i] != null && bufs[i].bindCount != 0 {
        bufs[i].bindCount := bufs[i].bindCount - 1;
        if bufs[i].bindCount == 0 {
          bufs[i].locked := false;
        }
      }
      i := i + 1;
    }
    assert bufs[..i] == bufs;
  }
}
