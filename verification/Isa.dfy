/**
 The 64-bit command words shared by the code generator, the two program checkers
 (user-space emulator and kernel), the executor and the assembler tools.
 */
module Isa {

  // A word is a natural number below 2^64.  Its bit fields are read with division and
  // remainder by powers of two, so that packing and unpacking stay in linear arithmetic.

  const U32: nat := 0x1_0000_0000

  type Word = w: int | 0 <= w < 0x1_0000_0000_0000_0000

  // Position of the opcode (bit 59) and of the destination (bit 51).
  const OP_UNIT: nat := 0x0800_0000_0000_0000
  const DST_UNIT: nat := 0x0008_0000_0000_0000
  // Width of the address field (38 bits) and position of the activation type (bit 42).
  const ADDR_LIMIT: nat := 0x40_0000_0000
  const AF_UNIT: nat := 0x400_0000_0000
  const LEN_LIMIT: nat := 0x10_0000

  const NOP: nat := 0x00
  const SYNC: nat := 0x01
  const SETACC: nat := 0x08
  const SETVL: nat := 0x09
  const SETEN: nat := 0x0A
  const SETRS: nat := 0x0C
  const SETRT: nat := 0x0D
  const SETRD: nat := 0x0E
  const PROD: nat := 0x10
  const STORE: nat := 0x11
  const ACTF: nat := 0x12

  const NR_VPU: nat := 2
  const NR_THR: nat := 8
  // Threads of all VPUs, numbered vpu * 8 + thread.
  const NR_TID: nat := 16

  function Op(w: Word): nat { w / OP_UNIT }
  function Dst(w: Word): nat { w / DST_UNIT % 256 }

  /** The thread a never-broadcast command addresses; only the low VPU bit is looked at. */
  function Tid(w: Word): (t: nat)
    ensures t < NR_TID
  {
    Dst(w) / 8 % 2 * 8 + Dst(w) % 8
  }

  /** A command that can broadcast reaches every thread when its low three destination bits are 0. */
  predicate Broadcast(w: Word) { Dst(w) % 8 == 0 }
  function FirstTid(w: Word): nat { if Broadcast(w) then 0 else Dst(w) / 8 % 2 * 8 }
  function EndTid(w: Word): nat { if Broadcast(w) then NR_TID else Dst(w) / 8 % 2 * 8 + 8 }

  datatype Reg = Rs | Rt | Rd
  datatype ActFn = Relu | LRelu(e: int)

  datatype Cmd =
    | Nop
    | Sync(stop: bool, intr: bool)
    | SetAcc(t: nat, bits: nat)
    | SetVl(t: nat, len: nat)
    | SetEn(t: nat, en: bool)
    | SetReg(reg: Reg, t: nat, addr: nat)
    | Prod(lo: nat, hi: nat)
    | Store(lo: nat, hi: nat)
    | Actf(lo: nat, hi: nat, fn: ActFn)
    | Invalid

  predicate ValidCmd(c: Cmd) {
    match c
    case SetAcc(t, bits) => t < NR_TID && bits < U32
    case SetVl(t, len) => t < NR_TID && len < LEN_LIMIT
    case SetEn(t, _) => t < NR_TID
    case SetReg(_, t, addr) => t < NR_TID && addr < ADDR_LIMIT
    case Prod(lo, hi) => lo < hi <= NR_TID
    case Store(lo, hi) => lo < hi <= NR_TID
    case Actf(lo, hi, _) => lo < hi <= NR_TID
    case _ => true
  }

  /** Two's complement reading of a 7-bit field. */
  function SignExtend7(ed: int): int {
    if ed % 128 >= 64 then ed % 128 - 128 else ed % 128
  }

  /** The opcode switch and the field extraction every consumer of a program performs. */
  function Decode(w: Word): (c: Cmd)
    ensures ValidCmd(c)
  {
    var op := Op(w);
    if op == NOP then Nop
    else if op == SYNC then Sync(w % 2 == 1, w / 2 % 2 == 1)
    else if op == SETACC then SetAcc(Tid(w), w % U32)
    else if op == SETVL then SetVl(Tid(w), w % LEN_LIMIT)
    else if op == SETEN then SetEn(Tid(w), w % 2 == 1)
    else if op == SETRS then SetReg(Rs, Tid(w), w % ADDR_LIMIT)
    else if op == SETRT then SetReg(Rt, Tid(w), w % ADDR_LIMIT)
    else if op == SETRD then SetReg(Rd, Tid(w), w % ADDR_LIMIT)
    else if op == PROD then Prod(FirstTid(w), EndTid(w))
    else if op == STORE then Store(FirstTid(w), EndTid(w))
    else if op == ACTF then
      Actf(FirstTid(w), EndTid(w), if w / AF_UNIT % 64 == 1 then LRelu(SignExtend7(w % 128)) else Relu)
    else Invalid
  }

  /** A word assembled from its fields; the payload is everything below the destination. */
  function Pack(op: nat, dst: nat, payload: nat): (w: Word)
    requires op < 32 && dst < 256 && payload < DST_UNIT
    ensures Op(w) == op && Dst(w) == dst && w % DST_UNIT == payload
  {
    op * OP_UNIT + dst * DST_UNIT + payload
  }

  /** Quotient and remainder are determined by the division equation. */
  lemma DivModUnique(a: int, m: int, k: int, r: int)
    requires 0 <= r < m && a == k * m + r
    ensures a / m == k && a % m == r
  {
    var d := k - a / m;
    assert d >= 1 ==> d * m >= m;
    assert d <= -1 ==> -d * m >= m;
    assert d * m == k * m - a / m * m == a % m - r;
  }

  lemma AddMultiple(q: nat, m: nat, p: nat)
    requires m > 0
    ensures (q * m + p) % m == p % m && (q * m + p) / m == q + p / m
  {
    assert q * m + p == (q + p / m) * m + p % m;
    DivModUnique(q * m + p, m, q + p / m, p % m);
  }

  /** Fields that lie below the destination depend on the payload only. */
  lemma PayloadFields(w: Word, p: nat)
    requires w % DST_UNIT == p
    ensures w % U32 == p % U32 && w % LEN_LIMIT == p % LEN_LIMIT && w % ADDR_LIMIT == p % ADDR_LIMIT
    ensures w % 2 == p % 2 && w / 2 % 2 == p / 2 % 2 && w % 128 == p % 128
    ensures w / AF_UNIT % 64 == p / AF_UNIT % 64
  {
    var q := w / DST_UNIT;
    AddMultiple(q * 0x8_0000, U32, p);
    AddMultiple(q * 0x8000_0000, LEN_LIMIT, p);
    AddMultiple(q * 0x2000, ADDR_LIMIT, p);
    AddMultiple(q * 0x4_0000_0000_0000, 2, p);
    AddMultiple(q * 0x2_0000_0000_0000, 2, p / 2);
    AddMultiple(q * 0x1000_0000_0000, 128, p);
    AddMultiple(q * 512, AF_UNIT, p);
    AddMultiple(q * 8, 64, p / AF_UNIT);
  }

  /** Decoding in terms of the opcode, the thread and the payload. */
  lemma DecodePayload(w: Word, p: nat)
    requires w % DST_UNIT == p
    ensures Op(w) == SETACC ==> Decode(w) == SetAcc(Tid(w), p % U32)
    ensures Op(w) == SETVL ==> Decode(w) == SetVl(Tid(w), p % LEN_LIMIT)
    ensures Op(w) == SETEN ==> Decode(w) == SetEn(Tid(w), p % 2 == 1)
    ensures Op(w) == SETRS ==> Decode(w) == SetReg(Rs, Tid(w), p % ADDR_LIMIT)
    ensures Op(w) == SETRT ==> Decode(w) == SetReg(Rt, Tid(w), p % ADDR_LIMIT)
    ensures Op(w) == SETRD ==> Decode(w) == SetReg(Rd, Tid(w), p % ADDR_LIMIT)
  {
    hide Op, Tid, Dst;
    PayloadFields(w, p);
  }

  /** Overwrite the address field and clear the must-be-zero bits above it. */
  function PatchAddr(w: Word, addr: nat): (r: Word)
    ensures Op(r) == Op(w) && Dst(r) == Dst(w) && r % DST_UNIT == addr % ADDR_LIMIT
  {
    w / DST_UNIT * DST_UNIT + addr % ADDR_LIMIT
  }

  /** Overwrite the address field only. */
  function ReplaceAddr(w: Word, addr: nat): (r: Word)
    ensures Op(r) == Op(w) && Dst(r) == Dst(w) && r % ADDR_LIMIT == addr % ADDR_LIMIT
  {
    w / ADDR_LIMIT * ADDR_LIMIT + addr % ADDR_LIMIT
  }

  /** Patching a SETRx word changes its address and nothing else. */
  lemma PatchDecodes(w: Word, addr: nat)
    requires Decode(w).SetReg?
    ensures Decode(PatchAddr(w, addr)) == Decode(w).(addr := addr % ADDR_LIMIT)
  {
    PayloadFields(PatchAddr(w, addr), addr % ADDR_LIMIT);
  }

  /** Re-patching a patched word gives the word patched with the new address directly. */
  lemma ReplacePatched(w: Word, a: nat, b: nat)
    ensures ReplaceAddr(PatchAddr(w, a), b) == PatchAddr(w, b)
  {
    var hi := w / DST_UNIT;
    assert PatchAddr(w, a) / ADDR_LIMIT == hi * 0x2000;
  }
}
