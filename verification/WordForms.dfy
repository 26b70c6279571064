/**
 How a command word is read, field by field: the word is put together from an opcode, a VPU, a
 thread and a payload at the bit positions of the command layouts, and the command it stands
 for is written out.
 */
module WordForms {
  import opened Isa
  import opened Wrappers
  import C = Checker

  /** Bits 59.. opcode, 54..59 VPU, 51..54 thread, 0..51 payload. */
  function WordOf(op: nat, vpu: nat, th: nat, payload: nat): (w: Word)
    requires op < 32 && vpu < 32 && th < 8 && payload < 0x0008_0000_0000_0000
  {
    op * 0x0800_0000_0000_0000 + vpu * 0x0040_0000_0000_0000 + th * 0x0008_0000_0000_0000 + payload
  }

  lemma FieldsOf(op: nat, vpu: nat, th: nat, payload: nat)
    requires op < 32 && vpu < 32 && th < 8 && payload < 0x0008_0000_0000_0000
    ensures
      var w := WordOf(op, vpu, th, payload);
      Op(w) == op && Dst(w) == vpu * 8 + th && w % DST_UNIT == payload
  {
    var w := WordOf(op, vpu, th, payload);
    assert w == Pack(op, vpu * 8 + th, payload);
  }

  lemma DstParts(vpu: nat, th: nat)
    requires th < 8
    ensures (vpu * 8 + th) / 8 % 2 == vpu % 2 && (vpu * 8 + th) % 8 == th
  {
    DivModUnique(vpu * 8 + th, 8, vpu, th);
  }

  /** The signed number a 7-bit field holds. */
  predicate Signed7(k: int, field: int) { -64 <= k < 64 && (k - field) % 128 == 0 }

  lemma SignExtendIs(field: int)
    ensures Signed7(SignExtend7(field % 128), field)
  {
  }

  /**
   Every word that can be written: which command it is, for which thread, with which operand.
   Commands for a VPU reach all sixteen threads when the thread field is 0.
   */
  lemma WordMeans(op: nat, vpu: nat, th: nat, payload: nat)
    requires op < 32 && vpu < 32 && th < 8 && payload < 0x0008_0000_0000_0000
    ensures
      var c := Decode(WordOf(op, vpu, th, payload));
      var t := vpu % 2 * 8 + th;
      var lo, hi := if th == 0 then 0 else vpu % 2 * 8, if th == 0 then 16 else vpu % 2 * 8 + 8;
      && (op == 0x00 ==> c == Nop)
      && (op == 0x01 ==> c == Sync(payload % 2 == 1, payload / 2 % 2 == 1))
      && (op == 0x08 ==> c == SetAcc(t, payload % 0x1_0000_0000))
      && (op == 0x09 ==> c == SetVl(t, payload % 0x10_0000))
      && (op == 0x0A ==> c == SetEn(t, payload % 2 == 1))
      && (op == 0x0C ==> c == SetReg(Rs, t, payload % 0x40_0000_0000))
      && (op == 0x0D ==> c == SetReg(Rt, t, payload % 0x40_0000_0000))
      && (op == 0x0E ==> c == SetReg(Rd, t, payload % 0x40_0000_0000))
      && (op == 0x10 ==> c == Prod(lo, hi))
      && (op == 0x11 ==> c == Store(lo, hi))
      && (op == 0x12 && payload / 0x400_0000_0000 % 64 != 1 ==> c == Actf(lo, hi, Relu))
      && (op == 0x12 && payload / 0x400_0000_0000 % 64 == 1 ==>
            c.Actf? && c.lo == lo && c.hi == hi && c.fn.LRelu? && Signed7(c.fn.e, payload))
      && (op !in {0x00, 0x01, 0x08, 0x09, 0x0A, 0x0C, 0x0D, 0x0E, 0x10, 0x11, 0x12} ==> c == Invalid)
  {
    var w := WordOf(op, vpu, th, payload);
    FieldsOf(op, vpu, th, payload);
    DstParts(vpu, th);
    PayloadFields(w, payload);
    SignExtendIs(payload);
    hide Op, Dst, WordOf, SignExtend7;
  }

  /** The closing command stops the program and raises the interrupt. */
  lemma ClosingSync()
    ensures C.SYNC_STOP == WordOf(0x01, 0, 0, 3) && Decode(C.SYNC_STOP) == Sync(true, true)
  {
    WordMeans(0x01, 0, 0, 3);
  }

  /** Patching an address replaces the payload by it and keeps the other fields. */
  lemma PatchMeans(op: nat, vpu: nat, th: nat, payload: nat, addr: nat)
    requires op < 32 && vpu < 32 && th < 8 && payload < 0x0008_0000_0000_0000
    ensures PatchAddr(WordOf(op, vpu, th, payload), addr) == WordOf(op, vpu, th, addr % 0x40_0000_0000)
  {
    var w := WordOf(op, vpu, th, payload);
    DivModUnique(w, DST_UNIT, op * 256 + vpu * 8 + th, payload);
  }
}
