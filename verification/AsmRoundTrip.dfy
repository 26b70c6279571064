/**
 Disassembling and assembling again: exactly which words come back, one by one and in
 programs of any length.
 */
module AsmRoundTrip {
  import opened Isa
  import opened Wrappers
  import opened Numerals
  import opened Tokens
  import opened AsmText

  // ---- Operands ----

  lemma OneDigit(n: nat)
    ensures if n < 10 then Digits(n, 10) == [Digit(n)] else |Digits(n, 10)| >= 2
  {
  }

  /** Only VPUs 0 and 1 have a name the assembler knows. */
  lemma VpuReads(n: nat)
    ensures VpuNo(VpuText(n)) == if n < 2 then Some(n) else None
  {
    ThreadText(n);
    OneDigit(n);
    var t := VpuText(n);
    assert t[..3] == "vpu" && t[3..] == Digits(n, 10);
    if n < 10 {
      assert t == "vpu" + [Digit(n)];
      assert t[3] == Digit(n);
    } else {
      assert |t| >= 5;
    }
  }

  lemma ThReads(n: nat)
    requires n < 8
    ensures ThNo(ThText(n)) == Some(n)
  {
    ThreadText(n);
    OneDigit(n);
    var t := ThText(n);
    assert t == ['t', 'h', Digit(n)];
  }

  // ---- Words ----

  lemma WordParts(w: Word)
    ensures Op(w) < 32 && Dst(w) < 256 && w == Pack(Op(w), Dst(w), w % DST_UNIT)
  {
    assert w / DST_UNIT / 256 == w / OP_UNIT;
    assert w == w / DST_UNIT * DST_UNIT + w % DST_UNIT;
    assert w / DST_UNIT == w / DST_UNIT / 256 * 256 + w / DST_UNIT % 256;
  }

  /** A word is rebuilt exactly when all three fields are right. */
  lemma PackIs(op: nat, d: nat, p: nat, w: Word)
    requires op < 32 && d < 256 && p < DST_UNIT
    ensures Pack(op, d, p) == w <==> op == Op(w) && d == Dst(w) && p == w % DST_UNIT
  {
    WordParts(w);
  }

  /** Commands that address one thread. */
  lemma ThreadBack(op: nat, w: Word, value: string, payload: Option<nat>)
    requires op == Op(w) < 32 && (payload.Some? ==> payload.value < DST_UNIT)
    ensures
      var ops := [VpuText(Dst(w) / 8), ThText(Dst(w) % 8), value];
      GenThread(op, ops, payload) == Some(w) <==> Dst(w) < 16 && payload == Some(w % DST_UNIT)
  {
    hide Op, Dst, VpuText, ThText, VpuNo, ThNo, Pack;
    WordParts(w);
    var d := Dst(w);
    VpuReads(d / 8);
    ThReads(d % 8);
    DstParts(d);
    hide MakeDst;
    if d < 16 && payload.Some? {
      PackIs(op, d, payload.value, w);
    }
  }

  lemma DstParts(d: nat)
    requires d < 256
    ensures d / 8 < 32 && d % 8 < 8 && (d / 8 < 2 <==> d < 16) && MakeDst(d / 8, d % 8) == d
  {
  }

  /** The destinations a broadcast command can be assembled with. */
  predicate VpuOrAll(d: nat) { d == 0 || d == 1 || d == 9 }

  /** Commands with an optional VPU. */
  lemma VpuBack(op: nat, w: Word, opcode: string, one: nat)
    requires op == Op(w) < 32 && one < DST_UNIT
    ensures
      GenVpu(op, VpuCmd(opcode, w).operands, 0, one) == Some(w) <==>
      VpuOrAll(Dst(w)) && w % DST_UNIT == if Dst(w) == 0 then 0 else one
  {
    hide Op, Dst, VpuText, VpuNo, Pack;
    WordParts(w);
    var d := Dst(w);
    VpuReads(d / 8);
    PackIs(op, 0, 0, w);
    if d % 8 != 0 && d / 8 < 2 {
      PackIs(op, VpuDst(d / 8), one, w);
    }
  }

  lemma ExponentBack(w: Word)
    ensures Exponent(ExpText(w)) == Some(w % 128)
  {
    var e := w % 128;
    if e == 0 {
      IntReads(0);
    } else {
      IntReads(e - 128);
      DivModUnique(e - 128, 128, -1, e);
    }
  }

  lemma LReluBack(w: Word)
    requires Op(w) == ACTF && w / AF_UNIT % 64 == 1
    ensures
      GenLRelu(VpuCmd("lrelu", w).operands + [ExpText(w)]) == Some(w) <==>
      VpuOrAll(Dst(w)) && AF_UNIT <= w % DST_UNIT < AF_UNIT + 128
  {
    LReluPayload(w);
    hide Op, Dst, VpuText, VpuNo, Pack, Exponent, ExpText;
    WordParts(w);
    var d, e := Dst(w), w % 128;
    VpuReads(d / 8);
    ExponentBack(w);
    PackIs(ACTF, 0, AF_UNIT + e, w);
    if d % 8 != 0 && d / 8 < 2 {
      PackIs(ACTF, VpuDst(d / 8), AF_UNIT + e, w);
    }
  }

  lemma LReluPayload(w: Word)
    ensures AF_UNIT <= w % DST_UNIT < AF_UNIT + 128 <==> w % DST_UNIT == AF_UNIT + w % 128
  {
    PayloadFields(w, w % DST_UNIT);
    var p := w % DST_UNIT;
    if AF_UNIT <= p < AF_UNIT + 128 {
      AddMultiple(0x8_0000_0000, 128, p - AF_UNIT);
    }
  }

  lemma SyncBack(w: Word)
    requires Op(w) == SYNC
    ensures
      GenSync([if w % 2 == 1 then "stop" else "nostop", if w / 2 % 2 == 1 then "int" else "noint"]) == Some(w) <==>
      Dst(w) == 0 && w % DST_UNIT < 4
  {
    SyncPayload(w);
    hide Op, Dst, Pack;
    WordParts(w);
    Keywords();
    PackIs(SYNC, 0, w % 2 + w / 2 % 2 * 2, w);
  }

  lemma SyncPayload(w: Word)
    ensures w % DST_UNIT < 4 <==> w % DST_UNIT == w % 2 + w / 2 % 2 * 2
  {
    PayloadFields(w, w % DST_UNIT);
  }

  lemma Keywords()
    ensures Lower("stop") == "stop" && Lower("nostop") == "nostop" && Lower("int") == "int" && Lower("noint") == "noint"
    ensures Lower("set") == "set" && Lower("clr") == "clr"
  {
  }

  lemma Opcodes()
    ensures Lower("nop") == "nop" && Lower("sync") == "sync" && Lower("setacc") == "setacc" && Lower("setvl") == "setvl"
    ensures Lower("seten") == "seten" && Lower("setrs") == "setrs" && Lower("setrt") == "setrt" && Lower("setrd") == "setrd"
    ensures Lower("prod") == "prod" && Lower("store") == "store" && Lower("relu") == "relu" && Lower("lrelu") == "lrelu"
    ensures Lower(".quad") == ".quad"
  {
  }

  // ---- Which words come back ----

  /**
   The words that survive: the assembler's own encodings, everything printed as .quad, and
   of the SETACC words those whose float text is exact.
   */
  predicate Survives(F: Floats, junk: nat, w: Word) {
    var op, d, p := Op(w), Dst(w), w % DST_UNIT;
    if op == NOP then d == 0 && p == 0
    else if op == SYNC then d == 0 && p < 4
    else if op == SETACC then d < 16 && p < U32 && AccPayload(F, F.show(p)) == Some(p)
    else if op == SETVL then d < 16 && p < LEN_LIMIT
    else if op == SETEN then d < 16 && p < 2
    else if op == SETRS || op == SETRT || op == SETRD then d < 16 && p < ADDR_LIMIT
    else if op == PROD || op == STORE then VpuOrAll(d) && p == 0
    else if op == ACTF && w / AF_UNIT % 64 == 0 then VpuOrAll(d) && p == if d == 0 then 0 else junk
    else if op == ACTF && w / AF_UNIT % 64 == 1 then VpuOrAll(d) && AF_UNIT <= p < AF_UNIT + 128
    else true
  }

  lemma LenBack(w: Word)
    ensures LenPayload(Dec(w % LEN_LIMIT)) == Some(w % DST_UNIT) <==> w % DST_UNIT < LEN_LIMIT
  {
    PayloadFields(w, w % DST_UNIT);
    hide Dec, ParseUnsigned;
    var x := w % LEN_LIMIT;
    DecReads(x);
    DivModUnique(x, U32, 0, x);
    DivModUnique(x, LEN_LIMIT, 0, x);
  }

  lemma AddrBack(w: Word)
    ensures AddrPayload(Hex(w % ADDR_LIMIT * 4)) == Some(w % DST_UNIT) <==> w % DST_UNIT < ADDR_LIMIT
  {
    hide Hex, ParseUnsigned;
    var p: nat, x: nat := w % DST_UNIT, w % ADDR_LIMIT;
    PayloadFields(w, p);
    HexReads(x * 4);
    DivModUnique(x * 4, 4, x, 0);
    DivModUnique(x, ADDR_LIMIT, 0, x);
    assert AddrPayload(Hex(x * 4)) == Some(x);
    if p < ADDR_LIMIT {
      DivModUnique(p, ADDR_LIMIT, 0, p);
    }
  }

  lemma EnBack(w: Word)
    ensures EnPayload(if w % 2 == 1 then "set" else "clr") == Some(w % DST_UNIT) <==> w % DST_UNIT < 2
  {
    PayloadFields(w, w % DST_UNIT);
    Keywords();
  }

  lemma AccBack(F: Floats, w: Word)
    ensures AccPayload(F, F.show(w % U32)) == Some(w % DST_UNIT) <==>
            w % DST_UNIT < U32 && AccPayload(F, F.show(w % DST_UNIT)) == Some(w % DST_UNIT)
  {
    PayloadFields(w, w % DST_UNIT);
  }

  /** The command shown for a word assembles to that word exactly when the word survives. */
  lemma GeneratesBack(F: Floats, junk: nat, w: Word)
    requires junk < PAYLOAD_LIMIT
    ensures Generate(F, junk, Disassembled(F, w)) == Some(w) <==> Survives(F, junk, w)
  {
    hide Op, Dst, Lower, GenThread, GenVpu, GenLRelu, GenSync, LenPayload, AddrPayload, EnPayload, AccPayload, Pack, Hex, Dec,
         ParseUnsigned, VpuText, ThText, ExpText, VpuOrAll;
    Opcodes();
    WordParts(w);
    LenBack(w);
    AddrBack(w);
    EnBack(w);
    AccBack(F, w);
    HexReads(w);
    var op, d := Op(w), Dst(w);
    if op == NOP { PackIs(NOP, 0, 0, w); }
    else if op == SYNC { SyncBack(w); }
    else if op == SETACC { ThreadBack(SETACC, w, F.show(w % U32), AccPayload(F, F.show(w % U32))); }
    else if op == SETVL { ThreadBack(SETVL, w, Dec(w % LEN_LIMIT), LenPayload(Dec(w % LEN_LIMIT))); }
    else if op == SETEN {
      var v := if w % 2 == 1 then "set" else "clr";
      ThreadBack(SETEN, w, v, EnPayload(v));
    }
    else if op == SETRS || op == SETRT || op == SETRD {
      var v := Hex(w % ADDR_LIMIT * 4);
      ThreadBack(op, w, v, AddrPayload(v));
    }
    else if op == PROD { VpuBack(PROD, w, "prod", 0); }
    else if op == STORE { VpuBack(STORE, w, "store", 0); }
    else if op == ACTF && w / AF_UNIT % 64 == 0 { VpuBack(ACTF, w, "relu", junk); }
    else if op == ACTF && w / AF_UNIT % 64 == 1 { LReluBack(w); }
  }

  /** One line: printing a word and assembling the line gives the word back iff it survives. */
  lemma LineRoundTrip(F: Floats, junk: nat, w: Word)
    requires junk < PAYLOAD_LIMIT && FloatsOk(F, w % U32)
    ensures AssembleLine(F, junk, Text(F, w)) == Some([w]) <==> Survives(F, junk, w)
  {
    hide Text, ParseLine, Generate, Disassembled, Survives;
    TextReads(F, w);
    GeneratesBack(F, junk, w);
  }

  // ---- The shape of a line ----

  lemma {:induction false} DigitCount(n: nat, k: nat, limit: nat)
    requires k > 0 && limit == Power16(k) && n < limit
    ensures |Digits(n, 16)| <= k
    decreases k
  {
    if n >= 16 {
      assert k > 1;
      DigitCount(n / 16, k - 1, Power16(k - 1));
    }
  }

  function Power16(k: nat): nat { if k == 0 then 1 else 16 * Power16(k - 1) }

  lemma SixteenDigits()
    ensures Power16(16) == 0x1_0000_0000_0000_0000
  {
    assert Power16(3) == 0x1000;
    assert Power16(5) == 0x10_0000;
    assert Power16(7) == 0x1000_0000;
    assert Power16(9) == 0x10_0000_0000;
    assert Power16(11) == 0x1000_0000_0000;
    assert Power16(13) == 0x10_0000_0000_0000;
    assert Power16(15) == 0x1000_0000_0000_0000;
  }

  lemma {:induction false} ZerosEval(k: nat, s: string, v: nat)
    requires Eval(s, 16) == Some(v)
    ensures Eval(seq(k, i => '0') + s, 16) == Some(v)
    decreases |s|
  {
    var z := seq(k, i => '0');
    if s == [] {
      ZerosOnly(k);
      assert z + s == z;
    } else {
      var n := |s| - 1;
      assert (z + s)[..k + n] == z + s[..n] && (z + s)[k + n] == s[n];
      ZerosEval(k, s[..n], Eval(s[..n], 16).value);
    }
  }

  lemma {:induction false} ZerosOnly(k: nat)
    ensures Eval(seq(k, i => '0'), 16) == Some(0)
    decreases k
  {
    var z: string := seq(k, i => '0');
    if k > 0 {
      ZerosOnly(k - 1);
      assert z[..k - 1] == seq(k - 1, i => '0');
    }
  }

  /**
   Every line ends in a comment that starts at column 40, or one blank behind a longer command,
   and shows all sixteen hexadecimal digits of the word.
   */
  lemma LineShape(F: Floats, w: Word, k: nat)
    requires k == |Body(Disassembled(F, w))|
    ensures
      var text := Text(F, w);
      var at := if k < 40 then 40 else k + 1;
      && |text| == at + 20 && text[..k] == Body(Disassembled(F, w))
      && (forall i :: k <= i < at ==> text[i] == ' ')
      && text[at..at + 4] == "; 0x" && Eval(text[at + 4..], 16) == Some(w)
  {
    hide Body, Disassembled;
    var s := Body(Disassembled(F, w));
    PadShape(w);
    hide Pad16, Eval;
    var gap := Spaces(if |s| < WIDTH then WIDTH - |s| else 1);
    LineParts(s, gap, "; 0x", Pad16(w));
    assert Text(F, w) == s + (gap + ("; 0x" + Pad16(w)));
  }

  lemma LineParts(a: string, b: string, c: string, d: string)
    ensures
      var t := a + (b + (c + d));
      && t[..|a|] == a && t[|a| + |b|..|a| + |b| + |c|] == c && t[|a| + |b| + |c|..] == d
      && forall i :: |a| <= i < |a| + |b| ==> t[i] == b[i - |a|]
  {
  }

  /** Sixteen digits with the value of the word. */
  lemma PadShape(w: Word)
    ensures |Pad16(w)| == 16 && Eval(Pad16(w), 16) == Some(w)
  {
    SixteenDigits();
    DigitCount(w, 16, Power16(16));
    EvalDigits(w, 16);
    ZerosEval(16 - |Digits(w, 16)|, Digits(w, 16), w);
    hide Eval, Digits;
    assert Pad16(w) == seq(16 - |Digits(w, 16)|, i => '0') + Digits(w, 16);
  }
}
