/**
 The assembler's code generation and the disassembler's printing, and when a word survives
 the way through both.  The text of floating point numbers stays abstract.
 */
module AsmText {
  import opened Isa
  import opened Wrappers
  import opened Numerals
  import opened Tokens

  /** How the stream prints a float given by its bits, and what stof makes of a token. */
  datatype Floats = Floats(show: nat -> string, parse: string -> Option<nat>)

  predicate FloatsOk(F: Floats, bits: nat) { OperandText(F.show(bits)) }

  /** Payload bits a VPU command carries. */
  const PAYLOAD_LIMIT: nat := 0x1_0000_0000_0000

  // ---- Assembling one command ----

  function LowerChar(c: char): char {
    if 'A' <= c <= 'Z' then (c as int - 'A' as int + 'a' as int) as char else c
  }

  function Lower(s: string): string { seq(|s|, i requires 0 <= i < |s| => LowerChar(s[i])) }

  function VpuNo(t: string): (r: Option<nat>)
    ensures r.Some? ==> r.value < 2
  {
    if Lower(t) == "vpu0" then Some(0) else if Lower(t) == "vpu1" then Some(1) else None
  }

  function ThNo(t: string): (r: Option<nat>)
    ensures r.Some? ==> r.value < 8
  {
    var l := Lower(t);
    if l == "th0" then Some(0) else if l == "th1" then Some(1) else if l == "th2" then Some(2)
    else if l == "th3" then Some(3) else if l == "th4" then Some(4) else if l == "th5" then Some(5)
    else if l == "th6" then Some(6) else if l == "th7" then Some(7) else None
  }

  function MakeDst(vpu: nat, th: nat): (d: nat)
    ensures d < 256
  {
    vpu % 32 * 8 + th % 8
  }

  /** A command that reaches all threads of one VPU. */
  function VpuDst(vpu: nat): (d: nat)
    ensures d < 256
  {
    vpu % 2 * 8 + 1
  }

  /** The three operands of a command that addresses one thread: destination and value. */
  function GenThread(op: nat, ops: seq<string>, payload: Option<nat>): Option<Word>
    requires op < 32 && |ops| == 3 && (payload.Some? ==> payload.value < DST_UNIT)
  {
    var vpu, th := VpuNo(ops[0]), ThNo(ops[1]);
    if vpu.None? || th.None? || payload.None? then None else Some(Pack(op, MakeDst(vpu.value, th.value), payload.value))
  }

  function LenPayload(t: string): (r: Option<nat>)
    ensures r.Some? ==> r.value < LEN_LIMIT
  {
    var v := ParseUnsigned(t);
    if v.None? then None else Some(v.value % U32 % LEN_LIMIT)
  }

  function AddrPayload(t: string): (r: Option<nat>)
    ensures r.Some? ==> r.value < ADDR_LIMIT
  {
    var v := ParseUnsigned(t);
    if v.None? then None else Some(v.value / 4 % ADDR_LIMIT)
  }

  function EnPayload(t: string): (r: Option<nat>)
    ensures r.Some? ==> r.value < 2
  {
    if Lower(t) == "set" then Some(1) else if Lower(t) == "clr" then Some(0) else None
  }

  function AccPayload(F: Floats, t: string): (r: Option<nat>)
    ensures r.Some? ==> r.value < U32
  {
    var v := F.parse(t);
    if v.None? then None else Some(v.value % U32)
  }

  /** A command with an optional VPU operand; payload is what it carries when it names a VPU. */
  function GenVpu(op: nat, ops: seq<string>, all: nat, one: nat): Option<Word>
    requires op < 32 && all < DST_UNIT && one < DST_UNIT
  {
    if |ops| > 1 then None
    else if ops == [] then Some(Pack(op, 0, all))
    else
      var vpu := VpuNo(ops[0]);
      if vpu.None? then None else Some(Pack(op, VpuDst(vpu.value), one))
  }

  /** The exponent must not be positive. */
  function Exponent(t: string): Option<nat> {
    var e := ParseInt(t);
    if e.None? || e.value > 0 then None else Some(e.value % 128)
  }

  function GenLRelu(ops: seq<string>): Option<Word> {
    if ops == [] || |ops| > 2 then None
    else if |ops| == 1 then
      var e := Exponent(ops[0]);
      if e.None? then None else Some(Pack(ACTF, 0, AF_UNIT + e.value))
    else
      var vpu, e := VpuNo(ops[0]), Exponent(ops[1]);
      if vpu.None? || e.None? then None else Some(Pack(ACTF, VpuDst(vpu.value), AF_UNIT + e.value))
  }

  function GenSync(ops: seq<string>): Option<Word> {
    if |ops| != 2 then None
    else
      var stop := if Lower(ops[0]) == "stop" then Some(1) else if Lower(ops[0]) == "nostop" then Some(0) else None;
      var intr := if Lower(ops[1]) == "int" then Some(2) else if Lower(ops[1]) == "noint" then Some(0) else None;
      if stop.None? || intr.None? then None else Some(Pack(SYNC, 0, stop.value + intr.value))
  }

  /** code_gen: the opcode in lower case decides. */
  function Generate(F: Floats, junk: nat, cmd: Command): Option<Word>
    requires junk < PAYLOAD_LIMIT
  {
    GenerateOp(F, junk, Lower(cmd.opcode), cmd.operands)
  }

  /** junk is what the encoder of "relu vpu" leaves in the payload, which it does not initialise. */
  function GenerateOp(F: Floats, junk: nat, op: string, ops: seq<string>): Option<Word>
    requires junk < PAYLOAD_LIMIT
  {
    if op == "setacc" then (if |ops| != 3 then None else GenThread(SETACC, ops, AccPayload(F, ops[2])))
    else if op == "setvl" then (if |ops| != 3 then None else GenThread(SETVL, ops, LenPayload(ops[2])))
    else if op == "setrs" then (if |ops| != 3 then None else GenThread(SETRS, ops, AddrPayload(ops[2])))
    else if op == "setrt" then (if |ops| != 3 then None else GenThread(SETRT, ops, AddrPayload(ops[2])))
    else if op == "setrd" then (if |ops| != 3 then None else GenThread(SETRD, ops, AddrPayload(ops[2])))
    else if op == "seten" then (if |ops| != 3 then None else GenThread(SETEN, ops, EnPayload(ops[2])))
    else if op == "prod" then GenVpu(PROD, ops, 0, 0)
    else if op == "store" then GenVpu(STORE, ops, 0, 0)
    else if op == "sync" then GenSync(ops)
    else if op == "nop" then Some(Pack(NOP, 0, 0))
    else if op == "relu" then GenVpu(ACTF, ops, 0, junk)
    else if op == "lrelu" then GenLRelu(ops)
    else if op == ".quad" then (if |ops| != 1 then None else ParseUnsigned(ops[0]))
    else None
  }

  // ---- Disassembling one word ----

  function VpuText(n: nat): string { "vpu" + Dec(n) }
  function ThText(n: nat): string { "th" + Dec(n) }

  function ThreadCmd(opcode: string, w: Word, value: string): Command {
    Command(opcode, [VpuText(Dst(w) / 8), ThText(Dst(w) % 8), value])
  }

  function VpuCmd(opcode: string, w: Word): Command {
    Command(opcode, if Dst(w) % 8 != 0 then [VpuText(Dst(w) / 8)] else [])
  }

  /** The 7-bit scale factor: anything but zero is taken for a negative number. */
  function ExpText(w: Word): string { if w % 128 == 0 then Dec(0) else Dec(w % 128 - 128) }

  function Disassembled(F: Floats, w: Word): Command {
    var op := Op(w);
    if op == NOP then Command("nop", [])
    else if op == SYNC then
      Command("sync", [if w % 2 == 1 then "stop" else "nostop", if w / 2 % 2 == 1 then "int" else "noint"])
    else if op == SETACC then ThreadCmd("setacc", w, F.show(w % U32))
    else if op == SETVL then ThreadCmd("setvl", w, Dec(w % LEN_LIMIT))
    else if op == SETEN then ThreadCmd("seten", w, if w % 2 == 1 then "set" else "clr")
    else if op == SETRS then ThreadCmd("setrs", w, Hex(w % ADDR_LIMIT * 4))
    else if op == SETRT then ThreadCmd("setrt", w, Hex(w % ADDR_LIMIT * 4))
    else if op == SETRD then ThreadCmd("setrd", w, Hex(w % ADDR_LIMIT * 4))
    else if op == PROD then VpuCmd("prod", w)
    else if op == STORE then VpuCmd("store", w)
    else if op == ACTF && w / AF_UNIT % 64 == 0 then VpuCmd("relu", w)
    else if op == ACTF && w / AF_UNIT % 64 == 1 then
      Command("lrelu", VpuCmd("lrelu", w).operands + [ExpText(w)])
    else Command(".quad", [Hex(w)])
  }

  const WIDTH: nat := 40
  const IWIDTH: nat := 10

  function Ident(opcode: string): (n: nat)
    ensures n > 0
  {
    if |opcode| < IWIDTH then IWIDTH - |opcode| else 1
  }

  function Body(cmd: Command): string {
    if cmd.operands == [] then cmd.opcode else cmd.opcode + Spaces(Ident(cmd.opcode)) + Join(cmd.operands)
  }

  /** Sixteen hexadecimal digits. */
  function Pad16(w: Word): string {
    var s := Digits(w, 16);
    (if |s| < 16 then seq(16 - |s|, i => '0') else []) + s
  }

  /** The whole line: the command, padding, and the word as a comment. */
  function Text(F: Floats, w: Word): string {
    var s := Body(Disassembled(F, w));
    s + Spaces(if |s| < WIDTH then WIDTH - |s| else 1) + "; 0x" + Pad16(w)
  }

  /** What the assembler makes of a line; None is an error, Some([]) a line without a command. */
  function AssembleLine(F: Floats, junk: nat, line: string): Option<seq<Word>>
    requires junk < PAYLOAD_LIMIT
  {
    match ParseLine(line)
    case Error => None
    case Empty => Some([])
    case Line(cmd) => var w := Generate(F, junk, cmd); if w.None? then None else Some([w.value])
  }

  // ---- Printed tokens are tokens ----

  lemma DigitsAreText(n: nat, base: nat)
    requires 2 <= base <= 16
    ensures OperandText(Digits(n, base)) && forall i :: 0 <= i < |Digits(n, base)| ==> LowerChar(Digits(n, base)[i]) == Digits(n, base)[i]
  {
    DigitChars(n, base);
  }

  lemma NumberText(v: int)
    ensures OperandText(Dec(v)) && (v >= 0 ==> OperandText(Hex(v)))
  {
    DigitsAreText(if v < 0 then -v else v, 10);
    if v >= 0 {
      DigitsAreText(v, 16);
      assert Hex(v)[0] == '0' && Hex(v)[1] == 'x';
    }
  }

  lemma ThreadText(n: nat)
    ensures OperandText(VpuText(n)) && OperandText(ThText(n))
    ensures Lower(VpuText(n)) == VpuText(n) && Lower(ThText(n)) == ThText(n)
  {
    DigitsAreText(n, 10);
  }

  predicate CommandText(cmd: Command) {
    OpcodeText(cmd.opcode) && forall i :: 0 <= i < |cmd.operands| ==> OperandText(cmd.operands[i])
  }

  lemma KeywordText()
    ensures OperandText("stop") && OperandText("nostop") && OperandText("int") && OperandText("noint")
    ensures OperandText("set") && OperandText("clr")
  {
  }

  lemma OpcodesText()
    ensures OpcodeText("nop") && OpcodeText("sync") && OpcodeText("setacc") && OpcodeText("setvl") && OpcodeText("seten")
    ensures OpcodeText("setrs") && OpcodeText("setrt") && OpcodeText("setrd") && OpcodeText("prod") && OpcodeText("store")
    ensures OpcodeText("relu") && OpcodeText("lrelu") && OpcodeText(".quad")
  {
  }

  lemma DisassembledText(F: Floats, w: Word)
    requires FloatsOk(F, w % U32)
    ensures CommandText(Disassembled(F, w))
  {
    hide OperandText, OpcodeText, Hex, Dec, VpuText, ThText;
    KeywordText();
    OpcodesText();
    ThreadText(Dst(w) / 8);
    ThreadText(Dst(w) % 8);
    NumberText(w % LEN_LIMIT);
    NumberText(w % ADDR_LIMIT * 4);
    NumberText(w);
    NumberText(0);
    NumberText(w % 128 - 128);
  }

  /** Padding and comment do not disturb: a printed line is read back as the command it shows. */
  lemma TextReads(F: Floats, w: Word)
    requires FloatsOk(F, w % U32)
    ensures ParseLine(Text(F, w)) == Line(Disassembled(F, w))
  {
    hide OperandText, OpcodeText, Disassembled, ParseLine;
    DisassembledText(F, w);
    var cmd := Disassembled(F, w);
    var s := Body(cmd);
    var n := if |s| < WIDTH then WIDTH - |s| else 1;
    var r := Spaces(n) + ("; 0x" + Pad16(w));
    assert Text(F, w) == s + r;
    CommentTrails(n, "; 0x" + Pad16(w));
    if cmd.operands == [] {
      BareReads(cmd.opcode, r);
      assert cmd == Command(cmd.opcode, []);
    } else {
      PrintedReads(cmd.opcode, Ident(cmd.opcode), cmd.operands, r);
    }
  }

  lemma CommentTrails(n: nat, comment: string)
    requires comment != [] && comment[0] == ';'
    ensures Trailing(Spaces(n) + comment)
  {
    BlanksTrail(n, comment);
  }
}
