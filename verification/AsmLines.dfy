/**
 Assembling lines that were not printed by the disassembler: blank lines and comments,
 indentation, upper case, operand counts, and the word each command stands for.
 */
module AsmLines {
  import opened Isa
  import opened Wrappers
  import opened Numerals
  import opened Tokens
  import opened AsmText
  import opened WordForms
  import RT = AsmRoundTrip

  // ---- Lines without a command ----

  lemma {:induction false} NoCommandIff(s: string)
    ensures Trailing(s) <==> ParseCommand(s).Good? && ParseCommand(s).tok == []
    decreases |s|
  {
    if s != [] {
      if OpcodeChar(s[0]) {
        OpcodeLonger(s);
      } else if IsSpace(s[0]) {
        NoCommandIff(s[1..]);
      }
    }
  }

  lemma OpcodeLonger(s: string)
    requires s != [] && OpcodeChar(s[0])
    ensures OpcodeEnd(s).Some? ==> OpcodeEnd(s).value > 0
  {
  }

  /** A line adds no word exactly when it is blank up to its end or to a comment. */
  lemma NothingAssembled(F: Floats, junk: nat, line: string)
    requires junk < PAYLOAD_LIMIT
    ensures AssembleLine(F, junk, line) == Some([]) <==> Trailing(line)
  {
    hide ParseCommand, ParseOperands, AsmText.Generate;
    NoCommandIff(line);
  }

  /** Blanks in front of a line do not matter. */
  lemma {:induction false} Indented(b: string, s: string)
    requires forall i :: 0 <= i < |b| ==> IsSpace(b[i])
    ensures ParseLine(b + s) == ParseLine(s)
    decreases |b|
  {
    hide ParseOperands;
    if b == [] {
      assert b + s == s;
    } else {
      assert (b + s)[0] == b[0] && (b + s)[1..] == b[1..] + s;
      Indented(b[1..], s);
    }
  }

  // ---- Comments ----

  /** A comment that starts right behind a token ends it as the end of the line does. */
  lemma {:induction false} OperandEndComment(s: string, c: string)
    ensures OperandEnd(s + [';'] + c) == OperandEnd(s)
    decreases |s|
  {
    var l := s + [';'] + c;
    if s != [] {
      assert l[0] == s[0] && l[1..] == s[1..] + [';'] + c;
      OperandEndComment(s[1..], c);
    }
  }

  lemma {:induction false} OpcodeEndComment(s: string, c: string)
    ensures OpcodeEnd(s + [';'] + c) == OpcodeEnd(s)
    decreases |s|
  {
    var l := s + [';'] + c;
    if s != [] {
      assert l[0] == s[0] && l[1..] == s[1..] + [';'] + c;
      OpcodeEndComment(s[1..], c);
    }
  }

  /** The next operand is the same in front of a comment; only what is left of the line differs. */
  lemma {:induction false} OperandComment(s: string, c: string, comma: bool)
    requires ParseOperand(s, comma).Good?
    ensures
      var p, q := ParseOperand(s, comma), ParseOperand(s + [';'] + c, comma);
      q.Good? && q.tok == p.tok && (q.rest == p.rest + [';'] + c || (p.rest == [] && q.rest == []))
    decreases |s|
  {
    var l := s + [';'] + c;
    if s != [] {
      assert l[0] == s[0] && l[1..] == s[1..] + [';'] + c;
      if OperandStart(s[0]) {
        OperandEndComment(s, c);
        var n := OperandEnd(s).value;
        assert l[..n] == s[..n] && l[n..] == s[n..] + [';'] + c;
      } else if IsSpace(s[0]) || s[0] == ',' {
        OperandComment(s[1..], c, comma || s[0] == ',');
      }
    }
  }

  lemma CommentOnly(c: string)
    ensures ParseOperands([';'] + c) == Some([]) && ParseOperands([]) == Some([])
  {
    TrailingOperands([';'] + c);
  }

  lemma {:induction false} OperandsComment(s: string, c: string)
    requires ParseOperands(s).Some?
    ensures ParseOperands(s + [';'] + c) == ParseOperands(s)
    decreases |s|
  {
    hide ParseOperand;
    CommentOnly(c);
    if s == [] {
      assert s + [';'] + c == [';'] + c;
    } else {
      OperandComment(s, c, false);
      OperandsNext(s);
      OperandsNext(s + [';'] + c);
      var p := ParseOperand(s, false);
      OperandsComment(p.rest, c);
    }
  }

  lemma {:induction false} CommandComment(s: string, c: string)
    requires ParseCommand(s).Good?
    ensures
      var p, q := ParseCommand(s), ParseCommand(s + [';'] + c);
      q.Good? && q.tok == p.tok && (p.tok != [] ==> q.rest == p.rest + [';'] + c)
    decreases |s|
  {
    var l := s + [';'] + c;
    if s != [] {
      assert l[0] == s[0] && l[1..] == s[1..] + [';'] + c;
      if OpcodeChar(s[0]) {
        OpcodeEndComment(s, c);
        var n := OpcodeEnd(s).value;
        assert l[..n] == s[..n] && l[n..] == s[n..] + [';'] + c;
      } else if IsSpace(s[0]) {
        CommandComment(s[1..], c);
      }
    }
  }

  /** A comment behind a line that assembles changes nothing. */
  lemma Commented(F: Floats, junk: nat, line: string, c: string)
    requires junk < PAYLOAD_LIMIT && AssembleLine(F, junk, line).Some?
    ensures AssembleLine(F, junk, line + [';'] + c) == AssembleLine(F, junk, line)
  {
    hide ParseCommand, ParseOperands, AsmText.Generate;
    CommandComment(line, c);
    var p := ParseCommand(line);
    if p.tok != [] {
      OperandsComment(p.rest, c);
    }
  }

  /** A comma that nothing follows is an error at the end of a line, but not in front of a comment. */
  lemma DanglingComma(t: string, r: string, u: string)
    requires OperandText(t) && (forall i :: 0 <= i < |r| ==> IsSpace(r[i])) && u == [','] + r
    ensures ParseOperands(t + u).None? && ParseOperands(t + (u + [';'])) == Some([t])
  {
    hide OperandText, ParseOperand, ParseOperands;
    CommaBlank(r);
    TokenFull(t);
    OperandTaken(t, u, false);
    OperandTaken(t, u + [';'], false);
    OperandsNext(t + u);
    OperandsNext(t + (u + [';']));
    OperandsNext(u);
    OperandsNext(u + [';']);
    NoOperands();
    assert [t] + [] == [t];
  }

  lemma CommaBlank(r: string)
    requires forall i :: 0 <= i < |r| ==> IsSpace(r[i])
    ensures ParseOperand([','] + r, false) == Bad && ParseOperand([','] + r + [';'], false) == Good([], [])
  {
    BlankOperand(r);
    assert ([','] + r)[1..] == r && ([','] + r + [';'])[1..] == r + [';'];
  }

  lemma {:induction false} BlankOperand(r: string)
    requires forall i :: 0 <= i < |r| ==> IsSpace(r[i])
    ensures ParseOperand(r, true) == Bad && ParseOperand(r + [';'], true) == Good([], [])
    decreases |r|
  {
    if r == [] {
      assert r + [';'] == [';'] && !OperandStart(';') && !IsSpace(';');
      LineEnds(true);
    } else {
      BlankOperand(r[1..]);
      assert (r + [';'])[0] == r[0] && (r + [';'])[1..] == r[1..] + [';'];
    }
  }

  // ---- Upper and lower case ----

  lemma LowerIs(c: char)
    ensures OperandStart(LowerChar(c)) == OperandStart(c) && OperandChar(LowerChar(c)) == OperandChar(c)
    ensures OpcodeChar(LowerChar(c)) == OpcodeChar(c) && IsSpace(LowerChar(c)) == IsSpace(c)
    ensures (LowerChar(c) == ';' <==> c == ';') && (LowerChar(c) == ',' <==> c == ',')
    ensures (LowerChar(c) == '-' <==> c == '-') && (LowerChar(c) == '+' <==> c == '+') && (LowerChar(c) == '0' <==> c == '0')
    ensures (LowerChar(c) == 'x' <==> c == 'x' || c == 'X') && LowerChar(c) != 'X'
    ensures DigitValue(LowerChar(c)) == DigitValue(c) && LowerChar(LowerChar(c)) == LowerChar(c)
  {
  }

  lemma LowerCons(s: string)
    requires s != []
    ensures |Lower(s)| == |s| && Lower(s)[0] == LowerChar(s[0]) && Lower(s)[1..] == Lower(s[1..])
  {
  }

  lemma LowerSlice(s: string, n: nat)
    requires n <= |s|
    ensures Lower(s)[..n] == Lower(s[..n]) && Lower(s)[n..] == Lower(s[n..])
  {
  }

  lemma {:induction false} OperandEndLower(s: string)
    ensures OperandEnd(Lower(s)) == OperandEnd(s)
    decreases |s|
  {
    if s != [] {
      LowerCons(s);
      LowerIs(s[0]);
      hide Lower, LowerChar, IsSpace, OperandChar;
      OperandEndLower(s[1..]);
    }
  }

  lemma {:induction false} OpcodeEndLower(s: string)
    ensures OpcodeEnd(Lower(s)) == OpcodeEnd(s)
    decreases |s|
  {
    if s != [] {
      LowerCons(s);
      LowerIs(s[0]);
      hide Lower, LowerChar, IsSpace, OpcodeChar;
      OpcodeEndLower(s[1..]);
    }
  }

  function LowerParsed(p: Parsed): Parsed { if p.Bad? then Bad else Good(Lower(p.tok), Lower(p.rest)) }

  lemma LowerNothing()
    ensures Lower([]) == []
  {
  }

  lemma {:induction false} OperandLower(s: string, comma: bool)
    ensures ParseOperand(Lower(s), comma) == LowerParsed(ParseOperand(s, comma))
    decreases |s|
  {
    LowerNothing();
    if s != [] {
      LowerCons(s);
      LowerIs(s[0]);
      OperandEndLower(s);
      var n := OperandEnd(s);
      if n.Some? {
        LowerSlice(s, n.value);
      }
      hide Lower, LowerChar, IsSpace, OperandStart, OperandEnd;
      if IsSpace(s[0]) {
        OperandLower(s[1..], comma);
      } else if s[0] == ',' {
        OperandLower(s[1..], true);
      }
    }
  }

  lemma {:induction false} CommandLower(s: string)
    ensures ParseCommand(Lower(s)) == LowerParsed(ParseCommand(s))
    decreases |s|
  {
    LowerNothing();
    if s != [] {
      LowerCons(s);
      LowerIs(s[0]);
      OpcodeEndLower(s);
      var n := OpcodeEnd(s);
      if n.Some? {
        LowerSlice(s, n.value);
      }
      hide Lower, LowerChar, IsSpace, OpcodeChar, OpcodeEnd;
      if IsSpace(s[0]) {
        CommandLower(s[1..]);
      }
    }
  }

  function LowerAll(ops: seq<string>): seq<string> { seq(|ops|, i requires 0 <= i < |ops| => Lower(ops[i])) }

  lemma LowerLength(s: string)
    ensures |Lower(s)| == |s| && (Lower(s) == [] <==> s == [])
  {
  }

  lemma LowerAllCons(t: string, ts: seq<string>)
    ensures LowerAll([t] + ts) == [Lower(t)] + LowerAll(ts)
  {
  }

  lemma LowerAllNothing()
    ensures LowerAll([]) == []
  {
  }

  lemma {:induction false} OperandsLower(s: string)
    ensures ParseOperands(Lower(s)) == (var r := ParseOperands(s); if r.None? then None else Some(LowerAll(r.value)))
    decreases |s|
  {
    hide ParseOperand, ParseOperands, Lower, LowerAll;
    LowerLength(s);
    NoOperands();
    LowerAllNothing();
    if s != [] {
      OperandLower(s, false);
      OperandsNext(s);
      OperandsNext(Lower(s));
      var p := ParseOperand(s, false);
      if p.Good? {
        LowerLength(p.tok);
        OperandsLower(p.rest);
        var rest := ParseOperands(p.rest);
        if rest.Some? {
          LowerAllCons(p.tok, rest.value);
        }
      }
    }
  }

  function LowerCommand(c: Command): Command { Command(Lower(c.opcode), LowerAll(c.operands)) }

  /** Reading a line in lower case gives its tokens in lower case. */
  lemma LineLower(s: string)
    ensures ParseLine(Lower(s)) ==
            match ParseLine(s)
            case Line(c) => Line(LowerCommand(c))
            case r => r
  {
    hide ParseCommand, ParseOperands, Lower, LowerAll;
    CommandLower(s);
    var p := ParseCommand(s);
    if p.Good? {
      LowerLength(p.tok);
      OperandsLower(p.rest);
    }
  }

  lemma {:induction false} EvalLower(s: string, base: nat)
    requires 2 <= base <= 16
    ensures Eval(Lower(s), base) == Eval(s, base)
    decreases |s|
  {
    if s != [] {
      var n := |s| - 1;
      assert Lower(s)[..n] == Lower(s[..n]) && Lower(s)[n] == LowerChar(s[n]);
      LowerIs(s[n]);
      EvalLower(s[..n], base);
    }
  }

  lemma MagnitudeLower(s: string)
    ensures Magnitude(Lower(s)) == Magnitude(s)
  {
    hide Eval;
    EvalLower(s, 8);
    EvalLower(s, 10);
    if s != [] {
      LowerIs(s[0]);
    }
    if |s| > 2 {
      LowerIs(s[1]);
      LowerSlice(s, 2);
      EvalLower(s[2..], 16);
    }
  }

  lemma NumbersLower(s: string)
    ensures ParseUnsigned(Lower(s)) == ParseUnsigned(s) && ParseInt(Lower(s)) == ParseInt(s)
  {
    hide Magnitude;
    MagnitudeLower(s);
    if s != [] {
      LowerIs(s[0]);
      LowerSlice(s, 1);
      MagnitudeLower(s[1..]);
    }
  }

  lemma LowerTwice(s: string)
    ensures Lower(Lower(s)) == Lower(s)
  {
  }

  /** Floating point text is read alike in upper and lower case. */
  ghost predicate FloatsBlind(F: Floats) { forall s: string :: F.parse(Lower(s)) == F.parse(s) }

  lemma OperandsBlind(F: Floats, ops: seq<string>, i: nat)
    requires FloatsBlind(F) && i < |ops|
    ensures |LowerAll(ops)| == |ops| && LowerAll(ops)[i] == Lower(ops[i])
    ensures VpuNo(LowerAll(ops)[i]) == VpuNo(ops[i]) && ThNo(LowerAll(ops)[i]) == ThNo(ops[i])
    ensures LenPayload(LowerAll(ops)[i]) == LenPayload(ops[i]) && AddrPayload(LowerAll(ops)[i]) == AddrPayload(ops[i])
    ensures EnPayload(LowerAll(ops)[i]) == EnPayload(ops[i]) && AccPayload(F, LowerAll(ops)[i]) == AccPayload(F, ops[i])
    ensures Exponent(LowerAll(ops)[i]) == Exponent(ops[i]) && ParseUnsigned(LowerAll(ops)[i]) == ParseUnsigned(ops[i])
    ensures Lower(LowerAll(ops)[i]) == Lower(ops[i])
  {
    LowerTwice(ops[i]);
    NumbersLower(ops[i]);
    hide Lower, ParseUnsigned, ParseInt;
  }

  lemma ThreadBlind(F: Floats, op: nat, ops: seq<string>)
    requires FloatsBlind(F) && |ops| == 3 && op < 32
    ensures |LowerAll(ops)| == 3
    ensures GenThread(op, LowerAll(ops), LenPayload(LowerAll(ops)[2])) == GenThread(op, ops, LenPayload(ops[2]))
    ensures GenThread(op, LowerAll(ops), AddrPayload(LowerAll(ops)[2])) == GenThread(op, ops, AddrPayload(ops[2]))
    ensures GenThread(op, LowerAll(ops), EnPayload(LowerAll(ops)[2])) == GenThread(op, ops, EnPayload(ops[2]))
    ensures GenThread(op, LowerAll(ops), AccPayload(F, LowerAll(ops)[2])) == GenThread(op, ops, AccPayload(F, ops[2]))
  {
    hide VpuNo, ThNo, LenPayload, AddrPayload, EnPayload, AccPayload, Exponent, ParseUnsigned, Lower, LowerAll;
    OperandsBlind(F, ops, 0);
    OperandsBlind(F, ops, 1);
    OperandsBlind(F, ops, 2);
  }

  lemma VpuBlind(F: Floats, op: nat, ops: seq<string>, all: nat, one: nat)
    requires FloatsBlind(F) && op < 32 && all < DST_UNIT && one < DST_UNIT
    ensures GenVpu(op, LowerAll(ops), all, one) == GenVpu(op, ops, all, one)
  {
    hide VpuNo, ThNo, LenPayload, AddrPayload, EnPayload, AccPayload, Exponent, ParseUnsigned, Lower;
    if ops != [] {
      OperandsBlind(F, ops, 0);
    }
  }

  lemma SyncBlind(F: Floats, ops: seq<string>)
    requires FloatsBlind(F)
    ensures GenSync(LowerAll(ops)) == GenSync(ops) && GenLRelu(LowerAll(ops)) == GenLRelu(ops)
    ensures |ops| == 1 ==> ParseUnsigned(LowerAll(ops)[0]) == ParseUnsigned(ops[0])
  {
    hide VpuNo, ThNo, LenPayload, AddrPayload, EnPayload, AccPayload, Exponent, ParseUnsigned, Lower;
    if |ops| > 0 { OperandsBlind(F, ops, 0); }
    if |ops| > 1 { OperandsBlind(F, ops, 1); }
  }

  lemma OpBlind(F: Floats, junk: nat, op: string, ops: seq<string>)
    requires junk < PAYLOAD_LIMIT && FloatsBlind(F)
    ensures GenerateOp(F, junk, op, LowerAll(ops)) == GenerateOp(F, junk, op, ops)
  {
    hide GenerateOp, FloatsBlind;
    if |ops| == 3 {
      ThreeBlind(F, junk, op, ops);
    } else {
      FewBlind(F, junk, op, ops);
    }
  }

  lemma FewBlind(F: Floats, junk: nat, op: string, ops: seq<string>)
    requires junk < PAYLOAD_LIMIT && FloatsBlind(F) && |ops| != 3
    ensures GenerateOp(F, junk, op, LowerAll(ops)) == GenerateOp(F, junk, op, ops)
  {
    assert |LowerAll(ops)| == |ops|;
    hide LowerAll, GenThread, GenVpu, GenSync, GenLRelu, ParseUnsigned, FloatsBlind;
    if op == "prod" {
      VpuBlind(F, PROD, ops, 0, 0);
    } else if op == "store" {
      VpuBlind(F, STORE, ops, 0, 0);
    } else if op == "relu" {
      VpuBlind(F, ACTF, ops, 0, junk);
    } else {
      OthersBlind(F, junk, op, ops);
    }
  }

  lemma OthersBlind(F: Floats, junk: nat, op: string, ops: seq<string>)
    requires junk < PAYLOAD_LIMIT && FloatsBlind(F) && |ops| != 3 && op != "prod" && op != "store" && op != "relu"
    ensures GenerateOp(F, junk, op, LowerAll(ops)) == GenerateOp(F, junk, op, ops)
  {
    assert |LowerAll(ops)| == |ops|;
    hide LowerAll, GenThread, GenVpu, GenSync, GenLRelu, ParseUnsigned, FloatsBlind;
    if op == "sync" {
      SyncBlind(F, ops);
    } else if op == "lrelu" {
      SyncBlind(F, ops);
    } else if op == ".quad" {
      SyncBlind(F, ops);
    }
  }

  lemma ThreeBlind(F: Floats, junk: nat, op: string, ops: seq<string>)
    requires junk < PAYLOAD_LIMIT && FloatsBlind(F) && |ops| == 3
    ensures GenerateOp(F, junk, op, LowerAll(ops)) == GenerateOp(F, junk, op, ops)
  {
    assert |LowerAll(ops)| == |ops|;
    hide LowerAll, GenThread, LenPayload, AddrPayload, EnPayload, AccPayload, ParseUnsigned, FloatsBlind;
    if op == "setacc" {
      ThreadBlind(F, SETACC, ops);
    } else if op == "setvl" {
      ThreadBlind(F, SETVL, ops);
    } else if op == "setrs" {
      ThreadBlind(F, SETRS, ops);
    } else if op == "setrt" {
      ThreadBlind(F, SETRT, ops);
    } else if op == "setrd" {
      ThreadBlind(F, SETRD, ops);
    } else if op == "seten" {
      ThreadBlind(F, SETEN, ops);
    }
  }

  lemma GenerateBlind(F: Floats, junk: nat, c: Command)
    requires junk < PAYLOAD_LIMIT && FloatsBlind(F)
    ensures AsmText.Generate(F, junk, LowerCommand(c)) == AsmText.Generate(F, junk, c)
  {
    LowerTwice(c.opcode);
    hide Lower, LowerAll, GenerateOp;
    OpBlind(F, junk, Lower(c.opcode), c.operands);
  }

  /** Upper and lower case never matter: lines that differ in case only assemble to the same. */
  lemma CaseBlind(F: Floats, junk: nat, a: string, b: string)
    requires junk < PAYLOAD_LIMIT && FloatsBlind(F) && Lower(a) == Lower(b)
    ensures AssembleLine(F, junk, a) == AssembleLine(F, junk, b)
  {
    hide ParseLine, AsmText.Generate, LowerCommand, Lower, FloatsBlind;
    LineLower(a);
    LineLower(b);
    LowerBlind(F, junk, a);
    LowerBlind(F, junk, b);
  }

  lemma LowerBlind(F: Floats, junk: nat, a: string)
    requires junk < PAYLOAD_LIMIT && FloatsBlind(F)
    ensures AssembleLine(F, junk, Lower(a)) == AssembleLine(F, junk, a)
  {
    hide ParseLine, AsmText.Generate, LowerCommand, Lower, FloatsBlind;
    LineLower(a);
    match ParseLine(a)
    case Line(c) => GenerateBlind(F, junk, c);
    case _ =>
  }

  // ---- The word each command stands for ----

  lemma PackIs(op: nat, vpu: nat, th: nat, payload: nat)
    requires op < 32 && vpu < 32 && th < 8 && payload < DST_UNIT
    ensures Pack(op, vpu * 8 + th, payload) == WordOf(op, vpu, th, payload)
  {
  }

  lemma NamesRead(vpu: nat, th: nat)
    requires vpu < 2 && th < 8
    ensures VpuNo(VpuText(vpu)) == Some(vpu) && ThNo(ThText(th)) == Some(th)
    ensures MakeDst(vpu, th) == vpu * 8 + th && VpuDst(vpu) == vpu * 8 + 1
  {
    RT.VpuReads(vpu);
    RT.ThReads(th);
  }

  /** A command that addresses one thread: its word, when its value can be read. */
  function ThreadWord(op: nat, vpu: nat, th: nat, value: Option<nat>): Option<Word>
    requires op < 32 && vpu < 2 && th < 8 && (value.Some? ==> value.value < DST_UNIT)
  {
    if value.None? then None else Some(WordOf(op, vpu, th, value.value))
  }

  lemma GenThreadMeans(op: nat, vpu: nat, th: nat, s: string, payload: Option<nat>)
    requires op < 32 && vpu < 2 && th < 8 && (payload.Some? ==> payload.value < DST_UNIT)
    ensures GenThread(op, [VpuText(vpu), ThText(th), s], payload) == ThreadWord(op, vpu, th, payload)
  {
    hide VpuNo, ThNo, VpuText, ThText, Pack, WordOf, MakeDst;
    NamesRead(vpu, th);
    if payload.Some? {
      PackIs(op, vpu, th, payload.value);
    }
  }

  /** Commands for a thread: opcode numbers, where VPU and thread go, and how the value is cut to its field. */
  lemma ThreadCommands(F: Floats, junk: nat, vpu: nat, th: nat, s: string)
    requires junk < PAYLOAD_LIMIT && vpu < 2 && th < 8
    ensures
      var ops := [VpuText(vpu), ThText(th), s];
      var n, x := ParseUnsigned(s), F.parse(s);
      && GenerateOp(F, junk, "setacc", ops) == ThreadWord(0x08, vpu, th, if x.None? then None else Some(x.value % 0x1_0000_0000))
      && GenerateOp(F, junk, "setvl", ops) == ThreadWord(0x09, vpu, th, if n.None? then None else Some(n.value % 0x1_0000_0000 % 0x10_0000))
      && GenerateOp(F, junk, "setrs", ops) == ThreadWord(0x0C, vpu, th, if n.None? then None else Some(n.value / 4 % 0x40_0000_0000))
      && GenerateOp(F, junk, "setrt", ops) == ThreadWord(0x0D, vpu, th, if n.None? then None else Some(n.value / 4 % 0x40_0000_0000))
      && GenerateOp(F, junk, "setrd", ops) == ThreadWord(0x0E, vpu, th, if n.None? then None else Some(n.value / 4 % 0x40_0000_0000))
  {
    hide GenThread, ThreadWord, ParseUnsigned, VpuText, ThText;
    GenThreadMeans(SETACC, vpu, th, s, AccPayload(F, s));
    GenThreadMeans(SETVL, vpu, th, s, LenPayload(s));
    GenThreadMeans(SETRS, vpu, th, s, AddrPayload(s));
    GenThreadMeans(SETRT, vpu, th, s, AddrPayload(s));
    GenThreadMeans(SETRD, vpu, th, s, AddrPayload(s));
  }

  lemma EnableCommands(F: Floats, junk: nat, vpu: nat, th: nat)
    requires junk < PAYLOAD_LIMIT && vpu < 2 && th < 8
    ensures GenerateOp(F, junk, "seten", [VpuText(vpu), ThText(th), "set"]) == Some(WordOf(0x0A, vpu, th, 1))
    ensures GenerateOp(F, junk, "seten", [VpuText(vpu), ThText(th), "clr"]) == Some(WordOf(0x0A, vpu, th, 0))
  {
    RT.Keywords();
    hide GenThread, VpuText, ThText, WordOf, Lower;
    GenThreadMeans(SETEN, vpu, th, "set", EnPayload("set"));
    GenThreadMeans(SETEN, vpu, th, "clr", EnPayload("clr"));
  }

  lemma GenVpuMeans(op: nat, vpu: nat, all: nat, one: nat)
    requires op < 32 && vpu < 2 && all < DST_UNIT && one < DST_UNIT
    ensures GenVpu(op, [], all, one) == Some(WordOf(op, 0, 0, all))
    ensures GenVpu(op, [VpuText(vpu)], all, one) == Some(WordOf(op, vpu, 1, one))
  {
    NamesRead(vpu, 1);
    PackIs(op, 0, 0, all);
    PackIs(op, vpu, 1, one);
    hide VpuNo, VpuText, Pack, WordOf, VpuDst;
  }

  /** Commands for all threads, or for those of one VPU; the activation with a VPU carries junk. */
  lemma VpuCommands(F: Floats, junk: nat, vpu: nat)
    requires junk < PAYLOAD_LIMIT && vpu < 2
    ensures GenerateOp(F, junk, "prod", []) == Some(WordOf(0x10, 0, 0, 0)) && GenerateOp(F, junk, "prod", [VpuText(vpu)]) == Some(WordOf(0x10, vpu, 1, 0))
    ensures GenerateOp(F, junk, "store", []) == Some(WordOf(0x11, 0, 0, 0)) && GenerateOp(F, junk, "store", [VpuText(vpu)]) == Some(WordOf(0x11, vpu, 1, 0))
    ensures GenerateOp(F, junk, "relu", []) == Some(WordOf(0x12, 0, 0, 0)) && GenerateOp(F, junk, "relu", [VpuText(vpu)]) == Some(WordOf(0x12, vpu, 1, junk))
    ensures GenerateOp(F, junk, "nop", []) == Some(WordOf(0x00, 0, 0, 0))
  {
    hide GenVpu, VpuText, WordOf, Pack;
    GenVpuMeans(PROD, vpu, 0, 0);
    GenVpuMeans(STORE, vpu, 0, 0);
    GenVpuMeans(ACTF, vpu, 0, junk);
    PackIs(NOP, 0, 0, 0);
  }

  /** The scale factor of leaky ReLU: a number that is not positive, in seven bits. */
  lemma LReluCommands(F: Floats, junk: nat, vpu: nat, s: string)
    requires junk < PAYLOAD_LIMIT && vpu < 2
    ensures
      var e := ParseInt(s);
      var ok := e.Some? && e.value <= 0;
      && GenerateOp(F, junk, "lrelu", [s]) == (if ok then Some(WordOf(0x12, 0, 0, 0x400_0000_0000 + e.value % 128)) else None)
      && GenerateOp(F, junk, "lrelu", [VpuText(vpu), s]) == (if ok then Some(WordOf(0x12, vpu, 1, 0x400_0000_0000 + e.value % 128)) else None)
  {
    NamesRead(vpu, 1);
    var e := Exponent(s);
    if e.Some? {
      PackIs(ACTF, 0, 0, AF_UNIT + e.value);
      PackIs(ACTF, vpu, 1, AF_UNIT + e.value);
    }
    hide VpuNo, VpuText, Pack, WordOf, VpuDst, ParseInt;
  }

  /** Operand counts: any other number is an error, as is any other opcode. */
  predicate Arity(op: string, n: nat) {
    || (n == 3 && op in {"setacc", "setvl", "setrs", "setrt", "setrd", "seten"})
    || (n <= 1 && op in {"prod", "store", "relu"}) || (n == 2 && op == "sync") || op == "nop"
    || (1 <= n <= 2 && op == "lrelu") || (n == 1 && op == ".quad")
  }

  lemma WrongArity(F: Floats, junk: nat, op: string, ops: seq<string>)
    requires junk < PAYLOAD_LIMIT && !Arity(op, |ops|)
    ensures GenerateOp(F, junk, op, ops) == None
  {
    hide GenThread;
  }

  // ---- Numbers ----

  lemma {:induction false} ZeroEval(s: string, base: nat)
    requires 2 <= base <= 16
    ensures Eval(['0'] + s, base) == Eval(s, base)
    decreases |s|
  {
    var z := ['0'] + s;
    if s == [] {
      assert z[..0] == [] && z[0] == '0' && DigitValue('0') == 0;
      EvalNothing(base);
      assert z == ['0'];
    } else {
      var n := |s| - 1;
      assert z[..n + 1] == ['0'] + s[..n] && z[n + 1] == s[n];
      ZeroEval(s[..n], base);
    }
  }

  /** Numbers are read in base 8 behind a leading zero; a minus wraps; what exceeds 64 bits is refused. */
  lemma NumbersRead(n: nat)
    ensures ParseUnsigned(['0'] + Digits(n, 8)) == if n <= ULL_MAX then Some(n) else None
    ensures ParseUnsigned(Hex(n)) == (if n <= ULL_MAX then Some(n) else None) && ParseUnsigned(Dec(n)) == if n <= ULL_MAX then Some(n) else None
    ensures 0 < n <= ULL_MAX ==> ParseUnsigned(['-'] + Dec(n)) == Some(0x1_0000_0000_0000_0000 - n)
    ensures ParseUnsigned(['+'] + Dec(n)) == ParseUnsigned(Dec(n))
  {
    hide Eval;
    EvalDigits(n, 8);
    ZeroEval(Digits(n, 8), 8);
    DigitChars(n, 8);
    OctalDigit(n);
    EvalDigits(n, 16);
    assert Hex(n)[2..] == Digits(n, 16);
    DecMagnitude(n);
    assert (['-'] + Dec(n))[1..] == Dec(n) && (['+'] + Dec(n))[1..] == Dec(n);
  }

  lemma OctalDigit(n: nat)
    ensures Digits(n, 8)[0] != 'x' && Digits(n, 8)[0] != 'X'
  {
    DigitChars(n, 8);
    EvalDigits(n, 8);
  }

  lemma SyncCommands(F: Floats, junk: nat, stop: bool, intr: bool)
    requires junk < PAYLOAD_LIMIT
    ensures GenerateOp(F, junk, "sync", [if stop then "stop" else "nostop", if intr then "int" else "noint"]) ==
            Some(WordOf(0x01, 0, 0, (if stop then 1 else 0) + (if intr then 2 else 0)))
  {
    RT.Keywords();
    PackIs(SYNC, 0, 0, (if stop then 1 else 0) + (if intr then 2 else 0));
    hide Lower, Pack, WordOf;
  }

  lemma OneDigitNames(n: nat)
    requires n < 10
    ensures VpuText(n) == ['v', 'p', 'u', ('0' as int + n) as char] && ThText(n) == ['t', 'h', ('0' as int + n) as char]
  {
    assert Digits(n, 10) == [Digit(n)];
  }

  // ---- Any blanks and commas between operands ----

  predicate Separator(s: string) { forall i :: 0 <= i < |s| ==> IsSpace(s[i]) || s[i] == ',' }

  /** Operand i behind separator i. */
  function Spread(seps: seq<string>, ops: seq<string>): string
    requires |seps| == |ops|
    decreases |ops|
  {
    if ops == [] then [] else seps[0] + (ops[0] + Spread(seps[1..], ops[1..]))
  }

  lemma {:induction false} SeparatedOperand(sep: string, t: string, rest: string, comma: bool)
    requires Separator(sep) && OperandText(t) && (rest == [] || IsSpace(rest[0]) || rest[0] == ';' || rest[0] == ',')
    ensures ParseOperand(sep + (t + rest), comma) == Good(t, rest)
    decreases |sep|
  {
    hide OperandText, OperandEnd;
    var s := sep + (t + rest);
    if sep == [] {
      assert s == t + rest;
      OperandTaken(t, rest, comma);
    } else {
      assert s[0] == sep[0] && s[1..] == sep[1..] + (t + rest);
      SeparatedOperand(sep[1..], t, rest, comma || sep[0] == ',');
    }
  }

  lemma SpreadStarts(seps: seq<string>, ops: seq<string>, r: string)
    requires |seps| == |ops| && Trailing(r) && forall i :: 0 <= i < |ops| ==> Separator(seps[i]) && seps[i] != []
    ensures var s := Spread(seps, ops) + r; s == [] || IsSpace(s[0]) || s[0] == ';' || s[0] == ','
  {
    if ops != [] {
      assert (Spread(seps, ops) + r)[0] == seps[0][0];
    }
  }

  lemma {:induction false} SpreadReads(seps: seq<string>, ops: seq<string>, r: string)
    requires |seps| == |ops| && Trailing(r)
    requires forall i :: 0 <= i < |ops| ==> Separator(seps[i]) && seps[i] != [] && OperandText(ops[i])
    ensures ParseOperands(Spread(seps, ops) + r) == Some(ops)
    decreases |ops|
  {
    hide ParseOperands, ParseOperand, OperandText, Trailing, Separator;
    if ops == [] {
      assert Spread(seps, ops) + r == r;
      TrailingOperands(r);
    } else {
      var rest := Spread(seps[1..], ops[1..]) + r;
      var s := Spread(seps, ops) + r;
      assert s == seps[0] + (ops[0] + rest);
      SpreadStarts(seps[1..], ops[1..], r);
      SeparatedOperand(seps[0], ops[0], rest, false);
      OperandsNext(s);
      SpreadReads(seps[1..], ops[1..], r);
      assert ops == [ops[0]] + ops[1..];
      TokenFull(ops[0]);
    }
  }

  /** A command is read whatever blanks and commas stand between its operands, and whatever comment follows. */
  lemma WrittenReads(opcode: string, seps: seq<string>, ops: seq<string>, r: string)
    requires OpcodeText(opcode) && |seps| == |ops| && ops != [] && Trailing(r) && seps[0] != [] && IsSpace(seps[0][0])
    requires forall i :: 0 <= i < |ops| ==> Separator(seps[i]) && seps[i] != [] && OperandText(ops[i])
    ensures ParseLine(opcode + (Spread(seps, ops) + r)) == Line(Command(opcode, ops))
  {
    var s := Spread(seps, ops) + r;
    assert s[0] == seps[0][0];
    hide ParseOperands, ParseCommand, Trailing, Separator, OperandText, Spread;
    SpreadReads(seps, ops, r);
    OpcodeTaken(opcode, s);
    assert opcode != [];
  }
}
