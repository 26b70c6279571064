/**
 The line tokenizer of the assembler: an opcode, operands separated by commas or blanks, and
 a comment from ';' on.

 The scanners are index loops over the characters of a line that set flags and throw on what
 they cannot place.  Each is proved against a grammar function that says where an operand or
 an opcode begins and ends, and the grammar is then shown to read back what a printer wrote.
 */
module Tokens {
  import opened Wrappers

  predicate IsAlnum(c: char) { '0' <= c <= '9' || 'a' <= c <= 'z' || 'A' <= c <= 'Z' }
  predicate IsSpace(c: char) { c == ' ' || '\t' <= c <= '\r' }

  predicate OperandStart(c: char) { IsAlnum(c) || c == '-' || c == '+' }
  predicate OperandChar(c: char) { IsAlnum(c) || c == '.' || c == '-' || c == '+' }
  predicate OpcodeChar(c: char) { IsAlnum(c) || c == '.' }

  /** A token, empty when the line has none left, and the rest of the line. */
  datatype Parsed = Bad | Good(tok: string, rest: string)

  /** Length of the operand at the start of s. */
  function OperandEnd(s: string): (n: Option<nat>)
    ensures n.Some? ==> n.value <= |s|
  {
    if s == [] || IsSpace(s[0]) || s[0] == ';' || s[0] == ',' then Some(0)
    else if !OperandChar(s[0]) then None
    else
      var n := OperandEnd(s[1..]);
      if n.None? then None else Some(n.value + 1)
  }

  function TakeOperand(s: string): (r: Parsed)
    requires s != [] && OperandStart(s[0])
    ensures r.Good? ==> |r.rest| < |s|
  {
    var n := OperandEnd(s);
    if n.None? then Bad else Good(s[..n.value], s[n.value..])
  }

  /** comma: an operand must follow. */
  function ParseOperand(s: string, comma: bool): (r: Parsed)
    ensures r.Good? && s != [] ==> |r.rest| < |s|
    ensures r.Good? && s == [] ==> r.rest == []
  {
    if s == [] then (if comma then Bad else Good([], []))
    else if OperandStart(s[0]) then TakeOperand(s)
    else if IsSpace(s[0]) then ParseOperand(s[1..], comma)
    else if s[0] == ',' then ParseOperand(s[1..], true)
    else if s[0] == ';' then Good([], [])
    else Bad
  }

  function OpcodeEnd(s: string): (n: Option<nat>)
    ensures n.Some? ==> n.value <= |s|
  {
    if s == [] || IsSpace(s[0]) || s[0] == ';' then Some(0)
    else if !OpcodeChar(s[0]) then None
    else
      var n := OpcodeEnd(s[1..]);
      if n.None? then None else Some(n.value + 1)
  }

  function ParseCommand(s: string): Parsed {
    if s == [] then Good([], [])
    else if OpcodeChar(s[0]) then
      var n := OpcodeEnd(s);
      if n.None? then Bad else Good(s[..n.value], s[n.value..])
    else if IsSpace(s[0]) then ParseCommand(s[1..])
    else if s[0] == ';' then Good([], [])
    else Bad
  }

  datatype Command = Command(opcode: string, operands: seq<string>)
  datatype Line = Error | Empty | Line(cmd: Command)

  function ParseOperands(s: string): Option<seq<string>>
    decreases |s|
  {
    if s == [] then Some([])
    else
      var p := ParseOperand(s, false);
      if p.Bad? then None
      else
        var rest := ParseOperands(p.rest);
        if rest.None? then None else Some((if p.tok == [] then [] else [p.tok]) + rest.value)
  }

  function ParseLine(s: string): Line {
    var p := ParseCommand(s);
    if p.Bad? then Error
    else if p.tok == [] then Empty
    else
      var ops := ParseOperands(p.rest);
      if ops.None? then Error else Line(Command(p.tok, ops.value))
  }

  /** A token in front of the remaining operands. */
  function Prepend(tok: string, rest: Option<seq<string>>): Option<seq<string>> {
    if rest.None? then None else if tok == [] then rest else Some([tok] + rest.value)
  }

  lemma OperandsNext(s: string)
    requires s != []
    ensures ParseOperands(s) ==
            (var p := ParseOperand(s, false); if p.Bad? then None else Prepend(p.tok, ParseOperands(p.rest)))
  {
    var p := ParseOperand(s, false);
    if p.Good? && ParseOperands(p.rest).Some? {
      var none: seq<string> := [];
      assert none + ParseOperands(p.rest).value == ParseOperands(p.rest).value;
    }
  }

  // ---- The index loops of the sources ----

  lemma OperandEndNext(line: string, i: nat)
    requires i < |line| && !IsSpace(line[i]) && line[i] != ';' && line[i] != ','
    ensures OperandEnd(line[i..]) ==
            if !OperandChar(line[i]) then None
            else (var n := OperandEnd(line[i + 1..]); if n.None? then None else Some(n.value + 1))
  {
    assert line[i..][1..] == line[i + 1..];
  }

  lemma OpcodeEndNext(line: string, i: nat)
    requires i < |line| && !IsSpace(line[i]) && line[i] != ';'
    ensures OpcodeEnd(line[i..]) ==
            if !OpcodeChar(line[i]) then None
            else (var n := OpcodeEnd(line[i + 1..]); if n.None? then None else Some(n.value + 1))
  {
    assert line[i..][1..] == line[i + 1..];
  }

  lemma TakenOperand(line: string, start: nat, end: nat, comma: bool)
    requires start < end <= |line| && OperandStart(line[start]) && OperandEnd(line[start..]) == Some(end - start)
    ensures ParseOperand(line[start..], comma) == Good(line[start..end], line[end..])
  {
    assert line[start..][..end - start] == line[start..end] && line[start..][end - start..] == line[end..];
  }

  lemma SkippedOperand(line: string, i: nat, comma: bool)
    requires i < |line| && !OperandStart(line[i])
    ensures ParseOperand(line[i..], comma) ==
            if IsSpace(line[i]) then ParseOperand(line[i + 1..], comma)
            else if line[i] == ',' then ParseOperand(line[i + 1..], true)
            else if line[i] == ';' then Good([], []) else Bad
  {
    assert line[i..][1..] == line[i + 1..];
  }

  /** Find the end of the operand that starts at start. */
  method OperandStop(line: string, start: nat) returns (ok: bool, end: nat)
    requires start < |line| && OperandStart(line[start])
    ensures ok <==> OperandEnd(line[start..]).Some?
    ensures ok ==> start < end <= |line| && OperandEnd(line[start..]) == Some(end - start)
  {
    hide OperandEnd, IsSpace, OperandChar;
    StartChar(line[start]);
    end := start;
    while end < |line| && !IsSpace(line[end]) && line[end] != ';' && line[end] != ','
      invariant start <= end <= |line|
      invariant OperandEnd(line[start..]) ==
                (var n := OperandEnd(line[end..]); if n.None? then None else Some(n.value + (end - start)))
    {
      OperandEndNext(line, end);
      if !OperandChar(line[end]) {
        return false, end;
      }
      end := end + 1;
    }
    OperandStops(line[end..]);
    ok := true;
  }

  lemma StartChar(c: char)
    requires OperandStart(c)
    ensures OperandChar(c) && !IsSpace(c) && c != ';' && c != ','
  {
  }

  lemma OperandStops(s: string)
    requires s == [] || IsSpace(s[0]) || s[0] == ';' || s[0] == ','
    ensures OperandEnd(s) == Some(0)
  {
  }

  /** parse_operand: ok is false where the source throws; otherwise the token and the position after it. */
  method ScanOperand(line: string, col: nat) returns (ok: bool, tok: string, pos: nat)
    requires col < |line|
    ensures ok <==> ParseOperand(line[col..], false).Good?
    ensures ok ==> col < pos <= |line| && ParseOperand(line[col..], false) == Good(tok, line[pos..])
  {
    hide ParseOperand, OperandStart, IsSpace, OperandEnd;
    tok, pos := [], 0;
    var i, mustExist := col, false;
    while i < |line| && !OperandStart(line[i])
      invariant col <= i <= |line|
      invariant ParseOperand(line[col..], false) == ParseOperand(line[i..], mustExist)
    {
      SkippedOperand(line, i, mustExist);
      if !IsSpace(line[i]) {
        if line[i] == ',' {
          mustExist := true;
        } else if line[i] == ';' {
          return true, [], |line|;
        } else {
          return false, [], 0;
        }
      }
      i := i + 1;
    }
    if i == |line| {
      LineEnds(mustExist);
      return !mustExist, [], i;
    }
    ok, pos := OperandStop(line, i);
    if ok {
      TakenOperand(line, i, pos, mustExist);
      tok := line[i..pos];
    } else {
      NoOperand(line[i..], mustExist);
    }
  }

  lemma LineEnds(comma: bool)
    ensures ParseOperand([], comma) == if comma then Bad else Good([], [])
  {
  }

  lemma NoOperand(s: string, comma: bool)
    requires s != [] && OperandStart(s[0]) && OperandEnd(s).None?
    ensures ParseOperand(s, comma).Bad?
  {
  }

  lemma SkippedCommand(line: string, i: nat)
    requires i < |line| && !OpcodeChar(line[i])
    ensures ParseCommand(line[i..]) ==
            if IsSpace(line[i]) then ParseCommand(line[i + 1..]) else if line[i] == ';' then Good([], []) else Bad
  {
    assert line[i..][1..] == line[i + 1..];
  }

  lemma TakenCommand(line: string, start: nat)
    requires start < |line| && OpcodeChar(line[start])
    ensures var n := OpcodeEnd(line[start..]);
            ParseCommand(line[start..]) == if n.None? then Bad else Good(line[start..start + n.value], line[start + n.value..])
  {
    var n := OpcodeEnd(line[start..]);
    if n.Some? {
      assert line[start..][..n.value] == line[start..start + n.value] && line[start..][n.value..] == line[start + n.value..];
    }
  }

  lemma OpcodeStops(s: string)
    requires s == [] || IsSpace(s[0]) || s[0] == ';'
    ensures OpcodeEnd(s) == Some(0)
  {
  }

  method OpcodeStop(line: string, start: nat) returns (ok: bool, end: nat)
    requires start < |line|
    ensures ok <==> OpcodeEnd(line[start..]).Some?
    ensures ok ==> start <= end <= |line| && OpcodeEnd(line[start..]) == Some(end - start)
  {
    hide OpcodeEnd, IsSpace, OpcodeChar;
    end := start;
    while end < |line| && !IsSpace(line[end]) && line[end] != ';'
      invariant start <= end <= |line|
      invariant OpcodeEnd(line[start..]) ==
                (var n := OpcodeEnd(line[end..]); if n.None? then None else Some(n.value + (end - start)))
    {
      OpcodeEndNext(line, end);
      if !OpcodeChar(line[end]) {
        return false, end;
      }
      end := end + 1;
    }
    OpcodeStops(line[end..]);
    ok := true;
  }

  /** parse_command. */
  method ScanCommand(line: string) returns (ok: bool, tok: string, pos: nat)
    ensures ok <==> ParseCommand(line).Good?
    ensures ok ==> pos <= |line| && ParseCommand(line) == Good(tok, line[pos..])
  {
    hide ParseCommand, OpcodeChar, IsSpace, OpcodeEnd;
    tok, pos := [], 0;
    var i := 0;
    assert line[0..] == line;
    while i < |line| && !OpcodeChar(line[i])
      invariant 0 <= i <= |line| && ParseCommand(line) == ParseCommand(line[i..])
    {
      SkippedCommand(line, i);
      if !IsSpace(line[i]) {
        if line[i] == ';' {
          return true, [], |line|;
        }
        return false, [], 0;
      }
      i := i + 1;
    }
    if i == |line| {
      NoCommand();
      return true, [], i;
    }
    TakenCommand(line, i);
    ok, pos := OpcodeStop(line, i);
    if ok {
      tok := line[i..pos];
    }
  }

  lemma NoCommand()
    ensures ParseCommand([]) == Good([], [])
  {
  }

  /** The operand loop of parse_line. */
  method ScanOperands(line: string, start: nat) returns (ok: bool, operands: seq<string>)
    requires start <= |line|
    ensures var r := ParseOperands(line[start..]); if r.None? then !ok else ok && operands == r.value
  {
    hide ParseOperands, ParseOperand;
    ghost var all := ParseOperands(line[start..]);
    var pos := start;
    operands := [];
    assert all.Some? ==> operands + all.value == all.value;
    while pos < |line|
      invariant 0 <= pos <= |line|
      invariant all == (var rest := ParseOperands(line[pos..]); if rest.None? then None else Some(operands + rest.value))
      decreases |line| - pos
    {
      var good, tok, next := ScanOperand(line, pos);
      OperandsNext(line[pos..]);
      if !good {
        return false, operands;
      }
      ghost var rest := ParseOperands(line[next..]);
      if tok != [] {
        if rest.Some? {
          Assoc(operands, [tok], rest.value);
        }
        operands := operands + [tok];
      }
      pos := next;
    }
    NoOperands();
    assert line[pos..] == [] && operands + [] == operands;
    ok := true;
  }

  lemma NoOperands()
    ensures ParseOperands([]) == Some([])
  {
  }

  /** parse_line. */
  method ScanLine(line: string) returns (r: Line)
    ensures r == ParseLine(line)
  {
    hide ParseOperands, ParseCommand;
    var ok, opcode, pos := ScanCommand(line);
    if !ok { return Error; }
    if opcode == [] { return Empty; }
    var good, operands := ScanOperands(line, pos);
    r := if good then Line(Command(opcode, operands)) else Error;
  }

  // ---- Printed lines ----

  predicate OperandText(t: string) { t != [] && OperandStart(t[0]) && forall i :: 0 <= i < |t| ==> OperandChar(t[i]) }
  predicate OpcodeText(t: string) { t != [] && forall i :: 0 <= i < |t| ==> OpcodeChar(t[i]) }

  function Spaces(n: nat): string { seq(n, i => ' ') }

  function JoinFrom(ops: seq<string>): string {
    if ops == [] then [] else ", " + ops[0] + JoinFrom(ops[1..])
  }

  /** Operands separated by a comma and a blank. */
  function Join(ops: seq<string>): string
    requires ops != []
  {
    ops[0] + JoinFrom(ops[1..])
  }

  /** What may follow a printed command: nothing but blanks in front of a comment. */
  predicate Trailing(s: string) { s == [] || s[0] == ';' || (IsSpace(s[0]) && Trailing(s[1..])) }

  lemma {:induction false} TokenEnds(t: string, r: string)
    requires (forall i :: 0 <= i < |t| ==> OperandChar(t[i])) && (r == [] || IsSpace(r[0]) || r[0] == ';' || r[0] == ',')
    ensures OperandEnd(t + r) == Some(|t|)
    decreases |t|
  {
    if t == [] {
      assert t + r == r;
    } else {
      assert (t + r)[0] == t[0] && (t + r)[1..] == t[1..] + r;
      TokenEnds(t[1..], r);
    }
  }

  lemma {:induction false} OpcodeEnds(t: string, r: string)
    requires (forall i :: 0 <= i < |t| ==> OpcodeChar(t[i])) && (r == [] || IsSpace(r[0]) || r[0] == ';')
    ensures OpcodeEnd(t + r) == Some(|t|)
    decreases |t|
  {
    if t == [] {
      assert t + r == r;
    } else {
      assert (t + r)[0] == t[0] && (t + r)[1..] == t[1..] + r;
      OpcodeEnds(t[1..], r);
    }
  }

  /** A token is taken whole. */
  lemma OperandTaken(t: string, r: string, comma: bool)
    requires OperandText(t) && (r == [] || IsSpace(r[0]) || r[0] == ';' || r[0] == ',')
    ensures ParseOperand(t + r, comma) == Good(t, r)
  {
    TokenEnds(t, r);
    assert (t + r)[0] == t[0] && (t + r)[..|t|] == t && (t + r)[|t|..] == r;
  }

  lemma {:induction false} TrailingOperand(s: string)
    requires Trailing(s)
    ensures ParseOperand(s, false) == Good([], [])
    decreases |s|
  {
    if s != [] && s[0] != ';' {
      TrailingOperand(s[1..]);
    }
  }

  lemma TrailingOperands(s: string)
    requires Trailing(s)
    ensures ParseOperands(s) == Some([])
  {
    hide ParseOperands, ParseOperand;
    NoOperands();
    TrailingOperand(s);
    if s != [] {
      OperandsNext(s);
    }
  }

  lemma {:induction false} JoinReads(ops: seq<string>, r: string)
    requires Trailing(r) && forall i :: 0 <= i < |ops| ==> OperandText(ops[i])
    ensures ParseOperands(JoinFrom(ops) + r) == Some(ops)
    decreases |ops|
  {
    hide ParseOperands, OperandText, Trailing;
    if ops == [] {
      assert JoinFrom(ops) + r == r;
      TrailingOperands(r);
    } else {
      var rest := JoinFrom(ops[1..]) + r;
      var s := JoinFrom(ops) + r;
      assert s == [',', ' '] + (ops[0] + rest);
      RestStarts(ops[1..], r);
      CommaOperand(ops[0], rest);
      OperandsNext(s);
      JoinReads(ops[1..], r);
      assert ops == [ops[0]] + ops[1..];
      TokenFull(ops[0]);
    }
  }

  lemma TokenFull(t: string)
    requires OperandText(t)
    ensures t != []
  {
  }

  lemma CommaOperand(t: string, rest: string)
    requires OperandText(t) && (rest == [] || IsSpace(rest[0]) || rest[0] == ';' || rest[0] == ',')
    ensures ParseOperand([',', ' '] + (t + rest), false) == Good(t, rest)
  {
    hide OperandText;
    var s := [',', ' '] + (t + rest);
    assert s[1..] == [' '] + (t + rest) && s[1..][1..] == t + rest;
    OperandTaken(t, rest, true);
  }

  lemma RestStarts(ops: seq<string>, r: string)
    requires Trailing(r)
    ensures var s := JoinFrom(ops) + r; s == [] || IsSpace(s[0]) || s[0] == ';' || s[0] == ','
  {
  }

  lemma {:induction false} BlanksSkipped(n: nat, t: string)
    requires t != []
    ensures ParseOperands(Spaces(n) + t) == ParseOperands(t)
    decreases n
  {
    var s := Spaces(n) + t;
    if n == 0 {
      assert s == t;
    } else {
      assert s[0] == ' ' && s[1..] == Spaces(n - 1) + t;
      BlanksSkipped(n - 1, t);
    }
  }

  lemma {:induction false} BlanksTrail(n: nat, t: string)
    requires Trailing(t)
    ensures Trailing(Spaces(n) + t)
    decreases n
  {
    var s := Spaces(n) + t;
    if n == 0 {
      assert s == t;
    } else {
      assert s[0] == ' ' && s[1..] == Spaces(n - 1) + t;
      BlanksTrail(n - 1, t);
    }
  }

  lemma Regroup(a: string, b: string, c: string, d: string, e: string)
    ensures a + b + (c + d) + e == a + (b + (c + (d + e)))
  {
  }

  lemma OperandsRead(ops: seq<string>, r: string)
    requires Trailing(r) && ops != [] && forall i :: 0 <= i < |ops| ==> OperandText(ops[i])
    ensures ParseOperands(ops[0] + (JoinFrom(ops[1..]) + r)) == Some(ops)
  {
    hide ParseOperands, ParseOperand, OperandText, Trailing;
    var s := ops[0] + (JoinFrom(ops[1..]) + r);
    TokenFull(ops[0]);
    RestStarts(ops[1..], r);
    OperandTaken(ops[0], JoinFrom(ops[1..]) + r, false);
    OperandsNext(s);
    JoinReads(ops[1..], r);
    assert ops == [ops[0]] + ops[1..];
  }

  /** An opcode, blanks, operands and a comment are read back as they were printed. */
  lemma PrintedReads(opcode: string, n: nat, ops: seq<string>, r: string)
    requires OpcodeText(opcode) && n > 0 && Trailing(r) && ops != [] && forall i :: 0 <= i < |ops| ==> OperandText(ops[i])
    ensures ParseLine(opcode + Spaces(n) + Join(ops) + r) == Line(Command(opcode, ops))
  {
    hide ParseOperands, ParseCommand, Trailing;
    TokenFull(ops[0]);
    var s := ops[0] + (JoinFrom(ops[1..]) + r);
    Regroup(opcode, Spaces(n), ops[0], JoinFrom(ops[1..]), r);
    assert (Spaces(n) + s)[0] == ' ';
    OpcodeTaken(opcode, Spaces(n) + s);
    BlanksSkipped(n, s);
    OperandsRead(ops, r);
  }

  lemma OpcodeTaken(opcode: string, rest: string)
    requires OpcodeText(opcode) && (rest == [] || IsSpace(rest[0]) || rest[0] == ';')
    ensures ParseCommand(opcode + rest) == Good(opcode, rest)
  {
    OpcodeEnds(opcode, rest);
    assert (opcode + rest)[0] == opcode[0] && (opcode + rest)[..|opcode|] == opcode && (opcode + rest)[|opcode|..] == rest;
  }

  /** A command without operands. */
  lemma BareReads(opcode: string, r: string)
    requires OpcodeText(opcode) && Trailing(r)
    ensures ParseLine(opcode + r) == Line(Command(opcode, []))
  {
    OpcodeTaken(opcode, r);
    TrailingOperands(r);
  }
}
