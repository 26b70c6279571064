/** Whole files: the compile and disassemble loops, and their composition. */
module AsmProgram {
  import opened Isa
  import opened Wrappers
  import opened Numerals
  import opened Tokens
  import opened AsmText
  import opened AsmRoundTrip

  predicate NoNewline(s: string) { forall i :: 0 <= i < |s| ==> s[i] != '\n' }

  /** Length of the first line. */
  function LineLength(text: string): (n: nat)
    ensures n <= |text| && NoNewline(text[..n]) && (n < |text| ==> text[n] == '\n')
  {
    if text == [] || text[0] == '\n' then 0 else 1 + LineLength(text[1..])
  }

  /** getline until the end of the stream. */
  function Lines(text: string): seq<string>
    decreases |text|
  {
    if text == [] then []
    else
      var n := LineLength(text);
      [text[..n]] + Lines(if n < |text| then text[n + 1..] else [])
  }

  /** The listing: one line per word. */
  function Listing(F: Floats, ws: seq<Word>): string {
    if ws == [] then [] else Listing(F, ws[..|ws| - 1]) + (Text(F, ws[|ws| - 1]) + "\n")
  }

  /** The listing, appended word by word. */
  method Disassemble(F: Floats, ws: seq<Word>) returns (text: string)
    ensures text == Listing(F, ws)
  {
    hide Text;
    text := [];
    var i := 0;
    while i < |ws|
      invariant 0 <= i <= |ws| && text == Listing(F, ws[..i])
    {
      assert ws[..i + 1][..|ws[..i + 1]| - 1] == ws[..i];
      text := text + (Text(F, ws[i]) + "\n");
      i := i + 1;
    }
    assert ws[..i] == ws;
  }

  ghost predicate JunkOk(junk: nat -> nat) { forall k: nat :: junk(k) < PAYLOAD_LIMIT }

  /** Lines k.. of a file; the first error decides.  junk(k) is what line k's encoder leaves uninitialised. */
  function AssembleFrom(F: Floats, junk: nat -> nat, lines: seq<string>, k: nat): Option<seq<Word>>
    requires k <= |lines| && JunkOk(junk)
    decreases |lines| - k
  {
    if k == |lines| then Some([])
    else
      var a, rest := AssembleLine(F, junk(k), lines[k]), AssembleFrom(F, junk, lines, k + 1);
      if a.None? || rest.None? then None else Some(a.value + rest.value)
  }

  /** One line: tokenize, then generate code. */
  method CompileLine(F: Floats, junk: nat, line: string) returns (r: Option<seq<Word>>)
    requires junk < PAYLOAD_LIMIT
    ensures r == AssembleLine(F, junk, line)
  {
    hide ParseLine, Generate;
    var l := ScanLine(line);
    match l
    case Error => r := None;
    case Empty => r := Some([]);
    case Line(cmd) =>
      var w := Generate(F, junk, cmd);
      r := if w.None? then None else Some([w.value]);
  }

  /** The compile loop. */
  method Compile(F: Floats, junk: nat -> nat, lines: seq<string>) returns (r: Option<seq<Word>>)
    requires JunkOk(junk)
    ensures r == AssembleFrom(F, junk, lines, 0)
  {
    hide AssembleLine;
    var binary: seq<Word> := [];
    ghost var all := AssembleFrom(F, junk, lines, 0);
    var k := 0;
    assert all.Some? ==> binary + all.value == all.value;
    while k < |lines|
      invariant 0 <= k <= |lines|
      invariant all == (var rest := AssembleFrom(F, junk, lines, k); if rest.None? then None else Some(binary + rest.value))
    {
      var a := CompileLine(F, junk(k), lines[k]);
      if a.None? { return None; }
      ghost var rest := AssembleFrom(F, junk, lines, k + 1);
      if rest.Some? {
        Assoc(binary, a.value, rest.value);
      }
      binary := binary + a.value;
      k := k + 1;
    }
    assert binary + [] == binary;
    r := Some(binary);
  }

  // ---- Listings split into their lines again ----

  lemma {:induction false} FirstLine(a: string, b: string)
    requires NoNewline(a)
    ensures LineLength(a + "\n" + b) == |a|
    decreases |a|
  {
    var s := a + "\n" + b;
    if a != [] {
      assert s[0] == a[0] && s[1..] == a[1..] + "\n" + b;
      FirstLine(a[1..], b);
    }
  }

  lemma LinesCons(a: string, b: string)
    requires NoNewline(a)
    ensures Lines(a + "\n" + b) == [a] + Lines(b)
  {
    FirstLine(a, b);
    var s := a + "\n" + b;
    assert s[..|a|] == a && s[|a| + 1..] == b;
  }

  lemma {:induction false} ListingHead(F: Floats, ws: seq<Word>)
    requires ws != []
    ensures Listing(F, ws) == Text(F, ws[0]) + "\n" + Listing(F, ws[1..])
    decreases |ws|
  {
    hide Text;
    var n := |ws| - 1;
    if n > 0 {
      ListingHead(F, ws[..n]);
      assert ws[..n][1..] == ws[1..][..n - 1];
      assert ws[1..][|ws[1..]| - 1] == ws[n];
      var head, last := Text(F, ws[0]) + "\n", Text(F, ws[n]) + "\n";
      Assoc(head, Listing(F, ws[1..][..n - 1]), last);
    } else {
      assert ws[..0] == [] && ws[1..] == [];
      assert Listing(F, []) == [] && [] + (Text(F, ws[0]) + "\n") == Text(F, ws[0]) + "\n" + [];
    }
  }

  lemma TokensOneLine(t: string)
    requires OperandText(t) || OpcodeText(t)
    ensures NoNewline(t)
  {
  }

  lemma {:induction false} JoinOneLine(ops: seq<string>)
    requires forall i :: 0 <= i < |ops| ==> OperandText(ops[i])
    ensures NoNewline(JoinFrom(ops))
    decreases |ops|
  {
    if ops != [] {
      TokensOneLine(ops[0]);
      JoinOneLine(ops[1..]);
    }
  }

  lemma TextOneLine(F: Floats, w: Word)
    requires FloatsOk(F, w % U32)
    ensures NoNewline(Text(F, w))
  {
    hide Disassembled, OperandText, OpcodeText, Digits, Join, NoNewline;
    DisassembledText(F, w);
    var cmd := Disassembled(F, w);
    TokensOneLine(cmd.opcode);
    if cmd.operands != [] {
      JoinedOneLine(cmd.operands);
    }
    DigitsAreText(w, 16);
    TokensOneLine(Digits(w, 16));
    PartsOneLine(cmd, w);
  }

  lemma JoinedOneLine(ops: seq<string>)
    requires ops != [] && forall i :: 0 <= i < |ops| ==> OperandText(ops[i])
    ensures NoNewline(Join(ops))
  {
    TokensOneLine(ops[0]);
    JoinOneLine(ops[1..]);
  }

  lemma PartsOneLine(cmd: Command, w: Word)
    requires NoNewline(cmd.opcode) && (cmd.operands != [] ==> NoNewline(Join(cmd.operands))) && NoNewline(Digits(w, 16))
    ensures var s := Body(cmd); NoNewline(s + Spaces(if |s| < WIDTH then WIDTH - |s| else 1) + "; 0x" + Pad16(w))
  {
    hide Digits, Join;
  }

  predicate AllFloatsOk(F: Floats, ws: seq<Word>) { forall i :: 0 <= i < |ws| ==> FloatsOk(F, ws[i] % U32) }

  function Texts(F: Floats, ws: seq<Word>): (ls: seq<string>)
    ensures |ls| == |ws|
  {
    seq(|ws|, i requires 0 <= i < |ws| => Text(F, ws[i]))
  }

  lemma {:induction false} ListingLines(F: Floats, ws: seq<Word>)
    requires AllFloatsOk(F, ws)
    ensures Lines(Listing(F, ws)) == Texts(F, ws)
    decreases |ws|
  {
    hide Text, FloatsOk, Lines, Listing;
    if ws == [] {
      NothingListed(F);
    } else {
      ListingHead(F, ws);
      TextOneLine(F, ws[0]);
      LinesCons(Text(F, ws[0]), Listing(F, ws[1..]));
      ListingLines(F, ws[1..]);
      assert Texts(F, ws) == [Text(F, ws[0])] + Texts(F, ws[1..]);
    }
  }

  lemma NothingListed(F: Floats)
    ensures Lines(Listing(F, [])) == []
  {
  }

  /** Every printed line assembles to one word or is refused. */
  lemma OneWord(F: Floats, junk: nat, w: Word)
    requires junk < PAYLOAD_LIMIT && FloatsOk(F, w % U32)
    ensures var a := AssembleLine(F, junk, Text(F, w)); a.None? || |a.value| == 1
  {
    hide Text, ParseLine, Generate, Disassembled;
    TextReads(F, w);
  }

  lemma TextAt(F: Floats, ws: seq<Word>, k: nat)
    requires k < |ws|
    ensures Texts(F, ws)[k] == Text(F, ws[k])
  {
  }

  lemma SameCons(a: seq<Word>, b: seq<Word>, x: Word, y: seq<Word>)
    requires |a| == 1
    ensures a + b == [x] + y <==> a == [x] && b == y
  {
    if a + b == [x] + y {
      assert (a + b)[0] == a[0] && (a + b)[1..] == b && ([x] + y)[1..] == y;
    }
  }

  lemma {:induction false} TextsBack(F: Floats, junk: nat -> nat, ws: seq<Word>, k: nat)
    requires k <= |ws| && JunkOk(junk) && AllFloatsOk(F, ws)
    ensures AssembleFrom(F, junk, Texts(F, ws), k) == Some(ws[k..]) <==>
            forall i :: k <= i < |ws| ==> Survives(F, junk(i), ws[i])
    decreases |ws| - k
  {
    hide Text, FloatsOk, AssembleLine, Survives, Texts;
    if k == |ws| {
      assert ws[k..] == [];
    } else {
      TextsBack(F, junk, ws, k + 1);
      LineRoundTrip(F, junk(k), ws[k]);
      OneWord(F, junk(k), ws[k]);
      assert ws[k..] == [ws[k]] + ws[k + 1..];
      var a, rest := AssembleLine(F, junk(k), Text(F, ws[k])), AssembleFrom(F, junk, Texts(F, ws), k + 1);
      TextAt(F, ws, k);
      if a.Some? && rest.Some? {
        SameCons(a.value, rest.value, ws[k], ws[k + 1..]);
      }
      assert AssembleFrom(F, junk, Texts(F, ws), k) == Some(ws[k..]) <==> a == Some([ws[k]]) && rest == Some(ws[k + 1..]);
    }
  }

  /**
   Program round trip: a listing of any length assembles to the program it was made from if
   and only if every word survives by itself.
   */
  lemma ProgramRoundTrip(F: Floats, junk: nat -> nat, ws: seq<Word>)
    requires JunkOk(junk) && AllFloatsOk(F, ws)
    ensures AssembleFrom(F, junk, Lines(Listing(F, ws)), 0) == Some(ws) <==>
            forall i :: 0 <= i < |ws| ==> Survives(F, junk(i), ws[i])
  {
    hide Text, FloatsOk, AssembleLine, Survives;
    ListingLines(F, ws);
    TextsBack(F, junk, ws, 0);
    assert ws[0..] == ws;
  }
}
