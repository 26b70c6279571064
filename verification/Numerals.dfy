/** Numbers as text: what the stream operators print and what stoull, stoul and stoi read back. */
module Numerals {
  import opened Wrappers

  function DigitValue(c: char): (d: int)
    ensures -1 <= d < 16
  {
    if '0' <= c <= '9' then c as int - '0' as int
    else if 'a' <= c <= 'f' then c as int - 'a' as int + 10
    else if 'A' <= c <= 'F' then c as int - 'A' as int + 10
    else -1
  }

  function Digit(d: nat): (c: char)
    requires d < 16
    ensures DigitValue(c) == d && ('0' <= c <= '9' || 'a' <= c <= 'f')
  {
    if d < 10 then ('0' as int + d) as char else ('a' as int + d - 10) as char
  }

  /** Positional notation without leading zeros. */
  function Digits(n: nat, base: nat): (s: string)
    requires 2 <= base <= 16
    ensures s != []
  {
    if n < base then [Digit(n)] else Digits(n / base, base) + [Digit(n % base)]
  }

  /** The value of a string of digits. */
  function Eval(s: string, base: nat): Option<nat>
    requires 2 <= base <= 16
  {
    if s == [] then Some(0)
    else
      var rest, d := Eval(s[..|s| - 1], base), DigitValue(s[|s| - 1]);
      if rest.None? || d < 0 || d >= base then None else Some(rest.value * base + d)
  }

  lemma EvalSnoc(s: string, c: char, base: nat, v: nat)
    requires 2 <= base <= 16 && Eval(s, base) == Some(v) && 0 <= DigitValue(c) < base
    ensures Eval(s + [c], base) == Some(v * base + DigitValue(c))
  {
    assert (s + [c])[..|s + [c]| - 1] == s;
  }

  lemma EvalNothing(base: nat)
    requires 2 <= base <= 16
    ensures Eval([], base) == Some(0)
  {
  }

  lemma Recombine(n: nat, base: nat)
    requires base > 0
    ensures 0 <= n % base < base && n / base * base + n % base == n
    ensures n >= base >= 2 ==> n / base < n
  {
  }

  lemma {:induction false} EvalDigits(n: nat, base: nat)
    requires 2 <= base <= 16
    ensures Eval(Digits(n, base), base) == Some(n)
    decreases n
  {
    hide Eval;
    EvalNothing(base);
    if n < base {
      EvalSnoc([], Digit(n), base, 0);
      assert [] + [Digit(n)] == [Digit(n)];
    } else {
      Recombine(n, base);
      EvalDigits(n / base, base);
      EvalSnoc(Digits(n / base, base), Digit(n % base), base, n / base);
    }
  }

  /** The first digit of a number that is not zero is not '0'. */
  lemma {:induction false} FirstDigit(n: nat, base: nat)
    requires 2 <= base <= 16
    ensures Digits(n, base)[0] == '0' <==> n == 0
    decreases n
  {
    if n >= base {
      FirstDigit(n / base, base);
      assert n / base > 0;
    }
  }

  lemma {:induction false} DigitChars(n: nat, base: nat)
    requires 2 <= base <= 16
    ensures forall i :: 0 <= i < |Digits(n, base)| ==> '0' <= Digits(n, base)[i] <= '9' || 'a' <= Digits(n, base)[i] <= 'f'
    decreases n
  {
    if n >= base {
      DigitChars(n / base, base);
    }
  }

  const ULL_MAX: nat := 0xFFFF_FFFF_FFFF_FFFF
  const INT_MAX: nat := 0x7FFF_FFFF

  /** Base 0: a 0x prefix selects 16, another leading zero 8, else 10; every character must be used. */
  function Magnitude(s: string): Option<nat> {
    if |s| > 2 && s[0] == '0' && (s[1] == 'x' || s[1] == 'X') then Eval(s[2..], 16)
    else if s == [] then None
    else if s[0] == '0' then Eval(s, 8)
    else Eval(s, 10)
  }

  predicate Signed(s: string) { s != [] && (s[0] == '-' || s[0] == '+') }

  function Unsigned(s: string): string { if Signed(s) then s[1..] else s }

  /** stoull and stoul: a negative number wraps, one out of range is refused. */
  function ParseUnsigned(s: string): (r: Option<nat>)
    ensures r.Some? ==> r.value <= ULL_MAX
  {
    var m := Magnitude(Unsigned(s));
    if m.None? || m.value > ULL_MAX then None
    else if s[0] == '-' && m.value > 0 then Some(ULL_MAX + 1 - m.value)
    else m
  }

  /** stoi. */
  function ParseInt(s: string): (r: Option<int>)
    ensures r.Some? ==> -(INT_MAX + 1) <= r.value <= INT_MAX
  {
    var m := Magnitude(Unsigned(s));
    if m.None? then None
    else
      var v: int := if s[0] == '-' then 0 - m.value else m.value;
      if -(INT_MAX + 1) <= v <= INT_MAX then Some(v) else None
  }

  function Hex(n: nat): string { "0x" + Digits(n, 16) }
  function Dec(v: int): string { if v < 0 then "-" + Digits(-v, 10) else Digits(v, 10) }

  /** A hexadecimal number is read back. */
  lemma HexReads(n: nat)
    requires n <= ULL_MAX
    ensures ParseUnsigned(Hex(n)) == Some(n)
  {
    EvalDigits(n, 16);
    assert Hex(n)[2..] == Digits(n, 16);
  }

  lemma DecMagnitude(n: nat)
    ensures Magnitude(Digits(n, 10)) == Some(n) && !Signed(Digits(n, 10))
  {
    EvalDigits(n, 10);
    FirstDigit(n, 10);
    DigitChars(n, 10);
    if n == 0 {
      assert Digits(0, 10) == ['0'];
      assert ['0'][..0] == [] && Eval([], 8) == Some(0) && Eval(['0'], 8) == Some(0);
    }
  }

  lemma DecReads(n: nat)
    requires n <= ULL_MAX
    ensures ParseUnsigned(Dec(n)) == Some(n)
  {
    DecMagnitude(n);
  }

  /** A signed decimal number is read back. */
  lemma IntReads(v: int)
    requires -(INT_MAX + 1) <= v <= INT_MAX
    ensures ParseInt(Dec(v)) == Some(v)
  {
    if v < 0 {
      DecMagnitude(-v);
      assert Dec(v)[1..] == Digits(-v, 10);
    } else {
      DecMagnitude(v);
    }
  }
}
