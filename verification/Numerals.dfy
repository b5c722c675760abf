/** Optional values, results and a minimum, used throughout. */
module Wrappers {
  datatype Option<+T> = None | Some(value: T)

  datatype Result<+T, +E> = Ok(value: T) | Err(error: E)

  function Min(a: nat, b: nat): nat {
    if a < b then a else b
  }
}

/**
 Positional numerals as text: what `hex(n)` and `str(n)` print, and what a
 left-to-right parser reads back.
 */
module Numerals {
  import opened Wrappers

  /** The number a digit stands for, in either case. */
  function DigitValue(c: char): Option<nat> {
    if '0' <= c <= '9' then Some(c as int - '0' as int)
    else if 'a' <= c <= 'f' then Some(c as int - 'a' as int + 10)
    else if 'A' <= c <= 'F' then Some(c as int - 'A' as int + 10)
    else None
  }

  /** The lower-case digit for a number below sixteen. */
  function Digit(d: nat): (c: char)
    requires d < 16
    ensures DigitValue(c) == Some(d)
    ensures c == '0' <==> d == 0
  {
    if d < 10 then '0' + d as char else 'a' + (d - 10) as char
  }

  const DIGITS := "0123456789abcdef"

  const UPPER_DIGITS := "0123456789ABCDEF"

  /** The sixteen digits in either case, and no other characters. */
  lemma DigitsAre(c: char)
    ensures DigitValue(c).Some? <==> c in DIGITS || c in UPPER_DIGITS
    ensures DigitValue(c).Some? ==>
              DigitValue(c).value < 16 && c in [DIGITS[DigitValue(c).value], UPPER_DIGITS[DigitValue(c).value]]
  {
    if '0' <= c <= '9' {
      assert DIGITS[c as int - '0' as int] == c;
    } else if 'a' <= c <= 'f' {
      assert DIGITS[c as int - 'a' as int + 10] == c;
    } else if 'A' <= c <= 'F' {
      assert UPPER_DIGITS[c as int - 'A' as int + 10] == c;
    }
  }

  predicate IsDigit(c: char, base: nat) {
    DigitValue(c).Some? && DigitValue(c).value < base
  }

  /** The shortest numeral for `n`, most significant digit first. */
  function Print(n: nat, base: nat): (s: string)
    requires 2 <= base <= 16
    ensures s != "" && (s[0] == '0' ==> n == 0)
    decreases n
  {
    if n < base then [Digit(n)] else Print(n / base, base) + [Digit(n % base)]
  }

  /** The value of a string of digits, or None if some character is not a digit. */
  function Value(s: string, base: nat): Option<nat> {
    if s == "" then Some(0)
    else
      var front := Value(s[..|s| - 1], base);
      var c := s[|s| - 1];
      if front.Some? && IsDigit(c, base) then Some(front.value * base + DigitValue(c).value) else None
  }

  lemma {:induction false} ValueIsSomeIffDigits(s: string, base: nat)
    ensures Value(s, base).Some? <==> forall i :: 0 <= i < |s| ==> IsDigit(s[i], base)
  {
    if s != "" {
      var front := s[..|s| - 1];
      ValueIsSomeIffDigits(front, base);
      assert forall i :: 0 <= i < |front| ==> s[i] == front[i];
    }
  }

  lemma ValueOfSnoc(front: string, c: char, base: nat)
    requires Value(front, base).Some? && IsDigit(c, base)
    ensures Value(front + [c], base) == Some(Value(front, base).value * base + DigitValue(c).value)
  {
    var s := front + [c];
    assert s[..|s| - 1] == front && s[|s| - 1] == c;
  }

  lemma DivModOf(n: nat, base: nat)
    requires 2 <= base <= n
    ensures n / base * base + n % base == n && n / base < n
  {
  }

  /** Printing and then reading is the identity on the naturals, in every base up to 16. */
  lemma {:induction false} PrintThenValue(n: nat, base: nat)
    requires 2 <= base <= 16
    ensures Value(Print(n, base), base) == Some(n)
    decreases n
  {
    var last := n % base;
    if n < base {
      ValueOfSnoc("", Digit(n), base);
    } else {
      DivModOf(n, base);
      PrintThenValue(n / base, base);
      ValueOfSnoc(Print(n / base, base), Digit(last), base);
    }
  }

  /** Different numbers print differently. */
  lemma PrintInjective(m: nat, n: nat, base: nat)
    requires 2 <= base <= 16
    requires Print(m, base) == Print(n, base)
    ensures m == n
  {
    PrintThenValue(m, base);
    PrintThenValue(n, base);
  }

  /** `hex(n)` in Python. */
  function Hex(n: nat): string {
    "0x" + Print(n, 16)
  }

  lemma HexInjective(m: nat, n: nat)
    requires Hex(m) == Hex(n)
    ensures m == n
  {
    assert Hex(m)[2..] == Print(m, 16) && Hex(n)[2..] == Print(n, 16);
    PrintInjective(m, n, 16);
  }

  /** `str(n)` in Python. */
  function Dec(n: nat): string {
    Print(n, 10)
  }

  /** `s.startswith("0x")`. */
  predicate Has0x(s: string) {
    "0x" <= s
  }

  /** `s.removeprefix("0x")`. */
  function Remove0x(s: string): string {
    if Has0x(s) then s[2..] else s
  }

  /** `s if s.startswith("0x") else "0x" + s`. */
  function Ensure0x(s: string): string {
    if Has0x(s) then s else "0x" + s
  }

  /** A prefixed text stays as it is, another gets the prefix; either way what follows it is kept. */
  lemma PrefixedOnce(s: string)
    ensures Ensure0x(s)[..2] == "0x" && Ensure0x(s)[2..] == Remove0x(s)
    ensures Has0x("0x" + s) && Remove0x("0x" + s) == s && Ensure0x("0x" + s) == "0x" + s
    ensures !Has0x(s) ==> Remove0x(s) == s
  {
    assert ("0x" + s)[2..] == s && ("0x" + s)[..2] == "0x";
  }

  /** Base-16 reading of a text with an optional `0x` prefix. */
  function ReadHex(s: string): Option<nat> {
    if Remove0x(s) == "" then None else Value(Remove0x(s), 16)
  }

  /** Base-10 reading of a plain decimal text. */
  function ReadDec(s: string): Option<nat> {
    if s == "" then None else Value(s, 10)
  }

  /** Exactly which texts are numbers. */
  lemma WhichTextsRead(s: string)
    ensures ReadDec(s).Some? <==> s != "" && forall i :: 0 <= i < |s| ==> '0' <= s[i] <= '9'
    ensures ReadHex(s).Some? <==>
            var digits := Remove0x(s); digits != "" && forall i :: 0 <= i < |digits| ==> DigitValue(digits[i]).Some?
  {
    ValueIsSomeIffDigits(s, 10);
    ValueIsSomeIffDigits(Remove0x(s), 16);
  }

  lemma HexRoundTrip(n: nat)
    ensures ReadHex(Hex(n)) == Some(n)
  {
    PrintThenValue(n, 16);
    assert Hex(n)[2..] == Print(n, 16);
  }

  lemma DecRoundTrip(n: nat)
    ensures ReadDec(Dec(n)) == Some(n)
  {
    PrintThenValue(n, 10);
  }
}
