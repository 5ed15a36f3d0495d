/** The two string operations the services lean on: lower-casing and substring search. */
module Text {

  predicate IsAsciiAlnum(c: char)
  {
    'a' <= c <= 'z' || '0' <= c <= '9'
  }

  /** str() of a non-negative integer */
  function Decimal(n: nat): (s: string)
    ensures forall c :: c in s ==> '0' <= c <= '9'
  {
    var digit := ('0' as int + n % 10) as char;
    if n < 10 then [digit] else Decimal(n / 10) + [digit]
  }

  /** str.lower, as far as ASCII results are concerned: besides A-Z only two characters
      have a lower-case form containing an ASCII letter. */
  function LowerChar(c: char): (r: string)
    ensures IsAsciiAlnum(c) || c == '-' ==> r == [c]
  {
    if 'A' <= c <= 'Z' then [(c as int + 32) as char]
    else if c == '\U{0130}' then "i\U{0307}"
    else if c == '\U{212A}' then "k"
    else [c]
  }

  function Lower(s: string): string
  {
    if s == [] then [] else LowerChar(s[0]) + Lower(s[1..])
  }

  predicate At(s: string, part: string, i: nat)
  {
    i + |part| <= |s| && s[i..i + |part|] == part
  }

  predicate Contains(s: string, part: string)
  {
    exists i: nat | i <= |s| :: At(s, part, i)
  }

  /** On ASCII text every capital becomes the small letter at the same place of the alphabet, and nothing else changes. */
  lemma {:induction false} LowerAscii(s: string)
    requires forall i :: 0 <= i < |s| ==> s[i] <= '~'
    ensures |Lower(s)| == |s|
    ensures forall i :: 0 <= i < |s| ==>
      if 'A' <= s[i] <= 'Z' then Lower(s)[i] as int - 'a' as int == s[i] as int - 'A' as int else Lower(s)[i] == s[i]
  {
    if s != [] {
      LowerAscii(s[1..]);
    }
  }

  /** The two characters outside ASCII that lower-case to an ASCII letter: the Kelvin sign and the dotted capital I. */
  lemma LowerToAscii()
    ensures Lower("\U{212A}") == "k" && Lower("\U{0130}") == "i\U{0307}"
  {
    assert "\U{212A}"[1..] == "" && "\U{0130}"[1..] == "";
  }

  /** The number a text of decimal digits denotes. */
  function Value(s: string): int
  {
    if s == [] then 0 else Value(s[..|s| - 1]) * 10 + (s[|s| - 1] as int - '0' as int)
  }

  /** str() writes the digits of the number, without leading zeros. */
  lemma {:induction false} DecimalReadsBack(n: nat)
    ensures Value(Decimal(n)) == n && |Decimal(n)| >= 1 && (n > 0 ==> Decimal(n)[0] != '0')
  {
    var d := Decimal(n);
    if n >= 10 {
      DecimalReadsBack(n / 10);
      assert d[..|d| - 1] == Decimal(n / 10);
    } else {
      assert d[..0] == [];
    }
  }

  lemma {:induction false} LowerFixes(s: string)
    requires forall c :: c in s ==> IsAsciiAlnum(c) || c == '-'
    ensures Lower(s) == s
  {
    if s != [] {
      LowerFixes(s[1..]);
      assert s == [s[0]] + s[1..];
    }
  }

  /** A text without a character of the part does not contain the part. */
  lemma MissingCharacter(s: string, part: string, c: char)
    requires c in part && c !in s
    ensures !Contains(s, part)
  {
  }
}
