/** Integer.parseInt and StringEscapeUtils.unescapeJava, as the interpreter uses them. */
module Literals {
  import opened Outcomes

  const MinInt: int := -0x8000_0000
  const MaxInt: int := 0x7FFF_FFFF

  predicate IsDigit(c: char) { '0' <= c <= '9' }

  predicate AllDigits(s: string) { forall i :: 0 <= i < |s| ==> IsDigit(s[i]) }

  /** The value of a string of decimal digits, most significant first. */
  function DigitsValue(s: string): nat
    requires AllDigits(s)
    decreases |s|
  {
    if s == [] then 0 else DigitsValue(s[..|s| - 1]) * 10 + (s[|s| - 1] as int - '0' as int)
  }

  /**
   * Integer.parseInt(s): an optional sign, then at least one decimal digit, and a
   * value that fits in 32 bits; anything else throws NumberFormatException (None).
   */
  function ParseInt(s: string): (r: Option<int>)
    ensures r.Some? ==> MinInt <= r.value <= MaxInt
    ensures r.Some? ==> exists i :: 0 <= i < |s| && IsDigit(s[i])
    ensures r.Some? ==> (
      && |s| > 0
      && var d := if s[0] in "+-" then s[1..] else s;
         |d| > 0 && AllDigits(d) && r.value == (if s[0] == '-' then 0 - DigitsValue(d) else DigitsValue(d)))
  {
    var signed := |s| > 0 && (s[0] == '-' || s[0] == '+');
    var digits := if signed then s[1..] else s;
    if |digits| == 0 || !AllDigits(digits) then None
    else
      assert IsDigit(s[|s| - 1]);
      var v := if signed && s[0] == '-' then 0 - DigitsValue(digits) else DigitsValue(digits) as int;
      if MinInt <= v <= MaxInt then Some(v) else None
  }

  /** Decimal notation of n without sign or leading zeros (Integer.toString for n >= 0). */
  function Decimal(n: nat): string
    decreases n
  {
    if n < 10 then ['0' + n as char] else Decimal(n / 10) + ['0' + (n % 10) as char]
  }

  lemma {:induction false} DecimalDigits(n: nat)
    ensures |Decimal(n)| > 0 && AllDigits(Decimal(n))
    ensures DigitsValue(Decimal(n)) == n
    decreases n
  {
    if n >= 10 {
      DecimalDigits(n / 10);
      var d := Decimal(n);
      assert d[..|d| - 1] == Decimal(n / 10);
    }
  }

  /** parseInt reads back every int written in decimal, with or without a minus sign. */
  lemma ParseDecimal(n: nat)
    ensures n <= MaxInt ==> ParseInt(Decimal(n)) == Some(n)
    ensures n <= -MinInt ==> ParseInt("-" + Decimal(n)) == Some(0 - n)
  {
    DecimalDigits(n);
    assert ("-" + Decimal(n))[1..] == Decimal(n);
  }

  /** The character a backslash escape stands for, in unescapeJava's tables. */
  function EscapedChar(c: char): Option<char> {
    if c == '\\' then Some('\\')
    else if c == '"' then Some('"')
    else if c == '\'' then Some('\'')
    else if c == 'n' then Some('\n')
    else if c == 't' then Some('\t')
    else if c == 'r' then Some('\r')
    else if c == 'b' then Some(8 as char)
    else if c == 'f' then Some(12 as char)
    else None
  }

  /**
   * unescapeJava: a backslash followed by a character of EscapedChar's table stands
   * for that escape; any other backslash is dropped.
   */
  function Unescape(s: string): (r: string)
    ensures |r| <= |s|
    decreases |s|
  {
    if s == [] then []
    else if s[0] != '\\' then [s[0]] + Unescape(s[1..])
    else if |s| >= 2 && EscapedChar(s[1]).Some? then [EscapedChar(s[1]).value] + Unescape(s[2..])
    else Unescape(s[1..])
  }

  /** escapeJava restricted to the two characters a script literal must escape. */
  function Escape(s: string): string {
    if s == [] then []
    else if s[0] == '\\' then "\\\\" + Escape(s[1..])
    else if s[0] == '"' then "\\\"" + Escape(s[1..])
    else [s[0]] + Escape(s[1..])
  }

  /** Unescaping undoes escaping. */
  lemma {:induction false} UnescapeEscape(s: string)
    ensures Unescape(Escape(s)) == s
  {
    if s != [] {
      UnescapeEscape(s[1..]);
      var e := Escape(s);
      if s[0] == '\\' || s[0] == '"' {
        assert e[2..] == Escape(s[1..]);
      } else {
        assert e[1..] == Escape(s[1..]);
      }
    }
  }

  /** Text without a backslash is its own unescaping. */
  lemma {:induction false} UnescapePlain(s: string)
    requires forall i :: 0 <= i < |s| ==> s[i] != '\\'
    ensures Unescape(s) == s
  {
    if s != [] {
      UnescapePlain(s[1..]);
    }
  }
}
