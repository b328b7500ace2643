/** java.util.StringTokenizer with its default delimiters " \t\n\r\f". */
module Tokens {

  predicate IsDelimiter(c: char) {
    c == ' ' || c == '\t' || c == '\n' || c == '\r' || c as int == 12
  }

  /** What nextToken can return: a non-empty run of non-delimiters. */
  predicate IsToken(t: string) {
    |t| > 0 && forall i :: 0 <= i < |t| ==> !IsDelimiter(t[i])
  }

  /** Length of the leading run of non-delimiters of s. */
  function TokenLength(s: string): (n: nat)
    ensures n <= |s|
    ensures forall i :: 0 <= i < n ==> !IsDelimiter(s[i])
    ensures n < |s| ==> IsDelimiter(s[n])
  {
    if s == [] || IsDelimiter(s[0]) then 0 else 1 + TokenLength(s[1..])
  }

  /** The tokens a StringTokenizer over s returns, in order. */
  function Split(s: string): (toks: seq<string>)
    ensures forall k :: 0 <= k < |toks| ==> IsToken(toks[k])
    decreases |s|
  {
    if s == [] then []
    else if IsDelimiter(s[0]) then Split(s[1..])
    else
      var n := TokenLength(s);
      [s[..n]] + Split(s[n..])
  }

  /** Tokens written back as one line, separated by single spaces. */
  function Join(toks: seq<string>): string {
    if toks == [] then ""
    else if |toks| == 1 then toks[0]
    else toks[0] + " " + Join(toks[1..])
  }

  /**
   * A tokenizer part-way through its line: `str` is the line it was made from
   * (BetterStringTokenizer.getStr), `rest` the tokens nextToken has not yet returned.
   */
  datatype Tokenizer = Tokenizer(str: string, rest: seq<string>)

  /** new BetterStringTokenizer(line). */
  function Of(line: string): Tokenizer {
    Tokenizer(line, Split(line))
  }

  /** A token followed by nothing or by a delimiter is split off whole. */
  lemma {:induction false} SplitLeadingToken(t: string, rest: string)
    requires IsToken(t)
    requires rest == [] || IsDelimiter(rest[0])
    ensures Split(t + rest) == [t] + Split(rest)
  {
    TokenLengthOf(t, rest);
    assert (t + rest)[..|t|] == t;
    assert (t + rest)[|t|..] == rest;
  }

  lemma {:induction false} TokenLengthOf(t: string, rest: string)
    requires forall i :: 0 <= i < |t| ==> !IsDelimiter(t[i])
    requires rest == [] || IsDelimiter(rest[0])
    ensures TokenLength(t + rest) == |t|
    decreases |t|
  {
    if t != [] {
      assert (t + rest)[1..] == t[1..] + rest;
      TokenLengthOf(t[1..], rest);
    } else {
      assert t + rest == rest;
    }
  }

  /** Splitting a line made by joining tokens gives those tokens back. */
  lemma {:induction false} SplitJoin(toks: seq<string>)
    requires forall k :: 0 <= k < |toks| ==> IsToken(toks[k])
    ensures Split(Join(toks)) == toks
  {
    if toks == [] {
    } else if |toks| == 1 {
      SplitLeadingToken(toks[0], "");
      assert toks[0] + "" == toks[0];
    } else {
      var tail := " " + Join(toks[1..]);
      assert toks[0] + " " + Join(toks[1..]) == toks[0] + tail;
      SplitLeadingToken(toks[0], tail);
      assert tail[1..] == Join(toks[1..]);
      SplitJoin(toks[1..]);
      assert toks == [toks[0]] + toks[1..];
    }
  }
}
