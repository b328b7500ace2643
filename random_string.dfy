/** The RandomString generator: appends a random printable string shorter than maxLen. */
module RandomString {
  import opened Outcomes
  import opened Bytes
  import opened Rand
  import Literals

  const Lowest: int := 0x21
  const Highest: int := 0x7E

  /** RandomStringGenerator.withinRange(0x21, 0x7e): the character a draw in [0, 94) selects. */
  function CharOf(x: int): (c: char)
    ensures Lowest <= c as int <= Highest
    ensures 0 <= x <= Highest - Lowest ==> c as int == Lowest + x
  {
    (Lowest + x % (Highest - Lowest + 1)) as char
  }

  /** generate(len), each character from the next draw, starting at draws(from). */
  function Chars(draws: nat -> int, from: nat, len: nat): (s: string)
    ensures |s| == len
    ensures forall i :: 0 <= i < len ==> Lowest <= s[i] as int <= Highest
  {
    var s := seq(len, i requires 0 <= i < len => CharOf(draws(from + i)));
    assert forall i :: 0 <= i < len ==> s[i] == CharOf(draws(from + i));
    s
  }

  /**
   * The string accept writes when its first draw is draws(k): a length drawn in
   * [0, maxLen), then that many characters. None when maxLen <= 0: nextInt throws.
   */
  function Draw(draws: nat -> int, k: nat, maxLen: int): (r: Option<string>)
    ensures r.Some? <==> maxLen > 0
    ensures r.Some? ==> |r.value| < maxLen
    ensures r.Some? ==> forall i :: 0 <= i < |r.value| ==> Lowest <= r.value[i] as int <= Highest
  {
    match Below(draws, k, maxLen)
    case None => None
    case Some(len) => Some(Chars(draws, k + 1, len))
  }

  /** Every byte written is printable, and as many bytes are written as characters drawn. */
  lemma DrawEncoded(draws: nat -> int, k: nat, maxLen: int)
    requires maxLen > 0
    ensures |Encode(Draw(draws, k, maxLen).value)| < maxLen
    ensures forall b :: b in Encode(Draw(draws, k, maxLen).value) ==> Lowest <= b as int <= Highest
  {
    var s := Draw(draws, k, maxLen).value;
    forall b | b in Encode(s) ensures Lowest <= b as int <= Highest {
      var i :| 0 <= i < |s| && Encode(s)[i] == b;
    }
  }

  /** new RandomString(script, string): maxLen = Integer.parseInt(string); None: NumberFormatException. */
  function New(arg: string): (maxLen: Option<int>)
    ensures maxLen.Some? ==> Literals.MinInt <= maxLen.value <= Literals.MaxInt
  {
    Literals.ParseInt(arg)
  }

  /** A maxLen written in decimal is read back, and a malformed one throws. */
  lemma NewDecimal(n: nat, arg: string)
    requires n <= Literals.MaxInt
    ensures New(Literals.Decimal(n)) == Some(n)
    ensures (forall i :: 0 <= i < |arg| ==> !Literals.IsDigit(arg[i])) ==> New(arg) == None
  {
    Literals.ParseDecimal(n);
  }

  /** RandomStringGenerator.generate(len) over the caller's stream of draws. */
  method Generate(rnd: Random, len: nat) returns (s: string)
    modifies rnd
    ensures s == Chars(rnd.draws, old(rnd.drawn), len)
    ensures rnd.drawn == old(rnd.drawn) + len
  {
    s := [];
    while |s| < len
      invariant |s| <= len && rnd.drawn == old(rnd.drawn) + |s|
      invariant s == Chars(rnd.draws, old(rnd.drawn), |s|)
    {
      ghost var k := rnd.drawn;
      var x := rnd.NextInt(Highest - Lowest + 1);
      assert (Lowest + x.value) as char == CharOf(rnd.draws(k));
      assert Chars(rnd.draws, old(rnd.drawn), |s| + 1) == Chars(rnd.draws, old(rnd.drawn), |s|) + [CharOf(rnd.draws(k))];
      s := s + [(Lowest + x.value) as char];
    }
  }

  /** accept(t, u): draw a length, generate that many characters, put their bytes. */
  method Accept(maxLen: int, rnd: Random, u: ByteBuffer) returns (st: Status)
    requires u.Valid()
    modifies rnd, u, u.hb
    ensures u.Valid()
    ensures Draw(rnd.draws, old(rnd.drawn), maxLen).None? ==>
      st == Thrown(IllegalArgument) && rnd.drawn == old(rnd.drawn) &&
      u.position == old(u.position) && u.hb[..] == old(u.hb[..])
    ensures Draw(rnd.draws, old(rnd.drawn), maxLen).Some? ==>
      var s := Draw(rnd.draws, old(rnd.drawn), maxLen).value;
      && rnd.drawn == old(rnd.drawn) + 1 + |s|
      && st == (if |s| <= u.hb.Length - old(u.position) then Done else Overflow)
      && (st == Done ==> u.Contents() == old(u.Contents()) + Encode(s))
      && (st == Overflow ==> u.position == old(u.position) && u.hb[..] == old(u.hb[..]))
  {
    var len := rnd.NextInt(maxLen);
    if len.None? {
      return Thrown(IllegalArgument);
    }
    var text := Generate(rnd, len.value);
    var ok := u.Put(Encode(text));
    st := if ok then Done else Overflow;
  }
}
