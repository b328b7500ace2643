/** The OneOf generator: picks one of its tokens and resolves it again. */
module OneOf {
  import opened Outcomes
  import opened Rand
  import opened Tokens

  /**
   * The alternative accept picks when its draw is draws(k): index draws(k) mod n.
   * None when there are no alternatives: nextInt(0) throws.
   */
  function Choose(draws: nat -> int, k: nat, alts: seq<string>): (r: Option<string>)
    ensures r.Some? <==> |alts| > 0
    ensures r.Some? ==> exists i :: 0 <= i < |alts| && r.value == alts[i]
  {
    match Below(draws, k, |alts|)
    case None => None
    case Some(i) => Some(alts[i])
  }

  /** Lines 21-25: drain the tokenizer, in order, into an array of countTokens() strings. */
  method Collect(t: Tokenizer) returns (oneOf: array<string>, drained: Tokenizer)
    ensures fresh(oneOf) && oneOf.Length == |t.rest| && oneOf[..] == t.rest
    ensures drained == Tokenizer(t.str, [])
  {
    oneOf := new string[|t.rest|];
    var i := 0;
    drained := t;
    while drained.rest != []
      invariant 0 <= i <= oneOf.Length && drained.str == t.str
      invariant drained.rest == t.rest[i..]
      invariant oneOf[..i] == t.rest[..i]
    {
      oneOf[i] := drained.rest[0];
      drained := drained.(rest := drained.rest[1..]);
      i := i + 1;
    }
    assert oneOf[..] == oneOf[..i];
  }

  /** Line 27: oneOf[rnd.nextInt(oneOf.length)]. */
  method Pick(oneOf: array<string>, rnd: Random) returns (v: Option<string>)
    modifies rnd
    ensures v == Choose(rnd.draws, old(rnd.drawn), oneOf[..])
    ensures rnd.drawn == if oneOf.Length > 0 then old(rnd.drawn) + 1 else old(rnd.drawn)
  {
    var i := rnd.NextInt(oneOf.Length);
    if i.None? {
      return None;
    }
    v := Some(oneOf[i.value]);
  }
}
