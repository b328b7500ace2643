/** java.util.Random with its output supplied by the caller. */
module Rand {
  import opened Outcomes

  /** nextInt(bound): the k-th draw reduced into [0, bound); a bound that is not positive throws. */
  function Below(draws: nat -> int, k: nat, bound: int): (r: Option<int>)
    ensures r.Some? <==> bound > 0
    ensures r.Some? ==> 0 <= r.value < bound
  {
    if bound <= 0 then None else Some(draws(k) % bound)
  }

  /** The two's-complement 32-bit int with the same low 32 bits as x. */
  function Int32(x: int): (v: int)
    ensures -0x8000_0000 <= v < 0x8000_0000
    ensures (x - v) % 0x1_0000_0000 == 0
  {
    (x + 0x8000_0000) % 0x1_0000_0000 - 0x8000_0000
  }

  /**
   * A source of random numbers. The caller supplies the whole stream of draws;
   * `drawn` counts how many have been used, so the k-th call reads draws(k).
   */
  class Random {
    const draws: nat -> int
    var drawn: nat

    constructor (draws: nat -> int)
      ensures this.draws == draws && drawn == 0
    {
      this.draws := draws;
      drawn := 0;
    }

    /** nextInt(bound): throws IllegalArgumentException (None) without drawing when bound <= 0. */
    method NextInt(bound: int) returns (r: Option<int>)
      modifies this
      ensures r == Below(draws, old(drawn), bound)
      ensures drawn == if bound > 0 then old(drawn) + 1 else old(drawn)
    {
      if bound <= 0 {
        return None;
      }
      r := Some(draws(drawn) % bound);
      drawn := drawn + 1;
    }

    /** nextInt(): any 32-bit int. */
    method NextInt32() returns (v: int)
      modifies this
      ensures v == Int32(draws(old(drawn))) && drawn == old(drawn) + 1
    {
      v := Int32(draws(drawn));
      drawn := drawn + 1;
    }
  }
}
