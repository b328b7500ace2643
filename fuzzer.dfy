/**
 * The genome side of Fuzzer.java: a request is a byte array seen as a List<Byte>,
 * seeds are produced by running the script into a fixed-size buffer, the mutation
 * overwrites a few random bytes of a copy, and the fitness counts coverage probes.
 */
module Fuzzer {
  import opened Outcomes
  import opened Bytes
  import opened Rand
  import ScriptSpec
  import Script

  /** The List<Byte> view of a byte array; the array is shared, not copied. */
  class ByteArrayList {
    /** The field array of the Java class. */
    const bytes: array<byte>

    constructor (bytes: array<byte>)
      ensures this.bytes == bytes
    {
      this.bytes := bytes;
    }

    /** The list's elements: whatever the shared array holds when it is read. */
    ghost function Contents(): seq<byte>
      reads this, bytes
    {
      bytes[..]
    }

    function Size(): (n: nat)
      reads this
      ensures n == |Contents()|
    {
      bytes.Length
    }

    function Get(index: nat): (b: byte)
      reads this, bytes
      requires index < |Contents()|
      ensures b == Contents()[index]
    {
      bytes[index]
    }
  }

  // ---------------------------------------------------------------- fitness

  /** The number of set probes of one ExecutionData. */
  function Hits(probes: seq<bool>): (n: nat)
    ensures n <= |probes|
  {
    if probes == [] then 0
    else Hits(probes[..|probes| - 1]) + if probes[|probes| - 1] then 1 else 0
  }

  /** The number of set probes over all ExecutionData of a coverage dump. */
  function Coverage(data: seq<seq<bool>>): (n: nat)
    ensures n == 0 <==> forall e, i :: 0 <= e < |data| && 0 <= i < |data[e]| ==> !data[e][i]
  {
    if data == [] then 0
    else
      var init := data[..|data| - 1];
      HitsNone(data[|data| - 1]);
      assert forall e :: 0 <= e < |init| ==> init[e] == data[e];
      Coverage(init) + Hits(data[|data| - 1])
  }

  /** The number of probes over all ExecutionData. */
  function Probes(data: seq<seq<bool>>): nat {
    if data == [] then 0 else Probes(data[..|data| - 1]) + |data[|data| - 1]|
  }

  /** Every probe is counted exactly when every probe is set. */
  lemma {:induction false} HitsAll(probes: seq<bool>)
    ensures Hits(probes) == |probes| <==> forall i :: 0 <= i < |probes| ==> probes[i]
  {
    if probes != [] {
      var init := probes[..|probes| - 1];
      HitsAll(init);
      assert forall i :: 0 <= i < |init| ==> init[i] == probes[i];
    }
  }

  /** The count is zero exactly when no probe is set. */
  lemma {:induction false} HitsNone(probes: seq<bool>)
    ensures Hits(probes) == 0 <==> forall i :: 0 <= i < |probes| ==> !probes[i]
  {
    if probes != [] {
      var init := probes[..|probes| - 1];
      HitsNone(init);
      assert forall i :: 0 <= i < |init| ==> init[i] == probes[i];
    }
  }

  /** The fitness of two dumps together is the sum of their fitnesses, so the order of the entries does not matter. */
  lemma {:induction false} CoverageAppend(a: seq<seq<bool>>, b: seq<seq<bool>>)
    ensures Coverage(a + b) == Coverage(a) + Coverage(b)
    decreases |b|
  {
    if b != [] {
      var b' := b[..|b| - 1];
      assert (a + b)[..|a + b| - 1] == a + b' && (a + b)[|a + b| - 1] == b[|b| - 1];
      CoverageAppend(a, b');
    } else {
      assert a + b == a;
    }
  }

  /** The fitness is never negative and never more than the number of probes. */
  lemma {:induction false} CoverageBounds(data: seq<seq<bool>>)
    ensures 0 <= Coverage(data) <= Probes(data)
  {
    if data != [] {
      CoverageBounds(data[..|data| - 1]);
    }
  }

  // ---------------------------------------------------------------- Request

  class Request {
    const requestContent: array<byte>
    /** The representation handed to AbstractListChromosome. */
    const representation: ByteArrayList

    /** The chromosome's list is a view of the request's own array. */
    ghost predicate Valid()
      reads this, representation
      ensures Valid() ==> representation.Contents() == requestContent[..]
    {
      representation.bytes == requestContent
    }

    constructor (representation: array<byte>)
      ensures Valid() && requestContent == representation
      ensures fresh(this.representation)
    {
      requestContent := representation;
      this.representation := new ByteArrayList(representation);
    }

    /**
     * fitness() with the coverage dump that resetCoverage, sendRequest and getCoverage
     * would produce given as `data`: the nested loop over the probes of every entry.
     */
    method Fitness(data: seq<seq<bool>>) returns (fitness: int)
      ensures fitness == Coverage(data)
    {
      fitness := 0;
      var e := 0;
      while e < |data|
        invariant e <= |data| && fitness == Coverage(data[..e])
      {
        var probes := data[e];
        assert data[..e + 1][..e] == data[..e];
        var i, n := 0, |probes|;
        while i < n
          invariant i <= n && fitness == Coverage(data[..e]) + Hits(probes[..i])
        {
          assert probes[..i + 1][..i] == probes[..i];
          if probes[i] {
            fitness := fitness + 1;
          }
          i := i + 1;
        }
        assert probes[..n] == probes;
        e := e + 1;
      }
      assert data[..e] == data;
    }

    /** newFixedLengthChromosome: a fresh Request whose array holds the list's bytes in order. */
    method NewFixedLengthChromosome(chromosomeRepresentation: ByteArrayList) returns (r: Request)
      ensures r.Valid() && fresh(r.requestContent) && fresh(r.representation)
      ensures r.requestContent[..] == chromosomeRepresentation.bytes[..]
    {
      var ba := new byte[chromosomeRepresentation.Size()];
      var i, n := 0, chromosomeRepresentation.Size();
      while i < n
        invariant i <= n == ba.Length
        invariant ba[..i] == chromosomeRepresentation.bytes[..i]
      {
        ba[i] := chromosomeRepresentation.Get(i);
        i := i + 1;
      }
      assert ba[..] == ba[..n];
      r := new Request(ba);
    }
  }

  /** A request rebuilt from its own list view has the same bytes in a new array. */
  method RoundTrip(request: Request) returns (copy: Request)
    requires request.Valid()
    ensures copy.Valid() && fresh(copy.requestContent) && copy.requestContent[..] == request.requestContent[..]
  {
    copy := request.NewFixedLengthChromosome(request.representation);
  }

  // ---------------------------------------------------------------- mutation

  /** (byte) v: the low eight bits of v, read as an unsigned value. */
  function LowByte(v: int): byte {
    (v % 256) as byte
  }

  /**
   * The content after the first x writes of the mutation loop, whose draws start at k:
   * write i puts the low byte of nextInt() at position nextInt(len).
   */
  function Overwritten(draws: nat -> int, k: nat, content: seq<byte>, x: nat): (r: seq<byte>)
    requires |content| > 0
    ensures |r| == |content|
  {
    if x == 0 then content
    else Overwritten(draws, k, content, x - 1)[draws(k + 2 * (x - 1)) % |content| := LowByte(Int32(draws(k + 2 * (x - 1) + 1)))]
  }

  /** The positions the first x writes of the mutation loop hit. */
  function Hit(draws: nat -> int, k: nat, len: nat, x: nat): (ps: set<nat>)
    requires len > 0
    ensures forall p :: p in ps ==> p < len
  {
    if x == 0 then {} else Hit(draws, k, len, x - 1) + {draws(k + 2 * (x - 1)) % len}
  }

  /**
   * The mutation of a content whose draws start at k: maxChanges = len / 100 and
   * n = nextInt(maxChanges) writes. None: len < 100, so nextInt(0) throws.
   */
  function Mutation(draws: nat -> int, k: nat, content: seq<byte>): (r: Option<seq<byte>>)
    ensures r.Some? <==> |content| >= 100
    ensures r.Some? ==> |r.value| == |content|
  {
    match Below(draws, k, |content| / 100)
    case None => None
    case Some(n) => Some(Overwritten(draws, k + 1, content, n))
  }

  /** At most x positions are hit, and every position not hit keeps its byte. */
  lemma {:induction false} OverwrittenElsewhere(draws: nat -> int, k: nat, content: seq<byte>, x: nat)
    requires |content| > 0
    ensures |Hit(draws, k, |content|, x)| <= x
    ensures forall p :: 0 <= p < |content| && p !in Hit(draws, k, |content|, x) ==>
      Overwritten(draws, k, content, x)[p] == content[p]
  {
    if x > 0 {
      OverwrittenElsewhere(draws, k, content, x - 1);
    }
  }

  /**
   * The mutation keeps the length, changes fewer than maxChanges = len / 100 positions,
   * each in [0, len), and leaves every other byte as it was.
   */
  lemma MutationChangesFew(draws: nat -> int, k: nat, content: seq<byte>)
    requires |content| >= 100
    ensures var n := draws(k) % (|content| / 100);
      var hit := Hit(draws, k + 1, |content|, n);
      && |hit| < |content| / 100
      && (forall p :: p in hit ==> p < |content|)
      && |Mutation(draws, k, content).value| == |content|
      && forall p :: 0 <= p < |content| && p !in hit ==> Mutation(draws, k, content).value[p] == content[p]
  {
    OverwrittenElsewhere(draws, k + 1, content, draws(k) % (|content| / 100));
  }

  /** Arrays.copyOf(a, a.length): a fresh array with the same bytes. */
  method CopyOf(a: array<byte>) returns (b: array<byte>)
    ensures fresh(b) && b[..] == a[..]
  {
    b := new byte[a.Length];
    forall i | 0 <= i < a.Length {
      b[i] := a[i];
    }
  }

  /** The write loop of the mutation policy: n times, the low byte of nextInt() at position nextInt(len). */
  method Overwrite(content: array<byte>, rnd: Random, n: nat)
    requires content.Length > 0
    modifies content, rnd
    ensures content[..] == Overwritten(rnd.draws, old(rnd.drawn), old(content[..]), n)
    ensures rnd.drawn == old(rnd.drawn) + 2 * n
  {
    ghost var k := rnd.drawn;
    ghost var before := content[..];
    var x := 0;
    while x < n
      invariant x <= n && rnd.drawn == k + 2 * x
      invariant content[..] == Overwritten(rnd.draws, k, before, x)
    {
      var pos := rnd.NextInt(content.Length);
      var v := rnd.NextInt32();
      content[pos.value] := LowByte(v);
      x := x + 1;
    }
  }

  /** The mutation policy: a mutated copy of the request; the request itself is left as it was. */
  method Mutate(ir: Request, rnd: Random) returns (r: Option<Request>)
    modifies rnd
    ensures var m := Mutation(rnd.draws, old(rnd.drawn), old(ir.requestContent[..]));
      && (r.Some? <==> m.Some?)
      && (r.Some? ==> fresh(r.value.requestContent) && r.value.Valid() && r.value.requestContent[..] == m.value)
    ensures r.None? ==> rnd.drawn == old(rnd.drawn)
    ensures r.Some? ==> rnd.drawn == old(rnd.drawn) + 1 + 2 * (rnd.draws(old(rnd.drawn)) % (ir.requestContent.Length / 100))
  {
    ghost var k := rnd.drawn;
    ghost var content := ir.requestContent[..];
    var len := ir.requestContent.Length;
    var newContent := CopyOf(ir.requestContent);
    var maxChanges := len / 100;
    var changes := rnd.NextInt(maxChanges);
    if changes.None? {
      return None;
    }
    assert newContent[..] == content;
    Overwrite(newContent, rnd, changes.value);
    var mutated := new Request(newContent);
    r := Some(mutated);
  }

  // ---------------------------------------------------------------- random requests

  /** rnd >>= 8, j times: the arithmetic shift is a division rounding down. */
  function Shifted(v: int, j: nat): int {
    if j == 0 then v else Shifted(v, j - 1) / 256
  }

  /** The j-th byte of v, least significant first. */
  function ByteAt(v: int, j: nat): byte {
    LowByte(Shifted(v, j))
  }

  /** generateRandomRequest(len) with draws from k: byte i is byte i % 4 of int number i / 4. */
  function RandomRequest(draws: nat -> int, k: nat, len: nat): (r: seq<byte>)
    ensures |r| == len
  {
    seq(len, i requires 0 <= i < len => ByteAt(Int32(draws(k + i / 4)), i % 4))
  }

  /**
   * The four bytes of an int, least significant first, are its low 32 bits: put back
   * together they give v up to a multiple of 2^32.
   */
  lemma ByteOrder(v: int)
    ensures var low := ByteAt(v, 0) as int + 0x100 * ByteAt(v, 1) as int
      + 0x1_0000 * ByteAt(v, 2) as int + 0x100_0000 * ByteAt(v, 3) as int;
      0 <= low < 0x1_0000_0000 && v == 0x1_0000_0000 * Shifted(v, 4) + low
  {
    var s1, s2, s3, s4 := Shifted(v, 1), Shifted(v, 2), Shifted(v, 3), Shifted(v, 4);
    assert Shifted(v, 0) == v;
    assert s1 == v / 256 && s2 == s1 / 256 && s3 == s2 / 256 && s4 == s3 / 256;
    assert v == 256 * s1 + v % 256;
    assert s1 == 256 * s2 + s1 % 256;
    assert s2 == 256 * s3 + s2 % 256;
    assert s3 == 256 * s4 + s3 % 256;
  }

  /** Bytes 4q .. 4q + 3 of a request come from int number q. */
  lemma SameInt(q: nat, i: nat)
    requires 4 * q <= i < 4 * q + 4
    ensures i / 4 == q && i % 4 == i - 4 * q
  {
  }

  /** q ints cover len bytes exactly when 4q - 4 < len <= 4q. */
  lemma IntCount(len: nat, q: nat)
    requires len == 4 * q || 4 * q - 4 < len < 4 * q
    ensures (len + 3) / 4 == q
  {
  }

  /**
   * generateRandomRequest: one nextInt() per four bytes, each written least significant
   * byte first, the last int cut short when len is not a multiple of four.
   */
  method GenerateRandomRequest(len: nat, rnd: Random) returns (ba: array<byte>)
    modifies rnd
    ensures fresh(ba) && ba[..] == RandomRequest(rnd.draws, old(rnd.drawn), len)
    ensures rnd.drawn == old(rnd.drawn) + (len + 3) / 4
  {
    ghost var k := rnd.drawn;
    ghost var spec := RandomRequest(rnd.draws, k, len);
    ba := new byte[len];
    var i := 0;
    ghost var q: nat := 0;
    while i < len
      invariant i <= len && rnd.drawn == k + q
      invariant i == 4 * q || (i == len && 4 * q - 4 < len < 4 * q)
      invariant ba[..i] == spec[..i]
    {
      var v := rnd.NextInt32();
      var n := if len - i < 4 then len - i else 4;
      ghost var start, w := i, v;
      while n > 0
        invariant start <= i <= len && i - start <= 4 && n == (if len - start < 4 then len - start else 4) - (i - start)
        invariant v == Shifted(w, i - start) && w == Int32(rnd.draws(k + q))
        invariant rnd.drawn == k + q + 1
        invariant ba[..i] == spec[..i]
      {
        n := n - 1;
        SameInt(q, i);
        assert spec[i] == LowByte(v);
        assert spec[..i + 1] == spec[..i] + [spec[i]];
        ba[i] := LowByte(v);
        assert ba[..i + 1] == ba[..i] + [ba[i]];
        i := i + 1;
        v := v / 256;
      }
      q := q + 1;
    }
    IntCount(len, q);
    assert ba[..] == ba[..len];
  }

  // ---------------------------------------------------------------- seeds

  function Zeros(n: nat): seq<byte> {
    seq(n, _ => 0)
  }

  /**
   * A seed of `size` bytes: what the script writes when run into a fresh buffer of that
   * size with draws from `drawn`, followed by the zeros of the untouched tail.
   */
  predicate IsSeed(lines: seq<string>, draws: nat -> int, fuel: nat, drawn: nat, content: seq<byte>) {
    var r := ScriptSpec.Run(draws, fuel, ScriptSpec.Initial(lines, drawn, |content|));
    r.1 == Done && content == r.0.out + Zeros(|content| - |r.0.out|)
  }

  /** Everything after the bytes the script wrote is zero. */
  lemma SeedTail(lines: seq<string>, draws: nat -> int, fuel: nat, drawn: nat, content: seq<byte>)
    requires IsSeed(lines, draws, fuel, drawn, content)
    ensures var out := ScriptSpec.Run(draws, fuel, ScriptSpec.Initial(lines, drawn, |content|)).0.out;
      |out| <= |content| && content[..|out|] == out &&
      forall i :: |out| <= i < |content| ==> content[i] == 0
  {
  }

  /**
   * generate(size): a fresh buffer of that size, a new Script over the script's lines,
   * run, and the whole backing array as the request. None: run threw.
   */
  method Generate(size: nat, lines: seq<string>, fuel: nat, rnd: Random) returns (request: Option<Request>)
    modifies rnd
    ensures var r := ScriptSpec.Run(rnd.draws, fuel, ScriptSpec.Initial(lines, old(rnd.drawn), size));
      && rnd.drawn == r.0.drawn
      && (request.Some? <==> r.1 == Done)
      && (request.Some? ==> fresh(request.value.requestContent) && request.value.requestContent.Length == size
                            && IsSeed(lines, rnd.draws, fuel, old(rnd.drawn), request.value.requestContent[..]))
  {
    var bb := new ByteBuffer.Allocate(size);
    var script := new Script.Script(lines, rnd);
    assert script.State(bb) == ScriptSpec.Initial(lines, rnd.drawn, size);
    var st := script.Run(fuel, bb);
    if st != Done {
      return None;
    }
    assert bb.hb[..] == bb.Contents() + Zeros(size - bb.position);
    var req := new Request(bb.hb);
    request := Some(req);
  }

  /** Running the script into a fresh buffer of `size` bytes from draw d does not throw. */
  ghost predicate Succeeds(lines: seq<string>, draws: nat -> int, fuel: nat, size: nat, d: nat) {
    ScriptSpec.Run(draws, fuel, ScriptSpec.Initial(lines, d, size)).1 == Done
  }

  /** The draw count after running the script into a fresh buffer of `size` bytes from draw d. */
  ghost function After(lines: seq<string>, draws: nat -> int, fuel: nat, size: nat, d: nat): nat {
    ScriptSpec.Run(draws, fuel, ScriptSpec.Initial(lines, d, size)).0.drawn
  }

  /** Where the run after the given ones starts: d, or the draw count after the last of them. */
  ghost function NextOffset(lines: seq<string>, draws: nat -> int, fuel: nat, size: nat, d: nat, offsets: seq<nat>): nat {
    if offsets == [] then d else After(lines, draws, fuel, size, offsets[|offsets| - 1])
  }

  /**
   * The loop of fill from draw d with `count` seeds still to make: the draw offsets of the
   * runs that succeed, the draw count at the end, and whether every run succeeded.
   */
  ghost function SeedRuns(lines: seq<string>, draws: nat -> int, fuel: nat, size: nat, d: nat, count: nat): (r: (seq<nat>, nat, bool))
    ensures |r.0| <= count
    decreases count
  {
    if count == 0 then ([], d, true)
    else if !Succeeds(lines, draws, fuel, size, d) then ([], After(lines, draws, fuel, size, d), false)
    else
      var rest := SeedRuns(lines, draws, fuel, size, After(lines, draws, fuel, size, d), count - 1);
      ([d] + rest.0, rest.1, rest.2)
  }

  /** Each run starts where the previous one stopped, the first at d, and every recorded run succeeds. */
  lemma {:induction false} SeedRunsChain(lines: seq<string>, draws: nat -> int, fuel: nat, size: nat, d: nat, count: nat)
    ensures var offsets := SeedRuns(lines, draws, fuel, size, d, count).0;
      && (|offsets| > 0 ==> offsets[0] == d)
      && (forall i :: 0 <= i < |offsets| - 1 ==> offsets[i + 1] == After(lines, draws, fuel, size, offsets[i]))
      && (forall i :: 0 <= i < |offsets| ==> Succeeds(lines, draws, fuel, size, offsets[i]))
    decreases count
  {
    if count > 0 && Succeeds(lines, draws, fuel, size, d) {
      SeedRunsChain(lines, draws, fuel, size, After(lines, draws, fuel, size, d), count - 1);
    }
  }

  /**
   * The loop of fill makes every seed exactly when no run throws. It ends where the last run
   * left the draws; one that stops early stops at the first run that throws.
   */
  lemma {:induction false} SeedRunsStop(lines: seq<string>, draws: nat -> int, fuel: nat, size: nat, d: nat, count: nat)
    ensures var r := SeedRuns(lines, draws, fuel, size, d, count);
      var next := NextOffset(lines, draws, fuel, size, d, r.0);
      && (r.2 <==> |r.0| == count)
      && (r.2 ==> r.1 == next)
      && (!r.2 ==> !Succeeds(lines, draws, fuel, size, next) && r.1 == After(lines, draws, fuel, size, next))
    decreases count
  {
    if count > 0 && Succeeds(lines, draws, fuel, size, d) {
      var d' := After(lines, draws, fuel, size, d);
      SeedRunsStop(lines, draws, fuel, size, d', count - 1);
      var rest := SeedRuns(lines, draws, fuel, size, d', count - 1);
      assert rest.0 != [] ==> ([d] + rest.0)[|rest.0|] == rest.0[|rest.0| - 1];
    }
  }

  /**
   * fill: one length drawn in [0, maxReqSize) and maxPop seeds of exactly that length.
   * ok is false when nextInt(maxReqSize) or a run threw; the seeds made until then stay.
   */
  method Fill(maxPop: nat, maxReqSize: int, lines: seq<string>, fuel: nat, rnd: Random)
    returns (requests: seq<Request>, ok: bool, ghost offsets: seq<nat>)
    modifies rnd
    ensures maxReqSize <= 0 ==> !ok && requests == [] && rnd.drawn == old(rnd.drawn)
    ensures ok ==> |requests| == maxPop
    ensures |offsets| == |requests|
    ensures maxReqSize > 0 ==> forall i :: 0 <= i < |requests| ==>
      requests[i].requestContent.Length == rnd.draws(old(rnd.drawn)) % maxReqSize
    ensures forall i :: 0 <= i < |requests| ==>
      fresh(requests[i].requestContent) && IsSeed(lines, rnd.draws, fuel, offsets[i], requests[i].requestContent[..])
    ensures maxReqSize > 0 ==>
      SeedRuns(lines, rnd.draws, fuel, rnd.draws(old(rnd.drawn)) % maxReqSize, old(rnd.drawn) + 1, maxPop) == (offsets, rnd.drawn, ok)
    ensures maxReqSize > 0 ==> (ok <==> |requests| == maxPop)
    ensures maxReqSize > 0 ==> |offsets| > 0 ==> offsets[0] == old(rnd.drawn) + 1
    ensures maxReqSize > 0 ==> forall i :: 0 <= i < |offsets| - 1 ==>
      offsets[i + 1] == After(lines, rnd.draws, fuel, rnd.draws(old(rnd.drawn)) % maxReqSize, offsets[i])
    ensures maxReqSize > 0 && !ok ==>
      var size, next := rnd.draws(old(rnd.drawn)) % maxReqSize, NextOffset(lines, rnd.draws, fuel, rnd.draws(old(rnd.drawn)) % maxReqSize, old(rnd.drawn) + 1, offsets);
      |requests| < maxPop && !Succeeds(lines, rnd.draws, fuel, size, next)
  {
    var len := rnd.NextInt(maxReqSize);
    if len.None? {
      return [], false, [];
    }
    requests, ok, offsets := MakeSeeds(maxPop, len.value, lines, fuel, rnd);
    SeedRunsStop(lines, rnd.draws, fuel, len.value, old(rnd.drawn) + 1, maxPop);
    SeedRunsChain(lines, rnd.draws, fuel, len.value, old(rnd.drawn) + 1, maxPop);
  }

  /** The for loop of fill: generate(len) maxPop times, until a run throws. */
  method MakeSeeds(maxPop: nat, size: nat, lines: seq<string>, fuel: nat, rnd: Random)
    returns (requests: seq<Request>, ok: bool, ghost offsets: seq<nat>)
    modifies rnd
    ensures |offsets| == |requests|
    ensures forall i :: 0 <= i < |requests| ==> requests[i].requestContent.Length == size
    ensures forall i :: 0 <= i < |requests| ==>
      fresh(requests[i].requestContent) && IsSeed(lines, rnd.draws, fuel, offsets[i], requests[i].requestContent[..])
    ensures SeedRuns(lines, rnd.draws, fuel, size, old(rnd.drawn), maxPop) == (offsets, rnd.drawn, ok)
    ensures ok ==> |requests| == maxPop
  {
    requests, offsets := [], [];
    ghost var total := SeedRuns(lines, rnd.draws, fuel, size, rnd.drawn, maxPop);
    assert offsets + total.0 == total.0;
    var i := 0;
    while i < maxPop
      invariant i <= maxPop && |requests| == |offsets| == i
      invariant total == SeedRuns(lines, rnd.draws, fuel, size, old(rnd.drawn), maxPop)
      invariant var rest := SeedRuns(lines, rnd.draws, fuel, size, rnd.drawn, maxPop - i);
        total == (offsets + rest.0, rest.1, rest.2)
      invariant forall j :: 0 <= j < i ==> requests[j].requestContent.Length == size
      invariant forall j :: 0 <= j < i ==>
        fresh(requests[j].requestContent) && IsSeed(lines, rnd.draws, fuel, offsets[j], requests[j].requestContent[..])
    {
      ghost var drawn := rnd.drawn;
      SeedStep(lines, rnd.draws, fuel, size, drawn, maxPop - i, offsets);
      var request := Generate(size, lines, fuel, rnd);
      if request.None? {
        return requests, false, offsets;
      }
      requests := requests + [request.value];
      offsets := offsets + [drawn];
      i := i + 1;
    }
    assert offsets + [] == offsets;
    ok := true;
  }

  /** One turn of the loop of fill, as SeedRuns unfolds it after the offsets so far. */
  lemma SeedStep(lines: seq<string>, draws: nat -> int, fuel: nat, size: nat, d: nat, count: nat, offsets: seq<nat>)
    requires count > 0
    ensures var s := SeedRuns(lines, draws, fuel, size, d, count);
      var after := After(lines, draws, fuel, size, d);
      var rest := SeedRuns(lines, draws, fuel, size, after, count - 1);
      && (!Succeeds(lines, draws, fuel, size, d) ==> (offsets + s.0, s.1, s.2) == (offsets, after, false))
      && (Succeeds(lines, draws, fuel, size, d) ==> (offsets + s.0, s.1, s.2) == ((offsets + [d]) + rest.0, rest.1, rest.2))
  {
    var rest := SeedRuns(lines, draws, fuel, size, After(lines, draws, fuel, size, d), count - 1);
    assert offsets + [] == offsets;
    assert offsets + ([d] + rest.0) == (offsets + [d]) + rest.0;
  }
}
