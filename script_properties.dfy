/**
 * What the interpreter of Script.java does, stated over ScriptSpec: name lookup,
 * literal resolution, var, the parse of a group, the repeat, the defective group heads,
 * and what run writes into a buffer that may fill up.
 */
module ScriptProperties {
  import opened Outcomes
  import opened Bytes
  import opened Tokens
  import opened Literals
  import opened ScriptSpec
  import RandomString
  import OneOf

  /** The token a script writes for the literal s: s escaped, between double quotes. */
  function Quote(s: string): string {
    "\"" + Escape(s) + "\""
  }

  // ---------------------------------------------------------------- findFunction

  /** The table of the last pushed scope that defines the name gives its binding. */
  lemma {:induction false} FindFunctionInnermost(scopes: seq<Scope>, name: string, i: nat)
    requires i < |scopes| && name in scopes[i].functions
    requires forall j :: i < j < |scopes| ==> name !in scopes[j].functions
    ensures FindFunction(scopes, name) == Some(scopes[i].functions[name])
    decreases |scopes|
  {
    var init := scopes[..|scopes| - 1];
    if i < |scopes| - 1 {
      assert forall j :: i < j < |init| ==> init[j] == scopes[j];
      FindFunctionInnermost(init, name, i);
    }
  }

  /** findFunction returns null exactly when no scope defines the name. */
  lemma {:induction false} FindFunctionNone(scopes: seq<Scope>, name: string)
    ensures FindFunction(scopes, name).None? <==> forall i :: 0 <= i < |scopes| ==> name !in scopes[i].functions
    decreases |scopes|
  {
    if scopes != [] {
      var init := scopes[..|scopes| - 1];
      assert forall i :: 0 <= i < |init| ==> init[i] == scopes[i];
      FindFunctionNone(init, name);
    }
  }

  /** Groups are pushed with empty tables, so inside them a lookup sees the root table only. */
  lemma {:induction false} FindFunctionInGroups(scopes: seq<Scope>, name: string)
    requires |scopes| >= 1
    requires forall i :: 1 <= i < |scopes| ==> scopes[i].functions == map[]
    ensures FindFunction(scopes, name) == FindFunction(scopes[..1], name)
    decreases |scopes|
  {
    if |scopes| > 1 {
      var init := scopes[..|scopes| - 1];
      assert init[..1] == scopes[..1];
      assert forall i :: 1 <= i < |init| ==> init[i] == scopes[i];
      FindFunctionInGroups(init, name);
    }
  }

  // ---------------------------------------------------------------- processParameter

  /** A quoted token is the literal it spells, whatever the scopes bind. */
  lemma QuotedLiteral(scopes: seq<Scope>, s: string)
    ensures ProcessParameter(scopes, Quote(s)) == Text(s)
  {
    var q := Quote(s);
    assert q[1..|q| - 1] == Escape(s);
    UnescapeEscape(s);
  }

  /** An unquoted token resolves to the innermost binding of that name. */
  lemma BoundToken(scopes: seq<Scope>, token: string, i: nat)
    requires token == [] || token[0] != '"'
    requires i < |scopes| && token in scopes[i].functions
    requires forall j :: i < j < |scopes| ==> token !in scopes[j].functions
    ensures ProcessParameter(scopes, token) == Function(scopes[i].functions[token])
  {
    FindFunctionInnermost(scopes, token, i);
  }

  /** An unquoted token that no scope defines is its own text. */
  lemma UnboundToken(scopes: seq<Scope>, token: string)
    requires token == [] || token[0] != '"'
    requires forall i :: 0 <= i < |scopes| ==> token !in scopes[i].functions
    ensures ProcessParameter(scopes, token) == Text(token)
  {
    FindFunctionNone(scopes, token);
  }

  /**
   * processParameter(String) throws StringIndexOutOfBoundsException exactly on the bare
   * token `"`, and a token that resolves to a binding is not a quoted literal.
   */
  lemma ParameterCases(scopes: seq<Scope>, token: string)
    ensures ProcessParameter(scopes, token) == BadLiteral <==> token == "\""
    ensures ProcessParameter(scopes, token).Function? ==>
      && FindFunction(scopes, token) == Some(ProcessParameter(scopes, token).b)
      && !(|token| >= 1 && token[0] == '"' && token[|token| - 1] == '"')
  {
  }

  /** A binding findFunction returns is one that some scope binds to the name. */
  lemma {:induction false} FindFunctionFound(scopes: seq<Scope>, name: string)
    ensures FindFunction(scopes, name).Some? ==>
      exists i :: 0 <= i < |scopes| && name in scopes[i].functions && scopes[i].functions[name] == FindFunction(scopes, name).value
    decreases |scopes|
  {
    if scopes != [] && name !in scopes[|scopes| - 1].functions {
      var init := scopes[..|scopes| - 1];
      FindFunctionFound(init, name);
      if FindFunction(init, name).Some? {
        var i :| 0 <= i < |init| && name in init[i].functions && init[i].functions[name] == FindFunction(init, name).value;
        assert scopes[i] == init[i];
      }
    }
  }

  /**
   * The reflective constructor: OneOf always succeeds, the other two classes need a
   * String argument, ConstString keeps it, and RandomString's maxLen is an int.
   */
  lemma ConstructCases(className: string, args: seq<Param>)
    requires Arity(className) == Some(|args| + 1)
    ensures className == OneOfClass <==> Construct(className, args) == Some(PickOne)
    ensures className != OneOfClass && Construct(className, args).Some? ==> args[0].Text?
    ensures className == ConstStringClass && args[0].Text? ==> Construct(className, args) == Some(ConstText(args[0].s))
    ensures className == RandomStringClass && Construct(className, args).Some? ==>
      Construct(className, args).value.RandomText? && MinInt <= Construct(className, args).value.maxLen <= MaxInt
  {
  }

  /** processParameter(token, t, u) on a literal writes exactly its bytes, or nothing when they do not fit. */
  lemma EmitLiteral(draws: nat -> int, fuel: nat, m: Machine, s: string, t: Tokenizer)
    requires Wf(m) && fuel > 0
    ensures EmitParameter(draws, fuel, m, Quote(s), t)
      == if |s| <= m.cap - |m.out| then (m.(out := m.out + Encode(s)), Done) else (m, Overflow)
  {
    QuotedLiteral(m.scopes, s);
  }

  // ---------------------------------------------------------------- var

  /** var name ConstString "s": the root table binds name to the constant s, at any nesting. */
  lemma DeclareConstString(m: Machine, str: string, name: string, s: string)
    requires Wf(m)
    ensures DeclareVar(m, Tokenizer(str, [name, ConstStringClass, Quote(s)])) == (Declare(m, name, ConstText(s)), Done)
    ensures (forall j :: 1 <= j < |m.scopes| ==> name !in m.scopes[j].functions) ==>
      FindFunction(Declare(m, name, ConstText(s)).scopes, name) == Some(ConstText(s))
  {
    QuotedLiteral(m.scopes, s);
    var params := ProcessParameters(m.scopes, [Quote(s)]);
    assert params.Some? && params.value == [Text(s)];
    if forall j :: 1 <= j < |m.scopes| ==> name !in m.scopes[j].functions {
      FindFunctionInnermost(Declare(m, name, ConstText(s)).scopes, name, 0);
    }
  }

  /** var name RandomString n, for a decimal n no scope binds: the root table binds name to maxLen n. */
  lemma DeclareRandomString(m: Machine, str: string, name: string, n: nat)
    requires Wf(m) && n <= MaxInt
    requires forall i :: 0 <= i < |m.scopes| ==> Decimal(n) !in m.scopes[i].functions
    ensures DeclareVar(m, Tokenizer(str, [name, RandomStringClass, Decimal(n)])) == (Declare(m, name, RandomText(n)), Done)
  {
    DecimalDigits(n);
    ParseDecimal(n);
    assert IsDigit(Decimal(n)[0]);
    UnboundToken(m.scopes, Decimal(n));
    var params := ProcessParameters(m.scopes, [Decimal(n)]);
    assert params.Some? && params.value == [Text(Decimal(n))];
  }

  /** var only ever writes the root table, at one name; every other part of the state stays. */
  lemma DeclareVarTouchesRootOnly(m: Machine, t: Tokenizer)
    requires Wf(m)
    ensures var r := DeclareVar(m, t);
      r.0 == m || (|t.rest| >= 2 && t.rest[0] in r.0.scopes[0].functions &&
                   r.0 == Declare(m, t.rest[0], r.0.scopes[0].functions[t.rest[0]]))
  {
  }

  /**
   * The var lambda's outcomes: fewer than two tokens throw NoSuchElementException; an unknown
   * class, a wrong argument count or a failed construction is swallowed with the state
   * unchanged; a bare `"` argument throws StringIndexOutOfBoundsException; otherwise the
   * binding goes into the root table.
   */
  lemma DeclareVarSwallows(m: Machine, t: Tokenizer)
    requires Wf(m)
    ensures |t.rest| < 2 ==> DeclareVar(m, t) == (m, Thrown(NoSuchElement))
    ensures |t.rest| >= 2 && Arity(t.rest[1]) != Some(|t.rest| - 1) ==> DeclareVar(m, t) == (m, Done)
    ensures |t.rest| >= 2 && Arity(t.rest[1]) == Some(|t.rest| - 1) ==>
      match ProcessParameters(m.scopes, t.rest[2..])
      case None => DeclareVar(m, t) == (m, Thrown(StringIndexOutOfBounds))
      case Some(params) =>
        match Construct(t.rest[1], params)
        case None => DeclareVar(m, t) == (m, Done)
        case Some(b) => DeclareVar(m, t) == (Declare(m, t.rest[0], b), Done)
  {
  }

  // ---------------------------------------------------------------- group heads

  /**
   * A head other than "*" makes processScope call itself with the same arguments, so every
   * call depth ends in StackOverflow; a bare "(" head has no second token.
   */
  lemma {:induction false} OtherHeadOverflows(draws: nat -> int, fuel: nat, m: Machine, scope: Scope, isRoot: bool, start: string)
    requires Wf(m)
    requires |Split(start)| >= 2 && Split(start)[1] != "*"
    ensures ProcessScope(draws, fuel, m, scope, isRoot, Some(start)) == (m, Thrown(StackOverflow))
    decreases fuel
  {
    if fuel > 0 {
      OtherHeadOverflows(draws, fuel - 1, m, scope, isRoot, start);
    }
  }

  // ---------------------------------------------------------------- parsing a group

  /** A line that neither opens a nested group nor closes one. */
  predicate Plain(line: string) {
    !StartsGroup(line) && line != ")"
  }

  /** The lines up to the first ")" go into the group in order, and the ")" is consumed too. */
  lemma {:induction false} ParseClosed(lines: seq<string>, k: nat, j: nat)
    requires k <= j < |lines| && lines[j] == ")"
    requires forall i :: k <= i < j ==> Plain(lines[i])
    ensures ParseLines(lines, k) == Parsed(lines[k..j], [], j + 1)
    decreases j - k
  {
    if k < j {
      ParseClosed(lines, k + 1, j);
      assert lines[k..j] == [lines[k]] + lines[k + 1..j];
    }
  }

  /** Without a closing ")" the group takes every remaining line of the script. */
  lemma {:induction false} ParseUnclosed(lines: seq<string>, k: nat)
    requires k <= |lines|
    requires forall i :: k <= i < |lines| ==> Plain(lines[i])
    ensures ParseLines(lines, k) == Parsed(lines[k..], [], |lines|)
    decreases |lines| - k
  {
    if k < |lines| {
      ParseUnclosed(lines, k + 1);
      assert lines[k..] == [lines[k]] + lines[k + 1..];
    }
  }

  /**
   * Below the top level, or after a first top-level group has left scopeLevel at 1, a
   * group line only pushes the parsed group: its lines are consumed, nothing is drawn
   * and nothing is written.
   */
  lemma GroupNotRun(draws: nat -> int, fuel: nat, m: Machine, head: string, j: nat)
    requires Wf(m) && m.level > 0 && fuel >= 4
    requires Split(head) != [] && FindFunction(m.scopes, Split(head)[0]) == Some(OpenScope)
    requires var lines := m.scopes[0].lines; m.cursor <= j < |lines| && lines[j] == ")"
    requires forall i :: m.cursor <= i < j ==> Plain(m.scopes[0].lines[i])
    ensures ProcessLine(draws, fuel, m, head)
      == (m.(scopes := m.scopes + [Scope(map[], m.scopes[0].lines[m.cursor..j], Some(head))], cursor := j + 1), Done)
  {
    ParseClosed(m.scopes[0].lines, m.cursor, j);
    var t := Tokenizer(head, Split(head)[1..]);
    assert ProcessLine(draws, fuel, m, head) == Accept(draws, fuel - 1, m, OpenScope, t);
    assert Accept(draws, fuel - 1, m, OpenScope, t) == AddNewScope(draws, fuel - 2, m, t);
    var group := Scope(map[], m.scopes[0].lines[m.cursor..j], Some(head));
    assert m.scopes + [group] + [] == m.scopes + [group];
  }

  // ---------------------------------------------------------------- constant output

  /** The constant a line writes when its first token is bound to a ConstString. */
  function ConstOf(scopes: seq<Scope>, line: string): Option<string> {
    var toks := Split(line);
    if toks == [] then None
    else
      match FindFunction(scopes, toks[0])
      case Some(ConstText(s)) => Some(s)
      case _ => None
  }

  predicate AllConst(scopes: seq<Scope>, lines: seq<string>) {
    forall i :: 0 <= i < |lines| ==> ConstOf(scopes, lines[i]).Some?
  }

  /** The bytes each line of a constant-only run of lines puts, one chunk per line. */
  function Writes(scopes: seq<Scope>, lines: seq<string>): (ws: seq<seq<byte>>)
    requires AllConst(scopes, lines)
    ensures |ws| == |lines|
  {
    if lines == [] then [] else [Encode(ConstOf(scopes, lines[0]).value)] + Writes(scopes, lines[1..])
  }

  function Concat(chunks: seq<seq<byte>>): seq<byte> {
    if chunks == [] then [] else chunks[0] + Concat(chunks[1..])
  }

  /** Concatenating the first n + 1 chunks is the first chunk followed by the next n. */
  lemma ConcatFirst(chunks: seq<seq<byte>>, n: nat)
    requires 0 < n + 1 <= |chunks|
    ensures Concat(chunks[..n + 1]) == chunks[0] + Concat(chunks[1..][..n])
  {
    assert chunks[..n + 1][1..] == chunks[1..][..n];
  }

  /**
   * How many whole chunks fit, in order, into room bytes: all their bytes fit, and
   * when one is left out, it is the one that would not have fitted.
   */
  function FitCount(chunks: seq<seq<byte>>, room: nat): (n: nat)
    ensures n <= |chunks| && |Concat(chunks[..n])| <= room
    ensures n < |chunks| ==> |Concat(chunks[..n + 1])| > room
  {
    if chunks == [] then 0
    else if |chunks[0]| <= room then
      var n := FitCount(chunks[1..], room - |chunks[0]|);
      ConcatFirst(chunks, n);
      if n < |chunks| - 1 then ConcatFirst(chunks, n + 1); 1 + n else 1 + n
    else
      ConcatFirst(chunks, 0);
      0
  }

  /** FitCount takes a first chunk that fits and stops at one that does not. */
  lemma FitCountFirst(chunks: seq<seq<byte>>, room: nat)
    requires chunks != []
    ensures FitCount(chunks, room)
      == if |chunks[0]| <= room then 1 + FitCount(chunks[1..], room - |chunks[0]|) else 0
  {
  }

  /** Within a scope table the constant bound to a name is the root's when groups define nothing. */
  lemma ConstOfInGroups(scopes: seq<Scope>, line: string)
    requires |scopes| >= 1
    requires forall i :: 1 <= i < |scopes| ==> scopes[i].functions == map[]
    ensures ConstOf(scopes, line) == ConstOf(scopes[..1], line)
  {
    if Split(line) != [] {
      FindFunctionInGroups(scopes, Split(line)[0]);
    }
  }

  lemma {:induction false} WritesInGroups(scopes: seq<Scope>, lines: seq<string>)
    requires |scopes| >= 1
    requires forall i :: 1 <= i < |scopes| ==> scopes[i].functions == map[]
    requires AllConst(scopes[..1], lines)
    ensures AllConst(scopes, lines) && Writes(scopes, lines) == Writes(scopes[..1], lines)
  {
    forall i | 0 <= i < |lines| {
      ConstOfInGroups(scopes, lines[i]);
    }
    if lines != [] {
      WritesInGroups(scopes, lines[1..]);
    }
  }

  /**
   * processLine's outcomes: without fuel the call overflows the stack; a line without tokens
   * does nothing; an unbound first token throws "missing function"; a comment does nothing;
   * any other binding is invoked with the tokenizer positioned after the first token.
   */
  lemma ProcessLineCases(draws: nat -> int, fuel: nat, m: Machine, line: string)
    requires Wf(m)
    ensures fuel == 0 ==> ProcessLine(draws, fuel, m, line) == (m, Thrown(StackOverflow))
    ensures fuel > 0 && Split(line) == [] ==> ProcessLine(draws, fuel, m, line) == (m, Done)
    ensures fuel > 0 && Split(line) != [] ==>
      match FindFunction(m.scopes, Split(line)[0])
      case None => ProcessLine(draws, fuel, m, line) == (m, Thrown(MissingFunction(Split(line)[0])))
      case Some(b) => ProcessLine(draws, fuel, m, line) == Accept(draws, fuel - 1, m, b, Tokenizer(line, Split(line)[1..]))
    ensures fuel > 1 && Split(line) != [] && FindFunction(m.scopes, Split(line)[0]) == Some(Comment) ==>
      ProcessLine(draws, fuel, m, line) == (m, Done)
  {
  }

  /**
   * processParameter(token, t, u)'s outcomes: the bare token `"` throws; an unquoted token
   * no scope binds puts its own bytes, or nothing when they do not fit; a bound token
   * invokes its binding with the same tokenizer.
   */
  lemma EmitParameterCases(draws: nat -> int, fuel: nat, m: Machine, token: string, t: Tokenizer)
    requires Wf(m) && fuel > 0
    ensures token == "\"" ==> EmitParameter(draws, fuel, m, token, t) == (m, Thrown(StringIndexOutOfBounds))
    ensures !(|token| >= 1 && token[0] == '"' && token[|token| - 1] == '"') ==>
      match FindFunction(m.scopes, token)
      case None => EmitParameter(draws, fuel, m, token, t)
        == if |Encode(token)| <= m.cap - |m.out| then (m.(out := m.out + Encode(token)), Done) else (m, Overflow)
      case Some(b) => EmitParameter(draws, fuel, m, token, t) == Accept(draws, fuel - 1, m, b, t)
  {
  }

  /** A constant line puts its constant's bytes, or nothing when they do not fit. */
  lemma ConstLine(draws: nat -> int, fuel: nat, m: Machine, line: string)
    requires Wf(m) && fuel >= 2 && ConstOf(m.scopes, line).Some?
    ensures ProcessLine(draws, fuel, m, line) == Put(m, Encode(ConstOf(m.scopes, line).value))
  {
    var toks := Split(line);
    var t := Tokenizer(line, toks[1..]);
    var s := ConstOf(m.scopes, line).value;
    assert ProcessLine(draws, fuel, m, line) == Accept(draws, fuel - 1, m, ConstText(s), t);
  }

  /** One turn of the root loop over a constant line. */
  lemma RootConstStep(draws: nat -> int, fuel: nat, m: Machine)
    requires Wf(m) && fuel >= 3 && m.cursor < |m.scopes[0].lines|
    requires ConstOf(m.scopes, m.scopes[0].lines[m.cursor]).Some?
    ensures var bs := Encode(ConstOf(m.scopes, m.scopes[0].lines[m.cursor]).value);
      var m1 := m.(cursor := m.cursor + 1);
      RootLines(draws, fuel, m)
        == if |bs| <= m.cap - |m.out| then RootLines(draws, fuel, m1.(out := m.out + bs)) else (m1, Overflow)
  {
    ConstLine(draws, fuel - 1, m.(cursor := m.cursor + 1), m.scopes[0].lines[m.cursor]);
  }

  /** When the first chunk fits, the chunks that fit are it and those that fit in the room left. */
  lemma FitFirst(ws: seq<seq<byte>>, room: nat)
    requires ws != [] && |ws[0]| <= room
    ensures var n := FitCount(ws[1..], room - |ws[0]|);
      FitCount(ws, room) == 1 + n && Concat(ws[..1 + n]) == ws[0] + Concat(ws[1..][..n])
  {
    var n := FitCount(ws[1..], room - |ws[0]|);
    FitCountFirst(ws, room);
    ConcatFirst(ws, n);
  }

  /**
   * The loop over lines that write the chunks ws, from m: whole chunks go out while they
   * fit. The first that does not fit is consumed, writes nothing, and ends the loop with
   * BufferOverflowException.
   */
  ghost function RunChunks(m: Machine, ws: seq<seq<byte>>): (Machine, Status)
    requires |m.out| <= m.cap
  {
    var n := FitCount(ws, m.cap - |m.out|);
    if n == |ws| then (m.(cursor := m.cursor + n, out := m.out + Concat(ws[..n])), Done)
    else (m.(cursor := m.cursor + n + 1, out := m.out + Concat(ws[..n])), Overflow)
  }

  /** What the root loop leaves over constant-only lines. */
  ghost function ConstRun(m: Machine): (Machine, Status)
    requires Wf(m) && AllConst(m.scopes, m.scopes[0].lines[m.cursor..])
  {
    RunChunks(m, Writes(m.scopes, m.scopes[0].lines[m.cursor..]))
  }

  /** A first chunk that fits goes out, and the loop carries on with the rest. */
  lemma RunChunksFits(m: Machine, ws: seq<seq<byte>>)
    requires |m.out| <= m.cap && ws != [] && |ws[0]| <= m.cap - |m.out|
    ensures RunChunks(m, ws) == RunChunks(m.(cursor := m.cursor + 1, out := m.out + ws[0]), ws[1..])
  {
    FitFirst(ws, m.cap - |m.out|);
    var n := FitCount(ws[1..], m.cap - |m.out| - |ws[0]|);
    var tail := Concat(ws[1..][..n]);
    assert m.out + ws[0] + tail == m.out + (ws[0] + tail);
  }

  /** A first chunk that does not fit ends the loop at once. */
  lemma RunChunksOverflows(m: Machine, ws: seq<seq<byte>>)
    requires |m.out| <= m.cap && ws != [] && |ws[0]| > m.cap - |m.out|
    ensures RunChunks(m, ws) == (m.(cursor := m.cursor + 1), Overflow)
  {
    FitCountFirst(ws, m.cap - |m.out|);
    assert ws[..0] == [] && m.out + [] == m.out;
  }

  /** The chunks of the lines after the first constant line are the rest of the chunks. */
  lemma WritesNext(m: Machine)
    requires Wf(m) && AllConst(m.scopes, m.scopes[0].lines[m.cursor..]) && m.cursor < |m.scopes[0].lines|
    ensures var ws := Writes(m.scopes, m.scopes[0].lines[m.cursor..]);
      && AllConst(m.scopes, m.scopes[0].lines[m.cursor + 1..])
      && ws[0] == Encode(ConstOf(m.scopes, m.scopes[0].lines[m.cursor]).value)
      && ws[1..] == Writes(m.scopes, m.scopes[0].lines[m.cursor + 1..])
  {
    var lines := m.scopes[0].lines;
    var rest := lines[m.cursor..];
    assert rest[0] == lines[m.cursor] && rest[1..] == lines[m.cursor + 1..];
  }

  /**
   * The root loop over constant-only lines does what ConstRun says: it changes only the
   * line iterator and the output.
   */
  lemma {:induction false} RootConst(draws: nat -> int, fuel: nat, m: Machine)
    requires Wf(m) && fuel >= 3
    requires AllConst(m.scopes, m.scopes[0].lines[m.cursor..])
    ensures RootLines(draws, fuel, m) == ConstRun(m)
    decreases |m.scopes[0].lines| - m.cursor
  {
    var lines := m.scopes[0].lines;
    if m.cursor < |lines| {
      RootConstStep(draws, fuel, m);
      WritesNext(m);
      var ws := Writes(m.scopes, lines[m.cursor..]);
      if |ws[0]| <= m.cap - |m.out| {
        RunChunksFits(m, ws);
        RootConst(draws, fuel, m.(cursor := m.cursor + 1, out := m.out + ws[0]));
      } else {
        RunChunksOverflows(m, ws);
      }
    } else {
      var ws := Writes(m.scopes, lines[m.cursor..]);
      assert ws == [] && ws[..0] == [] && m.out + [] == m.out;
    }
  }

  /**
   * run over constant-only lines at the top level: the bytes of the longest run of whole
   * lines that fit, and no exception, since the overflow is swallowed. When every line
   * fitted the line iterator is used up, and a second run writes nothing.
   */
  lemma RunConst(draws: nat -> int, fuel: nat, m: Machine)
    requires Wf(m) && m.level == 0 && fuel >= 3
    requires AllConst(m.scopes, m.scopes[0].lines[m.cursor..])
    ensures var r := Run(draws, fuel, m);
      && r == (ConstRun(m).0, Done)
      && (ConstRun(m).1 == Done ==> Run(draws, fuel, r.0) == (r.0, Done))
  {
    RootConst(draws, fuel, m);
    var r := ConstRun(m).0;
    assert Run(draws, fuel, m).0 == r;
    if ConstRun(m).1 == Done {
      assert |Writes(m.scopes, m.scopes[0].lines[m.cursor..])| == |m.scopes[0].lines| - m.cursor;
      assert r.cursor == |r.scopes[0].lines|;
      assert ProcessScope(draws, fuel, r, r.scopes[0], true, None) == RootLines(draws, fuel, r);
    }
  }

  // ---------------------------------------------------------------- running a group

  /** The loop of processScope over a group's constant-only lines, when their bytes fit. */
  lemma {:induction false} GroupConst(draws: nat -> int, fuel: nat, m: Machine, lines: seq<string>, i: nat)
    requires Wf(m) && fuel >= 3 && i <= |lines|
    requires AllConst(m.scopes, lines[i..])
    requires |Concat(Writes(m.scopes, lines[i..]))| <= m.cap - |m.out|
    ensures ScopeLines(draws, fuel, m, lines, i) == (m.(out := m.out + Concat(Writes(m.scopes, lines[i..]))), Done)
    decreases |lines| - i
  {
    var rest := lines[i..];
    assert m.out + [] == m.out;
    if i < |lines| {
      assert rest[0] == lines[i] && rest[1..] == lines[i + 1..];
      var ws := Writes(m.scopes, rest);
      assert ws[1..] == Writes(m.scopes, rest[1..]);
      var bs := ws[0];
      assert Concat(ws) == bs + Concat(ws[1..]);
      ConstLine(draws, fuel - 1, m, lines[i]);
      GroupConst(draws, fuel, m.(out := m.out + bs), lines, i + 1);
      assert m.out + bs + Concat(ws[1..]) == m.out + Concat(ws);
    }
  }

  /** n copies of bs, one after the other. */
  function Repeated(bs: seq<byte>, n: nat): (r: seq<byte>)
    ensures |r| == n * |bs|
  {
    if n == 0 then [] else bs + Repeated(bs, n - 1)
  }

  /** processScope over a group of constant-only lines whose bytes fit. */
  lemma GroupScopeConst(draws: nat -> int, fuel: nat, m: Machine, scope: Scope)
    requires Wf(m) && fuel >= 3
    requires AllConst(m.scopes, scope.lines)
    requires |Concat(Writes(m.scopes, scope.lines))| <= m.cap - |m.out|
    ensures ProcessScope(draws, fuel, m, scope, false, None)
         == (m.(out := m.out + Concat(Writes(m.scopes, scope.lines))), Done)
  {
    assert scope.lines[0..] == scope.lines;
    GroupConst(draws, fuel, m, scope.lines, 0);
  }

  /** Room for count copies leaves room for one and then for the other count - 1. */
  lemma RepeatRoom(count: nat, len: nat, room: int)
    requires count > 0 && count * len <= room
    ensures len <= room && (count - 1) * len <= room - len
  {
    assert count * len == len + (count - 1) * len;
  }

  /** The repeat loop over a group of constant-only lines writes the group's bytes count times. */
  lemma {:induction false} TimesConst(draws: nat -> int, fuel: nat, m: Machine, scope: Scope, count: nat)
    requires Wf(m) && fuel >= 4
    requires AllConst(m.scopes, scope.lines)
    requires count * |Concat(Writes(m.scopes, scope.lines))| <= m.cap - |m.out|
    ensures var bs := Concat(Writes(m.scopes, scope.lines));
      Times(draws, fuel, m, scope, false, count) == (m.(out := m.out + Repeated(bs, count)), Done)
    decreases count
  {
    var bs := Concat(Writes(m.scopes, scope.lines));
    if count > 0 {
      RepeatRoom(count, |bs|, m.cap - |m.out|);
      GroupScopeConst(draws, fuel - 1, m, scope);
      var m' := m.(out := m.out + bs);
      TimesConst(draws, fuel, m', scope, count - 1);
      assert m.out + bs + Repeated(bs, count - 1) == m.out + Repeated(bs, count);
    } else {
      assert m.out + [] == m.out;
    }
  }

  /** The "*" function with an unbound decimal bound n: one draw gives the count, in [0, n). */
  lemma StarCount(draws: nat -> int, fuel: nat, m: Machine, scope: Scope, t: Tokenizer, n: nat)
    requires Wf(m) && fuel >= 1 && t.rest != [] && t.rest[0] == Decimal(n)
    requires 0 < n <= MaxInt && forall i :: 0 <= i < |m.scopes| ==> Decimal(n) !in m.scopes[i].functions
    ensures 0 <= draws(m.drawn) % n < n
    ensures Repeat(draws, fuel, m, scope, false, t)
         == Times(draws, fuel, m.(drawn := m.drawn + 1), scope, false, draws(m.drawn) % n)
  {
    DecimalDigits(n);
    ParseDecimal(n);
    assert IsDigit(Decimal(n)[0]);
    UnboundToken(m.scopes, Decimal(n));
  }

  /**
   * A top-level group headed "( * n" over constant-only lines, when its output fits: the
   * repeat draws a count in [0, n), the group's bytes are written that many times, the
   * group's lines and its ")" are consumed from the root iterator, every scope but the
   * root is removed again, and scopeLevel is left at 1.
   */
  lemma StarGroup(draws: nat -> int, fuel: nat, m: Machine, t: Tokenizer, n: nat, j: nat)
    requires Wf(m) && m.level == 0 && |m.scopes| == 1 && fuel >= 6
    requires |Split(t.str)| >= 3 && Split(t.str)[1] == "*" && Split(t.str)[2] == Decimal(n)
    requires 0 < n <= MaxInt && Decimal(n) !in m.scopes[0].functions
    requires m.cursor <= j < |m.scopes[0].lines| && m.scopes[0].lines[j] == ")"
    requires forall i :: m.cursor <= i < j ==> Plain(m.scopes[0].lines[i])
    requires AllConst(m.scopes, m.scopes[0].lines[m.cursor..j])
    requires (draws(m.drawn) % n) * |Concat(Writes(m.scopes, m.scopes[0].lines[m.cursor..j]))| <= m.cap - |m.out|
    ensures 0 <= draws(m.drawn) % n < n
    ensures var bs := Concat(Writes(m.scopes, m.scopes[0].lines[m.cursor..j]));
      AddNewScope(draws, fuel, m, t)
        == (m.(level := 1, cursor := j + 1, drawn := m.drawn + 1, out := m.out + Repeated(bs, draws(m.drawn) % n)), Done)
  {
    var lines := m.scopes[0].lines;
    var body := lines[m.cursor..j];
    ParseClosed(lines, m.cursor, j);
    TopGroup(draws, fuel, m, t, body, [], j);
    var group := Scope(map[], body, Some(t.str));
    assert m.scopes + [group] + [] == m.scopes + [group];
    var m2 := m.(scopes := m.scopes + [group], cursor := j + 1, level := 1);
    assert m2.scopes[..1] == m.scopes;
    StarRun(draws, fuel - 1, m2, group, n);
    var bs := Concat(Writes(m.scopes, body));
    var r := m2.(drawn := m.drawn + 1, out := m.out + Repeated(bs, draws(m.drawn) % n));
    assert r.(scopes := r.scopes[..1])
        == m.(level := 1, cursor := j + 1, drawn := m.drawn + 1, out := m.out + Repeated(bs, draws(m.drawn) % n));
  }

  /**
   * addNewScope at the top level, once the parse has pushed the group and the groups
   * nested in it: the group runs from its opening line at level 1, then every scope but
   * the root goes.
   */
  lemma TopGroup(draws: nat -> int, fuel: nat, m: Machine, t: Tokenizer, body: seq<string>, nested: seq<Scope>, j: nat)
    requires Wf(m) && m.level == 0 && |m.scopes| == 1 && fuel >= 1
    requires ParseLines(m.scopes[0].lines, m.cursor) == Parsed(body, nested, j + 1)
    ensures var group := Scope(map[], body, Some(t.str));
      var m2 := m.(scopes := m.scopes + [group] + nested, cursor := j + 1, level := 1);
      var r := ProcessScope(draws, fuel - 1, m2, group, false, Some(t.str));
      Wf(m2) && AddNewScope(draws, fuel, m, t) == if r.1 != Done then r else (r.0.(scopes := r.0.scopes[..1]), Done)
  {
  }

  /** TopGroup when the group's body finishes: the result keeps only the root scope. */
  lemma TopDone(draws: nat -> int, fuel: nat, m: Machine, t: Tokenizer, g: Scope, nested: seq<Scope>, j: nat, r: Machine)
    requires Wf(m) && m.level == 0 && |m.scopes| == 1 && fuel >= 1
    requires ParseLines(m.scopes[0].lines, m.cursor) == Parsed(g.lines, nested, j + 1)
    requires g.functions == map[] && g.start == Some(t.str)
    requires ProcessScope(draws, fuel - 1, m.(scopes := m.scopes + [g] + nested, cursor := j + 1, level := 1), g, false, g.start) == (r, Done)
    ensures AddNewScope(draws, fuel, m, t) == (r.(scopes := r.scopes[..1]), Done)
  {
    assert g == Scope(map[], g.lines, Some(t.str));
    TopGroup(draws, fuel, m, t, g.lines, nested, j);
  }

  /**
   * The group "( * n" over constant-only lines, run from its opening line: one draw gives
   * the count and the group's bytes are written that many times.
   */
  lemma StarRun(draws: nat -> int, fuel: nat, m: Machine, group: Scope, n: nat)
    requires Wf(m) && fuel >= 5 && |m.scopes| >= 1 && group.start.Some?
    requires forall i :: 1 <= i < |m.scopes| ==> m.scopes[i].functions == map[]
    requires var toks := Split(group.start.value); |toks| >= 3 && toks[1] == "*" && toks[2] == Decimal(n)
    requires 0 < n <= MaxInt && Decimal(n) !in m.scopes[0].functions
    requires AllConst(m.scopes[..1], group.lines)
    requires (draws(m.drawn) % n) * |Concat(Writes(m.scopes[..1], group.lines))| <= m.cap - |m.out|
    ensures var bs := Concat(Writes(m.scopes[..1], group.lines));
      ProcessScope(draws, fuel, m, group, false, group.start)
        == (m.(drawn := m.drawn + 1, out := m.out + Repeated(bs, draws(m.drawn) % n)), Done)
  {
    var t' := Tokenizer(group.start.value, Split(group.start.value)[2..]);
    assert ProcessScope(draws, fuel, m, group, false, group.start) == Repeat(draws, fuel - 1, m, group, false, t');
    StarCount(draws, fuel - 1, m, group, t', n);
    var m3 := m.(drawn := m.drawn + 1);
    WritesInGroups(m3.scopes, group.lines);
    TimesConst(draws, fuel - 1, m3, group, draws(m.drawn) % n);
  }

  /**
   * run over a script whose remaining lines are one group "( * n", constant-only lines and
   * ")": the group's bytes repeated draws(drawn) % n times. scopeLevel is left at 1 while
   * only the root scope is left, so a second run on the same Script throws
   * IndexOutOfBoundsException.
   */
  lemma RunStarGroup(draws: nat -> int, fuel: nat, m: Machine, n: nat)
    requires Wf(m) && m.level == 0 && |m.scopes| == 1 && fuel >= 9
    requires FindFunction(m.scopes, "(") == Some(OpenScope)
    requires var lines := m.scopes[0].lines;
      m.cursor + 1 < |lines| && lines[|lines| - 1] == ")" && Split(lines[m.cursor]) == ["(", "*", Decimal(n)]
    requires 0 < n <= MaxInt && Decimal(n) !in m.scopes[0].functions
    requires forall i :: m.cursor < i < |m.scopes[0].lines| - 1 ==> Plain(m.scopes[0].lines[i])
    requires AllConst(m.scopes, m.scopes[0].lines[m.cursor + 1..|m.scopes[0].lines| - 1])
    requires var bs := Concat(Writes(m.scopes, m.scopes[0].lines[m.cursor + 1..|m.scopes[0].lines| - 1]));
      (draws(m.drawn) % n) * |bs| <= m.cap - |m.out|
    ensures var lines := m.scopes[0].lines;
      var bs := Concat(Writes(m.scopes, lines[m.cursor + 1..|lines| - 1]));
      var r := Run(draws, fuel, m);
      && r == (m.(level := 1, cursor := |lines|, drawn := m.drawn + 1, out := m.out + Repeated(bs, draws(m.drawn) % n)), Done)
      && Run(draws, fuel, r.0) == (r.0, Thrown(IndexOutOfBounds))
  {
    var lines := m.scopes[0].lines;
    var head := lines[m.cursor];
    var m1 := m.(cursor := m.cursor + 1);
    var t := Tokenizer(head, ["*", Decimal(n)]);
    assert Split(head)[1..] == ["*", Decimal(n)];
    assert ProcessLine(draws, fuel - 1, m1, head) == Accept(draws, fuel - 2, m1, OpenScope, t);
    StarGroup(draws, fuel - 3, m1, t, n, |lines| - 1);
    var r := AddNewScope(draws, fuel - 3, m1, t).0;
    assert RootLines(draws, fuel, r) == (r, Done);
    assert RootLines(draws, fuel, m) == RootLines(draws, fuel, r);
    assert ProcessScope(draws, fuel, m, m.scopes[0], true, None) == RootLines(draws, fuel, m);
    LevelPastScopes(draws, fuel, r);
  }

  /** With scopeLevel past the last scope, run fails at scopes.get(scopeLevel). */
  lemma LevelPastScopes(draws: nat -> int, fuel: nat, m: Machine)
    requires Wf(m) && m.level >= |m.scopes|
    ensures Run(draws, fuel, m) == (m, Thrown(IndexOutOfBounds))
  {
  }

  // ---------------------------------------------------------------- nested groups

  /** The line the parse puts in place of a nested group. */
  const Placeholder: string := "processNestedScope"

  /** Plain lines go into the group in order, ahead of what the parse collects after them. */
  lemma {:induction false} ParsePlain(lines: seq<string>, k: nat, i: nat)
    requires k <= i <= |lines|
    requires forall x :: k <= x < i ==> Plain(lines[x])
    ensures var p := ParseLines(lines, i);
      ParseLines(lines, k) == Parsed(lines[k..i] + p.body, p.nested, p.next)
    decreases i - k
  {
    if k < i {
      ParsePlain(lines, k + 1, i);
      var p := ParseLines(lines, i);
      assert [lines[k]] + (lines[k + 1..i] + p.body) == lines[k..i] + p.body;
    }
  }

  /**
   * A nested group inside a group: Plain lines, a line opening the nested group, its Plain
   * lines and ")", more Plain lines and the ")" of the enclosing group. The enclosing group
   * gets one "processNestedScope" line where the nested group stood, and the nested group,
   * with an empty table and its opening line, is pushed after it.
   */
  lemma ParseNested(lines: seq<string>, k: nat, i: nat, j1: nat, j2: nat)
    requires k <= i < j1 < j2 < |lines|
    requires forall x :: k <= x < i ==> Plain(lines[x])
    requires StartsGroup(lines[i])
    requires forall x :: i < x < j1 ==> Plain(lines[x])
    requires lines[j1] == ")"
    requires forall x :: j1 < x < j2 ==> Plain(lines[x])
    requires lines[j2] == ")"
    ensures ParseLines(lines, k)
      == Parsed(lines[k..i] + [Placeholder] + lines[j1 + 1..j2], [Scope(map[], lines[i + 1..j1], Some(lines[i]))], j2 + 1)
  {
    ParseClosed(lines, i + 1, j1);
    ParseClosed(lines, j1 + 1, j2);
    var nested := Scope(map[], lines[i + 1..j1], Some(lines[i]));
    assert [nested] + [] + [] == [nested];
    assert ParseLines(lines, i) == Parsed([Placeholder] + lines[j1 + 1..j2], [nested], j2 + 1);
    ParsePlain(lines, k, i);
    assert lines[k..i] + ([Placeholder] + lines[j1 + 1..j2]) == lines[k..i] + [Placeholder] + lines[j1 + 1..j2];
  }

  /** A group head "( * n": its second token is "*" and its third the decimal n. */
  predicate StarHead(start: string, n: nat) {
    var toks := Split(start);
    |toks| >= 3 && toks[1] == "*" && toks[2] == Decimal(n)
  }

  /**
   * The scope after the current level is a nested "( * n" group over constant lines: every
   * group is pushed with an empty table, the root leaves n unbound, and the group's lines
   * write the constants the root table gives them.
   */
  predicate NestedStarAt(scopes: seq<Scope>, level: int, n: nat) {
    && |scopes| >= 1 && 0 <= level && level + 1 < |scopes|
    && (forall i :: 1 <= i < |scopes| ==> scopes[i].functions == map[])
    && scopes[level + 1].start.Some? && StarHead(scopes[level + 1].start.value, n)
    && 0 < n <= MaxInt && Decimal(n) !in scopes[0].functions
    && AllConst(scopes[..1], scopes[level + 1].lines)
  }

  /** The bytes one run of that nested group's lines writes. */
  ghost function NestedBytes(scopes: seq<Scope>, level: int, n: nat): seq<byte>
    requires NestedStarAt(scopes, level, n)
  {
    Concat(Writes(scopes[..1], scopes[level + 1].lines))
  }

  /**
   * The processNestedScope lambda over a nested "( * n" group whose output fits: scopeLevel
   * goes up to the group, one draw gives the count, the group's bytes are written that
   * many times, and scopeLevel comes back down.
   */
  lemma NestedStar(draws: nat -> int, fuel: nat, m: Machine, n: nat)
    requires Wf(m) && fuel >= 6 && NestedStarAt(m.scopes, m.level, n)
    requires (draws(m.drawn) % n) * |NestedBytes(m.scopes, m.level, n)| <= m.cap - |m.out|
    ensures ProcessNestedScope(draws, fuel, m)
         == (m.(drawn := m.drawn + 1, out := m.out + Repeated(NestedBytes(m.scopes, m.level, n), draws(m.drawn) % n)), Done)
  {
    var m1 := m.(level := m.level + 1);
    StarRun(draws, fuel - 1, m1, m.scopes[m.level + 1], n);
  }

  /** With no scope after the current level, processNestedScope throws at scopes.get and leaves scopeLevel raised. */
  lemma NestedMissing(draws: nat -> int, fuel: nat, m: Machine)
    requires Wf(m) && fuel >= 1 && m.level + 1 >= |m.scopes|
    ensures ProcessNestedScope(draws, fuel, m) == (m.(level := m.level + 1), Thrown(IndexOutOfBounds))
  {
  }

  /** The placeholder line is a single token. */
  lemma SplitPlaceholder()
    ensures Split(Placeholder) == [Placeholder]
  {
    SplitLeadingToken(Placeholder, "");
    assert Placeholder + "" == Placeholder;
  }

  /** A group's constant lines before line p write their bytes, and the loop carries on at p. */
  lemma {:induction false} GroupPrefix(draws: nat -> int, fuel: nat, m: Machine, lines: seq<string>, i: nat, p: nat)
    requires Wf(m) && fuel >= 3 && i <= p <= |lines|
    requires AllConst(m.scopes, lines[i..p])
    requires |Concat(Writes(m.scopes, lines[i..p]))| <= m.cap - |m.out|
    ensures ScopeLines(draws, fuel, m, lines, i)
         == ScopeLines(draws, fuel, m.(out := m.out + Concat(Writes(m.scopes, lines[i..p]))), lines, p)
    decreases p - i
  {
    var rest := lines[i..p];
    assert m.out + [] == m.out;
    if i < p {
      assert rest[0] == lines[i] && rest[1..] == lines[i + 1..p];
      var ws := Writes(m.scopes, rest);
      assert ws[1..] == Writes(m.scopes, rest[1..]);
      var bs := ws[0];
      assert Concat(ws) == bs + Concat(ws[1..]);
      ConstLine(draws, fuel - 1, m, lines[i]);
      GroupPrefix(draws, fuel, m.(out := m.out + bs), lines, i + 1, p);
      assert m.out + bs + Concat(ws[1..]) == m.out + Concat(ws);
    }
  }

  /** The placeholder line, when the root binds it: the processNestedScope lambda. */
  lemma PlaceholderLine(draws: nat -> int, fuel: nat, m: Machine)
    requires Wf(m) && fuel >= 2
    requires forall i :: 1 <= i < |m.scopes| ==> m.scopes[i].functions == map[]
    requires FindFunction(m.scopes[..1], Placeholder) == Some(NestedScope)
    ensures ProcessLine(draws, fuel, m, Placeholder) == ProcessNestedScope(draws, fuel - 2, m)
  {
    SplitPlaceholder();
    FindFunctionInGroups(m.scopes, Placeholder);
    var t := Tokenizer(Placeholder, []);
    assert Accept(draws, fuel - 1, m, NestedScope, t) == ProcessNestedScope(draws, fuel - 2, m);
    assert ProcessLine(draws, fuel, m, Placeholder) == Accept(draws, fuel - 1, m, NestedScope, t);
  }

  /**
   * The bytes of count passes over a group whose lines write a, then run a nested "( * n"
   * group writing b, then write c. Pass k draws its nested count from draws(d + k).
   */
  ghost function Chain(draws: nat -> int, d: nat, count: nat, a: seq<byte>, b: seq<byte>, c: seq<byte>, n: nat): seq<byte>
    requires n > 0
    decreases count
  {
    if count == 0 then [] else a + Repeated(b, draws(d) % n) + c + Chain(draws, d + 1, count - 1, a, b, c, n)
  }

  /**
   * One pass over a group whose lines are constant lines pre, the placeholder and constant
   * lines post: pre's bytes, the nested group's bytes as many times as one draw says, then
   * post's bytes. scopeLevel is the same afterwards.
   */
  lemma ChainPass(draws: nat -> int, fuel: nat, m: Machine, lines: seq<string>, pre: seq<string>, post: seq<string>, n: nat,
                  a: seq<byte>, b: seq<byte>, c: seq<byte>)
    requires Wf(m) && fuel >= 9 && NestedStarAt(m.scopes, m.level, n)
    requires FindFunction(m.scopes[..1], Placeholder) == Some(NestedScope)
    requires lines == pre + [Placeholder] + post
    requires AllConst(m.scopes[..1], pre) && AllConst(m.scopes[..1], post)
    requires a == Concat(Writes(m.scopes[..1], pre)) && b == NestedBytes(m.scopes, m.level, n)
    requires c == Concat(Writes(m.scopes[..1], post))
    requires |a + Repeated(b, draws(m.drawn) % n) + c| <= m.cap - |m.out|
    ensures ScopeLines(draws, fuel, m, lines, 0)
         == (m.(drawn := m.drawn + 1, out := m.out + (a + Repeated(b, draws(m.drawn) % n) + c)), Done)
  {
    var k := draws(m.drawn) % n;
    assert lines[0..|pre|] == pre && lines[|pre|] == Placeholder && lines[|pre| + 1..] == post;
    WritesInGroups(m.scopes, pre);
    WritesInGroups(m.scopes, post);
    var m1 := m.(out := m.out + a);
    assert |Repeated(b, k)| == k * |b|;
    var m2 := m1.(drawn := m1.drawn + 1, out := m1.out + Repeated(NestedBytes(m1.scopes, m1.level, n), draws(m1.drawn) % n));
    assert m2.out == m.out + a + Repeated(b, k);
    Regroup(m.out, a, Repeated(b, k), c);
    assert m2.(out := m2.out + c) == m.(drawn := m.drawn + 1, out := m.out + (a + Repeated(b, k) + c));
    assert Concat(Writes(m.scopes, lines[0..|pre|])) == a;
    assert Concat(Writes(m2.scopes, lines[|pre| + 1..])) == c;
    GroupPrefix(draws, fuel, m, lines, 0, |pre|);
    PlaceholderStep(draws, fuel, m1, lines, |pre|, n);
    GroupConst(draws, fuel, m2, lines, |pre| + 1);
    calc {
      ScopeLines(draws, fuel, m, lines, 0);
      ScopeLines(draws, fuel, m1, lines, |pre|);
      ScopeLines(draws, fuel, m2, lines, |pre| + 1);
      (m2.(out := m2.out + c), Done);
      (m.(drawn := m.drawn + 1, out := m.out + (a + Repeated(b, k) + c)), Done);
    }
  }

  /** The placeholder line in a group's loop runs the nested group, and the loop carries on after it. */
  lemma PlaceholderStep(draws: nat -> int, fuel: nat, m: Machine, lines: seq<string>, p: nat, n: nat)
    requires Wf(m) && fuel >= 9 && NestedStarAt(m.scopes, m.level, n) && p < |lines| && lines[p] == Placeholder
    requires FindFunction(m.scopes[..1], Placeholder) == Some(NestedScope)
    requires (draws(m.drawn) % n) * |NestedBytes(m.scopes, m.level, n)| <= m.cap - |m.out|
    ensures ScopeLines(draws, fuel, m, lines, p)
         == ScopeLines(draws, fuel, m.(drawn := m.drawn + 1, out := m.out + Repeated(NestedBytes(m.scopes, m.level, n), draws(m.drawn) % n)), lines, p + 1)
  {
    PlaceholderLine(draws, fuel - 1, m);
    NestedStar(draws, fuel - 3, m, n);
  }

  lemma Regroup(x: seq<byte>, a: seq<byte>, b: seq<byte>, c: seq<byte>)
    ensures x + a + b + c == x + (a + b + c)
  {
  }

  /**
   * The scopes while such a group g runs: g's lines are constant lines pre, the placeholder
   * and constant lines post, the root binds the placeholder, the nested "( * n" group
   * follows the current level, and a, b and c are the bytes of pre, of the nested group's
   * lines and of post.
   */
  ghost predicate ChainReady(scopes: seq<Scope>, level: int, g: Scope, pre: seq<string>, post: seq<string>, n: nat,
                       a: seq<byte>, b: seq<byte>, c: seq<byte>) {
    && NestedStarAt(scopes, level, n)
    && FindFunction(scopes[..1], Placeholder) == Some(NestedScope)
    && g.lines == pre + [Placeholder] + post
    && AllConst(scopes[..1], pre) && AllConst(scopes[..1], post)
    && a == Concat(Writes(scopes[..1], pre)) && b == NestedBytes(scopes, level, n)
    && c == Concat(Writes(scopes[..1], post))
  }

  /** One pass of the repeat loop over such a group, after which the loop carries on with count - 1. */
  lemma ChainStep(draws: nat -> int, fuel: nat, m: Machine, g: Scope, pre: seq<string>, post: seq<string>, n: nat,
                  a: seq<byte>, b: seq<byte>, c: seq<byte>, count: nat)
    requires Wf(m) && fuel >= 10 && count > 0 && ChainReady(m.scopes, m.level, g, pre, post, n, a, b, c)
    requires |a + Repeated(b, draws(m.drawn) % n) + c| <= m.cap - |m.out|
    ensures Times(draws, fuel, m, g, false, count)
         == Times(draws, fuel, m.(drawn := m.drawn + 1, out := m.out + (a + Repeated(b, draws(m.drawn) % n) + c)), g, false, count - 1)
  {
    ChainPass(draws, fuel - 1, m, g.lines, pre, post, n, a, b, c);
    assert ProcessScope(draws, fuel - 1, m, g, false, None) == ScopeLines(draws, fuel - 1, m, g.lines, 0);
  }

  /** The repeat loop over such a group: count passes, one draw each, writing Chain. */
  lemma {:induction false} TimesChain(draws: nat -> int, fuel: nat, m: Machine, g: Scope, pre: seq<string>, post: seq<string>, n: nat,
                                      a: seq<byte>, b: seq<byte>, c: seq<byte>, count: nat)
    requires Wf(m) && fuel >= 10 && ChainReady(m.scopes, m.level, g, pre, post, n, a, b, c)
    requires |Chain(draws, m.drawn, count, a, b, c, n)| <= m.cap - |m.out|
    ensures Times(draws, fuel, m, g, false, count)
         == (m.(drawn := m.drawn + count, out := m.out + Chain(draws, m.drawn, count, a, b, c, n)), Done)
    decreases count
  {
    if count > 0 {
      var pass := a + Repeated(b, draws(m.drawn) % n) + c;
      var rest := Chain(draws, m.drawn + 1, count - 1, a, b, c, n);
      assert Chain(draws, m.drawn, count, a, b, c, n) == pass + rest;
      assert |pass + rest| == |pass| + |rest|;
      var m1 := m.(drawn := m.drawn + 1, out := m.out + pass);
      assert m.out + pass + rest == m.out + (pass + rest);
      assert m1.(drawn := m1.drawn + (count - 1), out := m1.out + rest)
          == m.(drawn := m.drawn + count, out := m.out + Chain(draws, m.drawn, count, a, b, c, n));
      TimesChain(draws, fuel, m1, g, pre, post, n, a, b, c, count - 1);
      ChainStep(draws, fuel, m, g, pre, post, n, a, b, c, count);
    } else {
      assert Chain(draws, m.drawn, count, a, b, c, n) == [] && m.out + [] == m.out;
      assert m.(drawn := m.drawn + count, out := m.out + Chain(draws, m.drawn, count, a, b, c, n)) == m;
    }
  }

  /**
   * The root's lines from the cursor on: constant lines, a line i opening a nested group
   * "( * nn", its constant lines up to the ")" at j1, more constant lines and the ")" at j2
   * that closes the enclosing group. The root binds the placeholder and leaves nn unbound.
   */
  predicate ChainLines(m: Machine, nn: nat, i: nat, j1: nat, j2: nat) {
    |m.scopes| == 1 &&
    var lines := m.scopes[0].lines;
    m.cursor <= i < j1 < j2 < |lines| &&
    StartsGroup(lines[i]) && lines[j1] == ")" && lines[j2] == ")" &&
    (forall x :: m.cursor <= x < j2 && x != i && x != j1 ==> Plain(lines[x])) &&
    StarHead(lines[i], nn) && 0 < nn <= MaxInt && Decimal(nn) !in m.scopes[0].functions &&
    FindFunction(m.scopes, Placeholder) == Some(NestedScope) &&
    AllConst(m.scopes, lines[m.cursor..i]) && AllConst(m.scopes, lines[i + 1..j1]) && AllConst(m.scopes, lines[j1 + 1..j2])
  }

  /**
   * Over such lines, parsing the group opened by `head` pushes the group, whose lines are
   * the constant lines, the placeholder and the constant lines after the nested group, and
   * then the nested group; the group is then ready to run at level 1.
   */
  lemma ChainScopes(m: Machine, head: string, nn: nat, i: nat, j1: nat, j2: nat)
    requires |m.scopes| == 1 && ChainLines(m, nn, i, j1, j2)
    ensures var lines := m.scopes[0].lines;
      var pre, inner, post := lines[m.cursor..i], lines[i + 1..j1], lines[j1 + 1..j2];
      var group := Scope(map[], pre + [Placeholder] + post, Some(head));
      var nested := Scope(map[], inner, Some(lines[i]));
      && ParseLines(lines, m.cursor) == Parsed(pre + [Placeholder] + post, [nested], j2 + 1)
      && ChainReady(m.scopes + [group] + [nested], 1, group, pre, post, nn,
                    Concat(Writes(m.scopes, pre)), Concat(Writes(m.scopes, inner)), Concat(Writes(m.scopes, post)))
  {
    var lines := m.scopes[0].lines;
    var pre, inner, post := lines[m.cursor..i], lines[i + 1..j1], lines[j1 + 1..j2];
    var group := Scope(map[], pre + [Placeholder] + post, Some(head));
    var nested := Scope(map[], inner, Some(lines[i]));
    var scopes := m.scopes + [group] + [nested];
    assert scopes[..1] == m.scopes && scopes[2] == nested;
    ParseNested(lines, m.cursor, i, j1, j2);
  }

  /** A group head "( * n" with n in range and not bound as a function in the root. */
  predicate StarTop(scopes: seq<Scope>, start: Option<string>, n: nat) {
    |scopes| >= 1 && start.Some? && StarHead(start.value, n) && 0 < n <= MaxInt && Decimal(n) !in scopes[0].functions
  }

  /**
   * A top-level group "( * n" whose lines are constant lines, one nested group "( * nn" of
   * constant lines, and more constant lines, when its output fits. One draw gives the
   * outer count in [0, n). Each outer pass draws once more for the nested count and writes
   * what Chain says. The lines of both groups and both ")" are consumed, every scope but
   * the root is removed, and scopeLevel is back at 1.
   */
  lemma ChainGroup(draws: nat -> int, fuel: nat, m: Machine, t: Tokenizer, n: nat, nn: nat, i: nat, j1: nat, j2: nat)
    requires Wf(m) && m.level == 0 && |m.scopes| == 1 && fuel >= 13
    requires StarTop(m.scopes, Some(t.str), n) && ChainLines(m, nn, i, j1, j2)
    requires var lines := m.scopes[0].lines;
      var a, b, c := Concat(Writes(m.scopes, lines[m.cursor..i])), Concat(Writes(m.scopes, lines[i + 1..j1])), Concat(Writes(m.scopes, lines[j1 + 1..j2]));
      |Chain(draws, m.drawn + 1, draws(m.drawn) % n, a, b, c, nn)| <= m.cap - |m.out|
    ensures 0 <= draws(m.drawn) % n < n
    ensures var lines := m.scopes[0].lines;
      var a, b, c := Concat(Writes(m.scopes, lines[m.cursor..i])), Concat(Writes(m.scopes, lines[i + 1..j1])), Concat(Writes(m.scopes, lines[j1 + 1..j2]));
      var count := draws(m.drawn) % n;
      AddNewScope(draws, fuel, m, t)
        == (m.(level := 1, cursor := j2 + 1, drawn := m.drawn + 1 + count, out := m.out + Chain(draws, m.drawn + 1, count, a, b, c, nn)), Done)
  {
    var lines := m.scopes[0].lines;
    var pre, inner, post := lines[m.cursor..i], lines[i + 1..j1], lines[j1 + 1..j2];
    var a, b, c := Concat(Writes(m.scopes, pre)), Concat(Writes(m.scopes, inner)), Concat(Writes(m.scopes, post));
    var count := draws(m.drawn) % n;
    var group := Scope(map[], pre + [Placeholder] + post, Some(t.str));
    var nested := Scope(map[], inner, Some(lines[i]));
    ChainScopes(m, t.str, nn, i, j1, j2);
    ChainRun(draws, fuel, m, t, group, nested, j2, pre, post, n, nn, a, b, c);
  }

  /** ChainGroup once the two groups are parsed. */
  lemma ChainRun(draws: nat -> int, fuel: nat, m: Machine, t: Tokenizer, group: Scope, nested: Scope, j2: nat,
                 pre: seq<string>, post: seq<string>, n: nat, nn: nat, a: seq<byte>, b: seq<byte>, c: seq<byte>)
    requires Wf(m) && m.level == 0 && |m.scopes| == 1 && fuel >= 13
    requires ParseLines(m.scopes[0].lines, m.cursor) == Parsed(group.lines, [nested], j2 + 1)
    requires group.functions == map[] && group.start == Some(t.str) && StarTop(m.scopes, Some(t.str), n)
    requires ChainReady(m.scopes + [group] + [nested], 1, group, pre, post, nn, a, b, c)
    requires |Chain(draws, m.drawn + 1, draws(m.drawn) % n, a, b, c, nn)| <= m.cap - |m.out|
    ensures AddNewScope(draws, fuel, m, t)
         == (m.(level := 1, cursor := j2 + 1, drawn := m.drawn + 1 + draws(m.drawn) % n,
                out := m.out + Chain(draws, m.drawn + 1, draws(m.drawn) % n, a, b, c, nn)), Done)
  {
    var m2 := m.(scopes := m.scopes + [group] + [nested], cursor := j2 + 1, level := 1);
    var r := m2.(drawn := m2.drawn + 1 + draws(m2.drawn) % n, out := m2.out + Chain(draws, m2.drawn + 1, draws(m2.drawn) % n, a, b, c, nn));
    assert r.(scopes := r.scopes[..1])
        == m.(level := 1, cursor := j2 + 1, drawn := m.drawn + 1 + draws(m.drawn) % n,
              out := m.out + Chain(draws, m.drawn + 1, draws(m.drawn) % n, a, b, c, nn));
    ChainTop(draws, fuel - 1, m2, group, pre, post, n, nn, a, b, c);
    TopDone(draws, fuel, m, t, group, [nested], j2, r);
  }

  /**
   * A group "( * n" of that shape, run from its opening line: one draw gives the count in
   * [0, n), then the repeat loop makes that many passes.
   */
  lemma ChainTop(draws: nat -> int, fuel: nat, m: Machine, g: Scope, pre: seq<string>, post: seq<string>, n: nat, nn: nat,
                 a: seq<byte>, b: seq<byte>, c: seq<byte>)
    requires Wf(m) && fuel >= 12 && ChainReady(m.scopes, m.level, g, pre, post, nn, a, b, c)
    requires StarTop(m.scopes, g.start, n)
    requires |Chain(draws, m.drawn + 1, draws(m.drawn) % n, a, b, c, nn)| <= m.cap - |m.out|
    ensures ProcessScope(draws, fuel, m, g, false, g.start)
         == (m.(drawn := m.drawn + 1 + draws(m.drawn) % n, out := m.out + Chain(draws, m.drawn + 1, draws(m.drawn) % n, a, b, c, nn)), Done)
  {
    var t := Tokenizer(g.start.value, Split(g.start.value)[2..]);
    assert forall i :: 0 <= i < |m.scopes| ==> Decimal(n) !in m.scopes[i].functions;
    assert ProcessScope(draws, fuel, m, g, false, g.start) == Repeat(draws, fuel - 1, m, g, false, t);
    StarCount(draws, fuel - 1, m, g, t, n);
    TimesChain(draws, fuel - 1, m.(drawn := m.drawn + 1), g, pre, post, nn, a, b, c, draws(m.drawn) % n);
  }

  // ---------------------------------------------------------------- OneOf

  /**
   * A OneOf over quoted alternatives writes the alternative at the drawn index, or nothing
   * when it does not fit; with no alternatives nextInt(0) throws and nothing is written.
   */
  lemma PickOneLiteral(draws: nat -> int, fuel: nat, m: Machine, str: string, alts: seq<string>, texts: seq<string>)
    requires Wf(m) && fuel >= 2
    requires |alts| == |texts| && forall i :: 0 <= i < |alts| ==> alts[i] == Quote(texts[i])
    ensures |alts| == 0 ==> Accept(draws, fuel, m, PickOne, Tokenizer(str, alts)) == (m, Thrown(IllegalArgument))
    ensures |alts| > 0 ==>
      var s := texts[draws(m.drawn) % |alts|];
      var m1 := m.(drawn := m.drawn + 1);
      Accept(draws, fuel, m, PickOne, Tokenizer(str, alts))
        == if |s| <= m.cap - |m.out| then (m1.(out := m.out + Encode(s)), Done) else (m1, Overflow)
  {
    if |alts| > 0 {
      var k := draws(m.drawn) % |alts|;
      assert OneOf.Choose(draws, m.drawn, alts) == Some(Quote(texts[k]));
      EmitLiteral(draws, fuel - 1, m.(drawn := m.drawn + 1), texts[k], Tokenizer(str, []));
    }
  }
}
