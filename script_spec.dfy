/**
 * The template interpreter of Script.java as functions over an explicit state.
 * Each function mirrors one method or lambda of the class; the class Script
 * (module Script) is proved to change its state exactly as these functions say.
 *
 * `draws` is the caller-supplied stream of random numbers, `fuel` the depth of
 * calls still available: when it runs out the call ends with StackOverflow, as
 * the JVM ends unbounded recursion with StackOverflowError.
 */
module ScriptSpec {
  import opened Outcomes
  import opened Bytes
  import opened Tokens
  import opened Literals
  import Rand
  import RandomString
  import OneOf

  /** What a name can be bound to in a scope's function table. */
  datatype Binding =
    | Comment                  // "#": does nothing
    | OpenScope                // "(": addNewScope
    | NestedScope              // "processNestedScope": runs the group at the next level
    | Var                      // "var": declares a binding
    | ConstText(str: string)   // a ConstString
    | RandomText(maxLen: int)  // a RandomString
    | PickOne                  // a OneOf

  /** A Scope: its function table, its lines, and for a group the line that opened it. */
  datatype Scope = Scope(functions: map<string, Binding>, lines: seq<string>, start: Option<string>)

  /** What processParameter(String) gives: a String, a binding, or StringIndexOutOfBoundsException. */
  datatype Param = Text(s: string) | Function(b: Binding) | BadLiteral

  /**
   * The state a run works on: the scopes list, scopeLevel, the position of the root
   * scope's shared line iterator, the number of random draws used so far, and the
   * bytes written to the output buffer together with its capacity.
   */
  datatype Machine = Machine(scopes: seq<Scope>, level: int, cursor: nat, drawn: nat, out: seq<byte>, cap: nat)

  /** Index 0 is the root scope, the only one with a line iterator; it is never removed. */
  predicate Wf(m: Machine) {
    |m.scopes| >= 1 && m.cursor <= |m.scopes[0].lines| && m.level >= 0 && |m.out| <= m.cap
  }

  /**
   * What every step keeps: the script's lines, a line iterator and a random source
   * that only move forward, a level that is never left lower, and an output buffer
   * whose earlier bytes stay.
   */
  predicate Evolves(m: Machine, m': Machine) {
    |m.scopes| >= 1 && Wf(m') &&
    m'.scopes[0].lines == m.scopes[0].lines &&
    m.cursor <= m'.cursor && m.level <= m'.level && m.drawn <= m'.drawn &&
    m'.cap == m.cap && m.out <= m'.out
  }

  /** The root scope's table after the constructor: the built-ins of addBuildInFunctions. */
  function BuiltIns(): map<string, Binding> {
    map["#" := Comment, "(" := OpenScope, "processNestedScope" := NestedScope, "var" := Var]
  }

  /** The state new Script(file) sets up over the file's lines. */
  function Initial(lines: seq<string>, drawn: nat, cap: nat): (m: Machine)
    ensures Wf(m) && |m.scopes| == 1 && m.scopes[0].lines == lines
    ensures m.level == 0 && m.cursor == 0 && m.out == [] && m.drawn == drawn && m.cap == cap
    ensures FindFunction(m.scopes, "#") == Some(Comment) && FindFunction(m.scopes, "(") == Some(OpenScope)
    ensures FindFunction(m.scopes, "var") == Some(Var) && FindFunction(m.scopes, "processNestedScope") == Some(NestedScope)
  {
    Machine([Scope(BuiltIns(), lines, None)], 0, 0, drawn, [], cap)
  }

  /** findFunction: the table of the scope pushed last that defines the name wins. */
  function FindFunction(scopes: seq<Scope>, name: string): Option<Binding>
    decreases |scopes|
  {
    if scopes == [] then None
    else if name in scopes[|scopes| - 1].functions then Some(scopes[|scopes| - 1].functions[name])
    else FindFunction(scopes[..|scopes| - 1], name)
  }

  /** processParameter(String): a quoted literal first, then a binding, else the token itself. */
  function ProcessParameter(scopes: seq<Scope>, token: string): Param {
    if |token| >= 1 && token[0] == '"' && token[|token| - 1] == '"' then
      if |token| < 2 then BadLiteral else Text(Unescape(token[1..|token| - 1]))
    else
      match FindFunction(scopes, token)
      case Some(b) => Function(b)
      case None => Text(token)
  }

  /** u.put(bytes): all of them if they fit, else BufferOverflowException and nothing written. */
  function Put(m: Machine, bs: seq<byte>): (r: (Machine, Status))
    requires Wf(m)
    ensures Evolves(m, r.0)
    ensures r.1 == Done || r.1 == Overflow
  {
    if |bs| <= m.cap - |m.out| then (m.(out := m.out + bs), Done) else (m, Overflow)
  }

  // ---------------------------------------------------------------- var

  const ConstStringClass: string := "de.m3y3r.fuzzer.generator.common.ConstString"
  const RandomStringClass: string := "de.m3y3r.fuzzer.generator.common.RandomString"
  const OneOfClass: string := "de.m3y3r.fuzzer.generator.common.OneOf"

  /** Parameter count of the public constructor of each class a script can name; None: no such class. */
  function Arity(className: string): Option<nat> {
    if className == ConstStringClass || className == RandomStringClass then Some(2)
    else if className == OneOfClass then Some(1)
    else None
  }

  /**
   * con.newInstance(this, args...): the new binding, or None when an argument does not
   * have the parameter's type or the constructor throws (RandomString's parseInt).
   */
  function Construct(className: string, args: seq<Param>): (r: Option<Binding>)
    requires Arity(className) == Some(|args| + 1)
  {
    if className == OneOfClass then Some(PickOne)
    else if !args[0].Text? then None
    else if className == ConstStringClass then Some(ConstText(args[0].s))
    else
      match RandomString.New(args[0].s)
      case None => None
      case Some(n) => Some(RandomText(n))
  }

  /** The constructor arguments after the first, resolved in order; None: one of them throws. */
  function ProcessParameters(scopes: seq<Scope>, tokens: seq<string>): (r: Option<seq<Param>>)
    ensures r.Some? <==> forall i :: 0 <= i < |tokens| ==> ProcessParameter(scopes, tokens[i]) != BadLiteral
    ensures r.Some? ==> |r.value| == |tokens|
    ensures r.Some? ==> forall i :: 0 <= i < |tokens| ==> r.value[i] == ProcessParameter(scopes, tokens[i])
  {
    if tokens == [] then Some([])
    else
      var p := ProcessParameter(scopes, tokens[0]);
      if p == BadLiteral then None
      else
        match ProcessParameters(scopes, tokens[1..])
        case None => None
        case Some(ps) => Some([p] + ps)
  }

  /** The state after functions.put(name, b) on the root scope's table. */
  function Declare(m: Machine, name: string, b: Binding): Machine
    requires Wf(m)
  {
    m.(scopes := m.scopes[0 := m.scopes[0].(functions := m.scopes[0].functions[name := b])])
  }

  /**
   * The var lambda. A missing name or class name throws NoSuchElementException; an unknown
   * class, a wrong argument count or type, or a failing constructor is swallowed and the
   * table is unchanged; otherwise the binding goes into the root scope's table.
   */
  function DeclareVar(m: Machine, t: Tokenizer): (r: (Machine, Status))
    requires Wf(m)
    ensures Evolves(m, r.0)
  {
    if |t.rest| < 2 then (m, Thrown(NoSuchElement))
    else
      var name, className, args := t.rest[0], t.rest[1], t.rest[2..];
      if Arity(className) != Some(|args| + 1) then (m, Done)
      else
        match ProcessParameters(m.scopes, args)
        case None => (m, Thrown(StringIndexOutOfBounds))
        case Some(params) =>
          match Construct(className, params)
          case None => (m, Done)
          case Some(b) => (Declare(m, name, b), Done)
  }

  // ---------------------------------------------------------------- parsing a group

  /** What the parse loop of addNewScope collects: the group's lines, the groups nested in it, where it stopped. */
  datatype Parsed = Parsed(body: seq<string>, nested: seq<Scope>, next: nat)

  predicate StartsGroup(line: string) { |line| > 0 && line[0] == '(' }

  /**
   * The parse loop of addNewScope from line k of the script: lines up to the first one
   * equal to ")" go into the group; a line starting with "(" opens a nested group, parsed
   * the same way and replaced by one "processNestedScope" line; without ")" the loop runs
   * to the end of the script. The nested groups are listed in the order they are pushed.
   */
  function ParseLines(lines: seq<string>, k: nat): (p: Parsed)
    requires k <= |lines|
    ensures k <= p.next <= |lines|
    ensures k < |lines| ==> k < p.next
    ensures forall i :: 0 <= i < |p.nested| ==> p.nested[i].functions == map[]
    decreases |lines| - k
  {
    if k == |lines| then Parsed([], [], k)
    else if StartsGroup(lines[k]) then
      var inner := ParseLines(lines, k + 1);
      var after := ParseLines(lines, inner.next);
      Parsed(["processNestedScope"] + after.body,
             [Scope(map[], inner.body, Some(lines[k]))] + inner.nested + after.nested,
             after.next)
    else if lines[k] == ")" then Parsed([], [], k + 1)
    else
      var after := ParseLines(lines, k + 1);
      Parsed([lines[k]] + after.body, after.nested, after.next)
  }

  /** The state after parsing a group opened by `start`: the group and its nested groups pushed. */
  function ParseGroup(m: Machine, start: string): (m': Machine)
    requires Wf(m)
    ensures Evolves(m, m') && m'.level == m.level && |m'.scopes| > |m.scopes|
  {
    var p := ParseLines(m.scopes[0].lines, m.cursor);
    m.(scopes := m.scopes + [Scope(map[], p.body, Some(start))] + p.nested, cursor := p.next)
  }

  // ---------------------------------------------------------------- running

  /** processLine: look up the first token and hand the rest of the line to its binding. */
  function ProcessLine(draws: nat -> int, fuel: nat, m: Machine, line: string): (r: (Machine, Status))
    requires Wf(m)
    ensures Evolves(m, r.0)
    decreases fuel, 1, 0
  {
    if fuel == 0 then (m, Thrown(StackOverflow))
    else
      var toks := Split(line);
      if toks == [] then (m, Done)
      else
        match FindFunction(m.scopes, toks[0])
        case None => (m, Thrown(MissingFunction(toks[0])))
        case Some(b) => Accept(draws, fuel - 1, m, b, Tokenizer(line, toks[1..]))
  }

  /** function.accept(tokenizer, buffer) for each kind of binding. */
  function Accept(draws: nat -> int, fuel: nat, m: Machine, b: Binding, t: Tokenizer): (r: (Machine, Status))
    requires Wf(m)
    ensures Evolves(m, r.0)
    decreases fuel, 1, 0
  {
    if fuel == 0 then (m, Thrown(StackOverflow))
    else
      match b
      case Comment => (m, Done)
      case OpenScope => AddNewScope(draws, fuel - 1, m, t)
      case NestedScope => ProcessNestedScope(draws, fuel - 1, m)
      case Var => DeclareVar(m, t)
      case ConstText(str) => Put(m, Encode(str))
      case RandomText(maxLen) =>
        (match RandomString.Draw(draws, m.drawn, maxLen)
         case None => (m, Thrown(IllegalArgument))
         case Some(s) => Put(m.(drawn := m.drawn + 1 + |s|), Encode(s)))
      case PickOne =>
        (match OneOf.Choose(draws, m.drawn, t.rest)
         case None => (m, Thrown(IllegalArgument))
         case Some(v) => EmitParameter(draws, fuel - 1, m.(drawn := m.drawn + 1), v, Tokenizer(t.str, [])))
  }

  /** processParameter(token, t, u): put a String's bytes, or invoke a binding with t and u. */
  function EmitParameter(draws: nat -> int, fuel: nat, m: Machine, token: string, t: Tokenizer): (r: (Machine, Status))
    requires Wf(m)
    ensures Evolves(m, r.0)
    decreases fuel, 1, 0
  {
    if fuel == 0 then (m, Thrown(StackOverflow))
    else
      match ProcessParameter(m.scopes, token)
      case BadLiteral => (m, Thrown(StringIndexOutOfBounds))
      case Text(s) => Put(m, Encode(s))
      case Function(b) => Accept(draws, fuel - 1, m, b, t)
  }

  /**
   * addNewScope: parse the group; below the top level stop there, at the top level
   * run the group (scopes.get(++scopeLevel) is the group just pushed, at index 1)
   * and then remove every scope but the root. scopeLevel is left at 1.
   */
  function AddNewScope(draws: nat -> int, fuel: nat, m: Machine, t: Tokenizer): (r: (Machine, Status))
    requires Wf(m)
    ensures Evolves(m, r.0)
    decreases fuel, 1, 0
  {
    if fuel == 0 then (m, Thrown(StackOverflow))
    else
      var m1 := ParseGroup(m, t.str);
      if m1.level > 0 then (m1, Done)
      else
        var m2 := m1.(level := 1);
        var r := ProcessScope(draws, fuel - 1, m2, m2.scopes[1], false, Some(t.str));
        if r.1 != Done then r
        else (r.0.(scopes := r.0.scopes[..1]), Done)
  }

  /** The processNestedScope lambda: run scopes.get(++scopeLevel) from its opening line, then scopeLevel--. */
  function ProcessNestedScope(draws: nat -> int, fuel: nat, m: Machine): (r: (Machine, Status))
    requires Wf(m)
    ensures Evolves(m, r.0)
    decreases fuel, 1, 0
  {
    if fuel == 0 then (m, Thrown(StackOverflow))
    else
      var m1 := m.(level := m.level + 1);
      if m1.level >= |m1.scopes| then (m1, Thrown(IndexOutOfBounds))
      else
        var scope := m1.scopes[m1.level];
        var r := ProcessScope(draws, fuel - 1, m1, scope, false, scope.start);
        if r.1 != Done then r
        else (r.0.(level := r.0.level - 1), Done)
  }

  /**
   * processScope. With an opening line: its second token selects the scope function,
   * "*" the repeat and anything else processScope itself, again with the same line.
   * Without one: the root scope's lines through the shared iterator, a group's own
   * lines from the first.
   */
  function ProcessScope(draws: nat -> int, fuel: nat, m: Machine, scope: Scope, isRoot: bool, start: Option<string>): (r: (Machine, Status))
    requires Wf(m)
    ensures Evolves(m, r.0)
    decreases fuel, 1, 0
  {
    if fuel == 0 then (m, Thrown(StackOverflow))
    else if start.Some? then
      var toks := Split(start.value);
      if |toks| < 2 then (m, Thrown(NoSuchElement))
      else if toks[1] == "*" then Repeat(draws, fuel - 1, m, scope, isRoot, Tokenizer(start.value, toks[2..]))
      else ProcessScope(draws, fuel - 1, m, scope, isRoot, start)
    else if isRoot then RootLines(draws, fuel, m)
    else ScopeLines(draws, fuel, m, scope.lines, 0)
  }

  /** The loop of processScope over the root iterator: each line is consumed before it runs. */
  function RootLines(draws: nat -> int, fuel: nat, m: Machine): (r: (Machine, Status))
    requires Wf(m)
    ensures Evolves(m, r.0)
    decreases fuel, 0, |m.scopes[0].lines| - m.cursor
  {
    if fuel == 0 then (m, Thrown(StackOverflow))
    else if m.cursor == |m.scopes[0].lines| then (m, Done)
    else
      var r := ProcessLine(draws, fuel - 1, m.(cursor := m.cursor + 1), m.scopes[0].lines[m.cursor]);
      if r.1 != Done then r else RootLines(draws, fuel, r.0)
  }

  /** The loop of processScope over a group's lines, from line i. */
  function ScopeLines(draws: nat -> int, fuel: nat, m: Machine, lines: seq<string>, i: nat): (r: (Machine, Status))
    requires Wf(m) && i <= |lines|
    ensures Evolves(m, r.0)
    decreases fuel, 0, |lines| - i
  {
    if fuel == 0 then (m, Thrown(StackOverflow))
    else if i == |lines| then (m, Done)
    else
      var r := ProcessLine(draws, fuel - 1, m, lines[i]);
      if r.1 != Done then r else ScopeLines(draws, fuel, r.0, lines, i + 1)
  }

  /**
   * The "*" scope function: maxRepeat is the next token resolved and parsed as an int,
   * repeats = nextInt(maxRepeat), and the group runs that many times.
   */
  function Repeat(draws: nat -> int, fuel: nat, m: Machine, scope: Scope, isRoot: bool, t: Tokenizer): (r: (Machine, Status))
    requires Wf(m)
    ensures Evolves(m, r.0)
    decreases fuel, 1, 0
  {
    if fuel == 0 then (m, Thrown(StackOverflow))
    else if t.rest == [] then (m, Thrown(NoSuchElement))
    else
      match ProcessParameter(m.scopes, t.rest[0])
      case BadLiteral => (m, Thrown(StringIndexOutOfBounds))
      case Function(_) => (m, Thrown(ClassCast))
      case Text(s) =>
        match ParseInt(s)
        case None => (m, Thrown(NumberFormat))
        case Some(maxRepeat) =>
          match Rand.Below(draws, m.drawn, maxRepeat)
          case None => (m, Thrown(IllegalArgument))
          case Some(repeats) => Times(draws, fuel, m.(drawn := m.drawn + 1), scope, isRoot, repeats)
  }

  /** The repeat loop: the group run `count` more times, each from its first line. */
  function Times(draws: nat -> int, fuel: nat, m: Machine, scope: Scope, isRoot: bool, count: nat): (r: (Machine, Status))
    requires Wf(m)
    ensures Evolves(m, r.0)
    decreases fuel, 0, count
  {
    if fuel == 0 then (m, Thrown(StackOverflow))
    else if count == 0 then (m, Done)
    else
      var r := ProcessScope(draws, fuel - 1, m, scope, isRoot, None);
      if r.1 != Done then r else Times(draws, fuel, r.0, scope, isRoot, count - 1)
  }

  /** run: processScope(scopes.get(scopeLevel), null, out); BufferOverflowException is swallowed. */
  function Run(draws: nat -> int, fuel: nat, m: Machine): (r: (Machine, Status))
    requires Wf(m)
    ensures Evolves(m, r.0)
    ensures r.1 != Overflow
  {
    if m.level >= |m.scopes| then (m, Thrown(IndexOutOfBounds))
    else
      var r := ProcessScope(draws, fuel, m, m.scopes[m.level], m.level == 0, None);
      if r.1 == Overflow then (r.0, Done) else r
  }
}
