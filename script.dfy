/**
 * The class Script of Script.java. Its fields are the scopes list, scopeLevel and the
 * position of the root scope's line iterator; every method changes them, the random
 * source and the output buffer exactly as the function of the same name in ScriptSpec.
 */
module Script {
  import opened Outcomes
  import opened Bytes
  import opened Tokens
  import opened Literals
  import opened Rand
  import opened ScriptSpec
  import ConstString
  import RandomString
  import OneOf

  class Script {
    var scopes: seq<Scope>
    var scopeLevel: int
    /** The root scope's lineIterator: lines[..cursor] of the root scope have been returned by next(). */
    var cursor: nat
    const rnd: Random

    ghost predicate Valid()
      reads this
    {
      |scopes| >= 1 && cursor <= |scopes[0].lines| && scopeLevel >= 0
    }

    /** The state the methods are specified on. */
    ghost function State(out: ByteBuffer): Machine
      reads this, rnd, out, out.hb
      requires out.Valid()
    {
      Machine(scopes, scopeLevel, cursor, rnd.drawn, out.Contents(), out.hb.Length)
    }

    /** new Script(file): the root scope over the file's lines, with the built-in functions. */
    constructor (lines: seq<string>, rnd: Random)
      ensures Valid() && this.rnd == rnd
      ensures scopes == [Scope(BuiltIns(), lines, None)] && scopeLevel == 0 && cursor == 0
    {
      this.rnd := rnd;
      scopes := [Scope(BuiltIns(), lines, None)];
      scopeLevel := 0;
      cursor := 0;
    }

    /** findFunction: scan the scopes from the last pushed back to the root. */
    method FindFunction(token: string) returns (f: Option<Binding>)
      ensures f == ScriptSpec.FindFunction(scopes, token)
    {
      var i := |scopes|;
      assert scopes[..i] == scopes;
      while i > 0
        invariant 0 <= i <= |scopes|
        invariant ScriptSpec.FindFunction(scopes, token) == ScriptSpec.FindFunction(scopes[..i], token)
      {
        assert scopes[..i][..i - 1] == scopes[..i - 1];
        var scope := scopes[i - 1];
        if token in scope.functions {
          return Some(scope.functions[token]);
        }
        i := i - 1;
      }
      return None;
    }

    /** processParameter(String). */
    method ProcessParameter(token: string) returns (p: Param)
      ensures p == ScriptSpec.ProcessParameter(scopes, token)
    {
      if |token| >= 1 && token[0] == '"' && token[|token| - 1] == '"' {
        if |token| < 2 {
          return BadLiteral;
        }
        return Text(Unescape(token[1..|token| - 1]));
      }
      var func := FindFunction(token);
      if func.Some? {
        return Function(func.value);
      }
      return Text(token);
    }

    /** The var lambda. */
    method DeclareVar(t: Tokenizer, ghost out: ByteBuffer) returns (st: Status)
      requires Valid() && out.Valid()
      modifies this
      ensures Valid()
      ensures (State(out), st) == ScriptSpec.DeclareVar(old(State(out)), t)
    {
      var tokenizer := t;
      if tokenizer.rest == [] {
        return Thrown(NoSuchElement);
      }
      var varName := tokenizer.rest[0];
      tokenizer := tokenizer.(rest := tokenizer.rest[1..]);
      if tokenizer.rest == [] {
        return Thrown(NoSuchElement);
      }
      var className := tokenizer.rest[0];
      tokenizer := tokenizer.(rest := tokenizer.rest[1..]);
      // Class.forName and the search for a constructor with countTokens() + 1 parameters
      var paramCount := |tokenizer.rest| + 1;
      var arity := Arity(className);
      if arity != Some(paramCount) {
        return Done;
      }
      ghost var tokens := tokenizer.rest;
      var args: seq<Param> := [];
      while tokenizer.rest != []
        invariant unchanged(this)
        invariant |args| <= |tokens| && tokenizer.rest == tokens[|args|..]
        invariant forall i :: 0 <= i < |args| ==> args[i] == ScriptSpec.ProcessParameter(scopes, tokens[i])
        invariant forall i :: 0 <= i < |args| ==> args[i] != BadLiteral
      {
        var p := ProcessParameter(tokenizer.rest[0]);
        if p == BadLiteral {
          return Thrown(StringIndexOutOfBounds);
        }
        args := args + [p];
        tokenizer := tokenizer.(rest := tokenizer.rest[1..]);
      }
      assert |args| == |tokens|;
      assert forall i :: 0 <= i < |tokens| ==> ScriptSpec.ProcessParameter(scopes, tokens[i]) != BadLiteral;
      assert ProcessParameters(scopes, tokens).value == args;
      var binding := Construct(className, args);
      if binding.None? {
        return Done;
      }
      scopes := scopes[0 := scopes[0].(functions := scopes[0].functions[varName := binding.value])];
      return Done;
    }

    /** The parse part of addNewScope (lines 122-160), as the nested call inside it also runs. */
    method ParseGroup(start: string)
      requires Valid()
      modifies this
      ensures Valid() && scopeLevel == old(scopeLevel)
      ensures var p := ParseLines(old(scopes[0].lines), old(cursor));
        scopes == old(scopes) + [Scope(map[], p.body, Some(start))] + p.nested && cursor == p.next
      decreases |scopes[0].lines| - cursor, 2
    {
      // the backward search for a scope with a line iterator always ends at the root scope
      var index := |scopes|;
      scopes := scopes + [Scope(map[], [], Some(start))];
      scopeLevel := scopeLevel + 1;
      ghost var pushed := scopes;
      var lines := ParseBody();
      ghost var all := ParseLines(old(scopes[0].lines), old(cursor));
      assert scopes == pushed + all.nested;
      ghost var before := scopes;
      scopes := scopes[index := Scope(map[], lines, Some(start))];
      assert forall i :: 0 <= i < |scopes| && i != index ==> scopes[i] == before[i];
      scopeLevel := scopeLevel - 1;
    }

    /** The while loop of addNewScope: it collects the group's lines and parses the groups nested in it. */
    method ParseBody() returns (lines: seq<string>)
      requires Valid()
      modifies this
      ensures Valid() && scopeLevel == old(scopeLevel)
      ensures var p := ParseLines(old(scopes[0].lines), old(cursor));
        lines == p.body && scopes == old(scopes) + p.nested && cursor == p.next
      decreases |scopes[0].lines| - cursor, 1
    {
      var source := scopes[0].lines;
      lines := [];
      ghost var all := ParseLines(source, cursor);
      ghost var nested: seq<Scope> := [];
      var closed := false;
      while !closed && cursor < |source|
        invariant Valid() && scopes[0].lines == source && scopeLevel == old(scopeLevel)
        invariant old(cursor) <= cursor
        invariant scopes == old(scopes) + nested
        invariant closed ==> lines == all.body && nested == all.nested && cursor == all.next
        invariant !closed ==> Pending(source, cursor, lines, nested, all)
        decreases |source| - cursor
      {
        lines, closed, nested := ParseStep(source, all, old(scopes), lines, nested);
      }
      if !closed {
        assert ParseLines(source, cursor) == Parsed([], [], cursor);
      }
    }

    /** One turn of that loop: the next line opens a nested group, closes this one, or belongs to it. */
    method ParseStep(source: seq<string>, ghost all: Parsed, ghost base: seq<Scope>,
                     lines: seq<string>, ghost nested: seq<Scope>)
      returns (lines': seq<string>, closed: bool, ghost nested': seq<Scope>)
      requires Valid() && scopes[0].lines == source && cursor < |source|
      requires scopes == base + nested && Pending(source, cursor, lines, nested, all)
      modifies this
      ensures Valid() && scopes[0].lines == source && scopeLevel == old(scopeLevel)
      ensures old(cursor) < cursor && scopes == base + nested'
      ensures closed ==> lines' == all.body && nested' == all.nested && cursor == all.next
      ensures !closed ==> Pending(source, cursor, lines', nested', all)
      decreases |scopes[0].lines| - cursor, 0
    {
      var line := source[cursor];
      cursor := cursor + 1;
      if StartsGroup(line) {
        // new BetterStringTokenizer(line), nextToken(), addNewScope: with scopeLevel > 0
        // the nested call returns right after its own parse
        PendingNested(source, cursor - 1, lines, nested, all);
        ghost var inner := ParseLines(source, cursor);
        ghost var group := Scope(map[], inner.body, Some(line));
        ParseGroup(line);
        lines' := lines + ["processNestedScope"];
        nested' := nested + [group] + inner.nested;
        closed := false;
        assert scopes == base + nested';
      } else if line == ")" {
        PendingClose(source, cursor - 1, lines, nested, all);
        lines', closed, nested' := lines, true, nested;
      } else {
        PendingLine(source, cursor - 1, lines, nested, all);
        lines', closed, nested' := lines + [line], false, nested;
      }
    }

    /** processLine: the first token names the function that gets the rest of the line. */
    method ProcessLine(fuel: nat, line: string, out: ByteBuffer) returns (st: Status)
      requires Valid() && out.Valid()
      modifies this, rnd, out, out.hb
      ensures Valid() && out.Valid()
      ensures (State(out), st) == ScriptSpec.ProcessLine(rnd.draws, fuel, old(State(out)), line)
      decreases fuel, 1, 0
    {
      if fuel == 0 {
        return Thrown(StackOverflow);
      }
      var tokenizer := Tokens.Of(line);
      if tokenizer.rest == [] {
        return Done;
      }
      var token := tokenizer.rest[0];
      var binding := FindFunction(token);
      if binding.None? {
        return Thrown(MissingFunction(token));
      }
      st := Accept(fuel - 1, binding.value, tokenizer.(rest := tokenizer.rest[1..]), out);
    }

    /** BiConsumer.accept of the function a token is bound to. */
    method Accept(fuel: nat, binding: Binding, t: Tokenizer, out: ByteBuffer) returns (st: Status)
      requires Valid() && out.Valid()
      modifies this, rnd, out, out.hb
      ensures Valid() && out.Valid()
      ensures (State(out), st) == ScriptSpec.Accept(rnd.draws, fuel, old(State(out)), binding, t)
      decreases fuel, 1, 0
    {
      if fuel == 0 {
        return Thrown(StackOverflow);
      }
      match binding
      case Comment =>
        st := Done;
      case OpenScope =>
        st := AddNewScope(fuel - 1, t, out);
      case NestedScope =>
        st := ProcessNestedScope(fuel - 1, out);
      case Var =>
        st := DeclareVar(t, out);
      case ConstText(_) =>
        st := AcceptGenerator(fuel, binding, t, out);
      case RandomText(_) =>
        st := AcceptGenerator(fuel, binding, t, out);
      case PickOne =>
        st := AcceptOneOf(fuel, t, out);
    }

    /** A ConstString or RandomString binding writing into the buffer. */
    method AcceptGenerator(fuel: nat, binding: Binding, t: Tokenizer, out: ByteBuffer) returns (st: Status)
      requires Valid() && out.Valid() && fuel > 0 && (binding.ConstText? || binding.RandomText?)
      modifies rnd, out, out.hb
      ensures Valid() && out.Valid()
      ensures (State(out), st) == ScriptSpec.Accept(rnd.draws, fuel, old(State(out)), binding, t)
    {
      ghost var m := State(out);
      if binding.ConstText? {
        st := ConstString.Accept(binding.str, out);
        assert (State(out), st) == Put(m, Encode(binding.str));
      } else {
        st := RandomString.Accept(binding.maxLen, rnd, out);
      }
    }

    /** A OneOf binding: its alternatives are the rest of the line, one of them is emitted. */
    method AcceptOneOf(fuel: nat, t: Tokenizer, out: ByteBuffer) returns (st: Status)
      requires Valid() && out.Valid() && fuel > 0
      modifies this, rnd, out, out.hb
      ensures Valid() && out.Valid()
      ensures (State(out), st) == ScriptSpec.Accept(rnd.draws, fuel, old(State(out)), PickOne, t)
      decreases fuel, 0, 0
    {
      var oneOf, drained := OneOf.Collect(t);
      var v := OneOf.Pick(oneOf, rnd);
      if v.None? {
        return Thrown(IllegalArgument);
      }
      st := EmitParameter(fuel - 1, v.value, drained, out);
    }

    /** processParameter(token, t, u): a String is put into u, a function gets t and u. */
    method EmitParameter(fuel: nat, token: string, t: Tokenizer, out: ByteBuffer) returns (st: Status)
      requires Valid() && out.Valid()
      modifies this, rnd, out, out.hb
      ensures Valid() && out.Valid()
      ensures (State(out), st) == ScriptSpec.EmitParameter(rnd.draws, fuel, old(State(out)), token, t)
      decreases fuel, 1, 0
    {
      if fuel == 0 {
        return Thrown(StackOverflow);
      }
      var sof := ProcessParameter(token);
      match sof
      case BadLiteral =>
        st := Thrown(StringIndexOutOfBounds);
      case Text(s) =>
        var ok := out.Put(Encode(s));
        st := if ok then Done else Overflow;
      case Function(binding) =>
        st := Accept(fuel - 1, binding, t, out);
    }

    /** addNewScope: parse the group, and at the top level run it and drop every scope but the root. */
    method AddNewScope(fuel: nat, t: Tokenizer, out: ByteBuffer) returns (st: Status)
      requires Valid() && out.Valid()
      modifies this, rnd, out, out.hb
      ensures Valid() && out.Valid()
      ensures (State(out), st) == ScriptSpec.AddNewScope(rnd.draws, fuel, old(State(out)), t)
      decreases fuel, 1, 0
    {
      if fuel == 0 {
        return Thrown(StackOverflow);
      }
      ParseGroup(t.str);
      if scopeLevel > 0 {
        return Done;
      }
      scopeLevel := scopeLevel + 1;
      st := ProcessScope(fuel - 1, scopes[scopeLevel], false, Some(t.str), out);
      if st != Done {
        return;
      }
      ghost var all := scopes;
      ghost var level, position := scopeLevel, cursor;
      var i := |scopes| - 1;
      while i > 0
        invariant 0 <= i < |all| && scopes == all[..i + 1]
        invariant scopeLevel == level && cursor == position
        modifies this
      {
        scopes := scopes[..i];
        i := i - 1;
      }
    }

    /** The processNestedScope function: run the next scope from its opening line, one level deeper. */
    method ProcessNestedScope(fuel: nat, out: ByteBuffer) returns (st: Status)
      requires Valid() && out.Valid()
      modifies this, rnd, out, out.hb
      ensures Valid() && out.Valid()
      ensures (State(out), st) == ScriptSpec.ProcessNestedScope(rnd.draws, fuel, old(State(out)))
      decreases fuel, 1, 0
    {
      if fuel == 0 {
        return Thrown(StackOverflow);
      }
      scopeLevel := scopeLevel + 1;
      if scopeLevel >= |scopes| {
        return Thrown(IndexOutOfBounds);
      }
      var nestedScope := scopes[scopeLevel];
      st := ProcessScope(fuel - 1, nestedScope, false, nestedScope.start, out);
      if st != Done {
        return;
      }
      scopeLevel := scopeLevel - 1;
    }

    /**
     * processScope. isRoot stands for a scope with its own lineIterator, which only the
     * root scope has.
     */
    method ProcessScope(fuel: nat, scope: Scope, isRoot: bool, start: Option<string>, out: ByteBuffer) returns (st: Status)
      requires Valid() && out.Valid()
      modifies this, rnd, out, out.hb
      ensures Valid() && out.Valid()
      ensures (State(out), st) == ScriptSpec.ProcessScope(rnd.draws, fuel, old(State(out)), scope, isRoot, start)
      decreases fuel, 1, 0
    {
      if fuel == 0 {
        return Thrown(StackOverflow);
      }
      if start.Some? {
        var st' := Tokens.Of(start.value);
        if |st'.rest| < 2 {
          return Thrown(NoSuchElement);
        }
        if st'.rest[1] == "*" {
          st := Repeat(fuel - 1, scope, isRoot, st'.(rest := st'.rest[2..]), out);
        } else {
          st := ProcessScope(fuel - 1, scope, isRoot, start, out);
        }
        return;
      }
      if isRoot {
        st := RootLoop(fuel, out);
      } else {
        st := GroupLoop(fuel, scope.lines, out);
      }
    }

    /** The while loop of processScope over the root scope's lineIterator. */
    method RootLoop(fuel: nat, out: ByteBuffer) returns (st: Status)
      requires Valid() && out.Valid()
      modifies this, rnd, out, out.hb
      ensures Valid() && out.Valid()
      ensures (State(out), st) == RootLines(rnd.draws, fuel, old(State(out)))
      decreases fuel, 0, 0
    {
      if fuel == 0 {
        return Thrown(StackOverflow);
      }
      ghost var goal := RootLines(rnd.draws, fuel, State(out));
      while cursor < |scopes[0].lines|
        invariant Valid() && out.Valid()
        invariant RootLines(rnd.draws, fuel, State(out)) == goal
        decreases |scopes[0].lines| - cursor
      {
        ghost var before := State(out);
        var line := scopes[0].lines[cursor];
        cursor := cursor + 1;
        assert State(out) == before.(cursor := before.cursor + 1);
        st := ProcessLine(fuel - 1, line, out);
        RootLinesStep(rnd.draws, fuel, before, (State(out), st));
        if st != Done {
          return;
        }
      }
      st := Done;
    }

    /** The while loop of processScope over a fresh listIterator of a group's lines. */
    method GroupLoop(fuel: nat, lines: seq<string>, out: ByteBuffer) returns (st: Status)
      requires Valid() && out.Valid()
      modifies this, rnd, out, out.hb
      ensures Valid() && out.Valid()
      ensures (State(out), st) == ScopeLines(rnd.draws, fuel, old(State(out)), lines, 0)
      decreases fuel, 0, 0
    {
      if fuel == 0 {
        return Thrown(StackOverflow);
      }
      var i := 0;
      while i < |lines|
        invariant i <= |lines| && Valid() && out.Valid()
        invariant ScopeLines(rnd.draws, fuel, State(out), lines, i) == ScopeLines(rnd.draws, fuel, old(State(out)), lines, 0)
      {
        st := ProcessLine(fuel - 1, lines[i], out);
        if st != Done {
          return;
        }
        i := i + 1;
      }
      st := Done;
    }

    /** The "*" scope function. */
    method Repeat(fuel: nat, scope: Scope, isRoot: bool, t: Tokenizer, out: ByteBuffer) returns (st: Status)
      requires Valid() && out.Valid()
      modifies this, rnd, out, out.hb
      ensures Valid() && out.Valid()
      ensures (State(out), st) == ScriptSpec.Repeat(rnd.draws, fuel, old(State(out)), scope, isRoot, t)
      decreases fuel, 1, 0
    {
      if fuel == 0 {
        return Thrown(StackOverflow);
      }
      if t.rest == [] {
        return Thrown(NoSuchElement);
      }
      var pp := ProcessParameter(t.rest[0]);
      match pp
      case BadLiteral =>
        st := Thrown(StringIndexOutOfBounds);
      case Function(_) =>
        st := Thrown(ClassCast);
      case Text(s) =>
        st := RepeatText(fuel, scope, isRoot, t, s, out);
    }

    /** The "*" function once its bound resolved to a String: parse it, draw the count, loop. */
    method RepeatText(fuel: nat, scope: Scope, isRoot: bool, t: Tokenizer, s: string, out: ByteBuffer) returns (st: Status)
      requires Valid() && out.Valid() && fuel > 0
      requires t.rest != [] && ScriptSpec.ProcessParameter(scopes, t.rest[0]) == Text(s)
      modifies this, rnd, out, out.hb
      ensures Valid() && out.Valid()
      ensures (State(out), st) == ScriptSpec.Repeat(rnd.draws, fuel, old(State(out)), scope, isRoot, t)
      decreases fuel, 0, 1
    {
      var maxRepeat := ParseInt(s);
      if maxRepeat.None? {
        return Thrown(NumberFormat);
      }
      ghost var m := State(out);
      var repeats := rnd.NextInt(maxRepeat.value);
      if repeats.None? {
        return Thrown(IllegalArgument);
      }
      RepeatTimes(rnd.draws, fuel, m, scope, isRoot, t, s, maxRepeat.value);
      st := RepeatLoop(fuel, scope, isRoot, repeats.value, out);
    }

    /** The for loop of the "*" scope function. */
    method RepeatLoop(fuel: nat, scope: Scope, isRoot: bool, repeats: nat, out: ByteBuffer) returns (st: Status)
      requires Valid() && out.Valid()
      modifies this, rnd, out, out.hb
      ensures Valid() && out.Valid()
      ensures (State(out), st) == Times(rnd.draws, fuel, old(State(out)), scope, isRoot, repeats)
      decreases fuel, 0, 0
    {
      if fuel == 0 {
        return Thrown(StackOverflow);
      }
      var i := 0;
      while i < repeats
        invariant i <= repeats && Valid() && out.Valid()
        invariant Times(rnd.draws, fuel, State(out), scope, isRoot, repeats - i)
          == Times(rnd.draws, fuel, old(State(out)), scope, isRoot, repeats)
      {
        st := ProcessScope(fuel - 1, scope, isRoot, None, out);
        if st != Done {
          return;
        }
        i := i + 1;
      }
      st := Done;
    }

    /** run: process the current scope; a BufferOverflowException ends the run quietly. */
    method Run(fuel: nat, out: ByteBuffer) returns (st: Status)
      requires Valid() && out.Valid()
      modifies this, rnd, out, out.hb
      ensures Valid() && out.Valid()
      ensures (State(out), st) == ScriptSpec.Run(rnd.draws, fuel, old(State(out)))
    {
      if scopeLevel >= |scopes| {
        return Thrown(IndexOutOfBounds);
      }
      st := ProcessScope(fuel, scopes[scopeLevel], scopeLevel == 0, None, out);
      if st == Overflow {
        st := Done;
      }
    }
  }

  /** The "*" function once its bound is a positive int: the loop runs the drawn number of times. */
  lemma RepeatTimes(draws: nat -> int, fuel: nat, m: Machine, scope: Scope, isRoot: bool, t: Tokenizer,
                    s: string, maxRepeat: int)
    requires Wf(m) && fuel > 0 && t.rest != [] && ProcessParameter(m.scopes, t.rest[0]) == Text(s)
    requires ParseInt(s) == Some(maxRepeat) && maxRepeat > 0
    ensures ScriptSpec.Repeat(draws, fuel, m, scope, isRoot, t)
         == Times(draws, fuel, m.(drawn := m.drawn + 1), scope, isRoot, draws(m.drawn) % maxRepeat)
  {
  }

  /** One turn of the root loop: the next line is consumed and processed. */
  lemma RootLinesStep(draws: nat -> int, fuel: nat, m: Machine, r: (Machine, Status))
    requires Wf(m) && fuel > 0 && m.cursor < |m.scopes[0].lines|
    requires r == ScriptSpec.ProcessLine(draws, fuel - 1, m.(cursor := m.cursor + 1), m.scopes[0].lines[m.cursor])
    ensures Wf(r.0) && RootLines(draws, fuel, m) == if r.1 != Done then r else RootLines(draws, fuel, r.0)
  {
  }

  /** The parse of lines[k..] still owes `all` what remains after `lines` and `nested`. */
  ghost predicate Pending(source: seq<string>, k: nat, lines: seq<string>, nested: seq<Scope>, all: Parsed)
    requires k <= |source|
  {
    var p := ParseLines(source, k);
    lines + p.body == all.body && nested + p.nested == all.nested && p.next == all.next
  }

  lemma PendingLine(source: seq<string>, k: nat, lines: seq<string>, nested: seq<Scope>, all: Parsed)
    requires k < |source| && !StartsGroup(source[k]) && source[k] != ")"
    requires Pending(source, k, lines, nested, all)
    ensures Pending(source, k + 1, lines + [source[k]], nested, all)
  {
    var p := ParseLines(source, k + 1);
    assert lines + [source[k]] + p.body == lines + ([source[k]] + p.body);
  }

  lemma PendingClose(source: seq<string>, k: nat, lines: seq<string>, nested: seq<Scope>, all: Parsed)
    requires k < |source| && !StartsGroup(source[k]) && source[k] == ")"
    requires Pending(source, k, lines, nested, all)
    ensures lines == all.body && nested == all.nested && k + 1 == all.next
  {
    assert lines + [] == lines && nested + [] == nested;
  }

  lemma PendingNested(source: seq<string>, k: nat, lines: seq<string>, nested: seq<Scope>, all: Parsed)
    requires k < |source| && StartsGroup(source[k])
    requires Pending(source, k, lines, nested, all)
    ensures var inner := ParseLines(source, k + 1);
      Pending(source, inner.next, lines + ["processNestedScope"],
              nested + [Scope(map[], inner.body, Some(source[k]))] + inner.nested, all)
  {
    var inner := ParseLines(source, k + 1);
    var after := ParseLines(source, inner.next);
    assert lines + ["processNestedScope"] + after.body == lines + (["processNestedScope"] + after.body);
    var s := Scope(map[], inner.body, Some(source[k]));
    assert nested + [s] + inner.nested + after.nested == nested + ([s] + inner.nested + after.nested);
  }
}
