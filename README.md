# A Dafny model of the Fuzzer template interpreter and its genome helpers

The Fuzzer project (`de.m3y3r.fuzzer`) builds HTTP-like requests from a small template
language and evolves them with a genetic algorithm guided by code coverage. This project
models two pieces of it and proves properties of the model.

**The template interpreter.** `Script.java` reads a script as a list of lines. It splits
each line on whitespace and looks up the first token in a stack of scopes, innermost first.
The binding it finds is called with the rest of the line and a fixed-capacity `ByteBuffer`.
The built-ins are:

- `#`: a comment.
- `var`: declares a binding in the root scope.
- `(`: opens a group. The group's lines are pulled from the root scope's shared line
  iterator up to a line `)`.
- `processNestedScope`: the placeholder for a nested group.
- `*`: the group head that repeats the group a random number of times.

The generator bindings `ConstString`, `RandomString` and `OneOf` append bytes to the same
buffer. `run` swallows a `BufferOverflowException`.

**The genome helpers of `Fuzzer.java`.** These are:

- the `ByteArrayList` view of a request and the copy back into an array;
- the mutation policy, which overwrites a few random bytes of a copy;
- the fitness, which counts the coverage probes that are set;
- `generateRandomRequest`;
- `fill` and `generate`, which produce the seed population by running the script into
  buffers of one drawn size.

## Layout

| file | module | what it holds |
|---|---|---|
| `outcomes.dfy` | `Outcomes` | `Option`, the Java exceptions that can end a call, and the `Status` of a call |
| `bytes.dfy` | `Bytes` | `byte`, `String.getBytes` (`Encode`), and the `ByteBuffer` class (an array plus a position) |
| `rand.dfy` | `Rand` | `java.util.Random` as a class over a caller-supplied stream of draws |
| `tokens.dfy` | `Tokens` | `StringTokenizer` splitting on its default delimiters, and a tokenizer positioned after some tokens |
| `literals.dfy` | `Literals` | `Integer.parseInt` and the escapes `StringEscapeUtils.unescapeJava` handles |
| `const_string.dfy`, `random_string.dfy`, `one_of.dfy` | `ConstString`, `RandomString`, `OneOf` | the three generators |
| `script_spec.dfy` | `ScriptSpec` | the interpreter as functions over an explicit state `Machine` |
| `script.dfy` | `Script` | the class `Script` with its fields `scopes`, `scopeLevel` and the root line iterator. Every method is proved to change the state exactly as the `ScriptSpec` function its row names |
| `script_properties.dfy` | `ScriptProperties` | what the interpreter does, proved about `ScriptSpec` |
| `fuzzer.dfy` | `Fuzzer` | `ByteArrayList`, `Request`, mutation, fitness, random requests, and seeds |

Some conventions of the model:

- **Randomness.** Every `nextInt` reads the next value of a stream `draws: nat -> int`
  given by the caller. `drawn` counts the values used so far.
- **Bounded draws.** `nextInt(bound)` gives `draws(k) % bound`. A bound of 0 or less
  gives `IllegalArgumentException`.
- **Unbounded `nextInt()`.** It gives the draw wrapped to 32 bits.
- **Java bytes.** A Java `byte` is held as its unsigned bit pattern, 0 to 255.
- **Recursion depth.** The interpreter recurses through Java calls. Every function of
  `ScriptSpec` takes a `fuel`, the call depth still available. When the fuel runs out,
  the call ends with `StackOverflow`, as the JVM ends unbounded recursion with
  `StackOverflowError`.
- **Errors.** Each operation returns a `Status`:
  - `Done`;
  - `Overflow`, for `BufferOverflowException`;
  - `Thrown(e)`, for an exception that propagates.

  Exceptions the source catches leave the state as the source leaves it.

Where the model and the source can be compared in detail:

- A group head other than `*` makes `processScope` call itself forever. Its result is
  `StackOverflow` at every depth (`OtherHeadOverflows`).
- After a top-level group runs, `scopeLevel` stays at 1. A later top-level group is
  parsed and pushed but not run (`GroupNotRun`). When the script is one `( * n` group
  and nothing else, a second `run` throws `IndexOutOfBoundsException` (`RunStarGroup`).
  What a second `run` does after a later group was pushed is not stated.
- `run` stops at the first line whose bytes do not fit in the buffer. That line is
  already consumed (`RootConst`). For a script of constant lines that all fitted, a
  second `run` writes nothing (`RunConst`). Other second runs are not stated. In
  particular, a second `run` goes on with the root lines only while no top-level group
  has run. Once one has, `scopeLevel` is 1, and the second `run` starts from
  `scopes.get(1)` instead.

## Model

| member | source | states |
|---|---|---|
| `Bytes.Encode` | src/de/m3y3r/fuzzer/generator/common/ConstString.java:19 | `getBytes` gives one byte per character, its low eight bits |
| `Bytes.ByteBuffer.Allocate` | src/de/m3y3r/fuzzer/Fuzzer.java:170 | `ByteBuffer.allocate(size)`: a fresh zero-filled array of that size, position 0 |
| `Bytes.ByteBuffer.Put` | src/de/m3y3r/fuzzer/generator/common/ConstString.java:19 | `put` succeeds exactly when the bytes fit in the remaining space. It then appends them at the position. Otherwise it throws and neither the position nor the array changes |
| `Rand.Below` | src/de/m3y3r/fuzzer/generator/common/RandomString.java:26 | `nextInt(bound)` gives a value in `[0, bound)` exactly when `bound > 0`; otherwise it throws |
| `Rand.Int32` | src/de/m3y3r/fuzzer/Fuzzer.java:132 | `nextInt()` gives a value in the int range that agrees with the draw modulo 2^32 |
| `Rand.Random.NextInt` | src/de/m3y3r/fuzzer/generator/common/RandomString.java:26 | it returns `Below` of the next draw. It consumes a draw exactly when the bound is positive |
| `Rand.Random.NextInt32` | src/de/m3y3r/fuzzer/Fuzzer.java:132 | it returns the next draw wrapped to 32 bits, and consumes it |
| `Tokens.TokenLength` | src/de/m3y3r/fuzzer/Script.java:252-254 | the first token is the longest run of non-delimiters |
| `Tokens.Split` | src/de/m3y3r/fuzzer/Script.java:252-254 | every token is non-empty and contains no delimiter |
| `Tokens.SplitLeadingToken` | src/de/m3y3r/fuzzer/Script.java:252-254 | a token followed by a delimiter is split off as the first token |
| `Tokens.SplitJoin` | src/de/m3y3r/fuzzer/Script.java:252-254 | splitting the tokens joined by spaces gives back the same tokens |
| `Literals.ParseInt` | src/de/m3y3r/fuzzer/generator/common/RandomString.java:19 | `Integer.parseInt` succeeds only on an optional sign followed by at least one digit. The value is the digits' decimal value, negated after `-`, and it is in the int range |
| `Literals.DecimalDigits` | src/de/m3y3r/fuzzer/generator/common/RandomString.java:19 | the decimal form of n is a non-empty digit string whose value is n |
| `Literals.ParseDecimal` | src/de/m3y3r/fuzzer/generator/common/RandomString.java:19 | `parseInt` gives back every int written in decimal, with or without a minus sign |
| `Literals.Unescape` | src/de/m3y3r/fuzzer/Script.java:177 | unescaping never makes a string longer |
| `Literals.UnescapeEscape` | src/de/m3y3r/fuzzer/Script.java:177 | unescaping the escaped form of any string gives the string back |
| `Literals.UnescapePlain` | src/de/m3y3r/fuzzer/Script.java:177 | a string without backslashes is left as it is |
| `ConstString.Accept` | src/de/m3y3r/fuzzer/generator/common/ConstString.java:13-19 | it appends exactly the stored string's bytes when they fit. Otherwise it reports the overflow and changes nothing. It takes no tokens |
| `RandomString.CharOf` | src/de/m3y3r/fuzzer/generator/common/RandomString.java:24-25 | a draw selects a character in `0x21..0x7E`, and every character of that range is selected by some draw |
| `RandomString.New` | src/de/m3y3r/fuzzer/generator/common/RandomString.java:18-20 | `maxLen` is `parseInt` of the argument, so it is in the int range |
| `RandomString.NewDecimal` | src/de/m3y3r/fuzzer/generator/common/RandomString.java:18-20 | a `maxLen` written in decimal is read back, and an argument without digits throws |
| `RandomString.Chars` | src/de/m3y3r/fuzzer/generator/common/RandomString.java:24-27 | the generated string has the requested length, and every character is in `0x21..0x7E` |
| `RandomString.Draw` | src/de/m3y3r/fuzzer/generator/common/RandomString.java:26-27 | a string exists exactly when `maxLen > 0`. Its length is below `maxLen` and its characters are printable |
| `RandomString.DrawEncoded` | src/de/m3y3r/fuzzer/generator/common/RandomString.java:27-28 | the bytes written number fewer than `maxLen`, and each is in `0x21..0x7E` |
| `RandomString.Generate` | src/de/m3y3r/fuzzer/generator/common/RandomString.java:27 | the loop returns `Chars` of the draws it consumed, one draw per character |
| `RandomString.Accept` | src/de/m3y3r/fuzzer/generator/common/RandomString.java:22-28 | `maxLen <= 0` throws `IllegalArgumentException` and nothing is written. Otherwise one draw gives the length and one draw each gives the characters. The drawn string's bytes are appended, or the overflow changes nothing |
| `OneOf.Choose` | src/de/m3y3r/fuzzer/generator/common/OneOf.java:27 | there is a choice exactly when there are alternatives, and the choice is one of them |
| `OneOf.Collect` | src/de/m3y3r/fuzzer/generator/common/OneOf.java:21-25 | a fresh array of `countTokens()` elements holds the remaining tokens in order, and the tokenizer is left exhausted |
| `OneOf.Pick` | src/de/m3y3r/fuzzer/generator/common/OneOf.java:27 | it returns `Choose` of the next draw, and consumes a draw only when there are alternatives |
| `ScriptSpec.Initial` | src/de/m3y3r/fuzzer/Script.java:53-61 | the new `Script` has one root scope over the file's lines in which `#`, `(`, `processNestedScope` and `var` resolve to the built-ins. It is at level 0, with its iterator at the first line and nothing written |
| `ScriptSpec.Put` | src/de/m3y3r/fuzzer/Script.java:191 | a put keeps the invariants and either completes or overflows |
| `ScriptSpec.ProcessParameters` | src/de/m3y3r/fuzzer/Script.java:105-110 | constructor arguments are resolved one by one, in order. They fail exactly when one is the bare token `"` |
| `ScriptSpec.ProcessLine` | src/de/m3y3r/fuzzer/Script.java:251-261 | it keeps the script's lines, the capacity and every byte written. The root iterator, `scopeLevel` and the draws never go back |
| `ScriptSpec.Accept` | src/de/m3y3r/fuzzer/Script.java:75-116 | it keeps the script's lines, the capacity and every byte written. The root iterator, `scopeLevel` and the draws never go back |
| `ScriptSpec.EmitParameter` | src/de/m3y3r/fuzzer/Script.java:188-195 | it keeps the script's lines, the capacity and every byte written. The root iterator, `scopeLevel` and the draws never go back |
| `ScriptSpec.AddNewScope` | src/de/m3y3r/fuzzer/Script.java:120-172 | it keeps the script's lines, the capacity and every byte written. The root iterator, `scopeLevel` and the draws never go back |
| `ScriptSpec.ProcessNestedScope` | src/de/m3y3r/fuzzer/Script.java:80-84 | it keeps the script's lines, the capacity and every byte written. The root iterator, `scopeLevel` and the draws never go back |
| `ScriptSpec.ProcessScope` | src/de/m3y3r/fuzzer/Script.java:227-249 | it keeps the script's lines, the capacity and every byte written. The root iterator, `scopeLevel` and the draws never go back |
| `ScriptSpec.ScopeLines` | src/de/m3y3r/fuzzer/Script.java:237-248 | it keeps the script's lines, the capacity and every byte written. The root iterator, `scopeLevel` and the draws never go back |
| `ScriptSpec.Repeat` | src/de/m3y3r/fuzzer/Script.java:64-71 | it keeps the script's lines, the capacity and every byte written. The root iterator, `scopeLevel` and the draws never go back |
| `ScriptSpec.Times` | src/de/m3y3r/fuzzer/Script.java:68-70 | it keeps the script's lines, the capacity and every byte written. The root iterator, `scopeLevel` and the draws never go back |
| `ScriptSpec.DeclareVar` | src/de/m3y3r/fuzzer/Script.java:87-116 | `var` keeps the script's lines and every byte written. The iterator, the level and the draws never go back |
| `ScriptSpec.ParseLines` | src/de/m3y3r/fuzzer/Script.java:141-158 | the parse consumes at least one line when any is left, never runs past the end, and pushes groups with empty tables |
| `ScriptSpec.ParseGroup` | src/de/m3y3r/fuzzer/Script.java:122-160 | parsing a group pushes scopes and keeps `scopeLevel` |
| `ScriptSpec.RootLines` | src/de/m3y3r/fuzzer/Script.java:237-248 | the root loop keeps the script's lines and every byte written. The shared iterator, the level and the draws never go back |
| `ScriptSpec.Run` | src/de/m3y3r/fuzzer/Script.java:219-225 | `run` never ends with a buffer overflow |
| `Script.Script.constructor` | src/de/m3y3r/fuzzer/Script.java:53-61 | the root scope over the file's lines with the built-ins, level 0, iterator at the start |
| `Script.Script.FindFunction` | src/de/m3y3r/fuzzer/Script.java:197-209 | the backward scan over `scopes` returns what `ScriptSpec.FindFunction` gives |
| `Script.Script.ProcessParameter` | src/de/m3y3r/fuzzer/Script.java:174-186 | it returns `ScriptSpec.ProcessParameter` |
| `Script.Script.DeclareVar` | src/de/m3y3r/fuzzer/Script.java:87-116 | the `var` lambda changes the scopes exactly as `ScriptSpec.DeclareVar` |
| `Script.Script.ParseGroup` | src/de/m3y3r/fuzzer/Script.java:122-160 | the parse loop, nested calls included, pushes the group and the groups nested in it as `ParseLines` says. It moves the root iterator to where `ParseLines` stopped and leaves `scopeLevel` as it was |
| `Script.Script.ParseBody` | src/de/m3y3r/fuzzer/Script.java:141-158 | the while loop collects the group's lines and pushes the groups nested in it, as `ParseLines` says. It stops where `ParseLines` stops |
| `Script.Script.ParseStep` | src/de/m3y3r/fuzzer/Script.java:143-157 | one turn consumes a line. The turn opens a nested group, closes the group, or adds the line, and keeps what the rest of the parse owes |
| `Script.Script.ProcessLine` | src/de/m3y3r/fuzzer/Script.java:251-261 | the new state and outcome are those of `ScriptSpec.ProcessLine` |
| `Script.Script.Accept` | src/de/m3y3r/fuzzer/Script.java:75-116 | each binding changes the state and the buffer as `ScriptSpec.Accept` |
| `Script.Script.AcceptGenerator` | src/de/m3y3r/fuzzer/generator/common/RandomString.java:22-28 | a `ConstString` or `RandomString` binding changes the buffer and the draws as `ScriptSpec.Accept` |
| `Script.Script.AcceptOneOf` | src/de/m3y3r/fuzzer/generator/common/OneOf.java:20-29 | a `OneOf` binding collects the rest of the line, picks one, and emits it as `ScriptSpec.Accept` says |
| `Script.Script.EmitParameter` | src/de/m3y3r/fuzzer/Script.java:188-195 | the state and outcome are those of `ScriptSpec.EmitParameter` |
| `Script.Script.AddNewScope` | src/de/m3y3r/fuzzer/Script.java:120-172 | the parse, the top-level run and the removal of the pushed scopes are as in `ScriptSpec.AddNewScope` |
| `Script.Script.ProcessNestedScope` | src/de/m3y3r/fuzzer/Script.java:80-84 | the state and outcome are those of `ScriptSpec.ProcessNestedScope` |
| `Script.Script.ProcessScope` | src/de/m3y3r/fuzzer/Script.java:227-249 | the state and outcome are those of `ScriptSpec.ProcessScope` |
| `Script.Script.RootLoop` | src/de/m3y3r/fuzzer/Script.java:237-248 | the loop over the shared iterator gives `ScriptSpec.RootLines` |
| `Script.Script.GroupLoop` | src/de/m3y3r/fuzzer/Script.java:237-248 | the loop over a fresh iterator of a group's lines gives `ScriptSpec.ScopeLines` |
| `Script.Script.Repeat` | src/de/m3y3r/fuzzer/Script.java:64-71 | the `*` function changes the state as `ScriptSpec.Repeat` |
| `Script.Script.RepeatText` | src/de/m3y3r/fuzzer/Script.java:66-70 | once the bound is a String: `parseInt`, `nextInt` and the loop, with the errors of `ScriptSpec.Repeat` |
| `Script.RepeatTimes` | src/de/m3y3r/fuzzer/Script.java:65-70 | with a positive int bound, the `*` function runs the loop `draws(drawn) % bound` times after one draw |
| `Script.Script.RepeatLoop` | src/de/m3y3r/fuzzer/Script.java:68-70 | the for loop gives `ScriptSpec.Times` |
| `Script.RootLinesStep` | src/de/m3y3r/fuzzer/Script.java:245-248 | one turn of the root loop consumes the next line before it runs, and stops on any exception |
| `Script.Script.Run` | src/de/m3y3r/fuzzer/Script.java:219-225 | the state and outcome are those of `ScriptSpec.Run` |
| `ScriptProperties.FindFunctionInnermost` | src/de/m3y3r/fuzzer/Script.java:197-208 | the table of the last pushed scope that defines the name gives the binding |
| `ScriptProperties.FindFunctionNone` | src/de/m3y3r/fuzzer/Script.java:197-208 | `findFunction` returns null exactly when no scope defines the name |
| `ScriptProperties.FindFunctionInGroups` | src/de/m3y3r/fuzzer/Script.java:135-137 | while only groups with empty tables are pushed, a lookup sees the root table alone |
| `ScriptProperties.FindFunctionFound` | src/de/m3y3r/fuzzer/Script.java:197-208 | a binding `findFunction` returns is one that some scope binds to the name |
| `ScriptProperties.ParameterCases` | src/de/m3y3r/fuzzer/Script.java:174-186 | `processParameter` throws exactly on the bare token `"`. A token that resolves to a binding is not a quoted literal, and the binding is the one `findFunction` gives |
| `ScriptProperties.ConstructCases` | src/de/m3y3r/fuzzer/Script.java:91-111 | the constructor lookup: `OneOf` always gives its binding. `ConstString` and `RandomString` need a String argument. `ConstString` keeps it, and `RandomString`'s `maxLen` is in the int range |
| `ScriptProperties.QuotedLiteral` | src/de/m3y3r/fuzzer/Script.java:176-178 | a quoted token gives its unescaped interior, even when a binding has that name |
| `ScriptProperties.BoundToken` | src/de/m3y3r/fuzzer/Script.java:180-183 | an unquoted token gives the innermost binding of that name |
| `ScriptProperties.UnboundToken` | src/de/m3y3r/fuzzer/Script.java:185 | an unquoted token no scope defines is returned unchanged |
| `ScriptProperties.EmitParameterCases` | src/de/m3y3r/fuzzer/Script.java:188-195 | the bare token `"` throws. An unquoted token no scope binds puts its own bytes, or nothing when they do not fit. A bound token invokes its binding with the same tokenizer |
| `ScriptProperties.EmitLiteral` | src/de/m3y3r/fuzzer/Script.java:188-195 | a literal token puts exactly its bytes, or nothing when they do not fit |
| `ScriptProperties.DeclareConstString` | src/de/m3y3r/fuzzer/Script.java:87-116 | `var name ConstString "s"` binds `name` to `s` in the root table, whatever the nesting. The name then resolves to it unless a pushed scope defines it |
| `ScriptProperties.DeclareRandomString` | src/de/m3y3r/fuzzer/Script.java:87-116 | `var name RandomString n` binds `name` to a `RandomString` with `maxLen` n |
| `ScriptProperties.DeclareVarSwallows` | src/de/m3y3r/fuzzer/Script.java:87-116 | `var` with fewer than two tokens throws `NoSuchElementException`. An unknown class, a wrong argument count or a failed construction is swallowed, with the state unchanged and `Done`. A bare `"` argument throws. Otherwise the new binding goes into the root table |
| `ScriptProperties.DeclareVarTouchesRootOnly` | src/de/m3y3r/fuzzer/Script.java:112-115 | `var` either leaves the state as it was or binds one name in the root table |
| `ScriptProperties.OtherHeadOverflows` | src/de/m3y3r/fuzzer/Script.java:212-217 | a group head other than `*` recurses until the stack overflows, at any depth |
| `ScriptProperties.ParseClosed` | src/de/m3y3r/fuzzer/Script.java:141-158 | the lines up to the first `)` go into the group in order. The `)` is consumed too |
| `ScriptProperties.ParseUnclosed` | src/de/m3y3r/fuzzer/Script.java:141-158 | without a `)` the group takes the rest of the script |
| `ScriptProperties.GroupNotRun` | src/de/m3y3r/fuzzer/Script.java:162-164 | while `scopeLevel > 0` a group line pushes the parsed group and consumes its lines. It writes nothing and draws nothing |
| `ScriptProperties.ParsePlain` | src/de/m3y3r/fuzzer/Script.java:141-158 | lines that neither open nor close a group go into the group's lines in order, ahead of what the rest of the parse collects |
| `ScriptProperties.ParseNested` | src/de/m3y3r/fuzzer/Script.java:141-158 | a nested `(` line is replaced by the line `processNestedScope` in the group's lines. The nested group, with its own lines up to its `)` and its opening line as start, is pushed after the group. Both `)` are consumed |
| `ScriptProperties.ChainScopes` | src/de/m3y3r/fuzzer/Script.java:141-158 | over a group that holds one nested group, the parse gives the group's lines around the placeholder and pushes the nested group |
| `ScriptProperties.NestedStar` | src/de/m3y3r/fuzzer/Script.java:80-84 | the placeholder runs the `( * n` group at the next level: one draw, that many copies of its bytes. `scopeLevel` is back where it was |
| `ScriptProperties.NestedMissing` | src/de/m3y3r/fuzzer/Script.java:80-81 | with no scope at the next level, the placeholder throws `IndexOutOfBoundsException` with `scopeLevel` already raised |
| `ScriptProperties.PlaceholderLine` | src/de/m3y3r/fuzzer/Script.java:251-259 | the line `processNestedScope` calls the lambda the root table binds to it |
| `ScriptProperties.GroupPrefix` | src/de/m3y3r/fuzzer/Script.java:239-248 | a group's leading constant lines write their bytes, and the loop carries on after them |
| `ScriptProperties.ChainPass` | src/de/m3y3r/fuzzer/Script.java:80-84 | one pass over a group with one nested `( * n` group writes the bytes before it, the nested bytes as many times as one draw says, and the bytes after it |
| `ScriptProperties.ChainStep` | src/de/m3y3r/fuzzer/Script.java:68-70 | one turn of the repeat loop is one such pass |
| `ScriptProperties.TimesChain` | src/de/m3y3r/fuzzer/Script.java:68-70 | `count` turns of the repeat loop write `Chain`: each pass draws once for its nested count |
| `ScriptProperties.ChainTop` | src/de/m3y3r/fuzzer/Script.java:64-71 | the outer `( * n` group draws its count in `[0, n)`, then makes that many passes |
| `ScriptProperties.ChainRun` | src/de/m3y3r/fuzzer/Script.java:159-171 | once parsed, the top-level group runs at level 1. Every scope but the root is removed afterwards |
| `ScriptProperties.ChainGroup` | src/de/m3y3r/fuzzer/Script.java:120-172 | a top-level `( * n` group with one nested `( * nn` group, both over constant lines, consumes both groups' lines. It draws 1 plus 1 per outer pass, writes `Chain`, removes the pushed scopes, and leaves `scopeLevel` at 1 |
| `ScriptProperties.FitCount` | src/de/m3y3r/fuzzer/Script.java:219-225 | the statements counted all fit, and the next one would not have fitted |
| `ScriptProperties.ConstOfInGroups` | src/de/m3y3r/fuzzer/Script.java:135-137 | inside groups a line writes the constant the root table gives it |
| `ScriptProperties.WritesInGroups` | src/de/m3y3r/fuzzer/Script.java:135-137 | the bytes of constant lines are the same inside groups as at the root |
| `ScriptProperties.ProcessLineCases` | src/de/m3y3r/fuzzer/Script.java:251-261 | a line without tokens does nothing. An unbound first token throws "missing function" with the state unchanged. A comment does nothing. Any other binding is invoked with the tokenizer after the first token |
| `ScriptProperties.ConstLine` | src/de/m3y3r/fuzzer/Script.java:251-261 | a line whose first token is a `ConstString` puts that constant |
| `ScriptProperties.RootConstStep` | src/de/m3y3r/fuzzer/Script.java:245-248 | one turn of the root loop consumes a constant line and either puts its bytes or ends with the overflow |
| `ScriptProperties.RootConst` | src/de/m3y3r/fuzzer/Script.java:245-248 | over constant-only lines the root loop gives `ConstRun`: the longest run of whole statements that fit is written. The first line that does not fit is consumed, writes nothing, and ends the loop with the overflow |
| `ScriptProperties.RunChunksFits` | src/de/m3y3r/fuzzer/Script.java:245-248 | a first statement that fits is written, and the loop carries on with the rest |
| `ScriptProperties.RunChunksOverflows` | src/de/m3y3r/fuzzer/Script.java:245-248 | a first statement that does not fit ends the loop at once, with only its line consumed |
| `ScriptProperties.RunConst` | src/de/m3y3r/fuzzer/Script.java:219-225 | `run` over constant-only lines leaves the state `ConstRun` gives, and swallows the overflow. When every line fitted, a second `run` writes nothing |
| `ScriptProperties.GroupConst` | src/de/m3y3r/fuzzer/Script.java:239-248 | a group's constant lines write their bytes in order |
| `ScriptProperties.Repeated` | src/de/m3y3r/fuzzer/Script.java:68-70 | n repetitions are n times as long |
| `ScriptProperties.GroupScopeConst` | src/de/m3y3r/fuzzer/Script.java:239-248 | `processScope` without an opening line runs a group's constant lines from the first, writing their bytes in order |
| `ScriptProperties.TimesConst` | src/de/m3y3r/fuzzer/Script.java:68-70 | the repeat loop writes the group's bytes exactly `count` times |
| `ScriptProperties.StarCount` | src/de/m3y3r/fuzzer/Script.java:65-67 | an unbound decimal bound n is parsed back to n, and one draw gives a count in `[0, n)` |
| `ScriptProperties.TopGroup` | src/de/m3y3r/fuzzer/Script.java:159-171 | at the top level, a parsed group with nothing nested in it runs from its opening line at level 1. Afterwards every scope but the root is removed |
| `ScriptProperties.StarRun` | src/de/m3y3r/fuzzer/Script.java:64-71 | a `( * n` group over constant lines draws once and writes its bytes that many times |
| `ScriptProperties.StarGroup` | src/de/m3y3r/fuzzer/Script.java:64-71 | a top-level `( * n` group draws a count in `[0, n)` and writes its body that many times. It consumes its lines and `)`, removes every scope but the root, and leaves `scopeLevel` at 1 |
| `ScriptProperties.RunStarGroup` | src/de/m3y3r/fuzzer/Script.java:162-171 | `run` over one such group gives that output. A second `run` throws `IndexOutOfBoundsException` |
| `ScriptProperties.LevelPastScopes` | src/de/m3y3r/fuzzer/Script.java:219-221 | with `scopeLevel` past the last scope, `run` throws `IndexOutOfBoundsException` and changes nothing |
| `ScriptProperties.PickOneLiteral` | src/de/m3y3r/fuzzer/generator/common/OneOf.java:20-28 | `OneOf` writes the alternative at the drawn index. With no alternatives it throws and writes nothing |
| `Fuzzer.ByteArrayList.constructor` | src/de/m3y3r/fuzzer/Fuzzer.java:37-39 | the list wraps the given array itself, not a copy |
| `Fuzzer.ByteArrayList.Size` | src/de/m3y3r/fuzzer/Fuzzer.java:46-49 | `size()` is the number of elements the shared array holds |
| `Fuzzer.ByteArrayList.Get` | src/de/m3y3r/fuzzer/Fuzzer.java:41-44 | `get(index)` is the element the shared array holds at that index when it is read |
| `Fuzzer.Request.constructor` | src/de/m3y3r/fuzzer/Fuzzer.java:61-64 | the request keeps the given array, and its chromosome list is a fresh view of that same array |
| `Fuzzer.Request.Valid` | src/de/m3y3r/fuzzer/Fuzzer.java:61-64 | the chromosome list holds exactly the request's bytes |
| `Fuzzer.Coverage` | src/de/m3y3r/fuzzer/Fuzzer.java:74-79 | the fitness is zero exactly when no probe of any entry is set |
| `Fuzzer.Hits` | src/de/m3y3r/fuzzer/Fuzzer.java:75-78 | the count of set probes is at most the number of probes |
| `Fuzzer.HitsAll` | src/de/m3y3r/fuzzer/Fuzzer.java:75-78 | every probe is counted exactly when every probe is set |
| `Fuzzer.HitsNone` | src/de/m3y3r/fuzzer/Fuzzer.java:75-78 | the count is zero exactly when no probe is set |
| `Fuzzer.CoverageAppend` | src/de/m3y3r/fuzzer/Fuzzer.java:74-79 | the fitness of two dumps together is the sum of their fitnesses |
| `Fuzzer.CoverageBounds` | src/de/m3y3r/fuzzer/Fuzzer.java:73-82 | the fitness is never negative and never more than the number of probes |
| `Fuzzer.Request.Fitness` | src/de/m3y3r/fuzzer/Fuzzer.java:73-82 | the nested loop computes `Coverage` of the dump |
| `Fuzzer.Request.NewFixedLengthChromosome` | src/de/m3y3r/fuzzer/Fuzzer.java:95-101 | a fresh array, element-wise equal to the list, wrapped in a new `Request` |
| `Fuzzer.RoundTrip` | src/de/m3y3r/fuzzer/Fuzzer.java:58-64 | a request copied through its `ByteArrayList` view has the same bytes in a new array |
| `Fuzzer.CopyOf` | src/de/m3y3r/fuzzer/Fuzzer.java:128 | `Arrays.copyOf` gives a fresh array with the same bytes |
| `Fuzzer.Overwritten` | src/de/m3y3r/fuzzer/Fuzzer.java:130-133 | the writes keep the length |
| `Fuzzer.Hit` | src/de/m3y3r/fuzzer/Fuzzer.java:131 | every written position is in `[0, len)` |
| `Fuzzer.Mutation` | src/de/m3y3r/fuzzer/Fuzzer.java:128-134 | a mutation exists exactly when `len >= 100`, and it has the input's length |
| `Fuzzer.OverwrittenElsewhere` | src/de/m3y3r/fuzzer/Fuzzer.java:130-133 | x writes hit at most x positions, and every other byte stays |
| `Fuzzer.MutationChangesFew` | src/de/m3y3r/fuzzer/Fuzzer.java:128-134 | fewer than `len / 100` positions change, each in `[0, len)`. Every other byte equals the original |
| `Fuzzer.Overwrite` | src/de/m3y3r/fuzzer/Fuzzer.java:130-133 | the write loop leaves the copy as `Overwritten` says, with two draws per write |
| `Fuzzer.Mutate` | src/de/m3y3r/fuzzer/Fuzzer.java:126-135 | the lambda returns a fresh `Request` holding `Mutation` of the input, whose list view holds those bytes. It throws when `len < 100`, without drawing. It draws 1 plus 2 per write. The input array is not modified |
| `Fuzzer.RandomRequest` | src/de/m3y3r/fuzzer/Fuzzer.java:191-200 | the request has exactly `len` bytes |
| `Fuzzer.ByteOrder` | src/de/m3y3r/fuzzer/Fuzzer.java:194-196 | the four bytes taken from an int, least significant first, are its low 32 bits |
| `Fuzzer.GenerateRandomRequest` | src/de/m3y3r/fuzzer/Fuzzer.java:191-200 | the loops fill byte `i` from byte `i % 4` of int number `i / 4`, and draw `ceil(len / 4)` ints |
| `Fuzzer.SeedTail` | src/de/m3y3r/fuzzer/Fuzzer.java:169-176 | a seed starts with the bytes the script wrote, and its tail is zero |
| `Fuzzer.Generate` | src/de/m3y3r/fuzzer/Fuzzer.java:169-176 | `generate(size)` returns a fresh array of exactly `size` bytes: the script's output and a zero tail. It returns nothing when `run` throws |
| `Fuzzer.SeedRunsChain` | src/de/m3y3r/fuzzer/Fuzzer.java:164-166 | in the loop of `fill`, each `generate` starts its draws where the previous one stopped, and every seed recorded comes from a run that did not throw |
| `Fuzzer.SeedRunsStop` | src/de/m3y3r/fuzzer/Fuzzer.java:164-166 | the loop makes every seed exactly when no run throws. A loop that stops early stops at the first run that throws, and the draws end where that run left them |
| `Fuzzer.MakeSeeds` | src/de/m3y3r/fuzzer/Fuzzer.java:164-166 | the for loop makes the seeds `SeedRuns` gives, in order, each of `size` bytes and each a seed of its own draw offset. It ends with `SeedRuns`' draw count and outcome |
| `Fuzzer.Fill` | src/de/m3y3r/fuzzer/Fuzzer.java:160-167 | one length is drawn in `[0, maxReqSize)`, and every seed has that length and holds what `generate` gives. A `maxReqSize` of 0 or less throws before any seed or draw is made. Otherwise it completes exactly when `maxPop` seeds are made. The first seed's run starts at the draw after the length, and each later run where the previous one stopped. When it does not complete, the run after the last seed throws. The final draw count is that of `SeedRuns` |

## Left out

- Network I/O is not modelled: `sendRequest`, `resetCoverage` and `getCoverage`. The fitness takes the coverage dump's probe arrays as input.
- The genetic algorithm of commons-math is not modelled: crossover, tournament selection, the elitist population, `nextGeneration` and the fitness cache. Its code is not part of this model.
- The generation loop with its console output and both `main` methods are not modelled. They are process plumbing.
- File reading is not modelled: `Files.readAllLines` becomes the script given as a sequence of lines.
- `java.util.Random` becomes one caller-supplied stream of draws, used in the order of the calls. In the source, the `Script`, every `RandomString`, every `OneOf` and the `Fuzzer` each own an unseeded `Random`.
- `RandomStringGenerator` is reduced to one draw per character, mapped into `0x21..0x7E`. Its real use of the random source is not modelled.
- `Literals.Unescape`: only the escapes `\\ \" \' \n \t \r \b \f` are modelled. A backslash before any other character is dropped. Octal and `\u` escapes of `unescapeJava` are not modelled.
- `Bytes.Encode`: `String.getBytes` is modelled for a one-byte-per-character charset. It keeps each character's low eight bits.
- `ScriptSpec.Construct`: reflection in `var` is replaced by a registry of the three generator classes, found by name and argument count. Any other class name counts as not found, and the error is swallowed.
- A class name the registry does not know cannot model Java classes whose construction succeeds but whose cast to `BiConsumer` throws.
- `ScriptSpec.ProcessScope`: Java's call stack becomes `fuel`. The model says nothing about how deep the JVM's stack really is.
- `ScriptProperties.StarGroup`: group execution is stated only for a single top-level `( * n` group whose lines write constants and whose output fits the buffer.
  - `ScriptProperties.ChainGroup` adds one group nested one level deep, with constant lines around it. Deeper nesting is not stated.
  - A draw or an overflow inside a group is not stated.
  - Sibling nested groups, which line 81 fetches by level, are not stated.
- `ScriptSpec.ProcessNestedScope`: its own contract only keeps the state's invariants. What it writes is stated by `NestedStar`, `NestedMissing` and the chain lemmas, for `( * n` groups over constant lines.
- `ScriptSpec.ParseLines`: its own contract bounds where the parse stops. What it collects and pushes is stated by `ParseClosed`, `ParseUnclosed`, `ParsePlain` and `ParseNested`, for at most one nested group.
- `ScriptSpec.FindFunction`, `ScriptSpec.ProcessParameter` and `ScriptSpec.Construct` carry no contract of their own. They are unfolded in every proof about the interpreter. Their properties are stated by `FindFunctionInnermost`, `FindFunctionNone`, `FindFunctionFound`, `ParameterCases` and `ConstructCases`.
- `Literals.ParseInt`: only the ASCII digits `0` to `9` are modelled. `Integer.parseInt` also accepts the other Unicode decimal digits that `Character.digit` knows.
- `Fuzzer.Request.NewFixedLengthChromosome`: the list argument is a `ByteArrayList`. commons-math may pass other `List<Byte>` implementations, which are read through the same `size` and `get`.
- `Fuzzer.Request.Fitness`: the count is unbounded. Java's `int` would wrap after 2^31 - 1 set probes.
- `Fuzzer.Mutation`: `(int) (len / 100f)` is modelled as integer division. The two agree for every array length below 2^24.
- `Fuzzer.ByteArrayList.Get`: the index must be in range. Java's `ArrayIndexOutOfBoundsException` there is not modelled, because the only caller stays in range.
- The guard at `Script.java:131-133` is not modelled. It throws only when `scopes` is empty. That cannot happen: the constructor adds the root scope (`Script.java:60`) and nothing removes it. The root scope also always has a line iterator, so the backward search at `Script.java:125-130` always finds one. If no scope had an iterator, the dereference at `Script.java:142` would throw instead.
