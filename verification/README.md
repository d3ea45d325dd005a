# C# 9 pattern-matching classifiers, modelled in Dafny

The C# 9 samples contain four classifiers. Each is a `switch` expression whose arms use the
pattern forms that C# 9 added:

- relational patterns (`< 0`, `>= 0`);
- the pattern combinators `and`, `or` and `not`;
- type patterns with `when` guards;
- the discard `_`.

The four classifiers are:

- `Classify(int)` sorts an integer into five bands: "negative", "small non-negative",
  "ten-ish", "not greater than 100" and "big".
- `TypeCheck(object)` picks one of four messages by runtime type. An empty string has its own
  guarded arm.
- `Describe(object)` also picks by runtime type. An int gets a range guard `1..10`.
- `Relational(int)` sorts an integer into three bands: "neg", "0..10" and "big".

The project has four modules:

- `Values` (`values.dfy`) models what an `object` can hold. A `Value` is a boxed 32-bit `int`, a
  `string`, `null` or some other object. A C# `string` is a sequence of UTF-16 code units
  (`bv16`), as in .NET, so `s.Length` counts code units. A `Msg` is what an arm yields: plain
  text, or an interpolated string with one hole (an integer or a string), kept unformatted.
- `Patterns` (`patterns.dfy`) holds C#'s pattern semantics as data. It has constant, relational,
  `and`, `or`, `not`, type-test and discard patterns, plus `when` guards and result expressions.
  An arm fires when its pattern matches and its guard holds. A `switch` expression picks the
  first arm in textual order that fires, or throws when none does. The lemmas here state
  first-match-wins, fall-through on a failed guard, that later arms are never inspected, and
  that a final `_` makes the switch total.
- `RelationalLogical` (`relational_logical.dfy`) models `Classify` and `TypeCheck`.
- `MorePatterns` (`patterns_more.dfy`) models `Describe` and `Relational`.

Each classifier appears twice:

- as a direct function, whose contract states exactly which inputs give which result;
- as its arm list, run by the first-match evaluator.

A lemma proves that the two agree on every input.

## Model

| member | source | states |
|---|---|---|
| `Values.TypeOf` | P140_Patterns_Relational_Logical/Program.cs:16-19 | A value has runtime type `int` exactly when it is a boxed int, and `string` exactly when it is a string. `null` and other objects have neither. |
| `Patterns.Matches` | P140_Patterns_Relational_Logical/Program.cs:7-11 | C# pattern semantics for constant, relational, `and`, `or`, `not`, type and discard patterns. A relational pattern matches only ints. A type pattern never matches `null` or an unrelated object. |
| `Patterns.IntOnlyMatchesOnlyInts` | P140_Patterns_Relational_Logical/Program.cs:7-9 | General C# pattern semantics behind the int patterns of these lines: a pattern built from int constants, relational patterns, `and` and `or` matches nothing but ints. The samples switch on `int`, so they never exercise this on another type. |
| `Patterns.NotOfIntOnlyMatchesNonInts` | P140_Patterns_Relational_Logical/Program.cs:10 | General C# pattern semantics behind `not (> 100)`: `not` of such a pattern matches every value that is not an int. The sample switches on `int`, so it never exercises this on another type. |
| `Patterns.FirstFiring` | P140_Patterns_Relational_Logical/Program.cs:5-12 | The arm found fires. No arm before it, from the start index on, fires. When none is found, no arm fires at all. |
| `Patterns.Evaluate` | P157_Patterns_More/Program.cs:5-11 | The switch throws (`NoArmMatched`) exactly when no arm fires. Otherwise its result is the rendered result of the first arm that fires. |
| `Patterns.FirstMatchWins` | P140_Patterns_Relational_Logical/Program.cs:5-12 | If arm `i` fires and no earlier arm does, arm `i` is selected and gives the result, whatever later arms would do. |
| `Patterns.SkipNonFiring` | P157_Patterns_More/Program.cs:8-9 | A leading run of arms that do not fire can be dropped without changing the outcome. This includes an arm whose pattern matched but whose guard failed. |
| `Patterns.DropNonFiring` | P157_Patterns_More/Program.cs:6-10 | A single arm that does not fire can be removed from any position without changing the outcome, whether or not some arm fires. |
| `Patterns.EarlierArmsDecide` | P140_Patterns_Relational_Logical/Program.cs:7-11 | Once some arm is selected, appending more arms never changes the outcome. |
| `Patterns.DiscardLastIsTotal` | P140_Patterns_Relational_Logical/Program.cs:11 | A final unguarded `_` arm means the switch never throws, whatever the input. |
| `RelationalLogical.Classify` | P140_Patterns_Relational_Logical/Program.cs:5-12 | "negative" iff x < 0. "small non-negative" iff 0 <= x < 10. "ten-ish" iff x is 10, 11 or 12. "not greater than 100" iff 13 <= x <= 100. "big" iff x > 100. Together the five bands partition all ints. |
| `RelationalLogical.ClassifyArms` | P140_Patterns_Relational_Logical/Program.cs:6-11 | The five arms of `Classify`, as written. Every arm is well formed, and the last is the unguarded `_` giving "big". |
| `RelationalLogical.ClassifySelects` | P140_Patterns_Relational_Logical/Program.cs:5-12 | Names the exact arm index that the switch selects, for every int. |
| `RelationalLogical.NotGreaterThan100Shadowed` | P140_Patterns_Relational_Logical/Program.cs:7-10 | `not (> 100)` alone matches every x <= 100, negatives included. Its arm is selected only for 13..100, because earlier arms shadow the rest. |
| `RelationalLogical.SmallNonNegativePattern` | P140_Patterns_Relational_Logical/Program.cs:8 | `>= 0 and < 10` matches exactly the ints 0..9. It matches no non-int value. |
| `RelationalLogical.TenIshPattern` | P140_Patterns_Relational_Logical/Program.cs:9 | `10 or 11 or 12` matches exactly those three ints. |
| `RelationalLogical.ClassifyAgrees` | P140_Patterns_Relational_Logical/Program.cs:5-12 | The arm list under first-match evaluation gives `Classify(x)` for every int x. |
| `RelationalLogical.TypeCheck` | P140_Patterns_Relational_Logical/Program.cs:14-20 | "empty string" iff the input is the empty string. A string-holed message `string '{s}'` iff the input is a non-empty string s. An int-holed message `int {n}` iff the input is an int n. "other" iff the input is neither a string nor an int, null included. |
| `RelationalLogical.TypeCheckArms` | P140_Patterns_Relational_Logical/Program.cs:15-20 | The four arms of `TypeCheck`, as written. Every arm is well formed, and the last is the unguarded `_` giving "other". |
| `RelationalLogical.TypeCheckDistinguishesStrings` | P140_Patterns_Relational_Logical/Program.cs:16-17 | Different strings always give different messages. |
| `RelationalLogical.EmptyStringTakesGuardedArm` | P140_Patterns_Relational_Logical/Program.cs:16-17 | The empty string fires both string arms. The guarded one comes first and is selected. |
| `RelationalLogical.TypeCheckAgrees` | P140_Patterns_Relational_Logical/Program.cs:14-20 | The arm list under first-match evaluation gives `TypeCheck(o)` for every value. |
| `RelationalLogical.DemonstratedResults` | P140_Patterns_Relational_Logical/Program.cs:24-29 | -3, 5, 11 and 150 give "negative", "small non-negative", "ten-ish" and "big". `""` gives "empty string" and 42 gives `int 42`. |
| `MorePatterns.Describe` | P157_Patterns_More/Program.cs:5-11 | A message with an int hole is returned iff the input is a string, the empty string included: `string ({len})`, where len counts UTF-16 code units. "int between 1 and 10" iff an int in 1..10. "an int" iff an int outside 1..10. "something else" iff neither, null included. |
| `MorePatterns.DescribeArms` | P157_Patterns_More/Program.cs:6-11 | The four arms of `Describe`, as written. Every arm is well formed, and the last is the unguarded `_` giving "something else". |
| `MorePatterns.DescribeCountsCodeUnits` | P157_Patterns_More/Program.cs:7 | Two concrete instances of the length arm: U+1F600, one character written as a surrogate pair, has length 2. A lone surrogate is a valid string of length 1. The general rule is `Describe`'s contract. |
| `MorePatterns.DescribeGuardFallsThrough` | P157_Patterns_More/Program.cs:8-9 | An int outside 1..10 matches `int n` but fails its guard. Evaluation continues with the later arms, and the result is "an int". |
| `MorePatterns.DescribeAgrees` | P157_Patterns_More/Program.cs:5-11 | The arm list under first-match evaluation gives `Describe(o)` for every value. |
| `MorePatterns.Relational` | P157_Patterns_More/Program.cs:13-18 | "neg" iff x < 0. "0..10" iff 0 <= x <= 10, both ends inclusive. "big" iff x > 10. |
| `MorePatterns.RelationalArms` | P157_Patterns_More/Program.cs:14-18 | The three arms of `Relational`, as written. Every arm is well formed, and the last is the unguarded `_` giving "big". |
| `MorePatterns.RelationalAgrees` | P157_Patterns_More/Program.cs:13-18 | The arm list under first-match evaluation gives `Relational(x)` for every int x. |
| `MorePatterns.DemonstratedResults` | P157_Patterns_More/Program.cs:22-26 | "hi" gives `string (2)`, 5 gives "int between 1 and 10" and 42 gives "an int". `Relational(5)` is "0..10" and `Relational(20)` is "big". |

## Left out

- The `Main` methods and their `Console.WriteLine` calls are output only. The calls they make
  are stated as the `DemonstratedResults` lemmas instead.
- Decimal formatting of an int inside an interpolated string (`$"int {n}"`,
  `$"string ({s.Length})"`) is not modelled. Such a result is kept as
  `Msg.WithInt(before, n, after)`, with the integer unformatted. In the same way,
  `$"string '{s}'"` is kept as `Msg.WithString(before, s, after)`, with the code units of `s`
  not spliced into the text.
- Named variable bindings are not modelled. Every declaration pattern in these classifiers
  (`string s`, `int n`) binds the switched-on value itself, so guards and results read that
  value directly. The C# compiler's rule that a guard or result uses only a variable its
  pattern declares, at that type, is the precondition `Patterns.WellFormed`. The same
  predicate requires every constant in a pattern to be a literal (`Patterns.Writable`), so a
  `VOther` constant, which no C# source can write, never reaches the evaluator.
- Type tests cover only `string` and `int`, the two types the classifiers name. Both types are
  sealed, so "is-a" is plain type equality and no subtype relation is modelled. Any other
  runtime type is `VOther`.
- A relational or constant pattern applied to a value of another type follows C#: it does not
  match, so `not` of it does match. There is no separate type-mismatch outcome.
- The other sample programs are not part of this model: records, init-only setters, function
  pointers, `SuppressLocalsInit`, module initializers, target-typed conditionals, covariant
  returns and extension `GetEnumerator`. None of them contains classification logic.
