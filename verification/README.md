# VerifiKit in Dafny

A model of VerifiKit, a Swift library for declarative validation. It covers
the current library (`Sources/VerifiKit`) and the older copy it grew from
(`Sources/SwiftVerifiable`).

The library's pieces, as they appear here:

- **Rules** (`rules.dfy`, `misc_rules.dfy`, `messages.dfy`, `text.dfy`).
  - A rule is run against a *compliance test*, which is a pair of callbacks `pass()` and `fail(reason)`. It calls exactly one of them.
  - `Eval` gives the outcome a rule delivers, and `Trace` lists the leaf rules the evaluation runs.
  - The combinators `&`, `|` and `not` run their operands against a fresh buffering `TestProxy` and then report once to the outer test.
  - The imperative `TestProxy.AllPass`, `AnyPass`, `NotPass` and `Test` follow the library's fold. They are proved to deliver exactly `Eval` and to run exactly `Trace`.
  - The ready-made rules and their messages are modelled for both copies.
- **The failure sink and context** (`verification.dfy`, `legacy_verification.dfy`).
  - `Verification` is a class whose failure list only grows.
  - A `Context` carries the path, the strict flag and a reference to the shared sink.
  - The older copy keeps a failure's path as a list of segments.
- **Constraint bindings** (`constraint.dfy`, `must.dfy`, `should.dfy`, `legacy_should.dfy`).
  - `@Must` and `@Should` are classes whose setters test the value through the binding's own `pass`/`fail` callbacks.
  - A `Must` keeps its old value and always records the failure.
  - A `Should` clears to nil and records only when the context is strict.
  - `pass` answers whether the shared sink is still passing; `fail` always answers false.
- **Verifiable objects** (`verifiable.dfy`, `run.dfy`).
  - An explicit tree of labelled properties stands in for reflection.
  - The walk `prepareForVerification` gives every reachable binding its context. It names each constraint with the corrected naming of the finding below.
  - `getRuleFor` looks a rule up by path.
  - `verify`/`verifyStrict` take a fresh sink, bind everything, run a block of assignments, and produce the error that carries the failures.
- **The library's test scenarios** (`scenarios.dfy`). These are stated and proved on the model.

Rule values are typed by a tag (`Int`, `String` or `Bool`). A cast of a rule to another value type (`as? Rule<U>`) succeeds exactly when the tags agree.

## Model

| member | source | states |
|---|---|---|
| Rules.TestProxy.constructor | Sources/VerifiKit/Rule.swift:26-28 | a fresh proxy has an empty reason buffer |
| Rules.TestProxy.Pass | Sources/VerifiKit/Rule.swift:20 | the proxy's `pass` answers true and changes nothing |
| Rules.TestProxy.Fail | Sources/VerifiKit/Rule.swift:21-24 | the proxy's `fail` appends the reason at the end of the buffer and answers false |
| Rules.TestProxy.Receive | Sources/VerifiKit/Rule.swift:20-24 | an operand reporting to the proxy buffers its reason exactly when it fails, and the call answers whether it passed |
| Rules.FromPredicate | Sources/VerifiKit/Rule.swift:39-43 | `Rule(predicate:)` passes exactly where the predicate holds, and otherwise fails with "Test failed" |
| Rules.AlwaysPassing | Sources/VerifiKit/Rule.swift:45-47 | `passing()` passes on every value |
| Rules.AlwaysFailing | Sources/VerifiKit/Rule.swift:49-51 | `failing(reason:)` fails on every value with exactly that reason |
| Rules.TestProxy.AllPass | Sources/VerifiKit/Rule+Operators.swift:3-7 | (also the older copy's `allPass`) runs the operands up to and including the first failing one; buffers only that reason; reports pass when none fails and otherwise fails with the joined buffer; the leaves run are those of the operands that ran |
| Rules.TestProxy.AnyPass | Sources/VerifiKit/Rule+Operators.swift:9-13 | (also the older copy's `anyPass`) runs the operands up to and including the first passing one; buffers the reasons of the failing ones before it; reports pass when one passes and otherwise fails with every reason joined by "; " |
| Rules.TestProxy.NotPass | Sources/VerifiKit/Rule+Operators.swift:15-18 | (also the older copy's `notPass`) reports fail with the fixed message when the operand passes and pass when it fails; the operand's reason goes only into the proxy's buffer |
| Rules.Test | Sources/VerifiKit/Rule+Operators.swift:23-44 | (also the older copy's `not`, `&` and `\|`) running any rule (each combinator on a fresh proxy) calls exactly the callback `Eval` names and runs exactly the leaves `Trace` lists |
| Rules.NotRule | Sources/VerifiKit/Rule+Operators.swift:23-28 | `not(r)` passes exactly when `r` fails, fails only with "Expected test not to pass", and runs what `r` runs |
| Rules.AndSemantics | Sources/VerifiKit/Rule+Operators.swift:32-37 | `&` passes iff both pass; its failure reason is the left reason when the left fails, else the right reason; the right operand runs iff the left passes |
| Rules.OrSemantics | Sources/VerifiKit/Rule+Operators.swift:39-44 | `\|` passes iff either passes; when both fail the two reasons are joined in order by "; "; the right operand runs iff the left fails |
| Rules.PairChains | Sources/VerifiKit/Rule+Operators.swift:32-44 | the binary operators are the two-operand folds of `allPass` and `anyPass` |
| Rules.AndChainSemantics | Sources/VerifiKit/Rule+Operators.swift:3-7 | a left-nested chain of `&` delivers the outcome of its first failing operand (pass when there is none) and runs only the operands up to it |
| Rules.OrChainSemantics | Sources/VerifiKit/Rule+Operators.swift:9-13 | a chain of `\|` passes iff some operand passes, runs the operands up to the first passing one, and, when none passes, fails with all reasons joined in order |
| Text.JoinSnoc | Sources/VerifiKit/Rule.swift:16-18 | joining one more reason adds one "; " and that reason at the end |
| Text.TrimEmptyIffBlank | Sources/VerifiKit/MiscRules.swift:12 | a string trims to nothing exactly when each of its characters is whitespace |
| Text.ParseNatToString | Sources/VerifiKit/MiscRules.swift:4 | the decimal rendering of a number reads back as that number |
| MiscRules.BePositiveInteger | Sources/VerifiKit/MiscRules.swift:3-5 | passes exactly on n >= 0, so 0 passes; a negative n fails with "<n> is not a positive integer" |
| MiscRules.NotBeEmptyString | Sources/VerifiKit/MiscRules.swift:7-9 | passes exactly on non-empty strings; fails only with "Provided string is empty" |
| MiscRules.NotBeBlankString | Sources/VerifiKit/MiscRules.swift:11-13 | passes exactly when the trimmed string is not empty; fails only with "Provided string is blank" |
| MiscRules.BeOfLength | Sources/VerifiKit/MiscRules.swift:15-19 | passes exactly on strings of `len` characters; otherwise fails with "'<s>' is not <len> characters long" |
| MiscRules.BeEmptyStringSemantics | Sources/VerifiKit/MiscRules.swift:38 | `beEmptyString` passes exactly on "", fails otherwise with "Provided string is not empty", and runs `notBeEmptyString` |
| MiscRules.BeBlankStringSemantics | Sources/VerifiKit/MiscRules.swift:39 | `beBlankString` passes exactly on all-whitespace strings and fails with "Provided string is not blank" |
| MiscRules.NotBlankMeansVisible | Sources/VerifiKit/MiscRules.swift:11-13 | `notBeBlankString` passes iff some character is not whitespace |
| MiscRules.NotBlankImpliesNotEmpty | Sources/VerifiKit/MiscRules.swift:7-13 | every string `notBeBlankString` accepts is accepted by `notBeEmptyString` |
| Messages.NotPositiveMessageNamesNumber | Sources/VerifiKit/MiscRules.swift:4 | the reason for -k starts with "-" followed by k's digits, and those digits read back as k |
| Messages.MinusOneMessage | Sources/VerifiKit/MiscRules.swift:4 | the reason for -1 is "-1 is not a positive integer" |
| Messages.MinusTwoMessage | Sources/VerifiKit/MiscRules.swift:4 | the reason for -2 is "-2 is not a positive integer" |
| Messages.WrongLengthAb | Sources/VerifiKit/MiscRules.swift:17 | the reason `beOfLength(3)` gives for "ab" is "'ab' is not 3 characters long" |
| Messages.WrongLengthEmpty | Sources/VerifiKit/MiscRules.swift:17 | the reason `beOfLength(3)` gives for "" is "'' is not 3 characters long" |
| Messages.BothReasonsAb | Tests/VerifiKitTests/VerifiKitTests.swift:74 | the two reasons joined by "; " read "Provided string is not empty; 'ab' is not 3 characters long" |
| MiscRules.BlankThenLengthExamples | Tests/VerifiKitTests/VerifiKitTests.swift:65-68 | `notBeBlankString & beOfLength(3)` fails "ab" on length, fails "" as blank without running the length rule, and passes "abc" |
| MiscRules.LengthThenBlankExample | Tests/VerifiKitTests/VerifiKitTests.swift:70-71 | `beOfLength(3) & notBeBlankString` fails "" on length and runs only the length rule |
| MiscRules.EmptyOrLengthExamples | Tests/VerifiKitTests/VerifiKitTests.swift:73-76 | `beEmptyString \| beOfLength(3)` passes "" (without running the length rule) and "abc" |
| MiscRules.EmptyOrLengthFails | Tests/VerifiKitTests/VerifiKitTests.swift:74 | `beEmptyString \| beOfLength(3)` fails "ab" with both reasons in order |
| LegacyMiscRules.BePositiveInteger | Sources/SwiftVerifiable/MiscRules.swift:3-5 | passes exactly on n >= 0; every negative n fails with "Expected positive integer" |
| LegacyMiscRules.BeNotEmptyString | Sources/SwiftVerifiable/MiscRules.swift:7-9 | fails exactly on "", with "Unexpected empty string" |
| LegacyMiscRules.PositiveReasonIsConstant | Sources/SwiftVerifiable/MiscRules.swift:4 | any two negative numbers get the same outcome: the reason does not mention the number |
| Verifications.Split | Sources/VerifiKit/Verifiable.swift:15-19 | on a non-empty path, head and tail put back together give the path |
| Verifications.PrettyRoundTrip | Sources/VerifiKit/Verifiable.swift:11-13 | splitting the pretty form at "." gives the path back when no segment holds a "." |
| Verifications.PrettySnoc | Sources/VerifiKit/Verifiable.swift:11-13 | one more segment extends the pretty form by "." and that segment |
| Verifications.Verification.constructor | Sources/VerifiKit/Verification.swift:26-36 | a new sink holds no failure |
| Verifications.Verification.PassOne | Sources/VerifiKit/Verification.swift:38 | `passOne` changes nothing |
| Verifications.Verification.FailOne | Sources/VerifiKit/Verification.swift:40-42 | `failOne` appends exactly one failure, with the dotted path, after the earlier ones |
| Verifications.Rebase | Sources/VerifiKit/Verification.swift:14-16 | `rebase` replaces the path only; the strict flag and the shared sink carry over |
| Verifications.RebaseLaws | Sources/VerifiKit/Verification.swift:14-16 | rebasing twice is rebasing once to the last path; rebasing to its own path changes nothing |
| Verifications.EmptyContext | Sources/VerifiKit/Verification.swift:10-12 | the empty context has no path, is not strict, and has a fresh sink with no failure |
| LegacyVerifications.Verification.constructor | Sources/SwiftVerifiable/Verification.swift:43 | a new sink holds no failure |
| LegacyVerifications.Verification.PassOne | Sources/SwiftVerifiable/Verification.swift:45 | `passOne` changes nothing |
| LegacyVerifications.Verification.FailOne | Sources/SwiftVerifiable/Verification.swift:47-49 | `failOne` appends exactly one failure whose path is the list of segments as given |
| LegacyVerifications.Rebase | Sources/SwiftVerifiable/Verification.swift:14-16 | `rebase` replaces the path only and shares the sink |
| LegacyVerifications.RebaseLaws | Sources/SwiftVerifiable/Verification.swift:14-16 | rebasing twice is rebasing once; rebasing to its own path changes nothing |
| LegacyVerifications.EmptyContext | Sources/SwiftVerifiable/Verification.swift:10-12 | the empty context has no path, is not strict, and has a fresh empty sink |
| Constraints.CastRule | Sources/VerifiKit/Must.swift:21-23 | `getCastRule` gives the rule itself exactly when the requested type is the rule's own |
| Constraints.Check | Sources/VerifiKit/Constraint.swift:11-14 | `runTest` reaches a callback exactly when the value has the rule's type |
| Constraints.CheckThroughCast | Sources/VerifiKit/Constraint.swift:13 | a failed cast calls no callback; a successful one calls the callback the rule calls on the value |
| Constraints.Recorded | Sources/VerifiKit/Must.swift:12-15 | a binding records one failure, at its pretty path with the rule's reason, exactly when the rule fails the value |
| Musts.AssignmentCases | Sources/VerifiKit/Must.swift:7-34 | an accepted value records nothing; on a failing sink no value is accepted; on a passing sink a value of the right type is accepted iff nothing is recorded |
| Musts.Must.constructor | Sources/VerifiKit/Must.swift:17-19 | a new `Must` has no value and the empty context |
| Musts.Must.Pass | Sources/VerifiKit/Must.swift:7-10 | `pass` records nothing and answers whether the shared sink is passing |
| Musts.Must.Fail | Sources/VerifiKit/Must.swift:12-15 | `fail` always appends one failure at the binding's path and answers false |
| Musts.Must.RunTest | Sources/VerifiKit/Constraint.swift:11-14 | `runTest` answers true iff the rule passes the value and the sink was passing, and records the rule's failure at the binding's path |
| Musts.Must.Set | Sources/VerifiKit/Must.swift:30-34 | the setter stores the value iff `runTest` answers true, else keeps the old value; the context is unchanged |
| Shoulds.Records | Sources/VerifiKit/Should.swift:13-20 | a `Should` records nothing when the context is lenient or the value is nil |
| Shoulds.AssignmentCases | Sources/VerifiKit/Should.swift:8-20 | nil is never accepted and never recorded; on a failing sink nothing is accepted; on a strict passing sink a value of the right type is accepted iff nothing is recorded |
| Shoulds.Should.constructor | Sources/VerifiKit/Should.swift:22-24 | a new `Should` holds nil and the empty context |
| Shoulds.Should.WithValue | Sources/VerifiKit/Should.swift:26-29 | the initial value goes through the checking setter: it is kept iff the rule passes it, and nothing is recorded |
| Shoulds.Should.Pass | Sources/VerifiKit/Should.swift:8-11 | `pass` records nothing and answers whether the sink is passing |
| Shoulds.Should.Fail | Sources/VerifiKit/Should.swift:13-20 | `fail` appends one failure iff the context is strict and answers false either way |
| Shoulds.Should.RunTest | Sources/VerifiKit/Constraint.swift:11-14 | `runTest` answers whether the rule passes on a passing sink, and records only when strict |
| Shoulds.Should.Set | Sources/VerifiKit/Should.swift:36-47 | the setter stores the value iff it is not nil and `runTest` answers true, and otherwise stores nil |
| LegacyShoulds.Records | Sources/SwiftVerifiable/Should.swift:13-20 | the older `Should` records one failure, with the path as segments, iff strict and the rule fails the value |
| LegacyShoulds.Should.constructor | Sources/SwiftVerifiable/Should.swift:22-24 | a new older `Should` holds nil and the empty context |
| LegacyShoulds.Should.Pass | Sources/SwiftVerifiable/Should.swift:8-11 | `pass` answers whether the sink is passing |
| LegacyShoulds.Should.Fail | Sources/SwiftVerifiable/Should.swift:13-20 | `fail` records iff strict and answers false |
| LegacyShoulds.Should.RunTest | Sources/SwiftVerifiable/Constraint.swift:11-14 | `runTest` wires the binding's callbacks into a plain test and answers the rule's result |
| LegacyShoulds.Should.Set | Sources/SwiftVerifiable/Should.swift:31-42 | nil or a refused value leaves nil; an accepted value is stored |
| LegacyShoulds.EmptyNameScenario | Tests/SwiftVerifiableTests/SwiftVerifiableTests.swift:158-175 | assigning "" to `name` leaves nil; only a strict run records `(["name"], "Unexpected empty string")` |
| Verifiables.LastNonEmpty | Sources/VerifiKit/Verifiable.swift:44 | the last piece of a split, skipping empty pieces, is never empty |
| Verifiables.ConstraintName | Sources/VerifiKit/Verifiable.swift:44 | the corrected naming (see Findings): a constraint stored as `_x` is named `x`, the name lookup by key searches for; the naming as written is `Verifiables.AsWrittenName` |
| Verifiables.NamingsAgree | Sources/VerifiKit/Verifiable.swift:42-60 | for a name without "_", the library's naming and the corrected one agree |
| Verifiables.AsWrittenLastWord | Sources/VerifiKit/Verifiable.swift:44 | as written, a constraint stored as `_a_b` (a snake-case property `a_b`) splits into `""`, `a`, `b` and is named `b`; the corrected naming gives `a_b` |
| Verifiables.AsWrittenNameDropsPrefix | Sources/VerifiKit/Verifiable.swift:44 | as written, `_first_name` is named `name`, while the corrected naming gives `first_name` |
| Verifiables.ConstraintsOf | Sources/VerifiKit/Verifiable.swift:42-50 | `constraints` lists at most one entry per property; its contents are stated by `ConstraintOrigin` and `ConstraintListed` |
| Verifiables.ConstraintOrigin | Sources/VerifiKit/Verifiable.swift:42-50 | each named constraint comes from a constraint property stored under "_" and its name |
| Verifiables.ConstraintListed | Sources/VerifiKit/Verifiable.swift:42-50 | conversely, every constraint property `_x` is listed under `x` with its binding, right after the constraints declared before it |
| Verifiables.ListedInOrder | Sources/VerifiKit/Verifiable.swift:42-50 | `constraints` keeps declaration order: a constraint property declared earlier is listed earlier |
| Verifiables.OwnSlots | Sources/VerifiKit/Verifiable.swift:71-73 | each constraint gets the current path extended by its name, in order |
| Verifiables.LastPath | Sources/VerifiKit/Verifiable.swift:66-74 | a binding has a last path exactly when the walk reaches it |
| Verifiables.LastPathConcat | Sources/VerifiKit/Verifiable.swift:66-74 | when a binding is reached twice, the later assignment of its context wins |
| Verifiables.Prepare | Sources/VerifiKit/Verifiable.swift:66-74 | every binding reached from the object gets the context rebased to the path of its last slot, and nothing but those contexts changes |
| Verifiables.PrepareChildren | Sources/VerifiKit/Verifiable.swift:67-70 | each nested object is prepared in turn at its label, under the same sink and strict flag |
| Verifiables.BindConstraints | Sources/VerifiKit/Verifiable.swift:71-73 | each constraint's context is the given one rebased to the path and its name |
| Verifiables.FirstLabelled | Sources/VerifiKit/Verifiable.swift:52-60 | `props.first` finds the first property with the label, or none |
| Verifiables.GetRuleForKey | Sources/VerifiKit/Verifiable.swift:88-91 | a rule comes back iff the constraint `_key` exists and its rule has the requested type |
| Verifiables.GetRuleFor | Sources/VerifiKit/Verifiable.swift:76-86 | a rule comes back only for a non-empty path, and only of the requested type; a one-name path is looked up by key |
| Verifiables.LookupThroughChild | Sources/VerifiKit/Verifiable.swift:82-85 | a longer path is looked up in the child its head labels, or gives none when there is no such child |
| Verifiables.FirstLabelledUnique | Sources/VerifiKit/Verifiable.swift:52-60 | with distinct labels, the first property with a label is the one that has it |
| Verifiables.SlotsFound | Sources/VerifiKit/Verifiable.swift:66-91 | on a well-formed tree, lookup by the path the walk gives each binding returns that binding's rule |
| Verifiables.ChildSlotsFound | Sources/VerifiKit/Verifiable.swift:67-70 | the same agreement for the bindings of nested objects |
| Verifiables.OwnSlotsFound | Sources/VerifiKit/Verifiable.swift:71-73 | the same agreement for an object's own constraints |
| Verifiables.LookupReached | Sources/VerifiKit/Verifiable.swift:66-91 | conversely, on a well-formed tree, every rule `getRuleFor` finds belongs to a binding the walk reaches at exactly that path, so every constraint lookup can see gets a context |
| Verifiables.KeyReached | Sources/VerifiKit/Verifiable.swift:71-73 | the one-name case: the constraint found by key is among the object's own slots at the path extended by the key |
| Verifiables.ChildReached | Sources/VerifiKit/Verifiable.swift:67-70 | the longer-path case: a binding found in the nested object the head labels is reached through that object |
| Verifiables.FoundThroughChild | Sources/VerifiKit/Verifiable.swift:82-85 | a binding found in a nested object is found from its parent, one label further up |
| Verifiables.LookupStoredFirstName | Sources/VerifiKit/Verifiable.swift:57-60 | for a constraint stored as `_first_name`, lookup under `name` gives none and under `first_name` gives its rule |
| Verifiables.AsWrittenPathMissesLookup | Sources/VerifiKit/Verifiable.swift:44 | as written, the walk names `_first_name` as `name`, where lookup finds no rule |
| Runs.StepFailures | Sources/VerifiKit/Verifiable.swift:100 | one assignment adds at most one failure to the run's sink |
| Runs.Failures | Sources/VerifiKit/Verifiable.swift:100-103 | a block records at most one failure per assignment |
| Runs.FailuresGrow | Sources/VerifiKit/Verification.swift:26-42 | the failures after a prefix of the block are a prefix of the failures after the whole block |
| Runs.MustFrozenAfterFailure | Sources/VerifiKit/Must.swift:7-10 | once the run holds a failure, a `Must` keeps its value whatever the rest of the block assigns |
| Runs.ShouldClearedAfterFailure | Sources/VerifiKit/Should.swift:36-47 | once the run holds a failure, assigning a `Should` clears it, even with a valid value |
| Runs.LenientShouldsRecordNothing | Sources/VerifiKit/Should.swift:13-20 | under `verify`, a block of `Should` assignments records nothing |
| Runs.MustValueOrigin | Sources/VerifiKit/Must.swift:30-34 | a `Must` ends the block with its old value or a value the block assigned to it that passes its rule |
| Runs.ShouldValueOrigin | Sources/VerifiKit/Should.swift:40-46 | a `Should` ends with its old value, nil, or an assigned value that passes its rule |
| Runs.PrepareAll | Sources/VerifiKit/Verifiable.swift:97-99 | every binding reached from the roots gets the run's context rebased to its last path |
| Runs.Apply | Sources/VerifiKit/Verifiable.swift:100 | one assignment runs its property's setter: the new value and failures are those of the step, reported to that property's context |
| Runs.Step | Sources/VerifiKit/Verifiable.swift:100 | one more assignment keeps the sink equal to `Failures` and each reached value equal to `ValueAfter` |
| Runs.RunBlock | Sources/VerifiKit/Verifiable.swift:100 | after the whole block, the sink holds `Failures` and each reached property holds `ValueAfter` |
| Runs.Verify | Sources/VerifiKit/Verifiable.swift:94-116 | a fresh sink; every reached binding gets it, the run's strict flag and its last path; the sink ends with exactly the failures of the block in order; the error carries them iff there is one; each reached property holds the value the block leaves it |
| Scenarios.BasketSlots | Tests/VerifiKitTests/VerifiKitTests.swift:22-34 | the basket's walk reaches `client.name` and then `amount` |
| Scenarios.LibraryBasketRules | Sources/VerifiKit/MiscRules.swift:3-9 | the library's `bePositiveInteger` fails -1 and -2 and its `notBeEmptyString` passes "new name" |
| Scenarios.BasketFailures | Tests/VerifiKitTests/VerifiKitTests.swift:150-161 | the basket block records two failures at `amount`, in order, and nothing for the name |
| Scenarios.BasketNameKept | Tests/VerifiKitTests/VerifiKitTests.swift:153-165 | the client's name keeps its old value: the valid "new name" comes after a failure |
| Scenarios.BasketScenario | Tests/VerifiKitTests/VerifiKitTests.swift:146-165 | `verify(basket)` throws `rulesBroken` with the two failures "-1 …" and "-2 …" at `amount`, and the name stays "old name" |
| Scenarios.BasketTest | Tests/VerifiKitTests/VerifiKitTests.swift:146-165 | the whole test, from fresh bindings with the library's rules |
| Scenarios.ClientRun | Tests/VerifiKitTests/VerifiKitTests.swift:169-186 | assigning "" records "Provided string is empty" at `name` only when strict, and leaves nil either way |
| Scenarios.EmptyNameFails | Sources/VerifiKit/MiscRules.swift:7-9 | `notBeEmptyString` fails "" with "Provided string is empty" |
| Scenarios.ClientScenario | Tests/VerifiKitTests/VerifiKitTests.swift:169-186 | `verify` does not throw and leaves nil; `verifyStrict` throws with the one failure at `name` |
| Scenarios.ClientTest | Tests/VerifiKitTests/VerifiKitTests.swift:169-186 | the whole test, on a fresh client |

## Left out

- Decoding (`Verifiable+Decodable.swift` and the `init(from:)` initialisers of `Must` and `Should`) is not part of this model. It wraps Foundation's decoders and Codable containers. The `contextError` case, which only decoding throws, is declared but never produced.
- Reflection (`Mirror`) is replaced by an explicit, ordered list of each object's labelled properties. A wrapped property `x` appears under its storage label `_x`.
- `matchRegex` depends on Foundation's regular expressions and `String(format:)`, so it is not part of this model.
- `Should`'s `Encodable` conformance and the older sink's `uuid` are left out: they change no verification result.
- The raw `Rule { value, test in ... }` constructor is not modelled for arbitrary closures. The rules are those the library builds, and each of them calls exactly one callback.
- `beOfLength` counts characters (code points) where Swift counts grapheme clusters.
- Whitespace is the tab plus the Unicode space separators, spelled out as a predicate.
- `VerificationContext.instance` is left out; only decoding reads it.
- Casts between rule types are modelled by a type tag over `Int`, `String` and `Bool` values. `[unowned self]` captures are not modelled.
- The `Must` storage `T!` is modelled as an optional; reading it before any value is stored, which traps in Swift, is not modelled.
- The block of `verify` is a list of assignments to `Must` and `Should` properties. Reads and plain-property writes inside the block are not modelled.
- `.not(_, failMessage:)` is not defined in the library's sources. It is modelled from the tests as `not` with its own fail message.
- Runs.Verify: does not state the values or sinks of properties the block assigns but the walk does not reach. Those report to a sink of their own.
- Runs.Verify: binds and reports each constraint under the corrected name `Verifiables.ConstraintName`, not the last-word name the library uses (`Verifiables.AsWrittenName`; see Findings). For a snake-case property the library reports at a different path.
- Verifiables.ConstraintName: is the corrected naming, not the one written at line 44. `Verifiables.AsWrittenName` models the code as written, and `Verifiables.AsWrittenLastWord` shows where the two differ.
- Verifiables.Prepare: binds each constraint at the path made from its corrected name (`ConstraintsOf` uses `ConstraintName`). The library binds snake-case properties at their last word instead.
- Scenarios.BasketScenario: is stated for any two rules with the facts `BasketRules` names. `Scenarios.LibraryBasketRules` proves that the library's rules have those facts.
- The older copy's `Must.swift`, `Verifiable.swift` and `verify` are not part of this model. The older `Constraint.swift` calls `ComplianceTest(pass:fail:)` on a protocol; it is modelled as the plain test `SingleTest`.
- The older copy's `Rule.swift` (`Sources/SwiftVerifiable/Rule.swift`) defines the same test proxy, combinators and ready-made rules as the current one. The `Rules` module models both, and each `Rules` member's row cites the current copy.
- The older `Verification.Result` enum is never used and is left out.

## Findings

| source | as written | input that shows it | evidently intended | confidence | as-written member | corrected member |
|---|---|---|---|---|---|---|
| Sources/VerifiKit/Verifiable.swift:44 | a constraint is named by the last `_`-separated piece of its label | a property `first_name`, stored as `_first_name`, is named `name`; its failures are reported at `name`, and `getRuleFor(key: "name")` finds no rule | the label without its leading `_`, i.e. `first_name`, which is what `constraint(for:)` at line 58 looks up | not executed | Verifiables.AsWrittenPathMissesLookup | Verifiables.SlotsFound |
