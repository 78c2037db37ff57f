# A verified model of the `statemachine!` macro

The `stateless` crate provides one procedural macro, `statemachine!`. From a
small declaration such as

    name: Door,
    derive_states: [Debug, Clone],
    transitions: {
        *Closed + Open = Opened,
        Opened | Ajar + Close | Slam = Closed,
        Closed + Knock = _,
        _ + Reset = Closed,
    }

it generates a state enum, an event enum, a `Default` impl that returns the
initial state, and a `process_event(&self, event) -> Option<State>` method.
This project models the macro's whole pipeline in Dafny and proves properties
of each stage:

- **Parser** (`parser.dfy`). It turns the input into the
  `StateMachine`/`Transition`/`StatePattern`/`TargetState` syntax tree with
  `syn`'s lookahead rules:
  - The clause loop accepts `name`, `derive_states` and `derive_events` in any
    order, with an optional comma after each. A repeated clause overwrites the
    earlier one.
  - `transitions: { … }` ends the parse.
  - The event list stops before `| *`.
  - An omitted target, and `= _`, both mean an internal transition.
- **Printer** (`printer.dfy`). It maps a syntax tree back to tokens and is the
  parser's partner. The round-trip lemmas show that the parser reads back every
  well-formed machine exactly.
- **Duplicate check** (`validator.dfy`).
  - It is modelled twice: as the function `Validate` and as the nested-loop
    method `CheckNoDuplicates`, which uses the same set of seen keys.
  - Each (source state, event) pair may appear once. Wildcard rules are skipped.
  - The check fails on the first repeated pair, and it names that pair.
- **Model builder** (`builder.dfy`, `seqs.dfy`). It collects the states, the
  events and the initial state:
  - Source states come first in each rule, then the target state.
  - Each list keeps the first occurrence of every name.
  - The initial state is the first `*`-marked state. Without a mark it is the
    first collected state, and with no states it is the placeholder `Initial`.
- **Emitter** (`emitter.dfy`). It models the type names, the default derives
  and what the generated `process_event` computes. That code is a flat list of
  `if state_condition && event_condition { return Some(target) }` checks, one
  per (rule, event). The first check that holds wins.
  - For a rule with several source states, `state_condition` is a chain of
    `matches!` tests joined by `||`. It is spliced into the `if` without
    parentheses, so rustc joins only the last test to the event test.
  - The scan therefore takes a `Grouping`. `AsEmitted` is the expansion as
    rustc reads it, and `Intended` is what the rule syntax means. The general
    lemmas hold for both. "## Findings" records the difference.
- **Compiler** (`compiler.dfy`). It composes the stages into `Compile`, the
  whole macro. `scenarios.dfy` instantiates it on the machine that the
  repository's integration test declares, and on small machines.

Tokens are modelled at two levels, as in `syn`:
- A clause-level `TokenTree` is a single token, a braced group or a bracketed
  group.
- A rule-level `Token` is an identifier, a punctuation mark, or `Other` for
  anything the grammar never accepts.

A `[ … ]` or `{ … }` group is one tree. So `peek2` looks past a whole group,
as it does in `syn`. Errors are abstracted to their kind:
- `ExpectedIdent` is the lookahead error.
- `ExpectedTransitions` is "Expected 'transitions' block".
- `UnknownClause(id)`.
- `Malformed` is any other `syn` parse error.
- `DuplicateTransition(state, event)`.

The default derive list is `Debug, Clone, PartialEq, Eq` (src/lib.rs:280-285).

## Model

| member | source | states |
|---|---|---|
| Parser.ParsePattern | src/lib.rs:138-172 | a parsed source pattern consumes at least one token and is well formed (a `Multiple` pattern has at least two entries) |
| Parser.ParseTarget | src/lib.rs:118-128 | without `=` the target is internal and nothing is consumed |
| Parser.ParseTransition | src/lib.rs:105-136 | a parsed rule consumes input and is well formed: its pattern is well formed and it has at least one event |
| Parser.ParseRuleList | src/lib.rs:81-82 | every rule of a parsed comma-separated rule list is well formed |
| Parser.ParseClauses | src/lib.rs:51-101 | an identifier not followed by `:` ends the loop with "Expected 'transitions' block"; a first token that is not an identifier, or no token at all, gives the lookahead error; the parsed rules are well formed |
| Parser.ParseMachine | src/lib.rs:45-103 | empty input fails with the lookahead error; a successful parse has well-formed rules |
| Printer.PatternRoundTrip | src/lib.rs:138-172 | every well-formed state pattern (wildcard, single or multiple, marked or not) is read back exactly, and the tokens after it are left untouched |
| Printer.MoreStatesRoundTrip | src/lib.rs:154-161 | the loop over further bar-separated, optionally marked states reads back any list of entries and stops at the first token that is not a bar |
| Printer.MoreEventsRoundTrip | src/lib.rs:113-116 | the loop over further bar-separated events reads back any list of events when the tokens that follow do not continue it |
| Printer.TargetRoundTrip | src/lib.rs:118-128 | `= Name` and `= _` are read back as the named state and as an internal target |
| Printer.RuleRoundTrip | src/lib.rs:105-136 | every well-formed rule is read back exactly |
| Printer.OmittedTargetIsInternal | src/lib.rs:118-128 | a rule without `=` and a rule with `= _` both parse as internal transitions |
| Printer.EventListStopsBeforeMark | src/lib.rs:113 | a bar followed by `*` after the events ends the rule and is left in the input, so the rule list then fails |
| Printer.RulesRoundTrip | src/lib.rs:81-82 | any list of well-formed rules, with or without a trailing comma, is read back exactly |
| Printer.IdentsRoundTrip | src/lib.rs:65 | any derive list, with or without a comma after the last name, is read back exactly |
| Printer.TransitionsClauseEnds | src/lib.rs:78-89 | the transitions clause, with or without a comma after its last rule, returns the machine built from the clauses already read, and ignores anything after the braces |
| Printer.NameClauseStep | src/lib.rs:57-61 | a `name: X` clause, with or without a comma after it, sets the name and parsing continues |
| Printer.DeriveClauseStep | src/lib.rs:62-77 | a `derive_states: [..]` or `derive_events: [..]` clause, with or without commas, sets that derive list and parsing continues |
| Printer.ClausesRoundTrip | src/lib.rs:51-101 | the clause loop reads back every printed machine, in any layout of the optional commas; an optional clause that is absent keeps its earlier value |
| Printer.MachineRoundTrip | src/lib.rs:45-103 | parsing the printout of any machine with well-formed rules, in any layout of the optional commas, gives that machine back |
| Printer.RepeatedClauseOverwrites | src/lib.rs:47-77 | when a clause is repeated, the later `name` or `derive_states` value wins |
| Printer.ClauseErrors | src/lib.rs:51-101 | empty input and a non-identifier first token give the lookahead error; an unknown clause name is rejected with that name; an identifier without `:` ends the loop with "Expected 'transitions' block" |
| Validator.PairsMembers | src/lib.rs:188-190 | a rule's keys are exactly the pairs of one of its source states and one of its events |
| Validator.PairsDistinct | src/lib.rs:188-203 | within one rule the keys are distinct exactly when both its states and its events are distinct |
| Validator.ValidatePassesIffDistinct | src/lib.rs:174-208 | the check passes exactly when no (state, event) key repeats over all non-wildcard rules |
| Validator.ValidateReportsFirstRepeat | src/lib.rs:192-201 | the check fails with (s, e) exactly when (s, e) is the first key whose value was already seen |
| Validator.DuplicateRejected | src/lib.rs:174-208 | two non-wildcard rules that share a source state and an event are rejected |
| Validator.PassMeansUnique | src/lib.rs:174-208 | after the check passes, no earlier non-wildcard rule covers a pair that a later rule covers |
| Validator.RepeatWithinRuleRejected | src/lib.rs:188-203 | a single rule that repeats a source state or an event is rejected too |
| Validator.WildcardRulesIgnored | src/lib.rs:185 | inserting a wildcard rule anywhere never changes the outcome of the check |
| Validator.CheckState | src/lib.rs:189-203 | the loop over one state's events either finds the first repeated key or returns the enlarged set of seen keys, in agreement with the reference scan |
| Validator.CheckRule | src/lib.rs:188-204 | the loop over one rule's source states agrees with the reference scan in the same way |
| Validator.CheckNoDuplicates | src/lib.rs:174-208 | the nested loops with the set of seen keys compute exactly the reference outcome |
| Seqs.FirstOccurrencesSpec | src/lib.rs:237-239 | the push-if-absent list has no duplicates, has the same members as the input, and keeps first-seen order |
| Seqs.AddAllIsFirstOccurrences | src/lib.rs:237-266 | pushing-if-absent onto the first occurrences of a prefix gives the first occurrences of the whole sequence |
| Builder.FirstMarkedSpec | src/lib.rs:240-251 | the first mark is absent exactly when no entry is marked, and otherwise it is the name of the earliest marked entry |
| Builder.CollectFromSpec | src/lib.rs:234-268 | the collection loop adds every rule's source and target states, and its events, with push-if-absent, and it keeps the first mark found |
| Builder.Build | src/lib.rs:230-278 | the states and events have no duplicates, are exactly the mentioned ones, and are in first-seen order; the initial state is the first marked state, else the first state, else the placeholder `Initial`, which is then not a state |
| Builder.LaterMarksNeverOverwrite | src/lib.rs:240-251 | once a marked state has been seen, later rules never change the initial state |
| Emitter.TypeNames | src/lib.rs:218-228 | the two type names always differ; both start with the machine name when one is given; otherwise they are `State` and `Event` |
| Emitter.TypeNamesInjective | src/lib.rs:218-228 | machines with different names get different state types and different event types |
| Emitter.StateConditionNames | src/lib.rs:325-345 | the state condition, read on its own, holds exactly for the wildcard or for one of the rule's source states |
| Emitter.ConditionSplits | src/lib.rs:338-351 | the state condition holds exactly when one of the leading `matches!` tests of a chain holds or the test joined to `&&` holds; the two groupings differ only in this split |
| Emitter.EventChecksResult | src/lib.rs:338-355 | under either grouping, one rule's checks return its target exactly when the rule fires. As emitted, a rule fires when one of its leading states matches (on any event), or when its last state matches and the event is one it lists |
| Emitter.EvaluateFirstMatch | src/lib.rs:315-373 | under either grouping, `process_event` returns the target of the first rule that fires; an internal target yields the current state |
| Emitter.EvaluateComplete | src/lib.rs:315-373 | under either grouping, `process_event` returns `None` exactly when no rule fires; otherwise it returns the target of a first firing rule |
| Emitter.InternalStays | src/lib.rs:320-323 | under either grouping, when the first firing rule is internal, the state is unchanged |
| Emitter.EvaluateClosed | src/lib.rs:230-373 | under either grouping, from a declared state `process_event` only ever yields declared states |
| Emitter.EvaluateNeedsDeclaredEvent | src/lib.rs:263-267 | with the intended grouping, an event that no rule lists never fires |
| Emitter.ResultNeedsListedEvent | src/lib.rs:338-355 | with the intended grouping, every result comes from a rule that lists the event and covers the current state |
| Emitter.LeadingStateCapturesAnyEvent | src/lib.rs:338-355 | as emitted, a rule with several source states that is reached first in one of its states other than the last returns its target on any event, also one it does not list |
| Emitter.GroupingsAgreeElsewhere | src/lib.rs:338-355 | the two groupings give the same result from every state that is not a leading state of some multi-state rule |
| Emitter.SpecificRuleShadowsLaterWildcard | src/lib.rs:315-356 | with the intended grouping and after the duplicate check passed, a specific rule fires for its pair unless an earlier wildcard rule lists that event |
| Emitter.SpecificRuleAsEmitted | src/lib.rs:315-356 | as emitted, the same holds only if, in addition, no earlier rule has the current state among the leading states of a multi-state pattern |
| Compiler.Compile | src/lib.rs:210-377 | parse errors and duplicate errors are passed through, and a parsed machine that passes the check compiles. The expansion keeps the parsed rules. Its type names come from the machine name, and each derive list is the given one or the default. Its states, events and keys have no duplicates, and the states and events are exactly the mentioned ones in first-seen order. The initial state is the first marked one, else the first state, else `Initial` |
| Compiler.CompileRoundTrip | src/lib.rs:210-295 | a machine printed in any layout compiles exactly when no key repeats; it then keeps the rules, its type names come from its name, and absent derive clauses fall back to the defaults |
| Compiler.CompileReportsDuplicate | src/lib.rs:212-216 | a printed machine is rejected with (s, e) exactly when (s, e) is its first repeated key |
| Compiler.ProcessEventClosed | src/lib.rs:358-373 | in compiled code, `process_event` from a declared state yields only declared states |
| Compiler.ProcessEventUndeclared | src/lib.rs:358-373 | in compiled code, an event that no rule lists leaves `process_event` at `None` |
| Compiler.ProcessEventSpecific | src/lib.rs:315-373 | in compiled code with the intended grouping, a specific rule for (state, event) decides unless an earlier wildcard rule lists the event |
| Scenarios.PowerCompiles | src/lib.rs:218-295 | an unnamed two-rule machine compiles to `State`/`Event` with the default derives and the marked initial state |
| Scenarios.PowerBehaviour | src/lib.rs:315-373 | under either grouping, `PowerOn` moves `Off` to `Idle` and does nothing in `Idle` |
| Scenarios.DeviceInitial | tests/convert.rs:5-16 | the integration test's machine starts in the marked `Idle` |
| Scenarios.DeviceStart | tests/convert.rs:9 | under either grouping, `Start` moves `Idle` to `Running` |
| Scenarios.DeviceConnect | tests/convert.rs:11 | under either grouping, the two-source rule for `Connect` fires from `Running`, its last state |
| Scenarios.DeviceTick | tests/convert.rs:13 | under either grouping, the internal `Connected + Tick = _` keeps the state `Connected` |
| Scenarios.DeviceReset | tests/convert.rs:9-14 | as emitted, `Reset` gives `Idle` from every state except `Idle`, and from `Idle` it gives `Connected`, because the `Connect` rule's leading `Idle` test holds first; with the intended grouping it gives `Idle` from every state |
| Scenarios.DevicePauseFromIdle | tests/convert.rs:9-11 | as emitted, `Pause` in `Idle` gives `Connected` through the `Connect` rule; with the intended grouping it gives `None`, because only `Running` lists `Pause` |
| Scenarios.DuplicateRuleRejected | src/lib.rs:192-201 | two rules `Idle + Go` are rejected with the pair (`Idle`, `Go`) |

## Left out

- The `proc_macro`, `syn` and `quote` machinery is not modelled: spans, error message texts, `to_compile_error`, and the emitted Rust text itself. The generated code is represented by its names, derive lists, variants (`Compiler.Generated`) and behaviour (`Emitter.Evaluate`).
- Token spacing is not modelled. `Pipe` is one `|` token, so the effect of a joint `||` on `peek` is outside the model.
- Keywords, literals, other punctuation and parenthesised groups are all the single token `Other`. The grammar never accepts any of them.
- Groups nested more than one level below the transitions block are opaque tokens (`Group`). The grammar never looks inside them.
- The parser returns as soon as the transitions block is read and ignores what follows, as `Parse::parse` does. The end-of-input check that `parse_macro_input!` adds afterwards is not modelled.
- When no state is mentioned, the expansion's `Default` refers to the non-existent variant `Initial`, and the generated code does not compile. The model proves that the placeholder is then not a state (`Builder.Build`). It does not model the compile error rustc would report.
- An internal target expands to `self.clone()` (src/lib.rs:322). With a user `derive_states` list that lacks `Clone`, a machine with an internal rule therefore expands to code that does not compile, while `Compiler.Compile` reports success. The model does not check the derive lists against the generated code.
- The examples (`examples/demo.rs`, `examples/hierarchical.rs`) and the integration test's wrapper `Machine` are not modelled. They are user code built on the generated enums. Only the test's declared machine appears, in `scenarios.dfy`.
- Parser.ParsePattern: states only that input is consumed (a length fact), not that the rest is a suffix of the input. The exact remainder is proved where it matters, by the round-trip lemmas.
- Parser.ParseTransition: states only that input is consumed (a length fact), not that the rest is a suffix of the input, for the same reason.
- Parser.ParseTarget: states only that input is consumed (a length fact) and the omitted-target case. The `=` cases are proved by `Printer.TargetRoundTrip`.
- Parser.ParseRuleList: states only that the rules are well formed. Exact contents are proved by `Printer.RulesRoundTrip`.
- Parser.ParseIdentList: states only a length bound on the list it reads. Exact contents, with or without a comma after the last name, are proved by `Printer.IdentsRoundTrip`.
- Parser.ParseClauses: states the error cases and well-formedness. The successful results are proved by the round-trip lemmas `Printer.ClausesRoundTrip` and `Printer.MachineRoundTrip`.
- Scenarios: the device machine of the integration test is not run through `Compile` as a whole (its duplicate check and state list are not computed here). Its evaluation and initial state are proved on the rules directly. The whole pipeline is proved on the smaller `Scenarios.PowerCompiles` machine.
- Compiler.ProcessEvent, and the lemmas about it, use the intended grouping. The expansion as written is `Emitter.Evaluate` with `AsEmitted` (see "## Findings").

## Findings

| source | as written | input that shows it | evidently intended | confidence | as-written member | corrected member |
|---|---|---|---|---|---|---|
| src/lib.rs:338-351 | a multi-state condition, an or-chain of `matches!` tests, is spliced without parentheses before `&& event_condition`, so rustc reads it as s1 or … or (sn and e) | the integration test's machine (tests/convert.rs:5-16) in state `Idle` on `Pause`: the `Idle`/`Running` + `Connect` rule fires through its leading `Idle` test and returns `Connected` | a multi-state rule fires only in one of its states and only on one of its listed events: (s1 or … or sn) and e | high (rustc's precedence and `quote!` splicing are standard); not executed | Scenarios.DevicePauseFromIdle | Emitter.ResultNeedsListedEvent |

The repository's integration test does not expose this. From `Idle` it sends only `Start`, whose rule comes before the `Connect` rule, and `Connect` itself. It sends every other event from `Running` or `Connected`, which are not leading states of any rule, and `Emitter.GroupingsAgreeElsewhere` proves that the two readings agree there. `Emitter.LeadingStateCapturesAnyEvent` states the as-written behaviour in general.
