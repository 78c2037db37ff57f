/**
 * The whole macro (src/lib.rs:210-377): parse the input, reject duplicate
 * transitions, collect states, events and the initial state, and emit the
 * two enums, the `Default` impl and `process_event`. The generated code is
 * represented by its type names, derive lists, variants and behaviour
 * rather than by its text.
 */
module Compiler {
  import opened Wrappers
  import opened Ast
  import opened Seqs
  import opened Parser
  import opened Printer
  import opened Builder
  import opened Validator
  import opened Emitter

  /**
   * What one expansion defines: the type names, the derive lists, the
   * variants of both enums in declaration order, the variant `default()`
   * returns, and the rules `process_event` scans.
   */
  datatype Generated = Generated(
    stateType: string,
    eventType: string,
    stateDerives: seq<string>,
    eventDerives: seq<string>,
    states: seq<string>,
    events: seq<string>,
    initial: string,
    rules: seq<Transition>)

  /** The macro: a parse error or a duplicate transition becomes the compile error. */
  function Compile(input: seq<TokenTree>): (r: Result<Generated, Error>)
    ensures ParseMachine(input).Failure? ==> r == Failure(ParseMachine(input).error)
    ensures ParseMachine(input).Success? && Validate(ParseMachine(input).value.transitions).Fail?
            ==> r == Failure(Validate(ParseMachine(input).value.transitions).error)
    ensures ParseMachine(input).Success? && Validate(ParseMachine(input).value.transitions).Pass? ==> r.Success?
    ensures r.Success? ==> ParseMachine(input).Success? && r.value.rules == ParseMachine(input).value.transitions
    ensures r.Success? ==> (r.value.stateType, r.value.eventType) == TypeNames(ParseMachine(input).value.name)
    ensures r.Success? ==> ParseMachine(input).value.deriveStates.Some? ==> r.value.stateDerives == ParseMachine(input).value.deriveStates.value
    ensures r.Success? ==> ParseMachine(input).value.deriveStates.None? ==> r.value.stateDerives == DefaultDerives
    ensures r.Success? ==> ParseMachine(input).value.deriveEvents.Some? ==> r.value.eventDerives == ParseMachine(input).value.deriveEvents.value
    ensures r.Success? ==> ParseMachine(input).value.deriveEvents.None? ==> r.value.eventDerives == DefaultDerives
    ensures r.Success? ==> NoDup(r.value.states) && NoDup(r.value.events) && NoDup(AllKeys(r.value.rules))
    ensures r.Success? ==> WellFormedRules(r.value.rules)
    ensures r.Success? ==> forall s :: s in r.value.states <==> s in MentionedStates(r.value.rules)
    ensures r.Success? ==> forall e :: e in r.value.events <==> e in AllEvents(r.value.rules)
    ensures r.Success? ==> FirstSeenOrder(r.value.states, MentionedStates(r.value.rules))
    ensures r.Success? ==> FirstSeenOrder(r.value.events, AllEvents(r.value.rules))
    ensures r.Success? && FirstMarked(AllEntries(r.value.rules)).Some?
            ==> r.value.initial == FirstMarked(AllEntries(r.value.rules)).value
    ensures r.Success? && FirstMarked(AllEntries(r.value.rules)).None? && |r.value.states| > 0
            ==> r.value.initial == r.value.states[0]
    ensures r.Success? && |r.value.states| == 0 ==> r.value.initial == PlaceholderInitial
    ensures r.Success? && |r.value.states| > 0 ==> r.value.initial in r.value.states
    ensures r.Success? ==> r.value.stateType != r.value.eventType
  {
    var m :- ParseMachine(input);
    match Validate(m.transitions)
    case Fail(e) => Failure(e)
    case Pass =>
      ValidatePassesIffDistinct(m.transitions);
      var model := Build(m.transitions);
      var names := TypeNames(m.name);
      Success(Generated(names.0, names.1, DerivesOrDefault(m.deriveStates), DerivesOrDefault(m.deriveEvents),
                        model.states, model.events, model.initial, m.transitions))
  }

  /**
   * `state.process_event(event)` of the generated code, with the state
   * condition grouped as the rule syntax means it; `Emitter.Evaluate` with
   * `AsEmitted` is the expansion as rustc reads it.
   */
  function ProcessEvent(g: Generated, current: string, event: string): Option<string> {
    Evaluate(g.rules, current, event, Intended)
  }

  /** The compiled model agrees with `Build` on the rules it keeps. */
  lemma CompiledModel(input: seq<TokenTree>)
    requires Compile(input).Success?
    ensures var g := Compile(input).value;
            g.states == Build(g.rules).states && g.events == Build(g.rules).events
            && g.initial == Build(g.rules).initial
  {
  }

  /**
   * A machine printed in any layout compiles exactly when no pair repeats;
   * it then keeps the rules, names the types after the machine and falls
   * back to the default derives for an absent derive clause.
   */
  lemma CompileRoundTrip(m: StateMachine, lay: Layout)
    requires WellFormedRules(m.transitions)
    ensures Compile(PrintMachine(m, lay)).Success? <==> NoDup(AllKeys(m.transitions))
    ensures Compile(PrintMachine(m, lay)).Success? ==>
              var g := Compile(PrintMachine(m, lay)).value;
              && g.rules == m.transitions
              && (g.stateType, g.eventType) == TypeNames(m.name)
              && g.stateDerives == (if m.deriveStates.Some? then m.deriveStates.value else DefaultDerives)
              && g.eventDerives == (if m.deriveEvents.Some? then m.deriveEvents.value else DefaultDerives)
  {
    assert PrintMachine(m, lay) + [] == PrintMachine(m, lay);
    MachineRoundTrip(m, lay, []);
    ValidatePassesIffDistinct(m.transitions);
  }

  /** A printed machine in which one pair repeats is rejected, naming the first repeat. */
  lemma CompileReportsDuplicate(m: StateMachine, lay: Layout, s: string, e: string)
    requires WellFormedRules(m.transitions)
    ensures Compile(PrintMachine(m, lay)) == Failure(DuplicateTransition(s, e))
        <==> exists j :: IsFirstRepeat(AllKeys(m.transitions), j) && AllKeys(m.transitions)[j] == (s, e)
  {
    assert PrintMachine(m, lay) + [] == PrintMachine(m, lay);
    MachineRoundTrip(m, lay, []);
    ValidateReportsFirstRepeat(m.transitions, s, e);
  }

  /** From a declared state, `process_event` only ever yields declared states. */
  lemma ProcessEventClosed(input: seq<TokenTree>, current: string, event: string)
    requires Compile(input).Success? && current in Compile(input).value.states
    ensures var g := Compile(input).value;
            ProcessEvent(g, current, event).Some? ==> ProcessEvent(g, current, event).value in g.states
  {
    CompiledModel(input);
    EvaluateClosed(Compile(input).value.rules, current, event, Intended);
  }

  /** An event that no rule lists never changes anything. */
  lemma ProcessEventUndeclared(input: seq<TokenTree>, current: string, event: string)
    requires Compile(input).Success? && event !in Compile(input).value.events
    ensures ProcessEvent(Compile(input).value, current, event) == None
  {
    CompiledModel(input);
    EvaluateNeedsDeclaredEvent(Compile(input).value.rules, current, event);
  }

  /**
   * In compiled code, with the intended grouping, the first firing rule
   * decides, and since the duplicate check passed, a specific rule for `(current, event)` is the only
   * specific one; only an earlier wildcard rule listing the event can take
   * precedence over it.
   */
  lemma ProcessEventSpecific(input: seq<TokenTree>, current: string, event: string, i: int)
    requires Compile(input).Success?
    requires var ts := Compile(input).value.rules;
             0 <= i < |ts| && !ts[i].pattern.Wildcard? && current in Names(ts[i].pattern) && event in ts[i].events
             && forall j :: 0 <= j < i && ts[j].pattern.Wildcard? ==> event !in ts[j].events
    ensures var ts := Compile(input).value.rules;
            ProcessEvent(Compile(input).value, current, event) == Some(Resolve(ts[i].target, current))
  {
    var ts := Compile(input).value.rules;
    ValidatePassesIffDistinct(ts);
    SpecificRuleShadowsLaterWildcard(ts, current, event, i);
  }
}
