/**
 * What the generated code does (src/lib.rs:218-373): the names of the two
 * generated types, their derive lists, and the behaviour of the generated
 * `process_event`, an ordered first-match scan over the rules.
 *
 * The scan is given twice, by a `Grouping`: as rustc reads the expansion,
 * where a multi-state condition is not parenthesised before `&&`, and as
 * the rule syntax means it. Every general lemma holds for both readings.
 */
module Emitter {
  import opened Wrappers
  import opened Ast
  import opened Seqs
  import opened Builder
  import opened Validator

  /** The derives used when a derive clause is absent (src/lib.rs:280-285). */
  const DefaultDerives: seq<string> := ["Debug", "Clone", "PartialEq", "Eq"]

  /** A derive clause's list, or the default list when the clause is absent (src/lib.rs:287-295). */
  function DerivesOrDefault(derives: Option<seq<string>>): seq<string> {
    match derives
    case Some(xs) => xs
    case None => DefaultDerives
  }

  /**
   * The names of the generated state and event types (src/lib.rs:218-228):
   * the machine's name with `State`/`Event` appended, or bare `State`/`Event`.
   */
  function TypeNames(name: Option<string>): (r: (string, string))
    ensures r.0 != r.1
    ensures name.Some? ==> |r.0| > |name.value| && r.0[..|name.value|] == name.value
    ensures name.Some? ==> |r.1| > |name.value| && r.1[..|name.value|] == name.value
    ensures name.None? ==> r == ("State", "Event")
  {
    match name
    case Some(n) =>
      assert (n + "State")[|n|] == 'S' && (n + "Event")[|n|] == 'E';
      (n + "State", n + "Event")
    case None => ("State", "Event")
  }

  /** Two differently named machines never share a generated type name. */
  lemma TypeNamesInjective(a: string, b: string)
    requires a != b
    ensures TypeNames(Some(a)).0 != TypeNames(Some(b)).0
    ensures TypeNames(Some(a)).1 != TypeNames(Some(b)).1
  {
    if |a| == |b| {
      var k :| 0 <= k < |a| && a[k] != b[k];
      assert (a + "State")[k] == a[k] && (b + "State")[k] == b[k];
      assert (a + "Event")[k] == a[k] && (b + "Event")[k] == b[k];
    } else {
      assert |a + "State"| != |b + "State"|;
      assert |a + "Event"| != |b + "Event"|;
    }
  }

  // ---- The generated `process_event` ----

  /** The state condition emitted for a pattern, read on its own (src/lib.rs:325-345). */
  predicate StateCondition(p: StatePattern, s: string) {
    match p
    case Wildcard => true
    case Single(x, _) => s == x
    case Multiple(es) => exists k :: 0 <= k < |es| && es[k].0 == s
  }

  /**
   * The `matches!` tests of a multi-state condition that are left outside
   * the `&&` when the `||`-chain is spliced unparenthesised: all but the last.
   */
  predicate LeadingState(p: StatePattern, s: string) {
    p.Multiple? && exists k :: 0 <= k < |p.entries| - 1 && p.entries[k].0 == s
  }

  /** The state test that the event test is actually joined to: the whole condition, or the last `matches!` of a chain. */
  predicate JoinedState(p: StatePattern, s: string) {
    match p
    case Wildcard => true
    case Single(x, _) => s == x
    case Multiple(es) => |es| > 0 && es[|es| - 1].0 == s
  }

  /** How `if #state_condition && #event_condition` is grouped (src/lib.rs:338-351). */
  datatype Grouping =
    /** As rustc parses the expansion: `s1 || .. || sn && e` is `s1 || .. || (sn && e)`. */
    | AsEmitted
    /** As the rule `S1 | .. | Sn + E` means it: `(s1 || .. || sn) && e`. */
    | Intended

  /** One emitted `if state_condition && event_condition { return Some(target) }`. */
  datatype Check = Check(pattern: StatePattern, event: string, target: TargetState)

  /** Whether check `c` returns in state `current` on `event`. */
  predicate CheckHolds(c: Check, current: string, event: string, g: Grouping) {
    match g
    case AsEmitted => LeadingState(c.pattern, current) || (JoinedState(c.pattern, current) && c.event == event)
    case Intended => StateCondition(c.pattern, current) && c.event == event
  }

  /** The checks one rule emits: one per event, in event order (src/lib.rs:347-355). */
  function EventChecks(p: StatePattern, events: seq<string>, target: TargetState): seq<Check>
    decreases |events|
  {
    if |events| == 0 then [] else [Check(p, events[0], target)] + EventChecks(p, events[1..], target)
  }

  /** The body of `process_event`: every rule's checks, in declaration order (src/lib.rs:317-356). */
  function AllChecks(ts: seq<Transition>): seq<Check>
    decreases |ts|
  {
    if |ts| == 0 then []
    else EventChecks(ts[0].pattern, ts[0].events, ts[0].target) + AllChecks(ts[1..])
  }

  /** The value a target yields: a named state, or the current state itself (src/lib.rs:320-323). */
  function Resolve(target: TargetState, current: string): string {
    match target
    case State(x) => x
    case Internal => current
  }

  /** Runs the checks in order: the first that holds returns; if none holds, `None` (src/lib.rs:371). */
  function RunChecks(cs: seq<Check>, current: string, event: string, g: Grouping): Option<string>
    decreases |cs|
  {
    if |cs| == 0 then None
    else if CheckHolds(cs[0], current, event, g) then Some(Resolve(cs[0].target, current))
    else RunChecks(cs[1..], current, event, g)
  }

  /** `current.process_event(event)` of the generated code, under grouping `g`. */
  function Evaluate(ts: seq<Transition>, current: string, event: string, g: Grouping): Option<string> {
    RunChecks(AllChecks(ts), current, event, g)
  }

  // ---- Reference semantics: the first rule that fires ----

  /** Rule `t` applies to `event` in state `current`, under grouping `g`. */
  predicate Fires(t: Transition, current: string, event: string, g: Grouping) {
    match g
    case AsEmitted =>
      || (LeadingState(t.pattern, current) && |t.events| > 0)
      || (JoinedState(t.pattern, current) && event in t.events)
    case Intended => StateCondition(t.pattern, current) && event in t.events
  }

  /** Rule `i` is the first rule, in declaration order, that applies. */
  predicate IsFirstFiring(ts: seq<Transition>, current: string, event: string, g: Grouping, i: int) {
    && 0 <= i < |ts|
    && Fires(ts[i], current, event, g)
    && forall j :: 0 <= j < i ==> !Fires(ts[j], current, event, g)
  }

  /** A non-wildcard pattern's condition holds exactly for the states it names. */
  lemma StateConditionNames(p: StatePattern, s: string)
    ensures StateCondition(p, s) <==> p.Wildcard? || s in Names(p)
  {
    if p.Multiple? {
      assert forall k :: 0 <= k < |p.entries| ==> Names(p)[k] == p.entries[k].0;
    }
  }

  /** The two groupings split the same state condition differently: a leading test or the joined one. */
  lemma ConditionSplits(p: StatePattern, s: string)
    ensures StateCondition(p, s) <==> LeadingState(p, s) || JoinedState(p, s)
  {
    if p.Multiple? && |p.entries| > 0 {
      var es := p.entries;
      if StateCondition(p, s) {
        var k :| 0 <= k < |es| && es[k].0 == s;
        if k < |es| - 1 {
          assert LeadingState(p, s);
        }
      }
      if LeadingState(p, s) {
        var k :| 0 <= k < |es| - 1 && es[k].0 == s;
        assert es[k].0 == s;
      }
    }
  }

  /** One rule's checks return its target exactly when the rule fires. */
  lemma {:induction false} EventChecksResult(p: StatePattern, events: seq<string>, target: TargetState,
                                             current: string, event: string, g: Grouping)
    ensures RunChecks(EventChecks(p, events, target), current, event, g)
         == if Fires(Transition(p, events, target), current, event, g) then Some(Resolve(target, current)) else None
    decreases |events|
  {
    if |events| > 0 {
      EventChecksResult(p, events[1..], target, current, event, g);
      assert EventChecks(p, events, target)[1..] == EventChecks(p, events[1..], target);
      assert event in events <==> event == events[0] || event in events[1..];
    }
  }

  lemma {:induction false} RunChecksConcat(xs: seq<Check>, ys: seq<Check>, current: string, event: string, g: Grouping)
    ensures RunChecks(xs + ys, current, event, g)
         == if RunChecks(xs, current, event, g).Some? then RunChecks(xs, current, event, g) else RunChecks(ys, current, event, g)
    decreases |xs|
  {
    if |xs| == 0 {
      assert xs + ys == ys;
    } else {
      assert (xs + ys)[1..] == xs[1..] + ys;
      RunChecksConcat(xs[1..], ys, current, event, g);
    }
  }

  /** Evaluating is checking the first rule, and only if it does not fire, the rest. */
  lemma EvaluateStep(ts: seq<Transition>, current: string, event: string, g: Grouping)
    requires |ts| > 0
    ensures Evaluate(ts, current, event, g)
         == if Fires(ts[0], current, event, g) then Some(Resolve(ts[0].target, current)) else Evaluate(ts[1..], current, event, g)
  {
    RunChecksConcat(EventChecks(ts[0].pattern, ts[0].events, ts[0].target), AllChecks(ts[1..]), current, event, g);
    EventChecksResult(ts[0].pattern, ts[0].events, ts[0].target, current, event, g);
  }

  /** First match wins: the result is the target of the first rule that fires. */
  lemma {:induction false} EvaluateFirstMatch(ts: seq<Transition>, current: string, event: string, g: Grouping, i: int)
    requires IsFirstFiring(ts, current, event, g, i)
    ensures Evaluate(ts, current, event, g) == Some(Resolve(ts[i].target, current))
    decreases |ts|
  {
    EvaluateStep(ts, current, event, g);
    if i > 0 {
      assert IsFirstFiring(ts[1..], current, event, g, i - 1);
      EvaluateFirstMatch(ts[1..], current, event, g, i - 1);
    }
  }

  /** A result comes from a first-firing rule; no result means no rule fires. */
  lemma {:induction false} EvaluateComplete(ts: seq<Transition>, current: string, event: string, g: Grouping)
    ensures Evaluate(ts, current, event, g).None? <==> forall j :: 0 <= j < |ts| ==> !Fires(ts[j], current, event, g)
    ensures Evaluate(ts, current, event, g).Some? ==>
              exists i :: IsFirstFiring(ts, current, event, g, i)
                       && Evaluate(ts, current, event, g) == Some(Resolve(ts[i].target, current))
    decreases |ts|
  {
    if |ts| > 0 {
      EvaluateStep(ts, current, event, g);
      EvaluateComplete(ts[1..], current, event, g);
      if Fires(ts[0], current, event, g) {
        assert IsFirstFiring(ts, current, event, g, 0);
      } else {
        assert forall j :: 1 <= j < |ts| ==> ts[j] == ts[1..][j - 1];
        if Evaluate(ts[1..], current, event, g).Some? {
          var i :| IsFirstFiring(ts[1..], current, event, g, i)
                && Evaluate(ts[1..], current, event, g) == Some(Resolve(ts[1..][i].target, current));
          assert IsFirstFiring(ts, current, event, g, i + 1);
        }
      }
    }
  }

  /** An internal rule that fires first leaves the state as it is. */
  lemma InternalStays(ts: seq<Transition>, current: string, event: string, g: Grouping, i: int)
    requires IsFirstFiring(ts, current, event, g, i) && ts[i].target.Internal?
    ensures Evaluate(ts, current, event, g) == Some(current)
  {
    EvaluateFirstMatch(ts, current, event, g, i);
  }

  lemma {:induction false} MentionedContains(ts: seq<Transition>, i: int)
    requires 0 <= i < |ts|
    ensures forall x :: x in Mentioned(ts[i]) ==> x in MentionedStates(ts)
    decreases |ts|
  {
    if i > 0 {
      MentionedContains(ts[1..], i - 1);
    }
  }

  /** From a state of the machine, every result is again a state of the machine. */
  lemma EvaluateClosed(ts: seq<Transition>, current: string, event: string, g: Grouping)
    requires current in Build(ts).states
    ensures Evaluate(ts, current, event, g).Some? ==> Evaluate(ts, current, event, g).value in Build(ts).states
  {
    EvaluateComplete(ts, current, event, g);
    if Evaluate(ts, current, event, g).Some? {
      var i :| IsFirstFiring(ts, current, event, g, i)
            && Evaluate(ts, current, event, g) == Some(Resolve(ts[i].target, current));
      MentionedContains(ts, i);
    }
  }

  /** With the intended grouping, only a declared event can produce a result. */
  lemma EvaluateNeedsDeclaredEvent(ts: seq<Transition>, current: string, event: string)
    requires event !in Build(ts).events
    ensures Evaluate(ts, current, event, Intended) == None
  {
    forall j | 0 <= j < |ts|
      ensures event !in ts[j].events
    {
      EventsContain(ts, j);
    }
    EvaluateComplete(ts, current, event, Intended);
  }

  lemma {:induction false} EventsContain(ts: seq<Transition>, i: int)
    requires 0 <= i < |ts|
    ensures forall x :: x in ts[i].events ==> x in AllEvents(ts)
    decreases |ts|
  {
    if i > 0 {
      EventsContain(ts[1..], i - 1);
    }
  }

  /**
   * With the intended grouping, a result always comes from a rule that
   * lists the event and covers the current state.
   */
  lemma ResultNeedsListedEvent(ts: seq<Transition>, current: string, event: string)
    ensures Evaluate(ts, current, event, Intended).Some? ==>
              exists i :: 0 <= i < |ts| && event in ts[i].events
                       && (ts[i].pattern.Wildcard? || current in Names(ts[i].pattern))
  {
    EvaluateComplete(ts, current, event, Intended);
    if Evaluate(ts, current, event, Intended).Some? {
      var i :| IsFirstFiring(ts, current, event, Intended, i)
            && Evaluate(ts, current, event, Intended) == Some(Resolve(ts[i].target, current));
      StateConditionNames(ts[i].pattern, current);
    }
  }

  /**
   * As emitted, a multi-state rule that is reached in one of its states
   * other than the last returns its target on any event at all, also one
   * it does not list.
   */
  lemma LeadingStateCapturesAnyEvent(ts: seq<Transition>, current: string, event: string, i: int)
    requires 0 <= i < |ts| && LeadingState(ts[i].pattern, current) && |ts[i].events| > 0
    requires forall j :: 0 <= j < i ==> !Fires(ts[j], current, event, AsEmitted)
    ensures Evaluate(ts, current, event, AsEmitted) == Some(Resolve(ts[i].target, current))
  {
    assert IsFirstFiring(ts, current, event, AsEmitted, i);
    EvaluateFirstMatch(ts, current, event, AsEmitted, i);
  }

  /** The groupings differ only from a non-last state of a multi-state rule. */
  lemma {:induction false} GroupingsAgreeElsewhere(ts: seq<Transition>, current: string, event: string)
    requires forall i :: 0 <= i < |ts| ==> !LeadingState(ts[i].pattern, current)
    ensures Evaluate(ts, current, event, AsEmitted) == Evaluate(ts, current, event, Intended)
    decreases |ts|
  {
    if |ts| > 0 {
      ConditionSplits(ts[0].pattern, current);
      EvaluateStep(ts, current, event, AsEmitted);
      EvaluateStep(ts, current, event, Intended);
      assert forall i :: 0 <= i < |ts[1..]| ==> ts[1..][i] == ts[i + 1];
      GroupingsAgreeElsewhere(ts[1..], current, event);
    }
  }

  /**
   * After a passing duplicate check and with the intended grouping, a
   * specific rule covering `(current, event)` decides the result unless an
   * earlier wildcard rule lists the same event.
   */
  lemma SpecificRuleShadowsLaterWildcard(ts: seq<Transition>, current: string, event: string, i: int)
    requires Validate(ts).Pass?
    requires 0 <= i < |ts| && !ts[i].pattern.Wildcard?
    requires current in Names(ts[i].pattern) && event in ts[i].events
    requires forall j :: 0 <= j < i && ts[j].pattern.Wildcard? ==> event !in ts[j].events
    ensures Evaluate(ts, current, event, Intended) == Some(Resolve(ts[i].target, current))
  {
    StateConditionNames(ts[i].pattern, current);
    forall j | 0 <= j < i
      ensures !Fires(ts[j], current, event, Intended)
    {
      StateConditionNames(ts[j].pattern, current);
      PassMeansUnique(ts, j, i, current, event);
    }
    EvaluateFirstMatch(ts, current, event, Intended, i);
  }

  /**
   * As emitted, the same holds only when, in addition, no earlier rule has
   * `current` among the leading states of a multi-state pattern.
   */
  lemma SpecificRuleAsEmitted(ts: seq<Transition>, current: string, event: string, i: int)
    requires Validate(ts).Pass?
    requires 0 <= i < |ts| && !ts[i].pattern.Wildcard?
    requires current in Names(ts[i].pattern) && event in ts[i].events
    requires forall j :: 0 <= j < i && ts[j].pattern.Wildcard? ==> event !in ts[j].events
    requires forall j :: 0 <= j < i ==> !LeadingState(ts[j].pattern, current)
    ensures Evaluate(ts, current, event, AsEmitted) == Some(Resolve(ts[i].target, current))
  {
    StateConditionNames(ts[i].pattern, current);
    ConditionSplits(ts[i].pattern, current);
    forall j | 0 <= j < i
      ensures !Fires(ts[j], current, event, AsEmitted)
    {
      StateConditionNames(ts[j].pattern, current);
      ConditionSplits(ts[j].pattern, current);
      PassMeansUnique(ts, j, i, current, event);
    }
    EvaluateFirstMatch(ts, current, event, AsEmitted, i);
  }
}
