/**
 * Concrete machines: the one the repository's integration test declares
 * (tests/convert.rs:5-16) and small ones showing the first-match,
 * internal-target, multiple-source and duplicate rules. Behaviour is
 * stated for the expansion as rustc reads it (`AsEmitted`) and, where the
 * two differ, also for the intended grouping.
 */
module Scenarios {
  import opened Wrappers
  import opened Ast
  import opened Seqs
  import opened Printer
  import opened Builder
  import opened Validator
  import opened Emitter
  import opened Compiler

  function Rule(s: string, events: seq<string>, target: string): Transition {
    Transition(Single(s, false), events, State(target))
  }

  /** The rules of the integration test's machine. */
  const DeviceRules: seq<Transition> := [
    Transition(Single("Idle", true), ["Start"], State("Running")),
    Rule("Running", ["Pause", "Stop"], "Idle"),
    Transition(Multiple([("Idle", false), ("Running", false)]), ["Connect"], State("Connected")),
    Rule("Connected", ["Disconnect"], "Idle"),
    Transition(Single("Connected", false), ["Tick"], Internal),
    Transition(Wildcard, ["Reset"], State("Idle"))
  ]

  /** The integration test's punctuation: a comma after each clause and after the last rule, none after the last derive. */
  const TestLayout := Layout(true, false, true)

  /** `*Off + PowerOn = Idle, Idle + Shutdown = Off`. */
  const PowerRules: seq<Transition> := [
    Transition(Single("Off", true), ["PowerOn"], State("Idle")),
    Rule("Idle", ["Shutdown"], "Off")
  ]

  /** The power machine compiles under the bare names `State` and `Event`, with the default derives. */
  lemma PowerCompiles()
    ensures Compile(PrintMachine(StateMachine(None, None, None, PowerRules), TestLayout)).Success?
    ensures var g := Compile(PrintMachine(StateMachine(None, None, None, PowerRules), TestLayout)).value;
            && g.stateType == "State" && g.eventType == "Event"
            && g.stateDerives == DefaultDerives && g.eventDerives == DefaultDerives
            && g.initial == "Off" && g.rules == PowerRules
  {
    assert WellFormedRules(PowerRules) by {
      assert WellFormedRule(PowerRules[0]) && WellFormedRule(PowerRules[1]);
    }
    var keys := [("Off", "PowerOn"), ("Idle", "Shutdown")];
    assert AllKeys(PowerRules) == keys;
    assert |keys[0].0| != |keys[1].0|;
    CompileRoundTrip(StateMachine(None, None, None, PowerRules), TestLayout);
    CompiledModel(PrintMachine(StateMachine(None, None, None, PowerRules), TestLayout));
    var first := Entries(PowerRules[0].pattern);
    assert AllEntries(PowerRules) == first + AllEntries(PowerRules[1..]);
    FirstMarkedConcat(first, AllEntries(PowerRules[1..]));
  }

  /** `PowerOn` moves `Off` to `Idle` and does nothing in `Idle`, under either grouping. */
  lemma PowerBehaviour(g: Grouping)
    ensures Evaluate(PowerRules, "Off", "PowerOn", g) == Some("Idle")
    ensures Evaluate(PowerRules, "Idle", "PowerOn", g) == None
  {
    assert IsFirstFiring(PowerRules, "Off", "PowerOn", g, 0);
    EvaluateFirstMatch(PowerRules, "Off", "PowerOn", g, 0);
    assert !Fires(PowerRules[0], "Idle", "PowerOn", g) && !Fires(PowerRules[1], "Idle", "PowerOn", g);
    EvaluateComplete(PowerRules, "Idle", "PowerOn", g);
  }

  /** Its default state is the marked `Idle`. */
  lemma DeviceInitial()
    ensures Build(DeviceRules).initial == "Idle"
  {
    var first := Entries(DeviceRules[0].pattern);
    assert first == [("Idle", true)];
    assert AllEntries(DeviceRules) == first + AllEntries(DeviceRules[1..]);
    FirstMarkedConcat(first, AllEntries(DeviceRules[1..]));
  }

  lemma DeviceStart(g: Grouping)
    ensures Evaluate(DeviceRules, "Idle", "Start", g) == Some("Running")
  {
    DeviceFires("Idle", "Start", g, 0);
  }

  /** `Idle | Running + Connect` fires from `Running`, its last state, under either grouping. */
  lemma DeviceConnect(g: Grouping)
    ensures Evaluate(DeviceRules, "Running", "Connect", g) == Some("Connected")
  {
    assert DeviceRules[2].pattern.entries[1].0 == "Running";
    DeviceFires("Running", "Connect", g, 2);
  }

  /** The internal `Connected + Tick = _` keeps the state, under either grouping. */
  lemma DeviceTick(g: Grouping)
    ensures Evaluate(DeviceRules, "Connected", "Tick", g) == Some("Connected")
  {
    assert !LeadingState(DeviceRules[2].pattern, "Connected");
    assert !StateCondition(DeviceRules[2].pattern, "Connected");
    DeviceFires("Connected", "Tick", g, 4);
  }

  /**
   * The wildcard `_ + Reset = Idle` fires from any state when the
   * condition is grouped as intended. As emitted, it is reached from every
   * state but `Idle`: from `Idle` the `Connect` rule's leading `Idle` test
   * returns `Connected` first.
   */
  lemma DeviceReset(current: string)
    ensures Evaluate(DeviceRules, current, "Reset", Intended) == Some("Idle")
    ensures current != "Idle" ==> Evaluate(DeviceRules, current, "Reset", AsEmitted) == Some("Idle")
    ensures Evaluate(DeviceRules, "Idle", "Reset", AsEmitted) == Some("Connected")
  {
    DeviceFires(current, "Reset", Intended, 5);
    if current != "Idle" {
      assert !LeadingState(DeviceRules[2].pattern, current);
      DeviceFires(current, "Reset", AsEmitted, 5);
    }
    assert DeviceRules[2].pattern.entries[0].0 == "Idle";
    assert LeadingState(DeviceRules[2].pattern, "Idle");
    LeadingStateCapturesAnyEvent(DeviceRules, "Idle", "Reset", 2);
  }

  /**
   * `Pause` is declared only for `Running`, so from `Idle` it does nothing
   * when grouped as intended; as emitted, the `Connect` rule's leading
   * `Idle` test returns `Connected`.
   */
  lemma DevicePauseFromIdle()
    ensures Evaluate(DeviceRules, "Idle", "Pause", Intended) == None
    ensures Evaluate(DeviceRules, "Idle", "Pause", AsEmitted) == Some("Connected")
  {
    forall j | 0 <= j < |DeviceRules|
      ensures !Fires(DeviceRules[j], "Idle", "Pause", Intended)
    {
    }
    EvaluateComplete(DeviceRules, "Idle", "Pause", Intended);
    assert DeviceRules[2].pattern.entries[0].0 == "Idle";
    assert LeadingState(DeviceRules[2].pattern, "Idle");
    LeadingStateCapturesAnyEvent(DeviceRules, "Idle", "Pause", 2);
  }

  /** Rule `i` is the first rule of the device machine that fires. */
  lemma DeviceFires(current: string, event: string, g: Grouping, i: int)
    requires 0 <= i < |DeviceRules| && Fires(DeviceRules[i], current, event, g)
    requires forall j :: 0 <= j < i ==> !Fires(DeviceRules[j], current, event, g)
    ensures Evaluate(DeviceRules, current, event, g) == Some(Resolve(DeviceRules[i].target, current))
  {
    EvaluateFirstMatch(DeviceRules, current, event, g, i);
  }

  /** The first rule that lists the event decides: a specific rule before a wildcard wins. */
  lemma SpecificBeforeWildcard(other: string, g: Grouping)
    requires other != "Alive"
    ensures Evaluate([Rule("Alive", ["Kill"], "Wounded"), Transition(Wildcard, ["Kill"], State("Dead"))], "Alive", "Kill", g)
         == Some("Wounded")
    ensures Evaluate([Rule("Alive", ["Kill"], "Wounded"), Transition(Wildcard, ["Kill"], State("Dead"))], other, "Kill", g)
         == Some("Dead")
  {
    var ts := [Rule("Alive", ["Kill"], "Wounded"), Transition(Wildcard, ["Kill"], State("Dead"))];
    assert IsFirstFiring(ts, "Alive", "Kill", g, 0);
    EvaluateFirstMatch(ts, "Alive", "Kill", g, 0);
    assert IsFirstFiring(ts, other, "Kill", g, 1);
    EvaluateFirstMatch(ts, other, "Kill", g, 1);
  }

  /** Two rules for the same pair are rejected with that pair. */
  lemma DuplicateRuleRejected()
    ensures Compile(PrintMachine(StateMachine(None, None, None, [Rule("Idle", ["Go"], "A"), Rule("Idle", ["Go"], "B")]), TestLayout))
         == Failure(DuplicateTransition("Idle", "Go"))
  {
    var ts := [Rule("Idle", ["Go"], "A"), Rule("Idle", ["Go"], "B")];
    assert WellFormedRules(ts) by {
      forall i | 0 <= i < |ts|
        ensures WellFormedRule(ts[i])
      {
      }
    }
    var keys := [("Idle", "Go"), ("Idle", "Go")];
    assert AllKeys(ts) == keys;
    assert IsFirstRepeat(keys, 1) by {
      assert keys[..1] == [("Idle", "Go")];
    }
    CompileReportsDuplicate(StateMachine(None, None, None, ts), TestLayout, "Idle", "Go");
  }
}
