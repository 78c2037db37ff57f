/**
 * A printer from syntax trees back to tokens, the inverse partner of the
 * parser: printing a well-formed tree and parsing the tokens gives the tree
 * back. The round-trip lemmas pin down what each parse function accepts.
 */
module Printer {
  import opened Wrappers
  import opened Ast
  import opened Parser

  function PrintEntry(e: Entry): seq<Token> {
    (if e.1 then [Star] else []) + [Ident(e.0)]
  }

  /** `| e1 | e2 ...` for the entries after the first. */
  function PrintMoreEntries(es: seq<Entry>): seq<Token>
    decreases |es|
  {
    if |es| == 0 then [] else [Pipe] + PrintEntry(es[0]) + PrintMoreEntries(es[1..])
  }

  function PrintPattern(p: StatePattern): seq<Token> {
    match p
    case Wildcard => [Underscore]
    case Single(s, initial) => PrintEntry((s, initial))
    case Multiple(es) => if |es| == 0 then [] else PrintEntry(es[0]) + PrintMoreEntries(es[1..])
  }

  /** `| e1 | e2 ...` for the events after the first. */
  function PrintMoreEvents(events: seq<string>): seq<Token>
    decreases |events|
  {
    if |events| == 0 then [] else [Pipe, Ident(events[0])] + PrintMoreEvents(events[1..])
  }

  function PrintEvents(events: seq<string>): seq<Token> {
    if |events| == 0 then [] else [Ident(events[0])] + PrintMoreEvents(events[1..])
  }

  /** `= Target`, or `= _` for an internal target. */
  function PrintTarget(t: TargetState): seq<Token> {
    match t
    case State(x) => [Eq, Ident(x)]
    case Internal => [Eq, Underscore]
  }

  function PrintRule(t: Transition): seq<Token> {
    PrintPattern(t.pattern) + [Plus] + PrintEvents(t.events) + PrintTarget(t.target)
  }

  /** Rules separated by commas, with a trailing comma after the last one when `trailing`. */
  function PrintRules(ts: seq<Transition>, trailing: bool): seq<Token>
    decreases |ts|
  {
    if |ts| == 0 then []
    else if |ts| == 1 then PrintRule(ts[0]) + (if trailing then [Comma] else [])
    else PrintRule(ts[0]) + [Comma] + PrintRules(ts[1..], trailing)
  }

  /** Identifiers separated by commas, with a trailing comma after the last one when `trailing`. */
  function PrintIdents(xs: seq<string>, trailing: bool): seq<Token>
    decreases |xs|
  {
    if |xs| == 0 then []
    else if |xs| == 1 then [Ident(xs[0])] + (if trailing then [Comma] else [])
    else [Ident(xs[0]), Comma] + PrintIdents(xs[1..], trailing)
  }

  /**
   * The optional commas of a printout: after each clause other than
   * `transitions`, after the last derive in a list, and after the last rule.
   */
  datatype Layout = Layout(clauseCommas: bool, listComma: bool, ruleComma: bool)

  /** The clauses present in `m`, in the order name, derive_states, derive_events, transitions. */
  function PrintMachine(m: StateMachine, lay: Layout): seq<TokenTree> {
    (if m.name.Some? then NameClause(m.name.value, lay.clauseCommas) else [])
    + (if m.deriveStates.Some? then DeriveClause("derive_states", m.deriveStates.value, lay) else [])
    + (if m.deriveEvents.Some? then DeriveClause("derive_events", m.deriveEvents.value, lay) else [])
    + TransitionsClause(m.transitions, lay.ruleComma)
  }

  function OptionalComma(comma: bool): seq<TokenTree> {
    if comma then [Leaf(Comma)] else []
  }

  function NameClause(name: string, comma: bool): seq<TokenTree> {
    [Leaf(Ident("name")), Leaf(Colon), Leaf(Ident(name))] + OptionalComma(comma)
  }

  function DeriveClause(clause: string, derives: seq<string>, lay: Layout): seq<TokenTree> {
    [Leaf(Ident(clause)), Leaf(Colon), Bracketed(PrintIdents(derives, lay.listComma))] + OptionalComma(lay.clauseCommas)
  }

  function TransitionsClause(ts: seq<Transition>, trailing: bool): seq<TokenTree> {
    [Leaf(Ident("transitions")), Leaf(Colon), Braced(PrintRules(ts, trailing))]
  }

  // ---- Single parse steps ----

  lemma ReadEntry(e: Entry, after: seq<Token>)
    ensures ParseMark(PrintEntry(e) + after) == Parsed(e.1, [Ident(e.0)] + after)
    ensures ParseIdent([Ident(e.0)] + after) == Success(Parsed(e.0, after))
  {
    assert ([Ident(e.0)] + after)[1..] == after;
    if e.1 {
      assert PrintEntry(e) + after == [Star] + ([Ident(e.0)] + after);
      assert ([Star] + ([Ident(e.0)] + after))[1..] == [Ident(e.0)] + after;
    } else {
      assert PrintEntry(e) + after == [Ident(e.0)] + after;
    }
  }

  lemma MoreStatesStep(e: Entry, after: seq<Token>)
    ensures ParseMoreStates([Pipe] + PrintEntry(e) + after)
         == (var more := ParseMoreStates(after);
             if more.Failure? then Failure(more.error)
             else Success(Parsed([e] + more.value.value, more.value.rest)))
  {
    var ts := [Pipe] + PrintEntry(e) + after;
    assert ts[1..] == PrintEntry(e) + after;
    ReadEntry(e, after);
  }

  // ---- Round trips ----

  lemma {:induction false} MoreStatesRoundTrip(es: seq<Entry>, rest: seq<Token>)
    requires !Peek(rest, Pipe)
    ensures ParseMoreStates(PrintMoreEntries(es) + rest) == Success(Parsed(es, rest))
    decreases |es|
  {
    if |es| == 0 {
      assert PrintMoreEntries(es) + rest == rest;
    } else {
      var after := PrintMoreEntries(es[1..]) + rest;
      assert PrintMoreEntries(es) + rest == [Pipe] + PrintEntry(es[0]) + after;
      MoreStatesStep(es[0], after);
      MoreStatesRoundTrip(es[1..], rest);
      assert [es[0]] + es[1..] == es;
    }
  }

  /** `_`, `*?S`, and `*?S1 | *?S2 ...` parse back to the wildcard, single and multiple patterns. */
  lemma PatternRoundTrip(p: StatePattern, rest: seq<Token>)
    requires WellFormedPattern(p) && !Peek(rest, Pipe)
    ensures ParsePattern(PrintPattern(p) + rest) == Success(Parsed(p, rest))
  {
    match p
    case Wildcard =>
      assert ([Underscore] + rest)[1..] == rest;
    case Single(s, initial) =>
      ReadEntry((s, initial), rest);
      MoreStatesRoundTrip([], rest);
      assert PrintMoreEntries([]) + rest == rest;
    case Multiple(es) =>
      MultipleRoundTrip(es, rest);
  }

  /** `*?S1 | *?S2 ...` parses back to the multiple pattern it was printed from. */
  lemma MultipleRoundTrip(es: seq<Entry>, rest: seq<Token>)
    requires |es| >= 2 && !Peek(rest, Pipe)
    ensures ParsePattern(PrintPattern(Multiple(es)) + rest) == Success(Parsed(Multiple(es), rest))
  {
    var after := PrintMoreEntries(es[1..]) + rest;
    assert PrintPattern(Multiple(es)) + rest == PrintEntry(es[0]) + after;
    ReadEntry(es[0], after);
    MoreStatesRoundTrip(es[1..], rest);
    assert [(es[0].0, es[0].1)] + es[1..] == es;
  }

  lemma MoreEventsStep(e: string, after: seq<Token>)
    ensures ParseMoreEvents([Pipe, Ident(e)] + after)
         == (var more := ParseMoreEvents(after);
             if more.Failure? then Failure(more.error)
             else Success(Parsed([e] + more.value.value, more.value.rest)))
  {
    var ts := [Pipe, Ident(e)] + after;
    assert ts[1..] == [Ident(e)] + after;
    assert ([Ident(e)] + after)[1..] == after;
  }

  lemma {:induction false} MoreEventsRoundTrip(events: seq<string>, rest: seq<Token>)
    requires !Peek(rest, Pipe) || Peek2(rest, Star)
    ensures ParseMoreEvents(PrintMoreEvents(events) + rest) == Success(Parsed(events, rest))
    decreases |events|
  {
    if |events| == 0 {
      assert PrintMoreEvents(events) + rest == rest;
    } else {
      var after := PrintMoreEvents(events[1..]) + rest;
      assert PrintMoreEvents(events) + rest == [Pipe, Ident(events[0])] + after;
      MoreEventsStep(events[0], after);
      MoreEventsRoundTrip(events[1..], rest);
      assert [events[0]] + events[1..] == events;
    }
  }

  /** The printed parts of a rule, up to and including its events. */
  function PrintHead(p: StatePattern, events: seq<string>): seq<Token> {
    PrintPattern(p) + [Plus] + PrintEvents(events)
  }

  /** Reading a rule's pattern and events leaves exactly what follows them. */
  lemma HeadRoundTrip(p: StatePattern, events: seq<string>, rest: seq<Token>)
    requires WellFormedPattern(p) && |events| > 0
    requires !Peek(rest, Pipe) || Peek2(rest, Star)
    ensures ParsePattern(PrintHead(p, events) + rest)
         == Success(Parsed(p, [Plus] + PrintEvents(events) + rest))
    ensures ParseMoreEvents(PrintMoreEvents(events[1..]) + rest) == Success(Parsed(events[1..], rest))
  {
    var tail := [Plus] + PrintEvents(events) + rest;
    assert PrintHead(p, events) + rest == PrintPattern(p) + tail;
    PatternRoundTrip(p, tail);
    MoreEventsRoundTrip(events[1..], rest);
  }

  /** How `ParseTransition` combines the results of its four steps. */
  lemma TransitionParts(ts: seq<Token>, p: StatePattern, afterPattern: seq<Token>, first: string,
                        afterFirst: seq<Token>, more: seq<string>, afterMore: seq<Token>)
    requires ParsePattern(ts) == Success(Parsed(p, afterPattern))
    requires Peek(afterPattern, Plus)
    requires ParseIdent(afterPattern[1..]) == Success(Parsed(first, afterFirst))
    requires ParseMoreEvents(afterFirst) == Success(Parsed(more, afterMore))
    ensures ParseTransition(ts)
         == (var target := ParseTarget(afterMore);
             if target.Failure? then Failure(target.error)
             else Success(Parsed(Transition(p, [first] + more, target.value.value), target.value.rest)))
  {
  }

  /** The first printed event is read by `ParseIdent`, leaving the `| event` continuation. */
  lemma FirstEventStep(events: seq<string>, rest: seq<Token>)
    requires |events| > 0
    ensures ParseIdent(([Plus] + PrintEvents(events) + rest)[1..])
         == Success(Parsed(events[0], PrintMoreEvents(events[1..]) + rest))
    ensures [events[0]] + events[1..] == events
  {
    var afterFirst := PrintMoreEvents(events[1..]) + rest;
    assert ([Plus] + PrintEvents(events) + rest)[1..] == [Ident(events[0])] + afterFirst;
    assert ([Ident(events[0])] + afterFirst)[1..] == afterFirst;
  }

  /** Parsing a rule whose events are followed by `rest` (which does not continue the event list). */
  lemma RuleFromHead(p: StatePattern, events: seq<string>, rest: seq<Token>)
    requires WellFormedPattern(p) && |events| > 0
    requires !Peek(rest, Pipe) || Peek2(rest, Star)
    ensures ParseTransition(PrintHead(p, events) + rest)
         == (var target := ParseTarget(rest);
             if target.Failure? then Failure(target.error)
             else Success(Parsed(Transition(p, events, target.value.value), target.value.rest)))
  {
    HeadRoundTrip(p, events, rest);
    FirstEventStep(events, rest);
    TransitionParts(PrintHead(p, events) + rest, p, [Plus] + PrintEvents(events) + rest,
                    events[0], PrintMoreEvents(events[1..]) + rest, events[1..], rest);
  }

  /** Printing a well-formed rule and parsing it gives it back, whatever follows. */
  lemma RuleRoundTrip(t: Transition, rest: seq<Token>)
    requires WellFormedRule(t)
    ensures ParseTransition(PrintRule(t) + rest) == Success(Parsed(t, rest))
  {
    var tail := PrintTarget(t.target) + rest;
    assert PrintRule(t) + rest == PrintHead(t.pattern, t.events) + tail;
    TargetRoundTrip(t.target, rest);
    RuleFromHead(t.pattern, t.events, tail);
  }

  /** A printed target parses back; it starts with `=`, so it never continues an event list. */
  lemma TargetRoundTrip(target: TargetState, rest: seq<Token>)
    ensures Peek(PrintTarget(target) + rest, Eq)
    ensures ParseTarget(PrintTarget(target) + rest) == Success(Parsed(target, rest))
  {
    var tail := PrintTarget(target) + rest;
    assert tail[1..][1..] == rest;
  }

  /** Omitting `= target` gives an internal rule, exactly as `= _` does. */
  lemma OmittedTargetIsInternal(p: StatePattern, events: seq<string>, rest: seq<Token>)
    requires WellFormedPattern(p) && |events| > 0
    requires !Peek(rest, Pipe) && !Peek(rest, Eq)
    ensures ParseTransition(PrintHead(p, events) + rest) == Success(Parsed(Transition(p, events, Internal), rest))
    ensures ParseTransition(PrintHead(p, events) + [Eq, Underscore] + rest)
         == Success(Parsed(Transition(p, events, Internal), rest))
  {
    RuleFromHead(p, events, rest);
    var tail := PrintTarget(Internal) + rest;
    TargetRoundTrip(Internal, rest);
    RuleFromHead(p, events, tail);
    AppendAssoc3(PrintHead(p, events), [Eq, Underscore], rest);
  }

  lemma AppendAssoc3<T>(a: seq<T>, b: seq<T>, c: seq<T>)
    ensures a + b + c == a + (b + c)
  {
  }

  /** The event list stops before `| *`, which a rule list then rejects. */
  lemma EventListStopsBeforeMark(p: StatePattern, events: seq<string>, rest: seq<Token>)
    requires WellFormedPattern(p) && |events| > 0
    ensures ParseTransition(PrintHead(p, events) + [Pipe, Star] + rest)
         == Success(Parsed(Transition(p, events, Internal), [Pipe, Star] + rest))
    ensures ParseRuleList(PrintHead(p, events) + [Pipe, Star] + rest) == Failure(Malformed)
  {
    assert PrintHead(p, events) + [Pipe, Star] + rest == PrintHead(p, events) + ([Pipe, Star] + rest);
    RuleFromHead(p, events, [Pipe, Star] + rest);
  }

  /** A rule list whose first rule is followed by nothing. */
  lemma {:induction false} RuleListEnd(printed: seq<Token>, t: Transition)
    requires ParseTransition(printed) == Success(Parsed(t, []))
    ensures ParseRuleList(printed) == Success([t])
  {
  }

  /** A rule list whose first rule is followed by a trailing comma alone. */
  lemma {:induction false} RuleListTrailing(printed: seq<Token>, t: Transition)
    requires ParseTransition(printed) == Success(Parsed(t, [Comma]))
    ensures ParseRuleList(printed) == Success([t])
  {
    assert [Comma][1..] == [];
    assert [t] + [] == [t];
  }

  /** A rule list whose first rule is followed by a comma and a further list. */
  lemma {:induction false} RuleListMore(printed: seq<Token>, t: Transition, next: seq<Token>, more: seq<Transition>)
    requires ParseTransition(printed) == Success(Parsed(t, [Comma] + next))
    requires ParseRuleList(next) == Success(more)
    ensures ParseRuleList(printed) == Success([t] + more)
  {
    assert ([Comma] + next)[1..] == next;
  }

  lemma WellFormedRulesTail(ts: seq<Transition>)
    requires |ts| > 0 && WellFormedRules(ts)
    ensures WellFormedRule(ts[0]) && WellFormedRules(ts[1..])
  {
    assert forall i :: 0 <= i < |ts[1..]| ==> ts[1..][i] == ts[i + 1];
  }

  /** A list of one printed rule parses back, with or without a trailing comma. */
  lemma SingleRuleRoundTrip(t: Transition, trailing: bool)
    requires WellFormedRule(t)
    ensures ParseRuleList(PrintRules([t], trailing)) == Success([t])
  {
    var tail := if trailing then [Comma] else [];
    assert PrintRules([t], trailing) == PrintRule(t) + tail;
    RuleRoundTrip(t, tail);
    if trailing {
      RuleListTrailing(PrintRules([t], trailing), t);
    } else {
      RuleListEnd(PrintRules([t], trailing), t);
    }
  }

  lemma PrintRulesCons(ts: seq<Transition>, trailing: bool)
    requires |ts| > 1
    ensures PrintRules(ts, trailing) == PrintRule(ts[0]) + ([Comma] + PrintRules(ts[1..], trailing))
  {
  }

  /** A printed rule list of two or more rules parses back when its tail does. */
  lemma ConsRulesRoundTrip(ts: seq<Transition>, trailing: bool)
    requires |ts| > 1 && WellFormedRule(ts[0])
    requires ParseRuleList(PrintRules(ts[1..], trailing)) == Success(ts[1..])
    ensures ParseRuleList(PrintRules(ts, trailing)) == Success(ts)
  {
    var next := PrintRules(ts[1..], trailing);
    PrintRulesCons(ts, trailing);
    RuleRoundTrip(ts[0], [Comma] + next);
    RuleListMore(PrintRules(ts, trailing), ts[0], next, ts[1..]);
    assert [ts[0]] + ts[1..] == ts;
  }

  /** A printed rule list parses back, with or without a trailing comma. */
  lemma {:induction false} RulesRoundTrip(ts: seq<Transition>, trailing: bool)
    requires WellFormedRules(ts)
    ensures ParseRuleList(PrintRules(ts, trailing)) == Success(ts)
    decreases |ts|
  {
    if |ts| > 0 {
      WellFormedRulesTail(ts);
      if |ts| == 1 {
        assert [ts[0]] == ts;
        SingleRuleRoundTrip(ts[0], trailing);
      } else {
        RulesRoundTrip(ts[1..], trailing);
        ConsRulesRoundTrip(ts, trailing);
      }
    }
  }

  lemma {:induction false} IdentsRoundTrip(xs: seq<string>, trailing: bool)
    ensures ParseIdentList(PrintIdents(xs, trailing)) == Success(xs)
    decreases |xs|
  {
    var ts := PrintIdents(xs, trailing);
    if |xs| == 1 {
      assert ParseIdent(ts) == Success(Parsed(xs[0], ts[1..]));
      if trailing {
        assert ts[1..] == [Comma] && ts[1..][1..] == [];
        assert [xs[0]] + [] == xs;
      } else {
        assert ts[1..] == [];
        assert [xs[0]] == xs;
      }
    } else if |xs| > 1 {
      assert ts[1..] == [Comma] + PrintIdents(xs[1..], trailing);
      assert ts[1..][1..] == PrintIdents(xs[1..], trailing);
      IdentsRoundTrip(xs[1..], trailing);
      assert [xs[0]] + xs[1..] == xs;
    }
  }

  /** The transitions clause ends parsing: whatever follows its block is never read. */
  lemma TransitionsClauseEnds(ts: seq<Transition>, trailing: bool, rest: seq<TokenTree>,
                              name: Option<string>, ds: Option<seq<string>>, de: Option<seq<string>>)
    requires WellFormedRules(ts)
    ensures ParseClauses(TransitionsClause(ts, trailing) + rest, name, ds, de) == Success(StateMachine(name, ds, de, ts))
  {
    var tt := TransitionsClause(ts, trailing) + rest;
    assert tt[0] == Leaf(Ident("transitions")) && tt[1] == Leaf(Colon);
    assert tt[2..][0] == Braced(PrintRules(ts, trailing));
    RulesRoundTrip(ts, trailing);
  }

  /** After a clause's value, an optional comma is skipped and parsing resumes at `rest`. */
  lemma SkipOptionalComma(comma: bool, rest: seq<TokenTree>)
    requires comma || !PeekTree(rest, Comma)
    ensures SkipTreeComma(OptionalComma(comma) + rest) == rest
  {
    if comma {
      assert (OptionalComma(comma) + rest)[1..] == rest;
    } else {
      assert OptionalComma(comma) + rest == rest;
    }
  }

  /** `name: X` sets the name, with or without a comma after it, and parsing continues. */
  lemma NameClauseStep(n: string, comma: bool, rest: seq<TokenTree>,
                       name: Option<string>, ds: Option<seq<string>>, de: Option<seq<string>>)
    requires comma || !PeekTree(rest, Comma)
    ensures ParseClauses(NameClause(n, comma) + rest, name, ds, de) == ParseClauses(rest, Some(n), ds, de)
  {
    var ts := NameClause(n, comma) + rest;
    assert ts[2..][1..] == OptionalComma(comma) + rest;
    SkipOptionalComma(comma, rest);
  }

  /** `derive_states: [..]` or `derive_events: [..]` sets that list, with or without commas, and parsing continues. */
  lemma DeriveClauseStep(clause: string, xs: seq<string>, lay: Layout, rest: seq<TokenTree>,
                         name: Option<string>, ds: Option<seq<string>>, de: Option<seq<string>>)
    requires clause == "derive_states" || clause == "derive_events"
    requires lay.clauseCommas || !PeekTree(rest, Comma)
    ensures ParseClauses(DeriveClause(clause, xs, lay) + rest, name, ds, de)
         == if clause == "derive_states" then ParseClauses(rest, name, Some(xs), de)
            else ParseClauses(rest, name, ds, Some(xs))
  {
    IdentsRoundTrip(xs, lay.listComma);
    var ts := DeriveClause(clause, xs, lay) + rest;
    assert ts[2..][1..] == OptionalComma(lay.clauseCommas) + rest;
    SkipOptionalComma(lay.clauseCommas, rest);
  }

  /** An optional name clause sets the name, or leaves the value read so far. */
  lemma OptionalNameStep(n: Option<string>, comma: bool, rest: seq<TokenTree>,
                         name: Option<string>, ds: Option<seq<string>>, de: Option<seq<string>>)
    requires PeekTreeIdent(rest)
    ensures ParseClauses((if n.Some? then NameClause(n.value, comma) else []) + rest, name, ds, de)
         == ParseClauses(rest, if n.Some? then n else name, ds, de)
  {
    if n.Some? {
      NameClauseStep(n.value, comma, rest, name, ds, de);
    } else {
      assert [] + rest == rest;
    }
  }

  /** An optional derive_states clause sets the state derives, or leaves the value read so far. */
  lemma OptionalStatesStep(xs: Option<seq<string>>, lay: Layout, rest: seq<TokenTree>,
                           name: Option<string>, ds: Option<seq<string>>, de: Option<seq<string>>)
    requires PeekTreeIdent(rest)
    ensures ParseClauses((if xs.Some? then DeriveClause("derive_states", xs.value, lay) else []) + rest, name, ds, de)
         == ParseClauses(rest, name, if xs.Some? then xs else ds, de)
  {
    if xs.Some? {
      DeriveClauseStep("derive_states", xs.value, lay, rest, name, ds, de);
    } else {
      assert [] + rest == rest;
    }
  }

  /** An optional derive_events clause sets the event derives, or leaves the value read so far. */
  lemma OptionalEventsStep(xs: Option<seq<string>>, lay: Layout, rest: seq<TokenTree>,
                           name: Option<string>, ds: Option<seq<string>>, de: Option<seq<string>>)
    requires PeekTreeIdent(rest)
    ensures ParseClauses((if xs.Some? then DeriveClause("derive_events", xs.value, lay) else []) + rest, name, ds, de)
         == ParseClauses(rest, name, ds, if xs.Some? then xs else de)
  {
    if xs.Some? {
      DeriveClauseStep("derive_events", xs.value, lay, rest, name, ds, de);
    } else {
      assert [] + rest == rest;
    }
  }

  /** A clause, or nothing, in front of a clause still starts with a clause name. */
  lemma ClauseInFront(c: seq<TokenTree>, rest: seq<TokenTree>)
    requires |c| == 0 || PeekTreeIdent(c)
    requires PeekTreeIdent(rest)
    ensures PeekTreeIdent(c + rest)
  {
    if |c| == 0 {
      assert c + rest == rest;
    } else {
      assert (c + rest)[0] == c[0];
    }
  }

  /** The optional clauses of a printout, each empty when the machine lacks it. */
  function NamePart(m: StateMachine, lay: Layout): seq<TokenTree> {
    if m.name.Some? then NameClause(m.name.value, lay.clauseCommas) else []
  }

  function StatesPart(m: StateMachine, lay: Layout): seq<TokenTree> {
    if m.deriveStates.Some? then DeriveClause("derive_states", m.deriveStates.value, lay) else []
  }

  function EventsPart(m: StateMachine, lay: Layout): seq<TokenTree> {
    if m.deriveEvents.Some? then DeriveClause("derive_events", m.deriveEvents.value, lay) else []
  }

  /** A printout followed by more trees, regrouped clause by clause. */
  lemma PrintMachineParts(m: StateMachine, lay: Layout, rest: seq<TokenTree>)
    ensures PrintMachine(m, lay) + rest
         == NamePart(m, lay) + (StatesPart(m, lay) + (EventsPart(m, lay) + (TransitionsClause(m.transitions, lay.ruleComma) + rest)))
  {
    var a, b, c, d := NamePart(m, lay), StatesPart(m, lay), EventsPart(m, lay), TransitionsClause(m.transitions, lay.ruleComma);
    AppendAssoc4(a, b, c, d, rest);
  }

  lemma AppendAssoc4<T>(a: seq<T>, b: seq<T>, c: seq<T>, d: seq<T>, e: seq<T>)
    ensures a + b + c + d + e == a + (b + (c + (d + e)))
  {
  }

  /** The derive_events clause, if any, and the transitions clause parse back. */
  lemma EventsOnwardRoundTrip(m: StateMachine, lay: Layout, rest: seq<TokenTree>,
                              name: Option<string>, ds: Option<seq<string>>, de: Option<seq<string>>)
    requires WellFormedRules(m.transitions)
    ensures PeekTreeIdent(EventsPart(m, lay) + (TransitionsClause(m.transitions, lay.ruleComma) + rest))
    ensures ParseClauses(EventsPart(m, lay) + (TransitionsClause(m.transitions, lay.ruleComma) + rest), name, ds, de)
         == Success(StateMachine(name, ds, if m.deriveEvents.Some? then m.deriveEvents else de, m.transitions))
  {
    var last := TransitionsClause(m.transitions, lay.ruleComma) + rest;
    assert last[0] == Leaf(Ident("transitions"));
    ClauseInFront(EventsPart(m, lay), last);
    OptionalEventsStep(m.deriveEvents, lay, last, name, ds, de);
    TransitionsClauseEnds(m.transitions, lay.ruleComma, rest, name, ds, if m.deriveEvents.Some? then m.deriveEvents else de);
  }

  /** The derive clauses, if any, and the transitions clause parse back. */
  lemma StatesOnwardRoundTrip(m: StateMachine, lay: Layout, rest: seq<TokenTree>,
                              name: Option<string>, ds: Option<seq<string>>, de: Option<seq<string>>)
    requires WellFormedRules(m.transitions)
    ensures PeekTreeIdent(StatesPart(m, lay) + (EventsPart(m, lay) + (TransitionsClause(m.transitions, lay.ruleComma) + rest)))
    ensures ParseClauses(StatesPart(m, lay) + (EventsPart(m, lay) + (TransitionsClause(m.transitions, lay.ruleComma) + rest)), name, ds, de)
         == Success(StateMachine(name, if m.deriveStates.Some? then m.deriveStates else ds,
                                 if m.deriveEvents.Some? then m.deriveEvents else de, m.transitions))
  {
    var afterStates := EventsPart(m, lay) + (TransitionsClause(m.transitions, lay.ruleComma) + rest);
    EventsOnwardRoundTrip(m, lay, rest, name, if m.deriveStates.Some? then m.deriveStates else ds, de);
    ClauseInFront(StatesPart(m, lay), afterStates);
    OptionalStatesStep(m.deriveStates, lay, afterStates, name, ds, de);
  }

  /**
   * Printing a machine in any layout and parsing it back gives the machine,
   * whatever follows; a clause the printout lacks keeps the value read
   * before it.
   */
  lemma ClausesRoundTrip(m: StateMachine, lay: Layout, rest: seq<TokenTree>,
                         name: Option<string>, ds: Option<seq<string>>, de: Option<seq<string>>)
    requires WellFormedRules(m.transitions)
    ensures ParseClauses(PrintMachine(m, lay) + rest, name, ds, de)
         == Success(StateMachine(
              if m.name.Some? then m.name else name,
              if m.deriveStates.Some? then m.deriveStates else ds,
              if m.deriveEvents.Some? then m.deriveEvents else de,
              m.transitions))
  {
    var afterName := StatesPart(m, lay) + (EventsPart(m, lay) + (TransitionsClause(m.transitions, lay.ruleComma) + rest));
    PrintMachineParts(m, lay, rest);
    StatesOnwardRoundTrip(m, lay, rest, if m.name.Some? then m.name else name, ds, de);
    OptionalNameStep(m.name, lay.clauseCommas, afterName, name, ds, de);
  }

  /** Printing a machine in any layout and parsing it back gives the machine; trailing token trees are ignored. */
  lemma MachineRoundTrip(m: StateMachine, lay: Layout, rest: seq<TokenTree>)
    requires WellFormedRules(m.transitions)
    ensures ParseMachine(PrintMachine(m, lay) + rest) == Success(m)
  {
    ClausesRoundTrip(m, lay, rest, None, None, None);
  }

  /** A printed machine starts with a clause name. */
  lemma PrintMachineStartsWithClause(m: StateMachine, lay: Layout)
    ensures PeekTreeIdent(PrintMachine(m, lay))
  {
    var last := TransitionsClause(m.transitions, lay.ruleComma);
    PrintMachineParts(m, lay, []);
    assert last + [] == last;
    ClauseInFront(EventsPart(m, lay), last);
    ClauseInFront(StatesPart(m, lay), EventsPart(m, lay) + last);
    ClauseInFront(NamePart(m, lay), StatesPart(m, lay) + (EventsPart(m, lay) + last));
  }

  /** A repeated clause overwrites the value of the earlier one. */
  lemma RepeatedClauseOverwrites(m: StateMachine, lay: Layout, earlier: string, earlierDerives: seq<string>)
    requires WellFormedRules(m.transitions) && m.name.Some? && m.deriveStates.Some?
    ensures ParseMachine(NameClause(earlier, lay.clauseCommas) + PrintMachine(m, lay)) == Success(m)
    ensures ParseMachine(DeriveClause("derive_states", earlierDerives, lay) + PrintMachine(m, lay)) == Success(m)
  {
    var ts := PrintMachine(m, lay);
    assert ts + [] == ts;
    PrintMachineStartsWithClause(m, lay);
    NameClauseStep(earlier, lay.clauseCommas, ts, None, None, None);
    ClausesRoundTrip(m, lay, [], Some(earlier), None, None);
    DeriveClauseStep("derive_states", earlierDerives, lay, ts, None, None, None);
    ClausesRoundTrip(m, lay, [], None, Some(earlierDerives), None);
  }

  /** Names accepted before `transitions`. */
  predicate IsClauseName(id: string) {
    id == "name" || id == "derive_states" || id == "derive_events" || id == "transitions"
  }

  /** The three structural errors of the clause loop. */
  lemma ClauseErrors(ts: seq<TokenTree>, id: string, rest: seq<TokenTree>)
    ensures ParseMachine([]) == Failure(ExpectedIdent)
    ensures !IsClauseName(id) ==> ParseMachine([Leaf(Ident(id)), Leaf(Colon)] + rest) == Failure(UnknownClause(id))
    ensures !PeekTree(rest, Colon) ==> ParseMachine([Leaf(Ident(id))] + rest) == Failure(ExpectedTransitions)
    ensures |ts| > 0 && !(ts[0].Leaf? && ts[0].token.Ident?) ==> ParseMachine(ts) == Failure(ExpectedIdent)
  {
    assert ([Leaf(Ident(id))] + rest)[1..] == rest;
  }
}
