/**
 * The recursive-descent parser of the macro input (the `Parse` impls of
 * src/lib.rs:45-172). Each parse function reads a prefix of its tokens and
 * returns the value read with the tokens left over, or an error.
 */
module Parser {
  import opened Wrappers
  import opened Ast

  /** A successful parse: the value read and the tokens left after it. */
  datatype Parsed<T> = Parsed(value: T, rest: seq<Token>)

  type ParseResult<T> = Result<Parsed<T>, Error>

  /** Reading never adds tokens: `rest` is no longer than `ts`. */
  predicate Consumes(rest: seq<Token>, ts: seq<Token>) {
    |rest| <= |ts|
  }

  /** Reading took at least one token from `ts`. */
  predicate Advances(rest: seq<Token>, ts: seq<Token>) {
    |rest| < |ts|
  }

  predicate Peek(ts: seq<Token>, t: Token) {
    |ts| > 0 && ts[0] == t
  }

  /** Looks at the token after the next one. */
  predicate Peek2(ts: seq<Token>, t: Token) {
    |ts| > 1 && ts[1] == t
  }

  predicate PeekIdent(ts: seq<Token>) {
    |ts| > 0 && ts[0].Ident?
  }

  /** Reads one identifier. */
  function ParseIdent(ts: seq<Token>): (r: ParseResult<string>)
    ensures r.Success? <==> PeekIdent(ts)
    ensures r.Success? ==> r.value.value == ts[0].name && r.value.rest == ts[1..]
    ensures r.Failure? ==> r.error == Malformed
  {
    if PeekIdent(ts) then Success(Parsed(ts[0].name, ts[1..])) else Failure(Malformed)
  }

  /** Reads an optional leading `*` and tells whether it was there. */
  function ParseMark(ts: seq<Token>): (r: Parsed<bool>)
    ensures r.value <==> Peek(ts, Star)
    ensures Consumes(r.rest, ts) && |r.rest| == |ts| - (if r.value then 1 else 0)
  {
    if Peek(ts, Star) then Parsed(true, ts[1..]) else Parsed(false, ts)
  }

  /** Reads `('|' '*'? Ident)*`: the further states of a source pattern (src/lib.rs:154-161). */
  function ParseMoreStates(ts: seq<Token>): (r: ParseResult<seq<Entry>>)
    ensures r.Success? ==> Consumes(r.value.rest, ts)
    ensures r.Success? ==> !Peek(r.value.rest, Pipe)
    decreases |ts|
  {
    if Peek(ts, Pipe) then
      var mark := ParseMark(ts[1..]);
      var s :- ParseIdent(mark.rest);
      var more :- ParseMoreStates(s.rest);
      Success(Parsed([(s.value, mark.value)] + more.value, more.rest))
    else
      Success(Parsed([], ts))
  }

  /** Reads a source pattern: `_`, or one or more `'*'? Ident` separated by `|` (src/lib.rs:138-172). */
  function ParsePattern(ts: seq<Token>): (r: ParseResult<StatePattern>)
    ensures r.Success? ==> Advances(r.value.rest, ts)
    ensures r.Success? ==> WellFormedPattern(r.value.value)
  {
    if Peek(ts, Underscore) then
      Success(Parsed(Wildcard, ts[1..]))
    else
      var mark := ParseMark(ts);
      var first :- ParseIdent(mark.rest);
      var more :- ParseMoreStates(first.rest);
      if |more.value| == 0 then
        Success(Parsed(Single(first.value, mark.value), more.rest))
      else
        Success(Parsed(Multiple([(first.value, mark.value)] + more.value), more.rest))
  }

  /** Reads `('|' Ident)*`, stopping before `| *` (src/lib.rs:113-116). */
  function ParseMoreEvents(ts: seq<Token>): (r: ParseResult<seq<string>>)
    ensures r.Success? ==> Consumes(r.value.rest, ts)
    ensures r.Success? ==> !Peek(r.value.rest, Pipe) || Peek2(r.value.rest, Star)
    decreases |ts|
  {
    if Peek(ts, Pipe) && !Peek2(ts, Star) then
      var e :- ParseIdent(ts[1..]);
      var more :- ParseMoreEvents(e.rest);
      Success(Parsed([e.value] + more.value, more.rest))
    else
      Success(Parsed([], ts))
  }

  /** Reads the optional `= _` or `= Ident`; a missing target is internal (src/lib.rs:118-128). */
  function ParseTarget(ts: seq<Token>): (r: ParseResult<TargetState>)
    ensures r.Success? ==> Consumes(r.value.rest, ts)
    ensures !Peek(ts, Eq) ==> r == Success(Parsed(Internal, ts))
  {
    if Peek(ts, Eq) then
      if Peek(ts[1..], Underscore) then
        Success(Parsed(Internal, ts[2..]))
      else
        var target :- ParseIdent(ts[1..]);
        Success(Parsed(State(target.value), target.rest))
    else
      Success(Parsed(Internal, ts))
  }

  /** Reads one rule `pattern + event ('|' event)* ('=' target)?` (src/lib.rs:105-136). */
  function ParseTransition(ts: seq<Token>): (r: ParseResult<Transition>)
    ensures r.Success? ==> Advances(r.value.rest, ts)
    ensures r.Success? ==> WellFormedRule(r.value.value)
  {
    var pattern :- ParsePattern(ts);
    if !Peek(pattern.rest, Plus) then Failure(Malformed)
    else
      var first :- ParseIdent(pattern.rest[1..]);
      var more :- ParseMoreEvents(first.rest);
      var target :- ParseTarget(more.rest);
      Success(Parsed(Transition(pattern.value, [first.value] + more.value, target.value), target.rest))
  }

  /**
   * Reads a whole comma-separated rule list with an optional trailing comma,
   * consuming all of `ts` (the contents of the `transitions` braces).
   */
  function ParseRuleList(ts: seq<Token>): (r: Result<seq<Transition>, Error>)
    ensures r.Success? ==> WellFormedRules(r.value)
    decreases |ts|
  {
    if |ts| == 0 then Success([])
    else
      var t :- ParseTransition(ts);
      if |t.rest| == 0 then Success([t.value])
      else if t.rest[0] != Comma then Failure(Malformed)
      else
        var more :- ParseRuleList(t.rest[1..]);
        Success([t.value] + more)
  }

  /**
   * Reads a whole comma-separated identifier list with an optional trailing
   * comma, consuming all of `ts` (the contents of a derive list's brackets).
   */
  function ParseIdentList(ts: seq<Token>): (r: Result<seq<string>, Error>)
    ensures r.Success? ==> |r.value| <= |ts|
    decreases |ts|
  {
    if |ts| == 0 then Success([])
    else
      var id :- ParseIdent(ts);
      if |id.rest| == 0 then Success([id.value])
      else if id.rest[0] != Comma then Failure(Malformed)
      else
        var more :- ParseIdentList(id.rest[1..]);
        Success([id.value] + more)
  }

  // ---- The clause level: token trees ----

  predicate PeekTree(ts: seq<TokenTree>, t: Token) {
    |ts| > 0 && ts[0] == Leaf(t)
  }

  predicate Peek2Tree(ts: seq<TokenTree>, t: Token) {
    |ts| > 1 && ts[1] == Leaf(t)
  }

  predicate PeekTreeIdent(ts: seq<TokenTree>) {
    |ts| > 0 && ts[0].Leaf? && ts[0].token.Ident?
  }

  /** Drops one leading `,` if there is one. */
  function SkipTreeComma(ts: seq<TokenTree>): (r: seq<TokenTree>)
    ensures |r| <= |ts|
  {
    if PeekTree(ts, Comma) then ts[1..] else ts
  }

  /** Whether the clause loop of src/lib.rs:51 runs another round. */
  predicate AtClause(ts: seq<TokenTree>) {
    !PeekTreeIdent(ts) || Peek2Tree(ts, Colon)
  }

  /**
   * The clause loop (src/lib.rs:47-101), with the clause values read so far as
   * parameters. `transitions:` ends parsing at once; the other clauses record
   * their value (replacing an earlier one) and continue.
   */
  function ParseClauses(ts: seq<TokenTree>, name: Option<string>, deriveStates: Option<seq<string>>,
                        deriveEvents: Option<seq<string>>): (r: Result<StateMachine, Error>)
    ensures !AtClause(ts) ==> r == Failure(ExpectedTransitions)
    ensures !PeekTreeIdent(ts) ==> r == Failure(ExpectedIdent)
    ensures r.Success? ==> WellFormedRules(r.value.transitions)
    decreases |ts|
  {
    if !AtClause(ts) then Failure(ExpectedTransitions)
    else if !PeekTreeIdent(ts) then Failure(ExpectedIdent)
    else
      var clause := ts[0].token.name;
      var args := ts[2..];
      if clause == "name" then
        if !PeekTreeIdent(args) then Failure(Malformed)
        else ParseClauses(SkipTreeComma(args[1..]), Some(args[0].token.name), deriveStates, deriveEvents)
      else if clause == "derive_states" then
        if !(|args| > 0 && args[0].Bracketed?) then Failure(Malformed)
        else
          var list :- ParseIdentList(args[0].body);
          ParseClauses(SkipTreeComma(args[1..]), name, Some(list), deriveEvents)
      else if clause == "derive_events" then
        if !(|args| > 0 && args[0].Bracketed?) then Failure(Malformed)
        else
          var list :- ParseIdentList(args[0].body);
          ParseClauses(SkipTreeComma(args[1..]), name, deriveStates, Some(list))
      else if clause == "transitions" then
        if !(|args| > 0 && args[0].Braced?) then Failure(Malformed)
        else
          var rules :- ParseRuleList(args[0].body);
          Success(StateMachine(name, deriveStates, deriveEvents, rules))
      else
        Failure(UnknownClause(clause))
  }

  /** Parses a whole macro input; token trees after the `transitions` block are ignored. */
  function ParseMachine(ts: seq<TokenTree>): (r: Result<StateMachine, Error>)
    ensures r.Success? ==> WellFormedRules(r.value.transitions)
    ensures |ts| == 0 ==> r == Failure(ExpectedIdent)
  {
    ParseClauses(ts, None, None, None)
  }
}
