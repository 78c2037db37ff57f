/**
 * The input tokens and the syntax tree of a `statemachine!` invocation
 * (src/lib.rs:21-43), and the errors the compiler can report.
 */
module Ast {
  import opened Wrappers

  /**
   * One token inside the clause list or inside a delimited group. `Ident` is
   * an identifier that is neither a keyword nor `_`; `Underscore` is `_`;
   * `Group` is a delimited group that no rule reads inside (a parenthesised
   * group, or any group nested in a group's body), so its contents are not
   * kept; `Other` stands for every other token the grammar never accepts
   * (keywords, literals, other punctuation).
   */
  datatype Token =
    | Ident(name: string)
    | Colon
    | Comma
    | Plus
    | Pipe
    | Star
    | Eq
    | Underscore
    | Group
    | Other

  /**
   * One token tree of the macro input at the clause level. A delimited group
   * is a single tree carrying its contents, so looking one or two trees ahead
   * steps over a whole group, as the parser's lookahead does.
   */
  datatype TokenTree =
    | Leaf(token: Token)
    | Braced(body: seq<Token>)
    | Bracketed(body: seq<Token>)

  /** A named source state together with its `*` (initial) mark. */
  type Entry = (string, bool)

  /** The source side of a rule: one state, several states, or `_`. */
  datatype StatePattern =
    | Single(state: string, initial: bool)
    | Multiple(entries: seq<Entry>)
    | Wildcard

  /** The target side of a rule: a named state, or "stay where you are". */
  datatype TargetState = State(name: string) | Internal

  /** One rule `pattern + e1 | e2 ... = target`. */
  datatype Transition = Transition(pattern: StatePattern, events: seq<string>, target: TargetState)

  /** The parsed macro input. */
  datatype StateMachine = StateMachine(
    name: Option<string>,
    deriveStates: Option<seq<string>>,
    deriveEvents: Option<seq<string>>,
    transitions: seq<Transition>)

  /** Every diagnostic the compiler can produce; message texts are not modelled. */
  datatype Error =
    | ExpectedIdent                                  // lookahead error at a clause position
    | ExpectedTransitions                            // no `transitions:` block found
    | UnknownClause(clause: string)                  // `foo:` with an unknown clause name
    | Malformed                                      // any other token-level syntax error
    | DuplicateTransition(state: string, event: string)

  /** The named states of a pattern with their marks, in written order. */
  function Entries(p: StatePattern): seq<Entry> {
    match p
    case Single(s, init) => [(s, init)]
    case Multiple(es) => es
    case Wildcard => []
  }

  /** The state names of a list of entries, in order. */
  function NamesOf(es: seq<Entry>): (r: seq<string>)
    ensures |r| == |es|
    ensures forall k :: 0 <= k < |es| ==> r[k] == es[k].0
  {
    if |es| == 0 then [] else [es[0].0] + NamesOf(es[1..])
  }

  /** The concrete states a pattern names; a wildcard names none. */
  function Names(p: StatePattern): seq<string> {
    NamesOf(Entries(p))
  }

  /** The shapes the parser produces: a `Multiple` holds at least two states. */
  predicate WellFormedPattern(p: StatePattern) {
    p.Multiple? ==> |p.entries| >= 2
  }

  /** A rule as the parser produces it: a well-formed pattern and at least one event. */
  predicate WellFormedRule(t: Transition) {
    WellFormedPattern(t.pattern) && |t.events| > 0
  }

  predicate WellFormedRules(ts: seq<Transition>) {
    forall i :: 0 <= i < |ts| ==> WellFormedRule(ts[i])
  }
}
