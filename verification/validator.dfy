/**
 * The duplicate-transition check (src/lib.rs:174-208): every (state, event)
 * pair that a non-wildcard rule covers may be declared only once.
 */
module Validator {
  import opened Wrappers
  import opened Ast
  import opened Seqs

  /** A (source state, event) pair. */
  type Key = (string, string)

  /** The pairs of one state with each event, in event order. */
  function PairWith(s: string, events: seq<string>): (r: seq<Key>)
    ensures |r| == |events|
    ensures forall k :: 0 <= k < |events| ==> r[k] == (s, events[k])
  {
    if |events| == 0 then [] else [(s, events[0])] + PairWith(s, events[1..])
  }

  /** All pairs, state by state and within a state event by event (the loops of src/lib.rs:188-204). */
  function Pairs(states: seq<string>, events: seq<string>): seq<Key>
    decreases |states|
  {
    if |states| == 0 then [] else PairWith(states[0], events) + Pairs(states[1..], events)
  }

  /** The pairs one rule declares; a wildcard rule declares none (src/lib.rs:185). */
  function RuleKeys(t: Transition): seq<Key> {
    if t.pattern.Wildcard? then [] else Pairs(Names(t.pattern), t.events)
  }

  /** The pairs of all rules, in the order the check visits them. */
  function AllKeys(ts: seq<Transition>): seq<Key>
    decreases |ts|
  {
    if |ts| == 0 then [] else RuleKeys(ts[0]) + AllKeys(ts[1..])
  }

  function Elems<T>(xs: seq<T>): set<T> {
    set x | x in xs
  }

  /** Inserts the keys one by one into `seen`; the first key already present is returned. */
  function FirstRepeat(keys: seq<Key>, seen: set<Key>): Option<Key>
    decreases |keys|
  {
    if |keys| == 0 then None
    else if keys[0] in seen then Some(keys[0])
    else FirstRepeat(keys[1..], seen + {keys[0]})
  }

  /** The duplicate check: passes, or names the first pair seen twice. */
  function Validate(ts: seq<Transition>): Outcome<Error> {
    match FirstRepeat(AllKeys(ts), {})
    case None => Pass
    case Some(k) => Fail(DuplicateTransition(k.0, k.1))
  }

  /** Index `j` holds the first key that occurs earlier too. */
  predicate IsFirstRepeat(keys: seq<Key>, j: int) {
    0 <= j < |keys| && keys[j] in keys[..j] && NoDup(keys[..j])
  }

  // ---- Membership and concatenation ----

  lemma {:induction false} PairsMembers(states: seq<string>, events: seq<string>)
    ensures forall k :: k in Pairs(states, events) <==> k.0 in states && k.1 in events
    decreases |states|
  {
    if |states| > 0 {
      PairsMembers(states[1..], events);
      assert forall s :: s in states <==> s == states[0] || s in states[1..];
    }
  }

  /** A non-wildcard rule declares exactly the pairs of its states with its events. */
  lemma RuleKeysMembers(t: Transition)
    ensures forall k :: k in RuleKeys(t) <==> !t.pattern.Wildcard? && k.0 in Names(t.pattern) && k.1 in t.events
  {
    PairsMembers(Names(t.pattern), t.events);
  }

  lemma {:induction false} AllKeysConcat(xs: seq<Transition>, ys: seq<Transition>)
    ensures AllKeys(xs + ys) == AllKeys(xs) + AllKeys(ys)
    decreases |xs|
  {
    if |xs| == 0 {
      assert xs + ys == ys;
    } else {
      var zs := xs + ys;
      assert zs[0] == xs[0];
      assert zs[1..] == xs[1..] + ys;
      AllKeysConcat(xs[1..], ys);
      AppendAssoc(RuleKeys(xs[0]), AllKeys(xs[1..]), AllKeys(ys));
    }
  }

  lemma {:induction false} AllKeysContains(ts: seq<Transition>, i: int)
    requires 0 <= i < |ts|
    ensures forall k :: k in RuleKeys(ts[i]) ==> k in AllKeys(ts)
    decreases |ts|
  {
    if i > 0 {
      AllKeysContains(ts[1..], i - 1);
    }
  }

  /** A value in both halves is a duplicate of the whole. */
  lemma SharedBreaksNoDup<T>(xs: seq<T>, ys: seq<T>, x: T)
    requires x in xs && x in ys
    ensures !NoDup(xs + ys)
  {
    var a :| 0 <= a < |xs| && xs[a] == x;
    var b :| 0 <= b < |ys| && ys[b] == x;
    assert (xs + ys)[a] == (xs + ys)[|xs| + b];
  }

  // ---- What the check decides ----

  /** With `seen` holding the keys already visited, the scan returns nothing exactly when no key repeats. */
  lemma {:induction false} FirstRepeatNone(visited: seq<Key>, keys: seq<Key>)
    requires NoDup(visited)
    ensures FirstRepeat(keys, Elems(visited)).None? <==> NoDup(visited + keys)
    decreases |keys|
  {
    if |keys| > 0 {
      var x := keys[0];
      if x in Elems(visited) {
        SharedBreaksNoDup(visited, keys, x);
      } else {
        var v' := visited + [x];
        NoDupConcat(visited, [x]);
        assert Elems(v') == Elems(visited) + {x};
        assert v' + keys[1..] == visited + keys;
        FirstRepeatNone(v', keys[1..]);
      }
    }
  }

  /** With `seen` holding the keys already visited, a reported key sits at the first repeat. */
  lemma {:induction false} FirstRepeatSome(visited: seq<Key>, keys: seq<Key>)
    requires NoDup(visited)
    requires FirstRepeat(keys, Elems(visited)).Some?
    ensures exists j :: IsFirstRepeat(visited + keys, j) && (visited + keys)[j] == FirstRepeat(keys, Elems(visited)).value
    decreases |keys|
  {
    var x := keys[0];
    if x in Elems(visited) {
      assert (visited + keys)[..|visited|] == visited;
      assert IsFirstRepeat(visited + keys, |visited|);
    } else {
      var v' := visited + [x];
      NoDupConcat(visited, [x]);
      assert Elems(v') == Elems(visited) + {x};
      assert v' + keys[1..] == visited + keys;
      FirstRepeatSome(v', keys[1..]);
    }
  }

  /** There is at most one first repeat. */
  lemma FirstRepeatUnique(keys: seq<Key>, j: int)
    requires IsFirstRepeat(keys, j)
    ensures forall j' :: IsFirstRepeat(keys, j') ==> j' == j
  {
    forall j' | j < j' < |keys|
      ensures !NoDup(keys[..j'])
    {
      var i :| 0 <= i < j && keys[i] == keys[j];
      assert keys[..j'][i] == keys[..j'][j];
    }
    forall j' | 0 <= j' < j
      ensures keys[j'] !in keys[..j']
    {
      forall i | 0 <= i < j'
        ensures keys[i] != keys[j']
      {
        assert keys[..j][i] == keys[i] && keys[..j][j'] == keys[j'];
      }
    }
  }

  /** The check passes exactly when no pair is declared twice by the non-wildcard rules. */
  lemma ValidatePassesIffDistinct(ts: seq<Transition>)
    ensures Validate(ts).Pass? <==> NoDup(AllKeys(ts))
  {
    assert Elems<Key>([]) == {};
    FirstRepeatNone([], AllKeys(ts));
    assert [] + AllKeys(ts) == AllKeys(ts);
  }

  /** From an empty set, the scan reports exactly the key at the first repeat. */
  lemma FirstRepeatReports(keys: seq<Key>, k: Key)
    ensures FirstRepeat(keys, {}) == Some(k) <==> exists j :: IsFirstRepeat(keys, j) && keys[j] == k
  {
    assert Elems<Key>([]) == {};
    assert [] + keys == keys;
    FirstRepeatNone([], keys);
    if FirstRepeat(keys, {}).Some? {
      FirstRepeatSome([], keys);
      var j :| IsFirstRepeat(keys, j) && keys[j] == FirstRepeat(keys, {}).value;
      FirstRepeatUnique(keys, j);
    } else {
      forall j | 0 <= j < |keys|
        ensures keys[j] !in keys[..j]
      {
        forall i | 0 <= i < j
          ensures keys[i] != keys[j]
        {
        }
      }
    }
  }

  /** The check fails with exactly the pair at the first repeat of the visit order. */
  lemma ValidateReportsFirstRepeat(ts: seq<Transition>, s: string, e: string)
    ensures Validate(ts) == Fail(DuplicateTransition(s, e))
        <==> exists j :: IsFirstRepeat(AllKeys(ts), j) && AllKeys(ts)[j] == (s, e)
  {
    var keys := AllKeys(ts);
    FirstRepeatReports(keys, (s, e));
    var r := FirstRepeat(keys, {});
    assert Validate(ts) == Fail(DuplicateTransition(s, e)) <==> r == Some((s, e)) by {
      if r.Some? {
        assert r.value == (s, e) <==> r.value.0 == s && r.value.1 == e;
      }
    }
    if Validate(ts) != Fail(DuplicateTransition(s, e)) {
      forall j | 0 <= j < |keys| && keys[j] == (s, e)
        ensures !IsFirstRepeat(keys, j)
      {
      }
    } else {
      var j :| IsFirstRepeat(keys, j) && keys[j] == (s, e);
      assert IsFirstRepeat(AllKeys(ts), j) && AllKeys(ts)[j] == (s, e);
    }
  }

  /** Two rules, neither a wildcard, that both cover `(s, e)` make the check fail. */
  lemma DuplicateRejected(ts: seq<Transition>, i: int, j: int, s: string, e: string)
    requires 0 <= i < j < |ts|
    requires !ts[i].pattern.Wildcard? && s in Names(ts[i].pattern) && e in ts[i].events
    requires !ts[j].pattern.Wildcard? && s in Names(ts[j].pattern) && e in ts[j].events
    ensures Validate(ts).Fail?
  {
    var front, back := ts[..j], ts[j..];
    assert ts == front + back;
    assert front[i] == ts[i] && back[0] == ts[j];
    AllKeysConcat(front, back);
    RuleKeysMembers(ts[i]);
    RuleKeysMembers(ts[j]);
    AllKeysContains(front, i);
    AllKeysContains(back, 0);
    SharedBreaksNoDup(AllKeys(front), AllKeys(back), (s, e));
    ValidatePassesIffDistinct(ts);
  }

  /** In a duplicate-free visit order, a rule's pairs never recur in later rules. */
  lemma LaterRulesDisjoint(front: seq<Transition>, back: seq<Transition>, i: int)
    requires NoDup(AllKeys(front + back)) && 0 <= i < |front|
    ensures forall k :: k in RuleKeys(front[i]) ==> k !in AllKeys(back)
  {
    AllKeysConcat(front, back);
    NoDupSplit(AllKeys(front), AllKeys(back));
    AllKeysContains(front, i);
  }

  /** After a passing check, a pair covered by one non-wildcard rule is covered by no earlier one. */
  lemma PassMeansUnique(ts: seq<Transition>, i: int, j: int, s: string, e: string)
    requires Validate(ts).Pass?
    requires 0 <= i < j < |ts|
    requires !ts[j].pattern.Wildcard? && s in Names(ts[j].pattern) && e in ts[j].events
    ensures !(!ts[i].pattern.Wildcard? && s in Names(ts[i].pattern) && e in ts[i].events)
  {
    var front, back := ts[..j], ts[j..];
    assert ts == front + back;
    ValidatePassesIffDistinct(ts);
    LaterRulesDisjoint(front, back, i);
    assert front[i] == ts[i] && back[0] == ts[j];
    RuleKeysMembers(ts[i]);
    RuleKeysMembers(ts[j]);
    AllKeysContains(back, 0);
    assert (s, e) in RuleKeys(back[0]);
    assert (s, e) in AllKeys(back);
    assert (s, e) !in RuleKeys(ts[i]);
  }

  /** A rule's own pairs are distinct exactly when its states and its events each are. */
  lemma {:induction false} PairsDistinct(states: seq<string>, events: seq<string>)
    requires |states| > 0 && |events| > 0
    ensures NoDup(Pairs(states, events)) <==> NoDup(states) && NoDup(events)
    decreases |states|
  {
    var head := PairWith(states[0], events);
    var tail := Pairs(states[1..], events);
    assert Pairs(states, events) == head + tail;
    PairsMembers(states[1..], events);
    assert NoDup(head) <==> NoDup(events) by {
      forall a, b | 0 <= a < b < |events|
        ensures head[a] == head[b] <==> events[a] == events[b]
      {
      }
    }
    if NoDup(states) && NoDup(events) {
      assert NoDup(states[1..]);
      assert states[0] !in states[1..];
      if |states| > 1 {
        PairsDistinct(states[1..], events);
      }
      NoDupConcat(head, tail);
    } else if !NoDup(events) {
      assert NoDup(head + tail) ==> NoDup(head) by {
        if NoDup(head + tail) {
          NoDupSplit(head, tail);
        }
      }
    } else {
      var a, b :| 0 <= a < b < |states| && states[a] == states[b];
      if a == 0 {
        assert states[b] in states[1..];
        assert head[0] in tail;
        SharedBreaksNoDup(head, tail, head[0]);
      } else {
        assert states[1..][a - 1] == states[1..][b - 1];
        PairsDistinct(states[1..], events);
        assert NoDup(head + tail) ==> NoDup(tail) by {
          if NoDup(head + tail) {
            NoDupSplit(head, tail);
          }
        }
      }
    }
  }

  /** A rule that repeats a state or an event (`A | A + X`) makes the check fail. */
  lemma RepeatWithinRuleRejected(ts: seq<Transition>, i: int)
    requires 0 <= i < |ts| && WellFormedRule(ts[i]) && !ts[i].pattern.Wildcard?
    requires !NoDup(Names(ts[i].pattern)) || !NoDup(ts[i].events)
    ensures Validate(ts).Fail?
  {
    var t := ts[i];
    assert |Names(t.pattern)| > 0;
    PairsDistinct(Names(t.pattern), t.events);
    var front, back := ts[..i], ts[i..];
    assert ts == front + back;
    AllKeysConcat(front, back);
    AllKeysStep(ts, i);
    assert NoDup(AllKeys(ts)) ==> NoDup(RuleKeys(t)) by {
      if NoDup(AllKeys(ts)) {
        NoDupSplit(AllKeys(front), AllKeys(back));
        NoDupSplit(RuleKeys(t), AllKeys(ts[i + 1..]));
      }
    }
    ValidatePassesIffDistinct(ts);
  }

  /** Inserting a wildcard rule anywhere in the rule list never changes the verdict. */
  lemma WildcardRulesIgnored(front: seq<Transition>, back: seq<Transition>, w: Transition)
    requires w.pattern.Wildcard?
    ensures Validate(front + [w] + back) == Validate(front + back)
  {
    AllKeysConcat(front + [w], back);
    AllKeysConcat(front, [w]);
    AllKeysConcat(front, back);
    assert AllKeys([w]) == [] by {
      assert [w][1..] == [];
    }
    assert AllKeys(front) + [] == AllKeys(front);
  }

  // ---- Steps of the imperative check ----

  lemma FirstRepeatStep(key: Key, later: seq<Key>, seen: set<Key>)
    ensures FirstRepeat([key] + later, seen)
         == if key in seen then Some(key) else FirstRepeat(later, seen + {key})
  {
    assert ([key] + later)[1..] == later;
  }

  lemma AllKeysStep(ts: seq<Transition>, i: int)
    requires 0 <= i < |ts|
    ensures AllKeys(ts[i..]) == RuleKeys(ts[i]) + AllKeys(ts[i + 1..])
  {
    assert ts[i..][1..] == ts[i + 1..];
  }

  lemma PairsStep(states: seq<string>, events: seq<string>, a: int)
    requires 0 <= a < |states|
    ensures Pairs(states[a..], events) == PairWith(states[a], events) + Pairs(states[a + 1..], events)
  {
    assert states[a..][1..] == states[a + 1..];
  }

  lemma PairWithStep(s: string, events: seq<string>, b: int)
    requires 0 <= b < |events|
    ensures PairWith(s, events[b..]) == [(s, events[b])] + PairWith(s, events[b + 1..])
  {
    assert events[b..][1..] == events[b + 1..];
  }

  /** The pairs of one state with each event, checked against and added to `seen` (src/lib.rs:192-203). */
  method CheckState(s: string, events: seq<string>, seen0: set<Key>, ghost later: seq<Key>)
    returns (dup: Option<Key>, seen: set<Key>)
    ensures FirstRepeat(PairWith(s, events) + later, seen0)
         == if dup.Some? then dup else FirstRepeat(later, seen)
  {
    seen := seen0;
    assert events[0..] == events;
    for b := 0 to |events|
      invariant FirstRepeat(PairWith(s, events) + later, seen0)
             == FirstRepeat(PairWith(s, events[b..]) + later, seen)
    {
      var key := (s, events[b]);
      PairWithStep(s, events, b);
      assert PairWith(s, events[b..]) + later == [key] + (PairWith(s, events[b + 1..]) + later);
      FirstRepeatStep(key, PairWith(s, events[b + 1..]) + later, seen);
      if key in seen {
        return Some(key), seen;
      }
      seen := seen + {key};
    }
    assert events[|events|..] == [];
    assert PairWith(s, []) + later == later;
    return None, seen;
  }

  /** The pairs of one rule's states with its events, checked against and added to `seen` (src/lib.rs:188-204). */
  method CheckRule(states: seq<string>, events: seq<string>, seen0: set<Key>, ghost later: seq<Key>)
    returns (dup: Option<Key>, seen: set<Key>)
    ensures FirstRepeat(Pairs(states, events) + later, seen0)
         == if dup.Some? then dup else FirstRepeat(later, seen)
  {
    seen := seen0;
    assert states[0..] == states;
    for a := 0 to |states|
      invariant FirstRepeat(Pairs(states, events) + later, seen0)
             == FirstRepeat(Pairs(states[a..], events) + later, seen)
    {
      PairsStep(states, events, a);
      ghost var rest := Pairs(states[a + 1..], events) + later;
      assert Pairs(states[a..], events) + later == PairWith(states[a], events) + rest;
      dup, seen := CheckState(states[a], events, seen, rest);
      if dup.Some? {
        return;
      }
    }
    assert states[|states|..] == [];
    assert Pairs([], events) + later == later;
    return None, seen;
  }

  /**
   * The check as src/lib.rs:174-208 runs it: one pass over the rules, their
   * states and their events, inserting each pair into a set and stopping at
   * the first pair already there.
   */
  method CheckNoDuplicates(ts: seq<Transition>) returns (r: Outcome<Error>)
    ensures r == Validate(ts)
  {
    var seen: set<Key> := {};
    assert ts[0..] == ts;
    for i := 0 to |ts|
      invariant FirstRepeat(AllKeys(ts), {}) == FirstRepeat(AllKeys(ts[i..]), seen)
    {
      var t := ts[i];
      AllKeysStep(ts, i);
      if t.pattern.Wildcard? {
        assert AllKeys(ts[i..]) == AllKeys(ts[i + 1..]);
        continue;
      }
      var dup;
      dup, seen := CheckRule(Names(t.pattern), t.events, seen, AllKeys(ts[i + 1..]));
      if dup.Some? {
        return Fail(DuplicateTransition(dup.value.0, dup.value.1));
      }
    }
    assert ts[|ts|..] == [];
    return Pass;
  }
}
