/**
 * The model builder (src/lib.rs:230-278): one walk over the rules that
 * collects the distinct states, the distinct events and the initial state.
 */
module Builder {
  import opened Wrappers
  import opened Ast
  import opened Seqs

  /** The accumulators of the walk. */
  datatype Collected = Collected(states: seq<string>, events: seq<string>, initial: Option<string>)

  /** What the compiler knows about a machine after the walk. */
  datatype Model = Model(states: seq<string>, events: seq<string>, initial: string)

  /** The name the default state falls back to when no state exists at all. */
  const PlaceholderInitial := "Initial"

  // ---- The walk, step by step as the source performs it ----

  /** Registers one named source state and, if it is the first `*` seen, records it as initial. */
  function AddSourceState(c: Collected, e: Entry): Collected {
    Collected(
      AddNew(c.states, e.0),
      c.events,
      if e.1 && c.initial.None? then Some(e.0) else c.initial)
  }

  function AddSourceStates(c: Collected, es: seq<Entry>): Collected
    decreases |es|
  {
    if |es| == 0 then c else AddSourceStates(AddSourceState(c, es[0]), es[1..])
  }

  /** One iteration of the loop at src/lib.rs:234-268: source states, then the named target, then the events. */
  function Step(c: Collected, t: Transition): Collected {
    var c1 := AddSourceStates(c, Entries(t.pattern));
    var c2 := if t.target.State? then c1.(states := AddNew(c1.states, t.target.name)) else c1;
    c2.(events := AddAll(c2.events, t.events))
  }

  function CollectFrom(c: Collected, ts: seq<Transition>): Collected
    decreases |ts|
  {
    if |ts| == 0 then c else CollectFrom(Step(c, ts[0]), ts[1..])
  }

  /** The initial state resolution of src/lib.rs:270-278. */
  function ResolveInitial(c: Collected): string {
    match c.initial
    case Some(s) => s
    case None => if |c.states| > 0 then c.states[0] else PlaceholderInitial
  }

  // ---- Reference definitions: what the walk visits, in order ----

  /** The states a rule mentions: its pattern's states, then its named target. */
  function Mentioned(t: Transition): seq<string> {
    Names(t.pattern) + (if t.target.State? then [t.target.name] else [])
  }

  function MentionedStates(ts: seq<Transition>): seq<string>
    decreases |ts|
  {
    if |ts| == 0 then [] else Mentioned(ts[0]) + MentionedStates(ts[1..])
  }

  function AllEvents(ts: seq<Transition>): seq<string>
    decreases |ts|
  {
    if |ts| == 0 then [] else ts[0].events + AllEvents(ts[1..])
  }

  /** Every named source state with its mark, in declaration order. */
  function AllEntries(ts: seq<Transition>): seq<Entry>
    decreases |ts|
  {
    if |ts| == 0 then [] else Entries(ts[0].pattern) + AllEntries(ts[1..])
  }

  /** The first marked entry's state, if any. */
  function FirstMarked(es: seq<Entry>): Option<string>
    decreases |es|
  {
    if |es| == 0 then None
    else if es[0].1 then Some(es[0].0)
    else FirstMarked(es[1..])
  }

  /** The entry at `k` is the first one carrying a `*`. */
  predicate IsFirstMark(es: seq<Entry>, k: int) {
    && 0 <= k < |es|
    && es[k].1
    && forall j :: 0 <= j < k ==> !es[j].1
  }

  // ---- Lemmas ----

  /** `FirstMarked` finds exactly the first `*`; it is absent exactly when nothing is marked. */
  lemma {:induction false} FirstMarkedSpec(es: seq<Entry>)
    ensures FirstMarked(es).None? <==> forall j :: 0 <= j < |es| ==> !es[j].1
    ensures forall k :: IsFirstMark(es, k) ==> FirstMarked(es) == Some(es[k].0)
    decreases |es|
  {
    if |es| > 0 {
      FirstMarkedSpec(es[1..]);
      forall k | IsFirstMark(es, k)
        ensures FirstMarked(es) == Some(es[k].0)
      {
        if k > 0 {
          assert IsFirstMark(es[1..], k - 1);
        }
      }
      if !es[0].1 {
        assert forall j :: 1 <= j < |es| ==> es[j] == es[1..][j - 1];
      }
    }
  }

  /** A mark in a later part never overrides one in an earlier part. */
  lemma {:induction false} FirstMarkedConcat(xs: seq<Entry>, ys: seq<Entry>)
    ensures FirstMarked(xs + ys) == if FirstMarked(xs).Some? then FirstMarked(xs) else FirstMarked(ys)
    decreases |xs|
  {
    if |xs| == 0 {
      assert xs + ys == ys;
    } else {
      assert (xs + ys)[1..] == xs[1..] + ys;
      FirstMarkedConcat(xs[1..], ys);
    }
  }

  lemma {:induction false} AddSourceStatesSpec(c: Collected, es: seq<Entry>)
    ensures AddSourceStates(c, es).states == AddAll(c.states, NamesOf(es))
    ensures AddSourceStates(c, es).events == c.events
    ensures AddSourceStates(c, es).initial == if c.initial.Some? then c.initial else FirstMarked(es)
    decreases |es|
  {
    if |es| > 0 {
      AddSourceStatesSpec(AddSourceState(c, es[0]), es[1..]);
      assert NamesOf(es)[1..] == NamesOf(es[1..]);
    }
  }

  lemma StepSpec(c: Collected, t: Transition)
    ensures Step(c, t).states == AddAll(c.states, Mentioned(t))
    ensures Step(c, t).events == AddAll(c.events, t.events)
    ensures Step(c, t).initial == if c.initial.Some? then c.initial else FirstMarked(Entries(t.pattern))
  {
    AddSourceStatesSpec(c, Entries(t.pattern));
    var target := if t.target.State? then [t.target.name] else [];
    AddAllConcat(c.states, Names(t.pattern), target);
    if t.target.State? {
      assert AddAll(AddAll(c.states, Names(t.pattern)), target)
          == AddNew(AddAll(c.states, Names(t.pattern)), t.target.name);
    }
  }

  /** The walk from accumulator `c` appends the rules' mentions and events, and keeps an earlier initial. */
  lemma {:induction false} CollectFromSpec(c: Collected, ts: seq<Transition>)
    ensures CollectFrom(c, ts).states == AddAll(c.states, MentionedStates(ts))
    ensures CollectFrom(c, ts).events == AddAll(c.events, AllEvents(ts))
    ensures CollectFrom(c, ts).initial == if c.initial.Some? then c.initial else FirstMarked(AllEntries(ts))
    decreases |ts|
  {
    if |ts| > 0 {
      StepSpec(c, ts[0]);
      CollectFromSpec(Step(c, ts[0]), ts[1..]);
      AddAllConcat(c.states, Mentioned(ts[0]), MentionedStates(ts[1..]));
      AddAllConcat(c.events, ts[0].events, AllEvents(ts[1..]));
      FirstMarkedConcat(Entries(ts[0].pattern), AllEntries(ts[1..]));
    }
  }

  /** Every marked entry names a state the walk visits. */
  lemma {:induction false} MarkedIsMentioned(ts: seq<Transition>)
    ensures FirstMarked(AllEntries(ts)).Some? ==> FirstMarked(AllEntries(ts)).value in MentionedStates(ts)
    decreases |ts|
  {
    if |ts| > 0 {
      FirstMarkedConcat(Entries(ts[0].pattern), AllEntries(ts[1..]));
      MarkedIsMentioned(ts[1..]);
      MarkedInNames(Entries(ts[0].pattern));
    }
  }

  lemma {:induction false} MarkedInNames(es: seq<Entry>)
    ensures FirstMarked(es).Some? ==> FirstMarked(es).value in NamesOf(es)
    decreases |es|
  {
    if |es| > 0 {
      MarkedInNames(es[1..]);
    }
  }

  /**
   * Builds the model. The state and event lists are duplicate-free and list
   * exactly what the rules mention, in first-seen order; the initial state is
   * the first `*`-marked state, else the first state seen, else the
   * placeholder, which then names no state.
   */
  function Build(ts: seq<Transition>): (m: Model)
    ensures NoDup(m.states) && NoDup(m.events)
    ensures forall s :: s in m.states <==> s in MentionedStates(ts)
    ensures forall e :: e in m.events <==> e in AllEvents(ts)
    ensures FirstSeenOrder(m.states, MentionedStates(ts))
    ensures FirstSeenOrder(m.events, AllEvents(ts))
    ensures FirstMarked(AllEntries(ts)).Some? ==> m.initial == FirstMarked(AllEntries(ts)).value
    ensures FirstMarked(AllEntries(ts)).None? && |m.states| > 0 ==> m.initial == m.states[0] == MentionedStates(ts)[0]
    ensures |m.states| == 0 ==> m.initial == PlaceholderInitial && m.initial !in m.states
    ensures |m.states| > 0 ==> m.initial in m.states
  {
    var c := CollectFrom(Collected([], [], None), ts);
    CollectFromSpec(Collected([], [], None), ts);
    AddAllFromEmpty(MentionedStates(ts));
    AddAllFromEmpty(AllEvents(ts));
    MarkedIsMentioned(ts);
    FirstSeenOrderHead(c.states, MentionedStates(ts));
    Model(c.states, c.events, ResolveInitial(c))
  }

  lemma {:induction false} AllEntriesConcat(xs: seq<Transition>, ys: seq<Transition>)
    ensures AllEntries(xs + ys) == AllEntries(xs) + AllEntries(ys)
    decreases |xs|
  {
    if |xs| == 0 {
      assert xs + ys == ys;
    } else {
      assert (xs + ys)[1..] == xs[1..] + ys;
      AllEntriesConcat(xs[1..], ys);
    }
  }

  /** Once some rule has marked a state, rules appended later never change the initial state. */
  lemma LaterMarksNeverOverwrite(xs: seq<Transition>, ys: seq<Transition>)
    requires FirstMarked(AllEntries(xs)).Some?
    ensures Build(xs + ys).initial == Build(xs).initial
  {
    AllEntriesConcat(xs, ys);
    FirstMarkedConcat(AllEntries(xs), AllEntries(ys));
  }
}
