/** Trees of detour calls, the events they unfold into, and what those events do. */
module HookTrees {
  import opened Common
  import opened HookModel
  import opened HookRuns

  /** A detour call: how it is entered, the detours the engine enters while the original runs, and
      how the original returns. A filter may first ask the original classifier for a bitset bit;
      `asking` are the detours entered meanwhile and `asked` its answer. */
  datatype Call = Call(enter: Event, asking: seq<Call>, asked: Event, inner: seq<Call>, leave: Event)

  /** Detours are entered by entry events, and originals return. */
  ghost predicate Tree(c: Call)
    decreases c, 1
  {
    !c.enter.Leave? && c.asked.Leave? && c.leave.Leave? && Forest(c.asking) && Forest(c.inner)
  }

  ghost predicate Forest(cs: seq<Call>)
    decreases cs, 0
  {
    forall c | c in cs :: Tree(c)
  }

  // ---------------------------------------------------------------- runs over events

  /** One half of one detour; a fault has no next state, and nothing is said of what follows one. */
  ghost function Next(w: World, s: State, e: Event): State {
    if Faults(w, s, e) then s else Step(w, s, e)
  }

  ghost function After(w: World, s: State, trace: seq<Event>): State {
    if |trace| == 0 then s else Next(w, After(w, s, trace[..|trace| - 1]), trace[|trace| - 1])
  }

  /** No event faults. */
  ghost predicate Smooth(w: World, s: State, trace: seq<Event>) {
    |trace| > 0 ==>
      && Smooth(w, s, trace[..|trace| - 1])
      && !Faults(w, After(w, s, trace[..|trace| - 1]), trace[|trace| - 1])
  }

  lemma AfterOne(w: World, s: State, e: Event)
    ensures After(w, s, [e]) == Next(w, s, e)
  {
    hide Next;
    assert [e][..0] == [];
  }

  lemma {:induction false} AfterAppend(w: World, s: State, a: seq<Event>, b: seq<Event>)
    ensures After(w, s, a + b) == After(w, After(w, s, a), b)
  {
    hide Next;
    if |b| == 0 {
      assert a + b == a;
    } else {
      AfterAppend(w, s, a, b[..|b| - 1]);
      assert (a + b)[..|a + b| - 1] == a + b[..|b| - 1];
    }
  }

  lemma {:induction false} SmoothAppend(w: World, s: State, a: seq<Event>, b: seq<Event>)
    ensures Smooth(w, s, a + b) <==> Smooth(w, s, a) && Smooth(w, After(w, s, a), b)
  {
    hide Next, Faults;
    if |b| == 0 {
      assert a + b == a;
    } else {
      SmoothAppend(w, s, a, b[..|b| - 1]);
      AfterAppend(w, s, a, b[..|b| - 1]);
      assert (a + b)[..|a + b| - 1] == a + b[..|b| - 1];
    }
  }

  lemma SmoothOne(w: World, s: State, e: Event)
    ensures Smooth(w, s, [e]) <==> !Faults(w, s, e)
  {
    hide Faults;
    assert [e][..0] == [];
  }

  /** Whatever is done on the way from a reachable state is reachable. */
  lemma {:induction false} AfterReach(w: World, setup: Setup, team: map<Entity, Byte>, s: State, trace: seq<Event>)
    requires Reachable(w, setup, team, s)
    ensures Reachable(w, setup, team, After(w, s, trace))
  {
    if |trace| > 0 {
      AfterReach(w, setup, team, s, trace[..|trace| - 1]);
      var last, e := After(w, s, trace[..|trace| - 1]), trace[|trace| - 1];
      if !Faults(w, last, e) { StepReach(w, setup, team, last, e); }
    }
  }

  // ---------------------------------------------------------------- unfolding trees

  /** The filter call just entered asks for a bitset bit before it runs. */
  predicate Asking(s: State) { s.stack.On? && s.stack.top.PreludeFrame? }

  /** The events of one call, entered in state `s`: entry, the answer to the bitset question with all
      that is nested in it if the question is asked, all that is nested in the original, return. */
  ghost function TraceOf(w: World, s: State, c: Call): seq<Event>
    decreases c, 1
  {
    var front := FrontOf(w, s, c);
    front + TraceAll(w, After(w, s, front), c.inner) + [c.leave]
  }

  ghost function FrontOf(w: World, s: State, c: Call): seq<Event>
    decreases c, 0
  {
    var entered := Next(w, s, c.enter);
    [c.enter] + if Asking(entered) then TraceAll(w, entered, c.asking) + [c.asked] else []
  }

  ghost function TraceAll(w: World, s: State, cs: seq<Call>): seq<Event>
    decreases cs
  {
    if |cs| == 0 then []
    else
      var before := TraceAll(w, s, cs[..|cs| - 1]);
      before + TraceOf(w, After(w, s, before), cs[|cs| - 1])
  }

  /** The state a call, or calls one after the other, lead to. */
  ghost function AfterCall(w: World, s: State, c: Call): State { After(w, s, TraceOf(w, s, c)) }

  ghost function AfterAll(w: World, s: State, cs: seq<Call>): State { After(w, s, TraceAll(w, s, cs)) }

  lemma FrontSteps(w: World, s: State, c: Call)
    ensures var entered := Next(w, s, c.enter);
            After(w, s, FrontOf(w, s, c)) ==
            if Asking(entered) then Next(w, AfterAll(w, entered, c.asking), c.asked) else entered
  {
    hide Next;
    AfterOne(w, s, c.enter);
    var entered := Next(w, s, c.enter);
    if Asking(entered) {
      var asking := TraceAll(w, entered, c.asking);
      AfterAppend(w, s, [c.enter], asking + [c.asked]);
      AfterAppend(w, entered, asking, [c.asked]);
      AfterOne(w, After(w, entered, asking), c.asked);
    } else {
      assert [c.enter] + [] == [c.enter];
    }
  }

  /** A call is its front, then what is nested in the original, then its return. */
  lemma CallSteps(w: World, s: State, c: Call)
    ensures AfterCall(w, s, c) == Next(w, AfterAll(w, After(w, s, FrontOf(w, s, c)), c.inner), c.leave)
  {
    hide Next, FrontOf;
    var front := FrontOf(w, s, c);
    var inner := TraceAll(w, After(w, s, front), c.inner);
    AfterAppend(w, s, front + inner, [c.leave]);
    AfterAppend(w, s, front, inner);
    AfterOne(w, After(w, s, front + inner), c.leave);
  }

  lemma AllSteps(w: World, s: State, cs: seq<Call>, k: nat)
    requires k < |cs|
    ensures AfterAll(w, s, cs[..k + 1]) == AfterCall(w, AfterAll(w, s, cs[..k]), cs[k])
  {
    hide Next;
    assert cs[..k + 1][..k] == cs[..k];
    var before := TraceAll(w, s, cs[..k]);
    AfterAppend(w, s, before, TraceOf(w, After(w, s, before), cs[k]));
  }

  /** A call without a fault, and calls without one. */
  ghost predicate SmoothCall(w: World, s: State, c: Call) { Smooth(w, s, TraceOf(w, s, c)) }

  ghost predicate SmoothAll(w: World, s: State, cs: seq<Call>) { Smooth(w, s, TraceAll(w, s, cs)) }

  lemma FrontSmooth(w: World, s: State, c: Call)
    requires Smooth(w, s, FrontOf(w, s, c))
    ensures !Faults(w, s, c.enter)
    ensures Asking(Next(w, s, c.enter)) ==> SmoothAll(w, Next(w, s, c.enter), c.asking)
  {
    hide Next, Faults;
    SmoothOne(w, s, c.enter);
    AfterOne(w, s, c.enter);
    var entered := Next(w, s, c.enter);
    if Asking(entered) {
      var asking := TraceAll(w, entered, c.asking);
      SmoothAppend(w, s, [c.enter], asking + [c.asked]);
      SmoothAppend(w, entered, asking, [c.asked]);
    } else {
      assert [c.enter] + [] == [c.enter];
    }
  }

  /** Then nothing nested in it faults either. */
  lemma CallSmooth(w: World, s: State, c: Call)
    requires SmoothCall(w, s, c)
    ensures !Faults(w, s, c.enter)
    ensures Asking(Next(w, s, c.enter)) ==> SmoothAll(w, Next(w, s, c.enter), c.asking)
    ensures SmoothAll(w, After(w, s, FrontOf(w, s, c)), c.inner)
  {
    hide Next, FrontOf, Faults;
    var front := FrontOf(w, s, c);
    var inner := TraceAll(w, After(w, s, front), c.inner);
    SmoothAppend(w, s, front + inner, [c.leave]);
    SmoothAppend(w, s, front, inner);
    FrontSmooth(w, s, c);
  }

  lemma {:induction false} AllSmooth(w: World, s: State, cs: seq<Call>, k: nat)
    requires SmoothAll(w, s, cs) && k < |cs|
    ensures SmoothCall(w, AfterAll(w, s, cs[..k]), cs[k])
    decreases |cs|
  {
    hide Next, Faults;
    var before := cs[..|cs| - 1];
    SmoothAppend(w, s, TraceAll(w, s, before), TraceOf(w, AfterAll(w, s, before), cs[|cs| - 1]));
    if k < |cs| - 1 {
      AllSmooth(w, s, before, k);
      assert before[..k] == cs[..k];
    } else {
      assert before == cs[..k];
    }
  }

  lemma AllStart(w: World, s: State, cs: seq<Call>)
    ensures AfterAll(w, s, cs[..0]) == s
  {
  }

  // ---------------------------------------------------------------- what events add up to

  /** The entities that one half of a detour hands to the neutraliser. */
  function HandedAt(w: World, s: State, e: Event): set<Entity> {
    if !NeutralizerOn(w) then {}
    else
      match e
      case EnterDamage(victim, _, _, _, _) => if s.depth != 0 then {} else {victim}
      case EnterIo(self, activator, caller) => if s.depth != 0 then {} else {self, activator, caller}
      case EnterFilter(source, target, _, _) => {source, target}
      case EnterCaller(_, _) => {}
      case EnterSecondary(_, _, _) => {}
      case EnterClassifier(_, _) => {}
      case Leave(_, _, _) => if s.stack.Idle? then {} else HandedAfter(s.stack.top)
  }

  function HandedAfter(frame: Frame): set<Entity> {
    match frame
    case CallerFrame(source, target, recursive) => if recursive then {} else {source, target}
    case SecondaryFrame(source, attacker, target, recursive) => if recursive then {} else {source, attacker, target}
    case ClassifierFrame(target, _) => {target}
    case _ => {}
  }

  ghost function HandedBy(w: World, s: State, trace: seq<Event>): set<Entity> {
    if |trace| == 0 then {}
    else
      var before := trace[..|trace| - 1];
      HandedBy(w, s, before) + HandedAt(w, After(w, s, before), trace[|trace| - 1])
  }

  function FilterEntries(trace: seq<Event>): nat {
    if |trace| == 0 then 0
    else FilterEntries(trace[..|trace| - 1]) + Bit(trace[|trace| - 1].EnterFilter?)
  }

  lemma NeutralizeHands(w: World, s: State, a: Entity, b: Entity, c: Entity)
    ensures NeutralizerOn(w) ==>
            && Neutralize(w, s, a).seen.handed == s.seen.handed + {a}
            && Neutralize2(w, s, a, b).seen.handed == s.seen.handed + {a, b}
            && Neutralize3(w, s, a, b, c).seen.handed == s.seen.handed + {a, b, c}
    ensures !NeutralizerOn(w) ==>
            Neutralize(w, s, a) == Neutralize2(w, s, a, b) == Neutralize3(w, s, a, b, c) == s
    ensures Neutralize(w, s, a).filter == Neutralize2(w, s, a, b).filter ==
            Neutralize3(w, s, a, b, c).filter == s.filter
  {
  }

  /** What a step adds to what has been handed, and to the filter calls that have been counted. */
  ghost predicate Adds(w: World, s: State, e: Event, s': State) {
    && s'.seen.handed == s.seen.handed + HandedAt(w, s, e)
    && s'.filter.all.calls == s.filter.all.calls + Bit(w.enabled && e.EnterFilter?)
  }

  lemma EnterFilterAdds(w: World, s: State, e: Event)
    requires e.EnterFilter?
    ensures Adds(w, s, e, Enter(w, s, e))
  {
    NeutralizeHands(w, EnterScope(s), e.source, e.target, 0);
    hide Neutralize, Neutralize2;
    BeginFilterAdds(w, EnterScope(s), e.source, e.target, e.unit);
    hide BeginFilter;
  }

  lemma BeginFilterAdds(w: World, s: State, source: Entity, target: Entity, unit: nat)
    ensures var s' := BeginFilter(w, s, source, target, unit).0;
            && s'.seen.handed == s.seen.handed + (if NeutralizerOn(w) then {source, target} else {})
            && s'.filter.all.calls == s.filter.all.calls + Bit(w.enabled)
  {
    NeutralizeHands(w, s, source, target, 0);
    hide Neutralize2;
  }

  lemma EnterDamageAdds(w: World, s: State, e: Event)
    requires e.EnterDamage? && !Faults(w, s, e)
    ensures Adds(w, s, e, Enter(w, s, e))
  {
    NeutralizeHands(w, EnterScope(s), e.victim, 0, 0);
    hide Neutralize, CountVictim, CountAttacker;
  }

  lemma EnterPlainAdds(w: World, s: State, e: Event)
    requires !e.Leave? && !e.EnterDamage? && !e.EnterFilter?
    ensures Adds(w, s, e, Enter(w, s, e))
  {
    if e.EnterIo? { NeutralizeHands(w, EnterScope(s), e.self, e.activator, e.caller); }
    hide Neutralize3;
  }

  lemma ReturnAdds(w: World, s: State, e: Event)
    requires e.Leave? && s.stack.On?
    ensures Adds(w, s, e, Return(w, s, e))
  {
    var popped := s.(stack := s.stack.rest);
    match s.stack.top
    case CallerFrame(source, target, _) => NeutralizeHands(w, popped, source, target, 0); hide Neutralize2;
    case SecondaryFrame(source, attacker, target, _) =>
      NeutralizeHands(w, popped, source, attacker, target); hide Neutralize3;
    case ClassifierFrame(target, _) => NeutralizeHands(w, popped, target, 0, 0); hide Neutralize;
    case _ =>
  }

  lemma NextAdds(w: World, s: State, e: Event)
    requires !Faults(w, s, e)
    ensures Adds(w, s, e, Next(w, s, e))
  {
    hide Adds;
    if e.EnterDamage? {
      EnterDamageAdds(w, s, e);
    } else if e.EnterFilter? {
      EnterFilterAdds(w, s, e);
    } else if !e.Leave? {
      EnterPlainAdds(w, s, e);
    } else if s.stack.On? {
      ReturnAdds(w, s, e);
    } else {
      StayAdds(w, s, e);
    }
  }

  lemma StayAdds(w: World, s: State, e: Event)
    requires e.Leave? && s.stack.Idle?
    ensures Adds(w, s, e, s)
  {
  }

  /** Over a whole run: exactly the entities named by its events have been handed to the neutraliser,
      and exactly its filter entries have been counted as filter calls, if the probe is enabled. */
  lemma {:induction false} TraceAdds(w: World, s: State, trace: seq<Event>)
    requires Smooth(w, s, trace)
    ensures After(w, s, trace).seen.handed == s.seen.handed + HandedBy(w, s, trace)
    ensures After(w, s, trace).filter.all.calls == s.filter.all.calls + if w.enabled then FilterEntries(trace) else 0
  {
    if |trace| > 0 {
      var before, e := trace[..|trace| - 1], trace[|trace| - 1];
      TraceAdds(w, s, before);
      var last := After(w, s, before);
      NextAdds(w, last, e);
      hide Next, HandedAt;
    }
  }
}
