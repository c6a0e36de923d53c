/** The single classifier scope variable, told exactly by the history of the run. */
module HookScope {
  import opened Common
  import opened HookModel
  import opened HookRuns

  // ---------------------------------------------------------------- what the history shows

  /** An original filter starts to run: on top of what is open, or in place of its own prelude. */
  ghost predicate FilterStarts(s: State, s': State) {
    && s'.stack.On? && s'.stack.top.FilterFrame?
    && (s'.stack.rest == s.stack ||
        (s.stack.On? && s.stack.top.PreludeFrame? && s'.stack.rest == s.stack.rest))
  }

  /** A filter call returns. */
  ghost predicate FilterReturns(s: State, s': State) {
    s.stack.On? && s.stack.top.FilterFrame? && s'.stack == s.stack.rest
  }

  /** `inner` is the lower part of `stack`. */
  predicate Contains(stack: Stack, inner: Stack) {
    stack == inner || (stack.On? && Contains(stack.rest, inner))
  }

  function Height(stack: Stack): nat { if stack.Idle? then 0 else 1 + Height(stack.rest) }

  /** The open detours from the innermost running filter on down. */
  function RunningStack(stack: Stack): Stack {
    if stack.Idle? || stack.top.FilterFrame? then stack else RunningStack(stack.rest)
  }

  /** The filter on top of `r` was started by step `b` and has been open ever since, up to state `n`. */
  ghost predicate OpenSince(states: seq<State>, b: nat, n: nat, r: Stack) {
    && b < n < |states|
    && FilterStarts(states[b], states[b + 1]) && states[b + 1].stack == r
    && forall j | b < j <= n :: Contains(states[j].stack, r)
  }

  /** A filter call has returned after step `b` and before state `n`. */
  ghost predicate ReturnedSince(states: seq<State>, b: nat, n: nat)
    requires b < n < |states|
  {
    exists k :: b < k < n && FilterReturns(states[k], states[k + 1])
  }

  // ---------------------------------------------------------------- single steps

  /** Every step starts a filter, returns from one, or leaves the running filters and the scope alone. */
  ghost predicate Move(w: World, s: State, s': State) {
    || (FilterStarts(s, s') && !FilterReturns(s, s') && s'.classifierScope == ScopeFor(w, s'.stack.top.scope))
    || (!FilterStarts(s, s') && FilterReturns(s, s') && s'.classifierScope.Inactive?)
    || (!FilterStarts(s, s') && !FilterReturns(s, s') && s'.classifierScope == s.classifierScope &&
        RunningStack(s'.stack) == RunningStack(s.stack) &&
        (s'.stack == s.stack || (s'.stack.On? && !s'.stack.top.FilterFrame? && s'.stack.rest == s.stack) ||
         (s.stack.On? && s'.stack == s.stack.rest)))
  }

  lemma StartMoves(w: World, s: State, s': State, scope: FilterScope)
    requires s'.stack == On(FilterFrame(scope), s.stack) ||
             (s.stack.On? && s.stack.top.PreludeFrame? && s'.stack == On(FilterFrame(scope), s.stack.rest))
    requires s'.classifierScope == ScopeFor(w, scope)
    ensures Move(w, s, s')
  {
    if s.stack.On? { assert Height(s.stack.rest) < Height(s.stack) < Height(On(FilterFrame(scope), s.stack)); }
  }

  lemma PushMoves(w: World, s: State, s': State, frame: Frame)
    requires s'.stack == On(frame, s.stack) && !frame.FilterFrame? && s'.classifierScope == s.classifierScope
    ensures Move(w, s, s')
  {
    if s.stack.On? { assert Height(s.stack.rest) < Height(s.stack) < Height(s'.stack); }
  }

  lemma PopMoves(w: World, s: State, s': State)
    requires s.stack.On? && !s.stack.top.PreludeFrame? && s'.stack == s.stack.rest
    requires s'.classifierScope == if s.stack.top.FilterFrame? then Inactive else s.classifierScope
    ensures Move(w, s, s')
  {
    if s'.stack.On? { assert Height(s'.stack.rest) < Height(s'.stack) < Height(s.stack); }
  }

  lemma StayMoves(w: World, s: State)
    ensures Move(w, s, s)
  {
    if s.stack.On? { assert Height(s.stack.rest) < Height(s.stack); }
  }

  lemma EnterFilterMoves(w: World, s: State, e: Event)
    requires e.EnterFilter?
    ensures Move(w, s, Enter(w, s, e))
  {
    BeginFilterScope(w, EnterScope(s), e.source, e.target, e.unit);
    hide BeginFilter, Move, ScopeFor;
    var (s1, scope) := BeginFilter(w, EnterScope(s), e.source, e.target, e.unit);
    var s' := Enter(w, s, e);
    if s'.stack.top.PreludeFrame? {
      PushMoves(w, s, s', PreludeFrame(scope));
    } else {
      StartMoves(w, s, s', scope);
    }
  }

  lemma DamageShape(w: World, s: State, e: Event, recursive: bool)
    requires e.EnterDamage? && !FriendlyFireFaults(w, RecordDamage(w, s, e, recursive).team, e.victim, recursive)
    ensures var (s', frame) := BeginFriendlyFire(w, RecordDamage(w, s, e, recursive), e.victim, recursive);
            s'.stack == s.stack && s'.classifierScope == s.classifierScope && frame.DamageFrame?
  {
    NeutralizeScope(w, s, e.victim, 0, 0);
    hide Neutralize, CountVictim, CountAttacker;
  }

  lemma EnterDamageMoves(w: World, s: State, e: Event)
    requires e.EnterDamage? && !Faults(w, s, e)
    ensures Move(w, s, Enter(w, s, e))
  {
    DamageShape(w, EnterScope(s), e, s.depth != 0);
    hide RecordDamage, BeginFriendlyFire, Move;
    PushMoves(w, s, Enter(w, s, e), Enter(w, s, e).stack.top);
  }

  lemma EnterPlainMoves(w: World, s: State, e: Event)
    requires !e.Leave? && !e.EnterDamage? && !e.EnterFilter?
    ensures Move(w, s, Enter(w, s, e))
  {
    hide Neutralize3, Move;
    if e.EnterIo? { NeutralizeScope(w, EnterScope(s), e.self, e.activator, e.caller); }
    PushMoves(w, s, Enter(w, s, e), Enter(w, s, e).stack.top);
  }

  lemma ReturnShape(w: World, s: State, e: Event)
    requires e.Leave? && s.stack.On? && !s.stack.top.PreludeFrame?
    ensures var s' := Return(w, s, e);
            && s'.stack == s.stack.rest
            && s'.classifierScope == if s.stack.top.FilterFrame? then Inactive else s.classifierScope
  {
    hide Neutralize;
    var popped := s.(stack := s.stack.rest);
    match s.stack.top
    case CallerFrame(source, target, _) => NeutralizeScope(w, popped, source, target, 0);
    case SecondaryFrame(source, attacker, target, _) => NeutralizeScope(w, popped, source, attacker, target);
    case ClassifierFrame(target, _) => NeutralizeScope(w, popped, target, 0, 0);
    case _ =>
  }

  lemma ReturnMoves(w: World, s: State, e: Event)
    requires e.Leave? && s.stack.On?
    ensures Move(w, s, Return(w, s, e))
  {
    hide Move;
    if s.stack.top.PreludeFrame? {
      StartMoves(w, s, Return(w, s, e), s.stack.top.scope);
    } else {
      ReturnShape(w, s, e);
      hide Return;
      PopMoves(w, s, Return(w, s, e));
    }
  }

  lemma StepMoves(w: World, s: State, e: Event)
    requires !Faults(w, s, e)
    ensures Move(w, s, Step(w, s, e))
  {
    if e.EnterDamage? {
      EnterDamageMoves(w, s, e);
    } else if e.EnterFilter? {
      EnterFilterMoves(w, s, e);
    } else if !e.Leave? {
      EnterPlainMoves(w, s, e);
    } else if s.stack.On? {
      ReturnMoves(w, s, e);
    } else {
      StayMoves(w, s);
    }
  }

  // ---------------------------------------------------------------- whole histories

  /** Every running filter was started at some step and has been open since. */
  ghost predicate AllStarted(states: seq<State>, n: nat)
    requires n < |states|
  {
    forall r: Stack | r.On? && r.top.FilterFrame? && Contains(states[n].stack, r) ::
      exists b: nat :: OpenSince(states, b, n, r)
  }

  /** With no filter running the scope is off. Otherwise it is that of the innermost running filter
      until some filter call returns after that filter has started, and off from then on. */
  ghost predicate ScopeTold(w: World, states: seq<State>, n: nat)
    requires n < |states|
  {
    var r, scope := RunningStack(states[n].stack), states[n].classifierScope;
    if r.Idle? then scope.Inactive?
    else forall b: nat | OpenSince(states, b, n, r) ::
           scope == if ReturnedSince(states, b, n) then Inactive else ScopeFor(w, r.top.scope)
  }

  lemma {:induction false} ContainsHeight(stack: Stack, inner: Stack)
    requires Contains(stack, inner)
    ensures Height(inner) <= Height(stack)
    ensures Height(inner) == Height(stack) ==> inner == stack
  {
    if stack != inner { ContainsHeight(stack.rest, inner); }
  }

  lemma {:induction false} RunningContained(stack: Stack)
    ensures Contains(stack, RunningStack(stack))
    ensures RunningStack(stack).On? ==> RunningStack(stack).top.FilterFrame?
    ensures Running(stack) == if RunningStack(stack).Idle? then None else Some(RunningStack(stack).top.scope)
  {
    if stack.On? && !stack.top.FilterFrame? { RunningContained(stack.rest); }
  }

  lemma StillStarted(w: World, states: seq<State>, n: nat)
    requires 0 < n < |states| && AllStarted(states, n - 1) && Move(w, states[n - 1], states[n])
    ensures AllStarted(states, n)
  {
    var m := n - 1;
    var s, s' := states[m], states[n];
    forall r: Stack | r.On? && r.top.FilterFrame? && Contains(s'.stack, r)
      ensures exists b: nat :: OpenSince(states, b, n, r)
    {
      if Contains(s.stack, r) {
        var b: nat :| OpenSince(states, b, m, r);
        assert OpenSince(states, b, n, r);
      } else {
        assert FilterStarts(s, s') && r == s'.stack;
        assert OpenSince(states, m, n, r);
      }
    }
  }

  lemma ToldAfterStart(w: World, states: seq<State>, n: nat)
    requires 0 < n < |states| && Move(w, states[n - 1], states[n]) && FilterStarts(states[n - 1], states[n])
    ensures ScopeTold(w, states, n)
  {
    var r := states[n].stack;
    forall b: nat | OpenSince(states, b, n, r) ensures b == n - 1 {
      if b < n - 1 {
        assert Contains(states[n - 1].stack, r);
        ContainsHeight(states[n - 1].stack, r);
      }
    }
  }

  lemma ToldAfterReturn(w: World, states: seq<State>, n: nat)
    requires 0 < n < |states| && Move(w, states[n - 1], states[n]) && FilterReturns(states[n - 1], states[n])
    ensures ScopeTold(w, states, n)
  {
    var r, m := RunningStack(states[n].stack), n - 1;
    forall b: nat | OpenSince(states, b, n, r) ensures ReturnedSince(states, b, n) {
      assert b != m;
      assert FilterReturns(states[m], states[m + 1]);
    }
  }

  lemma SinceBefore(states: seq<State>, m: nat, b: nat, r: Stack)
    requires m + 1 < |states| && OpenSince(states, b, m + 1, r) && !FilterStarts(states[m], states[m + 1])
    ensures OpenSince(states, b, m, r)
  {
    hide FilterStarts, Contains;
    assert b != m;
  }

  lemma ReturnedBefore(states: seq<State>, m: nat, b: nat)
    requires b < m && m + 1 < |states| && !FilterReturns(states[m], states[m + 1])
    ensures ReturnedSince(states, b, m) <==> ReturnedSince(states, b, m + 1)
  {
    hide FilterReturns;
    if ReturnedSince(states, b, m + 1) {
      var k :| b < k < m + 1 && FilterReturns(states[k], states[k + 1]);
      assert k != m;
    }
  }

  lemma ToldAfterOther(w: World, states: seq<State>, n: nat)
    requires 0 < n < |states| && ScopeTold(w, states, n - 1) && Move(w, states[n - 1], states[n])
    requires !FilterStarts(states[n - 1], states[n]) && !FilterReturns(states[n - 1], states[n])
    ensures ScopeTold(w, states, n)
  {
    var r, scope := RunningStack(states[n].stack), states[n].classifierScope;
    assert RunningStack(states[n - 1].stack) == r && states[n - 1].classifierScope == scope;
    hide Move, ReturnedSince, FilterStarts, FilterReturns, Contains;
    forall b: nat | OpenSince(states, b, n, r)
      ensures r.On? ==> scope == if ReturnedSince(states, b, n) then Inactive else ScopeFor(w, r.top.scope)
    {
      SinceBefore(states, n - 1, b, r);
      ReturnedBefore(states, n - 1, b);
    }
  }

  lemma {:induction false} HistoryTold(w: World, setup: Setup, team: map<Entity, Byte>,
                                       states: seq<State>, events: seq<Event>, n: nat)
    requires Execution(w, setup, team, states, events) && n <= |events|
    ensures AllStarted(states, n) && ScopeTold(w, states, n)
  {
    if n > 0 {
      HistoryTold(w, setup, team, states, events, n - 1);
      hide ScopeTold, AllStarted, Move, ReturnedSince, OpenSince, Step;
      assert Steps(w, states[n - 1], events[n - 1], states[n]);
      StepMoves(w, states[n - 1], events[n - 1]);
      StillStarted(w, states, n);
      if FilterStarts(states[n - 1], states[n]) {
        ToldAfterStart(w, states, n);
      } else if FilterReturns(states[n - 1], states[n]) {
        ToldAfterReturn(w, states, n);
      } else {
        ToldAfterOther(w, states, n);
      }
    }
  }

  // ---------------------------------------------------------------- the theorems

  /** At every point of every run: with no filter running the scope is off; otherwise the innermost
      running filter was started at some step, and the scope is its own exactly until some filter
      call has returned since that step, and off afterwards. */
  lemma ScopeExactly(w: World, setup: Setup, team: map<Entity, Byte>, states: seq<State>, events: seq<Event>, n: nat)
    requires Execution(w, setup, team, states, events) && n <= |events|
    ensures Running(states[n].stack).None? ==> states[n].classifierScope.Inactive?
    ensures Running(states[n].stack).Some? ==>
            exists b: nat :: OpenSince(states, b, n, RunningStack(states[n].stack))
    ensures Running(states[n].stack).Some? ==>
            forall b: nat | OpenSince(states, b, n, RunningStack(states[n].stack)) ::
              states[n].classifierScope ==
              if ReturnedSince(states, b, n) then Inactive else ScopeFor(w, Running(states[n].stack).value)
  {
    HistoryTold(w, setup, team, states, events, n);
    RunningContained(states[n].stack);
  }

  /** What the caller of the classifier sees is the configured bit exactly while the innermost running
      filter call is on that very target, was given a scope, and has seen no filter call return since
      it started; otherwise it is what the original classifier wrote. */
  lemma AnswerExactly(w: World, setup: Setup, team: map<Entity, Byte>, states: seq<State>, events: seq<Event>, n: nat,
                      b: nat, target: Entity, bit: nat)
    requires Execution(w, setup, team, states, events) && n <= |events|
    requires Running(states[n].stack).Some? && OpenSince(states, b, n, RunningStack(states[n].stack))
    ensures var scope := Running(states[n].stack).value;
            Answer(w, states[n], target, true, bit) ==
            if ScopeFor(w, scope).Active? && scope.target == target && !ReturnedSince(states, b, n)
            then w.classifierBit else bit
  {
    ScopeExactly(w, setup, team, states, events, n);
  }

  /** The innermost filter call that is open, asking for its bitset bit or running. */
  function InnermostOpen(stack: Stack): Option<Frame> {
    if stack.Idle? then None
    else if stack.top.FilterFrame? || stack.top.PreludeFrame? then Some(stack.top)
    else InnermostOpen(stack.rest)
  }

  lemma {:induction false} InnermostShape(stack: Stack)
    ensures InnermostOpen(stack).Some? ==>
            InnermostOpen(stack).value.FilterFrame? || InnermostOpen(stack).value.PreludeFrame?
    ensures Running(stack).Some? ==> InnermostOpen(stack).Some?
    ensures InnermostOpen(stack).Some? && InnermostOpen(stack).value.FilterFrame? ==>
            Running(stack) == Some(InnermostOpen(stack).value.scope)
  {
    if stack.On? { InnermostShape(stack.rest); }
  }

  /** The scope in force, if any, is for the target of the innermost open filter call. */
  ghost predicate ForInnermost(s: State) {
    s.classifierScope.Active? ==>
      && InnermostOpen(s.stack).Some?
      && (InnermostOpen(s.stack).value.FilterFrame? || InnermostOpen(s.stack).value.PreludeFrame?)
      && InnermostOpen(s.stack).value.scope.target == s.classifierScope.target
  }

  /** In any state with a scope in force it is for the innermost open filter call exactly if that call
      is running, or is still asking but for the same target as the innermost running one. */
  lemma ForInnermostExactly(w: World, setup: Setup, team: map<Entity, Byte>, s: State)
    requires Reachable(w, setup, team, s) && s.classifierScope.Active?
    ensures Running(s.stack).Some? && InnermostOpen(s.stack).Some?
    ensures ForInnermost(s) <==>
            var f := InnermostOpen(s.stack).value;
            f.FilterFrame? || (f.PreludeFrame? && f.scope.target == Running(s.stack).value.target)
  {
    ScopeBelongsToRunningFilter(w, setup, team, s);
    InnermostShape(s.stack);
  }

  // ---------------------------------------------------------------- which settings matter

  predicate SetsScopes(w: World) { w.enabled && w.classifierSpoof && w.classifierBit <= 31 }

  predicate AsksBits(w: World) { w.enabled && (w.bitsetAllow || w.neutralSimulation) }

  /** No open filter call is asking for its bitset bit. */
  predicate NoPrelude(stack: Stack) {
    stack.On? ==> !stack.top.PreludeFrame? && NoPrelude(stack.rest)
  }

  lemma StepKeepsNoPrelude(w: World, s: State, e: Event)
    requires !Faults(w, s, e) && !AsksBits(w) && NoPrelude(s.stack)
    ensures NoPrelude(Step(w, s, e).stack)
  {
    if e.EnterFilter? {
      BeginFilterScope(w, EnterScope(s), e.source, e.target, e.unit);
      hide BeginFilter;
    } else if e.EnterDamage? {
      DamageShape(w, EnterScope(s), e, s.depth != 0);
      hide RecordDamage, BeginFriendlyFire;
    } else if !e.Leave? {
      hide Neutralize3;
      if e.EnterIo? { NeutralizeScope(w, EnterScope(s), e.self, e.activator, e.caller); }
    } else if s.stack.On? {
      ReturnShape(w, s, e);
      hide Return;
    }
  }

  lemma {:induction false} ExecutionNoPrelude(w: World, setup: Setup, team: map<Entity, Byte>,
                                              states: seq<State>, events: seq<Event>, n: nat)
    requires Execution(w, setup, team, states, events) && n <= |events| && !AsksBits(w)
    ensures NoPrelude(states[n].stack)
  {
    if n > 0 {
      ExecutionNoPrelude(w, setup, team, states, events, n - 1);
      assert Steps(w, states[n - 1], events[n - 1], states[n]);
      StepKeepsNoPrelude(w, states[n - 1], events[n - 1]);
    }
  }

  lemma {:induction false} NoPreludeShape(stack: Stack)
    requires NoPrelude(stack)
    ensures InnermostOpen(stack).Some? ==> InnermostOpen(stack).value.FilterFrame?
  {
    if stack.On? { NoPreludeShape(stack.rest); }
  }

  /** With the settings that never ask for bits, the scope is always for the innermost open call. */
  lemma WithoutAskingForInnermost(w: World, setup: Setup, team: map<Entity, Byte>, s: State)
    requires Reachable(w, setup, team, s) && !(SetsScopes(w) && AsksBits(w))
    ensures ForInnermost(s)
  {
    if s.classifierScope.Active? {
      ScopeBelongsToRunningFilter(w, setup, team, s);
      ReachableInv(w, setup, team, s);
      var states, events :| Execution(w, setup, team, states, events) && s == states[|events|];
      ExecutionNoPrelude(w, setup, team, states, events, |events|);
      NoPreludeShape(s.stack);
      InnermostShape(s.stack);
    }
  }

  /** Two entities of one team that the spoofs can write and that have no identity. */
  ghost predicate Pair(w: World, team: map<Entity, Byte>, a: Entity, b: Entity) {
    && a != b && Writable(w, team, a) && Writable(w, team, b) && team[a] == team[b]
    && a !in w.identity && b !in w.identity
  }

  lemma BeginPair(w: World, s: State, a: Entity, b: Entity, unit: nat)
    requires w.enabled && Pair(w, s.team, a, b)
    ensures var (s', scope) := BeginFilter(w, s, a, b, unit);
            && scope.target == b && scope.sameTeam
            && s'.team.Keys == s.team.Keys && forall e | e in s.team && e != a && e != b :: s'.team[e] == s.team[e]
  {
  }

  /** A filter call on such a pair starts, asking for its bit first if the settings say so. */
  lemma StartReach(w: World, setup: Setup, team: map<Entity, Byte>, s: State, a: Entity, b: Entity) returns (s': State)
    requires Reachable(w, setup, team, s) && SetsScopes(w) && Pair(w, s.team, a, b)
    ensures Reachable(w, setup, team, s') && s'.classifierScope == Active(b, w.classifierBit)
    ensures s'.stack.On? && s'.stack.top.FilterFrame? && ScopeFor(w, s'.stack.top.scope) == s'.classifierScope
    ensures s'.team.Keys == s.team.Keys && forall e | e in s.team && e != a && e != b :: s'.team[e] == s.team[e]
  {
    var e := EnterFilter(a, b, 0, true);
    s' := AskReach(w, setup, team, s, a, b);
    if s'.stack.top.PreludeFrame? {
      StepReach(w, setup, team, s', Leave(true, 0, 0));
      s' := Step(w, s', Leave(true, 0, 0));
    }
  }

  /** Entering a filter call on such a pair, up to its prelude or its start. */
  lemma AskReach(w: World, setup: Setup, team: map<Entity, Byte>, s: State, a: Entity, b: Entity) returns (s': State)
    requires Reachable(w, setup, team, s) && SetsScopes(w) && Pair(w, s.team, a, b)
    ensures Reachable(w, setup, team, s')
    ensures s'.team.Keys == s.team.Keys && forall e | e in s.team && e != a && e != b :: s'.team[e] == s.team[e]
    ensures s'.stack.On? && (s'.stack.top.PreludeFrame? || s'.stack.top.FilterFrame?)
    ensures s'.stack.top.scope.target == b && s'.stack.top.scope.sameTeam
    ensures AsksBits(w) ==>
            s'.stack.top.PreludeFrame? && s'.classifierScope == s.classifierScope && s'.stack.rest == s.stack
    ensures !AsksBits(w) ==> s'.stack.top.FilterFrame? && s'.classifierScope == Active(b, w.classifierBit)
  {
    var e := EnterFilter(a, b, 0, true);
    StepReach(w, setup, team, s, e);
    BeginPair(w, EnterScope(s), a, b, 0);
    BeginFilterScope(w, EnterScope(s), a, b, 0);
    hide BeginFilter;
    s' := Step(w, s, e);
  }

  lemma {:induction false} Above(xs: set<nat>) returns (n: nat)
    ensures forall x | x in xs :: x < n
    decreases |xs|
  {
    n := 1;
    if xs != {} {
      var x :| x in xs;
      var m := Above(xs - {x});
      n := if x < m then m else x + 1;
      assert forall y | y in xs :: y == x || y in xs - {x};
    }
  }

  /** Two such pairs exist in every world. */
  lemma TwoPairs(w: World) returns (team: map<Entity, Byte>, a: Entity)
    ensures Pair(w, team, a, a + 1) && Pair(w, team, a + 2, a + 3)
  {
    var n := Above(w.readonly + w.identity.Keys);
    a := n + 1;
    team := map[a := 2, a + 1 := 2, a + 2 := 2, a + 3 := 2];
  }

  /** A nested call that is still asking leaves the outer scope in force: its own target is another. */
  lemma NestedAskSeesOuterScope(w: World, setup: Setup)
    returns (team: map<Entity, Byte>, s: State)
    requires SetsScopes(w) && AsksBits(w)
    ensures Reachable(w, setup, team, s) && s.classifierScope.Active? && !ForInnermost(s)
    ensures Answer(w, s, s.classifierScope.target, true, INVALID) == w.classifierBit
  {
    var a;
    team, a := TwoPairs(w);
    InitReach(w, setup, team);
    s := StartReach(w, setup, team, Init(setup, team), a, a + 1);
    s := AskReach(w, setup, team, s, a + 2, a + 3);
  }

  /** The scope is for the innermost open filter call in every run exactly with the settings that set
      no scopes or never ask for bits. */
  lemma ForInnermostSettings(w: World, setup: Setup)
    ensures (forall team, s | Reachable(w, setup, team, s) :: ForInnermost(s)) <==>
            !(SetsScopes(w) && AsksBits(w))
  {
    hide ForInnermost, Reachable;
    if SetsScopes(w) && AsksBits(w) {
      var team, s := NestedAskSeesOuterScope(w, setup);
    } else {
      forall team, s | Reachable(w, setup, team, s) ensures ForInnermost(s) {
        WithoutAskingForInnermost(w, setup, team, s);
      }
    }
  }

  /** The scope in force is the one the innermost running filter call was given. */
  ghost predicate ForRunning(w: World, s: State) {
    Running(s.stack).Some? ==> s.classifierScope == ScopeFor(w, Running(s.stack).value)
  }

  /** After a nested filter call has returned the outer call has lost its scope. */
  lemma NestedReturnClearsScope(w: World, setup: Setup)
    returns (team: map<Entity, Byte>, s: State)
    requires SetsScopes(w)
    ensures Reachable(w, setup, team, s) && s.classifierScope.Inactive?
    ensures Running(s.stack).Some? && ScopeFor(w, Running(s.stack).value).Active?
  {
    var a;
    team, a := TwoPairs(w);
    InitReach(w, setup, team);
    var outer := StartReach(w, setup, team, Init(setup, team), a, a + 1);
    var nested := NullFilterReach(w, setup, team, outer);
    StepReach(w, setup, team, nested, Leave(true, 0, 0));
    ReturnShape(w, nested, Leave(true, 0, 0));
    hide Return;
    s := Step(w, nested, Leave(true, 0, 0));
  }

  /** A filter call on null pointers starts at once. */
  lemma NullFilterReach(w: World, setup: Setup, team: map<Entity, Byte>, s: State) returns (s': State)
    requires Reachable(w, setup, team, s)
    ensures Reachable(w, setup, team, s') && s'.stack.On? && s'.stack.top.FilterFrame? && s'.stack.rest == s.stack
  {
    var e := EnterFilter(0, 0, 0, true);
    StepReach(w, setup, team, s, e);
    BeginFilterScope(w, EnterScope(s), 0, 0, 0);
    BeginNull(w, EnterScope(s));
    hide BeginFilter;
    s' := Step(w, s, e);
  }

  lemma BeginNull(w: World, s: State)
    ensures var scope := BeginFilter(w, s, 0, 0, 0).1; !scope.sameTeam && !scope.objective
  {
  }

  /** A running filter call keeps its scope in every run exactly with the settings that set none. */
  lemma ForRunningSettings(w: World, setup: Setup)
    ensures (forall team, s | Reachable(w, setup, team, s) :: ForRunning(w, s)) <==> !SetsScopes(w)
  {
    if SetsScopes(w) {
      var team, s := NestedReturnClearsScope(w, setup);
      assert !ForRunning(w, s);
    } else {
      forall team, s | Reachable(w, setup, team, s) ensures ForRunning(w, s) {
        ReachableInv(w, setup, team, s);
      }
    }
  }
}
