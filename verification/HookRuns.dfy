/** Every well-nested run of the detours on one thread: team bytes, counters, classifier scope. */
module HookRuns {
  import opened Common
  import opened HookLedger
  import opened HookModel
  import opened HookTeams

  // ---------------------------------------------------------------- runs

  ghost predicate Steps(w: World, s: State, e: Event, s': State) {
    !Faults(w, s, e) && s' == Step(w, s, e)
  }

  ghost predicate Execution(w: World, setup: Setup, team: map<Entity, Byte>, states: seq<State>, events: seq<Event>) {
    && |states| == |events| + 1
    && states[0] == Init(setup, team)
    && forall i | 0 <= i < |events| :: Steps(w, states[i], events[i], states[i + 1])
  }

  /** Some nesting of detour calls, completed or not, leads from `team` to `s`. */
  ghost predicate Reachable(w: World, setup: Setup, team: map<Entity, Byte>, s: State) {
    exists states, events :: Execution(w, setup, team, states, events) && s == states[|events|]
  }

  ghost predicate Inv(w: World, team: map<Entity, Byte>, s: State) {
    TeamInv(w, team, s) && Ledger(w, s) && ScopeInv(w, s)
  }

  lemma StepKeepsInv(w: World, team: map<Entity, Byte>, s: State, e: Event)
    requires Inv(w, team, s) && !Faults(w, s, e)
    ensures Inv(w, team, Step(w, s, e))
  {
    StepTeam(w, team, s, e);
    StepLedger(w, team, s, e);
    StepScope(w, s, e);
  }

  lemma InitInv(w: World, setup: Setup, team: map<Entity, Byte>)
    ensures Inv(w, team, Init(setup, team))
  {
    InitTeam(w, setup, team);
    InitLedger(w, setup, team);
  }

  lemma {:induction false} ExecutionInv(w: World, setup: Setup, team: map<Entity, Byte>,
                                        states: seq<State>, events: seq<Event>, n: nat)
    requires Execution(w, setup, team, states, events) && n <= |events|
    ensures Inv(w, team, states[n])
  {
    if n == 0 {
      InitInv(w, setup, team);
    } else {
      ExecutionInv(w, setup, team, states, events, n - 1);
      assert Steps(w, states[n - 1], events[n - 1], states[n]);
      StepKeepsInv(w, team, states[n - 1], events[n - 1]);
    }
  }

  lemma ReachableInv(w: World, setup: Setup, team: map<Entity, Byte>, s: State)
    requires Reachable(w, setup, team, s)
    ensures Inv(w, team, s)
  {
    var states, events :| Execution(w, setup, team, states, events) && s == states[|events|];
    ExecutionInv(w, setup, team, states, events, |events|);
  }

  // ---------------------------------------------------------------- the classifier scope

  /** The innermost filter detour whose original filter is running. */
  function Running(stack: Stack): Option<FilterScope> {
    match stack
    case Idle => None
    case On(top, rest) => if top.FilterFrame? then Some(top.scope) else Running(rest)
  }

  /** The scope variable is cleared or belongs to the innermost running filter. */
  ghost predicate ScopeInv(w: World, s: State) {
    || s.classifierScope.Inactive?
    || (Running(s.stack).Some? && s.classifierScope == ScopeFor(w, Running(s.stack).value))
  }

  /** Everything but starting and ending a filter leaves the scope variable alone. */
  ghost predicate ScopeUntouched(s: State, s': State) {
    s'.classifierScope == s.classifierScope
  }

  lemma NeutralizeScope(w: World, s: State, a: Entity, b: Entity, c: Entity)
    ensures ScopeUntouched(s, Neutralize(w, s, a))
    ensures ScopeUntouched(s, Neutralize2(w, s, a, b))
    ensures ScopeUntouched(s, Neutralize3(w, s, a, b, c))
    ensures Neutralize(w, s, a).stack == Neutralize2(w, s, a, b).stack == Neutralize3(w, s, a, b, c).stack == s.stack
  {
  }

  lemma BeginFilterScope(w: World, s: State, source: Entity, target: Entity, unit: nat)
    ensures var s' := BeginFilter(w, s, source, target, unit).0;
            ScopeUntouched(s, s') && s'.stack == s.stack
  {
    NeutralizeScope(w, s, source, target, 0);
  }

  lemma EnterFilterScope(w: World, s: State, e: Event)
    requires ScopeInv(w, s) && e.EnterFilter?
    ensures ScopeInv(w, Enter(w, s, e))
  {
    BeginFilterScope(w, EnterScope(s), e.source, e.target, e.unit);
  }

  lemma EnterDamageScope(w: World, s: State, e: Event)
    requires ScopeInv(w, s) && e.EnterDamage? && !Faults(w, s, e)
    ensures ScopeInv(w, Enter(w, s, e))
  {
    NeutralizeScope(w, EnterScope(s), e.victim, 0, 0);
  }

  lemma EnterPlainScope(w: World, s: State, e: Event)
    requires ScopeInv(w, s) && !e.Leave? && !e.EnterDamage? && !e.EnterFilter?
    ensures ScopeInv(w, Enter(w, s, e))
  {
    if e.EnterIo? { NeutralizeScope(w, EnterScope(s), e.self, e.activator, e.caller); }
  }

  lemma ReturnScope(w: World, s: State, e: Event)
    requires ScopeInv(w, s) && e.Leave? && s.stack.On?
    ensures ScopeInv(w, Return(w, s, e))
  {
    var popped := s.(stack := s.stack.rest);
    match s.stack.top
    case CallerFrame(source, target, _) => NeutralizeScope(w, popped, source, target, 0);
    case SecondaryFrame(source, attacker, target, _) => NeutralizeScope(w, popped, source, attacker, target);
    case ClassifierFrame(target, _) => NeutralizeScope(w, popped, target, 0, 0);
    case _ =>
  }

  lemma StepScope(w: World, s: State, e: Event)
    requires ScopeInv(w, s) && !Faults(w, s, e)
    ensures ScopeInv(w, Step(w, s, e))
  {
    if e.EnterDamage? {
      EnterDamageScope(w, s, e);
    } else if e.EnterFilter? {
      EnterFilterScope(w, s, e);
    } else if !e.Leave? {
      EnterPlainScope(w, s, e);
    } else if s.stack.On? {
      ReturnScope(w, s, e);
    }
  }

  // ---------------------------------------------------------------- the theorems

  /** At every point of every run, undoing the open detours gives back the initial team map, with
      the neutral team on exactly the writable entities handed to the neutraliser. When no detour is
      open that is the team map itself, and without the neutraliser it is the initial one. */
  lemma TeamsRestored(w: World, setup: Setup, team: map<Entity, Byte>, s: State)
    requires Reachable(w, setup, team, s)
    ensures Unwind(w, s.team, s.stack) == Overwritten(w, team, s.seen.handed)
    ensures s.stack.Idle? ==> s.team == Overwritten(w, team, s.seen.handed)
    ensures s.stack.Idle? && !Overwrites(w) ==> s.team == team
  {
    ReachableInv(w, setup, team, s);
    assert !Overwrites(w) ==> Overwritten(w, team, s.seen.handed) == team;
  }

  /** At every point of every run: verdicts of same-team and objective filter calls are their calls
      less the open ones, spoofs applied less restored are the open frames holding one, and every
      split and histogram adds up. With the probe enabled the same holds of all filter calls. */
  lemma LedgerBalances(w: World, setup: Setup, team: map<Entity, Byte>, s: State)
    requires Reachable(w, setup, team, s)
    ensures Ledger(w, s)
    ensures w.enabled ==> Balanced(s.filter.all, Open(s.stack, FilterOpen))
    ensures Balanced(s.filter.sameTeam, Open(s.stack, SameTeamOpen))
    ensures Balanced(s.filter.objective, Open(s.stack, ObjectiveOpen))
    ensures s.source.applied == s.source.restored + Open(s.stack, SourceHeld)
    ensures s.target.applied == s.target.restored + Open(s.stack, TargetHeld)
    ensures s.friendlyFire.applied == s.friendlyFire.restored + Open(s.stack, VictimHeld)
    ensures s.filter.units.Total() == s.filter.all.calls && s.damage.victims.Total() == s.damage.calls
    ensures s.damage.attacker.valid == s.damage.attackers.Total() ==
            s.damage.relations.same + s.damage.relations.opposing + s.damage.relations.other
    ensures s.damage.sameTeamVictims.Total() == s.damage.relations.same
    ensures s.neutral.attempts == s.neutral.nulls + s.neutral.invalidTeam + s.neutral.already +
                                  s.neutral.applied + s.neutral.writeFailures
    ensures s.neutral.teams.Total() == s.neutral.already + s.neutral.applied + s.neutral.writeFailures
  {
    ReachableInv(w, setup, team, s);
  }

  /** With the probe disabled verdicts are still counted, so the filter ledger balances exactly while
      the probe is enabled or no filter call has been entered at all. */
  lemma FilterLedgerExactly(w: World, setup: Setup, team: map<Entity, Byte>, s: State)
    requires Reachable(w, setup, team, s)
    ensures Balanced(s.filter.all, Open(s.stack, FilterOpen)) <==>
            w.enabled || s.seen.finished + Open(s.stack, FilterOpen) == 0
  {
    ReachableInv(w, setup, team, s);
  }

  /** An active scope is that of the innermost filter whose original is running: same target, and
      same-team or objective. So it is inactive whenever no filter call is open. */
  lemma ScopeBelongsToRunningFilter(w: World, setup: Setup, team: map<Entity, Byte>, s: State)
    requires Reachable(w, setup, team, s) && s.classifierScope.Active?
    ensures Running(s.stack).Some?
    ensures var scope := Running(s.stack).value;
            scope.target == s.classifierScope.target && (scope.sameTeam || scope.objective)
  {
    ReachableInv(w, setup, team, s);
  }

  /** A classifier answer is rewritten, and then to the configured bit, only inside a running filter
      call on that very target. */
  lemma RewritesOnlyInsideFilter(w: World, setup: Setup, team: map<Entity, Byte>, s: State,
                                 target: Entity, out: bool, bit: nat)
    requires Reachable(w, setup, team, s)
    requires Answer(w, s, target, out, bit) != bit
    ensures w.classifierSpoof && Answer(w, s, target, out, bit) == w.classifierBit
    ensures Running(s.stack).Some? && Running(s.stack).value.target == target
  {
    ReachableInv(w, setup, team, s);
    ScopeBelongsToRunningFilter(w, setup, team, s);
  }

  // ---------------------------------------------------------------- reaching further

  lemma InitReach(w: World, setup: Setup, team: map<Entity, Byte>)
    ensures Reachable(w, setup, team, Init(setup, team))
  {
    var states: seq<State>, events: seq<Event> := [Init(setup, team)], [];
    assert Execution(w, setup, team, states, events) && states[|events|] == Init(setup, team);
  }

  lemma ExtendExecution(w: World, setup: Setup, team: map<Entity, Byte>, states: seq<State>, events: seq<Event>,
                        e: Event, s': State)
    requires Execution(w, setup, team, states, events) && Steps(w, states[|events|], e, s')
    ensures Reachable(w, setup, team, s')
  {
    var states', events' := states + [s'], events + [e];
    forall i | 0 <= i < |events'| ensures Steps(w, states'[i], events'[i], states'[i + 1]) {
      if i < |events| { assert Steps(w, states[i], events[i], states[i + 1]); }
    }
    assert Execution(w, setup, team, states', events');
    assert states'[|events'|] == s';
  }

  lemma StepReach(w: World, setup: Setup, team: map<Entity, Byte>, s: State, e: Event)
    requires Reachable(w, setup, team, s) && !Faults(w, s, e)
    ensures Reachable(w, setup, team, Step(w, s, e))
  {
    var states, events :| Execution(w, setup, team, states, events) && s == states[|events|];
    ExtendExecution(w, setup, team, states, events, e, Step(w, s, e));
  }
}
