/** The counters of the detours balance against the detours that are open, at every step. */
module HookLedger {
  import opened Common
  import opened HookModel
  import opened HookTeams

  datatype Kind =
    | FilterOpen | SameTeamOpen | ObjectiveOpen   // filter calls, by what their scope says
    | SourceHeld | TargetHeld | VictimHeld        // detours holding a spoof
    | InPrelude | HasScope

  /** Whether an open detour is of a kind. */
  predicate Is(f: Frame, kind: Kind) {
    match kind
    case FilterOpen => f.PreludeFrame? || f.FilterFrame?
    case SameTeamOpen => (f.PreludeFrame? || f.FilterFrame?) && f.scope.sameTeam
    case ObjectiveOpen => (f.PreludeFrame? || f.FilterFrame?) && f.scope.objective
    case SourceHeld => (f.PreludeFrame? || f.FilterFrame?) && f.scope.sourceSpoofed
    case TargetHeld => (f.PreludeFrame? || f.FilterFrame?) && f.scope.targetSpoofed
    case VictimHeld => f.DamageFrame? && f.spoofed
    case InPrelude => f.PreludeFrame?
    case HasScope => !f.ClassifierFrame?
  }

  /** The number of open detours of one kind. */
  function Open(stack: Stack, kind: Kind): nat {
    match stack
    case Idle => 0
    case On(top, rest) => Bit(Is(top, kind)) + Open(rest, kind)
  }

  // ---------------------------------------------------------------- histograms

  lemma {:induction false} SumBump(xs: seq<nat>, i: nat)
    requires i < |xs|
    ensures Sum(xs[i := xs[i] + 1]) == Sum(xs) + 1
  {
    if i == 0 {
      assert xs[0 := xs[0] + 1][1..] == xs[1..];
    } else {
      assert xs[i := xs[i] + 1][1..] == xs[1..][i - 1 := xs[1..][i - 1] + 1];
      SumBump(xs[1..], i - 1);
    }
  }

  /** Every value is counted once, in its own slot or in the overflow. */
  lemma RecordTotal(h: Histogram, value: nat)
    ensures h.Record(value).Total() == h.Total() + 1
  {
    if value < |h.counts| { SumBump(h.counts, value); }
  }

  lemma {:induction false} EmptyTotal(size: nat)
    ensures EmptyHistogram(size).Total() == 0
  {
    if size > 0 { EmptyTotal(size - 1); }
  }

  // ---------------------------------------------------------------- the balances

  ghost predicate Balanced(v: Verdicts, open: nat) {
    v.calls == v.allowed + v.denied + open
  }

  /** Filter calls against verdicts and open filter frames. `finish_target_filter` counts verdicts
      even while the probe is disabled, and then no call has been counted. */
  ghost predicate FilterBalance(w: World, f: FilterCounters, stack: Stack, finished: nat) {
    && f.all.calls == (if w.enabled then finished + Open(stack, FilterOpen) else 0)
    && f.all.allowed + f.all.denied == finished
    && Balanced(f.sameTeam, Open(stack, SameTeamOpen))
    && Balanced(f.objective, Open(stack, ObjectiveOpen))
    && f.units.Total() == f.all.calls
  }

  ghost predicate SpoofBalance(spoof: SpoofCounters, held: nat) {
    && spoof.applied == spoof.restored + held
    && spoof.restored == spoof.allowed + spoof.denied
    && spoof.applied <= spoof.attempts
  }

  ghost predicate FriendlyFireBalance(f: FriendlyFireCounters, held: nat) {
    && f.applied == f.restored + held
    && f.applied == f.attempts
    && f.callbacks == f.skips.recursive + f.skips.missingIdentity + f.skips.missingName +
                        f.skips.nonObjective + f.candidates
    && f.invalidTeam + f.attempts <= f.candidates
  }

  ghost predicate NeutralBalance(n: NeutralCounters) {
    && n.attempts == n.nulls + n.invalidTeam + n.already + n.applied + n.writeFailures
    && n.teams.Total() == n.already + n.applied + n.writeFailures
  }

  ghost predicate AttackerBalance(d: DamageCounters, attackers: nat) {
    && attackers == d.relations.same + d.relations.opposing + d.relations.other == d.attackers.Total()
    && d.relations.same == d.sameTeamVictims.Total()
    && d.relations.sameObjective <= d.relations.same
  }

  ghost predicate DamageBalance(d: DamageCounters) {
    && d.calls == d.attacker.valid + d.attacker.invalid == d.inflictor.valid + d.inflictor.invalid
    && d.calls == d.victims.Total()
    && AttackerBalance(d, d.attacker.valid)
  }

  ghost predicate VerdictBalance(v: VerdictCounters) {
    v.calls == v.allowed + v.denied && v.forced <= v.allowed
  }

  ghost predicate SpoofsBalance(s: State) {
    && SpoofBalance(s.source, Open(s.stack, SourceHeld))
    && SpoofBalance(s.target, Open(s.stack, TargetHeld))
  }

  /** The balances that involve open detours. */
  ghost predicate OpenLedger(w: World, s: State) {
    && FilterBalance(w, s.filter, s.stack, s.seen.finished)
    && SpoofsBalance(s)
    && FriendlyFireBalance(s.friendlyFire, Open(s.stack, VictimHeld))
    && s.bitset.attempts == s.bitset.applied + s.bitset.failures + Open(s.stack, InPrelude)
    && s.depth == Open(s.stack, HasScope)
  }

  ghost predicate Ledger(w: World, s: State) {
    && OpenLedger(w, s)
    && NeutralBalance(s.neutral)
    && DamageBalance(s.damage)
    && VerdictBalance(s.caller)
    && VerdictBalance(s.secondary)
    && s.classifier.applied + s.classifier.skipped == s.classifier.attempts <= s.classifier.calls
  }

  lemma RestingSpoofs(s: State)
    requires s.stack.Idle? && s.source == s.target == SpoofCounters(0, 0, 0, 0, 0)
    ensures SpoofsBalance(s)
  {
  }

  lemma RestingFilter(w: World, s: State)
    requires s.stack.Idle? && s.seen.finished == 0 && s.filter.units.Total() == 0
    requires s.filter.all == s.filter.sameTeam == s.filter.objective == Verdicts(0, 0, 0)
    ensures FilterBalance(w, s.filter, s.stack, s.seen.finished)
  {
  }

  lemma RestingDamage(s: State)
    requires s.stack.Idle? && s.friendlyFire == FriendlyFireCounters(0, Skips(0, 0, 0, 0), 0, 0, 0, 0, 0)
    ensures FriendlyFireBalance(s.friendlyFire, Open(s.stack, VictimHeld))
  {
  }

  lemma RestingOthers(s: State)
    requires s.stack.Idle? && s.depth == 0 && s.bitset == BitsetCounters(0, 0, 0)
    ensures s.bitset.attempts == s.bitset.applied + s.bitset.failures + Open(s.stack, InPrelude)
    ensures s.depth == Open(s.stack, HasScope)
  {
  }

  lemma InitOpenLedger(w: World, setup: Setup, team: map<Entity, Byte>, s: State)
    requires s == Init(setup, team)
    ensures OpenLedger(w, s)
  {
    EmptyTotal(setup.units);
    RestingFilter(w, s);
    RestingSpoofs(s);
    RestingDamage(s);
    RestingOthers(s);
  }

  lemma InitLedger(w: World, setup: Setup, team: map<Entity, Byte>)
    ensures Ledger(w, Init(setup, team))
  {
    var s := Init(setup, team);
    EmptyTotal(setup.teams);
    EmptyTotal(setup.damage);
    InitOpenLedger(w, setup, team, s);
  }

  // ---------------------------------------------------------------- what each part changes

  lemma NeutralizeBalance(w: World, s: State, e: Entity)
    requires NeutralBalance(s.neutral)
    ensures NeutralBalance(Neutralize(w, s, e).neutral)
    ensures Neutralize(w, s, e) == s.(team := Neutralize(w, s, e).team, neutral := Neutralize(w, s, e).neutral,
                                      seen := s.seen.(handed := Neutralize(w, s, e).seen.handed))
  {
    if e in s.team { RecordTotal(s.neutral.teams, s.team[e]); }
  }

  /** The neutraliser touches the team map, its own counters and the observer's set, nothing else. */
  ghost predicate OnlyNeutralized(s: State, s': State) {
    && s' == s.(team := s'.team, neutral := s'.neutral, seen := s.seen.(handed := s'.seen.handed))
    && (NeutralBalance(s.neutral) ==> NeutralBalance(s'.neutral))
  }

  lemma Neutralize1Only(w: World, s: State, a: Entity)
    requires NeutralBalance(s.neutral)
    ensures OnlyNeutralized(s, Neutralize(w, s, a))
  {
    NeutralizeBalance(w, s, a);
  }

  lemma Neutralize2Only(w: World, s: State, a: Entity, b: Entity)
    requires NeutralBalance(s.neutral)
    ensures OnlyNeutralized(s, Neutralize2(w, s, a, b))
  {
    NeutralizeBalance(w, s, a);
    NeutralizeBalance(w, Neutralize(w, s, a), b);
  }

  lemma Neutralize3Only(w: World, s: State, a: Entity, b: Entity, c: Entity)
    requires NeutralBalance(s.neutral)
    ensures OnlyNeutralized(s, Neutralize3(w, s, a, b, c))
  {
    Neutralize2Only(w, s, a, b);
    NeutralizeBalance(w, Neutralize2(w, s, a, b), c);
  }

  lemma CountAttackerBalance(d: DamageCounters, e: Event, attackerTeam: nat, victimTeam: nat, objective: bool, n: nat)
    requires e.EnterDamage? && AttackerBalance(d, n)
    ensures var d' := CountAttacker(d, e, attackerTeam, victimTeam, objective);
            && AttackerBalance(d', n + 1)
            && d' == d.(relations := d'.relations, attackers := d'.attackers, sameTeamVictims := d'.sameTeamVictims)
  {
    RecordTotal(d.attackers, e.attackerUnit);
    RecordTotal(d.sameTeamVictims, e.unit);
  }

  lemma RecordDamageOnly(w: World, s: State, e: Event, recursive: bool)
    requires e.EnterDamage? && NeutralBalance(s.neutral) && DamageBalance(s.damage)
    ensures var s' := RecordDamage(w, s, e, recursive);
            DamageBalance(s'.damage) && OnlyNeutralized(s.(damage := s'.damage), s')
  {
    if w.enabled && !recursive {
      Neutralize1Only(w, s, e.victim);
      var s1 := Neutralize(w, s, e.victim);
      var victimTeam, name := ReadTeam(s1.team, e.victim), NameOf(w, e.victim);
      RecordTotal(s.damage.victims, e.unit);
      CountAttackerBalance(CountVictim(s1.damage, e, victimTeam, name), e,
                           ReadTeam(s1.team, e.attacker), victimTeam, Objective(name), s.damage.attacker.valid);
    }
  }

  /** Scope flags, team map and filter counters of `begin_target_filter`, and nothing else. */
  ghost predicate FilterStarted(w: World, a: FilterCounters, b: FilterCounters, scope: FilterScope) {
    && b.all == a.all.Call(w.enabled)
    && b.units.Total() == a.units.Total() + Bit(w.enabled)
    && b.sameTeam == a.sameTeam.Call(scope.sameTeam)
    && b.objective == a.objective.Call(scope.objective)
  }

  lemma BeginFilterOnly(w: World, s: State, source: Entity, target: Entity, unit: nat)
    requires NeutralBalance(s.neutral)
    ensures var (s', scope) := BeginFilter(w, s, source, target, unit);
            && NeutralBalance(s'.neutral)
            && s' == s.(team := s'.team, neutral := s'.neutral, filter := s'.filter, source := s'.source,
                        target := s'.target, seen := s.seen.(handed := s'.seen.handed))
            && FilterStarted(w, s.filter, s'.filter, scope)
            && SpoofStarted(s.source, s'.source, scope.sourceSpoofed)
            && SpoofStarted(s.target, s'.target, scope.targetSpoofed)
  {
    if w.enabled {
      Neutralize2Only(w, s, source, target);
      RecordTotal(s.filter.units, unit);
    }
  }

  ghost predicate SpoofStarted(a: SpoofCounters, b: SpoofCounters, held: bool) {
    && a.restored == b.restored && a.allowed == b.allowed && a.denied == b.denied
    && b.applied == a.applied + Bit(held) && b.attempts - a.attempts >= Bit(held)
  }

  // ---------------------------------------------------------------- entering

  lemma BeginFriendlyFireOnly(w: World, s: State, e: Entity, recursive: bool)
    requires !FriendlyFireFaults(w, s.team, e, recursive)
    ensures var (s', frame) := BeginFriendlyFire(w, s, e, recursive);
            && frame.DamageFrame?
            && s' == s.(team := s'.team, friendlyFire := s'.friendlyFire)
            && (forall n: nat :: FriendlyFireBalance(s.friendlyFire, n) ==>
                  FriendlyFireBalance(s'.friendlyFire, n + Bit(frame.spoofed)))
  {
  }

  lemma EnterDamageOnly(w: World, s: State, e: Event) returns (frame: Frame)
    requires e.EnterDamage? && !Faults(w, s, e) && NeutralBalance(s.neutral) && DamageBalance(s.damage)
    ensures frame.DamageFrame?
    ensures var s' := Enter(w, s, e);
            && s' == s.(stack := On(frame, s.stack), depth := s.depth + 1, entries := s'.entries,
                        recursiveEntries := s'.recursiveEntries, team := s'.team, neutral := s'.neutral,
                        damage := s'.damage, friendlyFire := s'.friendlyFire,
                        seen := s.seen.(handed := s'.seen.handed))
            && NeutralBalance(s'.neutral) && DamageBalance(s'.damage)
            && (forall n: nat :: FriendlyFireBalance(s.friendlyFire, n) ==>
                  FriendlyFireBalance(s'.friendlyFire, n + Bit(frame.spoofed)))
  {
    var recursive := s.depth != 0;
    RecordDamageOnly(w, EnterScope(s), e, recursive);
    hide RecordDamage, BeginFriendlyFire, FriendlyFireFaults;
    var s1 := RecordDamage(w, EnterScope(s), e, recursive);
    BeginFriendlyFireOnly(w, s1, e.victim, recursive);
    frame := BeginFriendlyFire(w, s1, e.victim, recursive).1;
  }

  lemma LedgerAfterDamage(w: World, s: State, s': State, frame: Frame)
    requires Ledger(w, s) && frame.DamageFrame?
    requires s' == s.(stack := On(frame, s.stack), depth := s.depth + 1, entries := s'.entries,
                      recursiveEntries := s'.recursiveEntries, team := s'.team, neutral := s'.neutral,
                      damage := s'.damage, friendlyFire := s'.friendlyFire,
                      seen := s.seen.(handed := s'.seen.handed))
    requires NeutralBalance(s'.neutral) && DamageBalance(s'.damage)
    requires FriendlyFireBalance(s'.friendlyFire, Open(s.stack, VictimHeld) + Bit(frame.spoofed))
    ensures Ledger(w, s')
  {
  }

  lemma EnterFilterOnly(w: World, s: State, e: Event) returns (frame: Frame)
    requires e.EnterFilter? && NeutralBalance(s.neutral)
    ensures Is(frame, FilterOpen)
    ensures var s' := Enter(w, s, e);
            && s' == s.(stack := On(frame, s.stack), depth := s.depth + 1, entries := s'.entries,
                        recursiveEntries := s'.recursiveEntries, team := s'.team, neutral := s'.neutral,
                        filter := s'.filter, source := s'.source, target := s'.target, bitset := s'.bitset,
                        classifierScope := s'.classifierScope, seen := s'.seen)
            && NeutralBalance(s'.neutral)
            && FilterStarted(w, s.filter, s'.filter, frame.scope)
            && SpoofStarted(s.source, s'.source, frame.scope.sourceSpoofed)
            && SpoofStarted(s.target, s'.target, frame.scope.targetSpoofed)
            && s'.seen.finished == s.seen.finished
            && s'.bitset.attempts - s'.bitset.applied - s'.bitset.failures ==
               s.bitset.attempts - s.bitset.applied - s.bitset.failures + Bit(frame.PreludeFrame?)
  {
    var s0 := EnterScope(s);
    BeginFilterOnly(w, s0, e.source, e.target, e.unit);
    var (s1, scope) := BeginFilter(w, s0, e.source, e.target, e.unit);
    frame := if AsksBitset(w, scope) && e.target != 0 && e.usable then PreludeFrame(scope) else FilterFrame(scope);
  }

  lemma LedgerAfterFilter(w: World, s: State, s': State, frame: Frame)
    requires Ledger(w, s) && Is(frame, FilterOpen)
    requires s' == s.(stack := On(frame, s.stack), depth := s.depth + 1, entries := s'.entries,
                      recursiveEntries := s'.recursiveEntries, team := s'.team, neutral := s'.neutral,
                      filter := s'.filter, source := s'.source, target := s'.target, bitset := s'.bitset,
                      classifierScope := s'.classifierScope, seen := s'.seen)
    requires NeutralBalance(s'.neutral) && FilterStarted(w, s.filter, s'.filter, frame.scope)
    requires SpoofStarted(s.source, s'.source, frame.scope.sourceSpoofed)
    requires SpoofStarted(s.target, s'.target, frame.scope.targetSpoofed)
    requires s'.seen.finished == s.seen.finished
    requires s'.bitset.attempts - s'.bitset.applied - s'.bitset.failures ==
             s.bitset.attempts - s.bitset.applied - s.bitset.failures + Bit(frame.PreludeFrame?)
    ensures Ledger(w, s')
  {
  }

  /** The other detours push a frame and at most neutralise. */
  lemma LedgerAfterPlain(w: World, s: State, s': State, frame: Frame, scoped: nat)
    requires Ledger(w, s) && scoped == Bit(Is(frame, HasScope))
    requires frame.IoFrame? || frame.CallerFrame? || frame.SecondaryFrame? || frame.ClassifierFrame?
    requires s' == s.(stack := On(frame, s.stack), depth := s.depth + scoped, entries := s'.entries,
                      recursiveEntries := s'.recursiveEntries, team := s'.team, neutral := s'.neutral,
                      seen := s.seen.(handed := s'.seen.handed))
    requires NeutralBalance(s'.neutral)
    ensures Ledger(w, s')
  {
  }

  lemma EnterIoLedger(w: World, s: State, e: Event)
    requires Ledger(w, s) && e.EnterIo?
    ensures Ledger(w, Enter(w, s, e))
  {
    Neutralize3Only(w, EnterScope(s), e.self, e.activator, e.caller);
    LedgerAfterPlain(w, s, Enter(w, s, e), IoFrame, 1);
  }

  lemma EnterPlainLedger(w: World, s: State, e: Event, frame: Frame, scoped: nat)
    requires Ledger(w, s) && (e.EnterCaller? || e.EnterSecondary? || e.EnterClassifier?)
    requires frame.CallerFrame? || frame.SecondaryFrame? || frame.ClassifierFrame?
    requires Enter(w, s, e).stack == On(frame, s.stack) &&
             scoped == Bit(!e.EnterClassifier?) == Bit(Is(frame, HasScope))
    ensures Ledger(w, Enter(w, s, e))
  {
    LedgerAfterPlain(w, s, Enter(w, s, e), frame, scoped);
  }

  lemma EnterLedger(w: World, s: State, e: Event)
    requires Ledger(w, s) && !e.Leave? && !Faults(w, s, e)
    ensures Ledger(w, Enter(w, s, e))
  {
    if e.EnterDamage? {
      var frame := EnterDamageOnly(w, s, e);
      LedgerAfterDamage(w, s, Enter(w, s, e), frame);
    } else if e.EnterFilter? {
      var frame := EnterFilterOnly(w, s, e);
      LedgerAfterFilter(w, s, Enter(w, s, e), frame);
    } else if e.EnterIo? {
      EnterIoLedger(w, s, e);
    } else {
      var frame := Enter(w, s, e).stack.top;
      EnterPlainLedger(w, s, e, frame, Bit(!e.EnterClassifier?));
    }
  }

  // ---------------------------------------------------------------- returning

  ghost predicate SpoofEnded(a: SpoofCounters, b: SpoofCounters, held: bool) {
    && b.attempts == a.attempts && b.applied == a.applied
    && b.restored == a.restored + Bit(held)
    && b.allowed + b.denied == a.allowed + a.denied + Bit(held)
  }

  ghost predicate FilterEnded(a: FilterCounters, b: FilterCounters, scope: FilterScope) {
    && b.units == a.units
    && (exists result :: b.all == a.all.Result(true, result))
    && (exists result :: b.sameTeam == a.sameTeam.Result(scope.sameTeam, result))
    && (exists result :: b.objective == a.objective.Result(scope.objective, result))
  }

  /** Every spoof a filter frame holds is restored, whatever the verdict. */
  lemma EndFilterOnly(w: World, s: State, scope: FilterScope, verdict: bool)
    requires ScopeSound(w, s.team, scope)
    ensures var s' := EndFilter(w, s, scope, verdict);
            && s' == s.(team := s'.team, classifierScope := Inactive, filter := s'.filter,
                        source := s'.source, target := s'.target, seen := s'.seen)
            && s'.seen.finished == s.seen.finished + 1
            && FilterEnded(s.filter, s'.filter, scope)
            && SpoofEnded(s.source, s'.source, scope.sourceSpoofed)
            && SpoofEnded(s.target, s'.target, scope.targetSpoofed)
  {
  }

  lemma LedgerAfterFilterEnd(w: World, s: State, s': State, scope: FilterScope)
    requires Ledger(w, s) && s.stack == On(FilterFrame(scope), s'.stack)
    requires s' == s.(stack := s'.stack, depth := s.depth - 1, team := s'.team, classifierScope := Inactive,
                      filter := s'.filter, source := s'.source, target := s'.target, seen := s'.seen)
    requires s'.seen.finished == s.seen.finished + 1
    requires FilterEnded(s.filter, s'.filter, scope)
    requires SpoofEnded(s.source, s'.source, scope.sourceSpoofed)
    requires SpoofEnded(s.target, s'.target, scope.targetSpoofed)
    ensures Ledger(w, s')
  {
  }

  lemma EndFilterLedger(w: World, s: State, e: Event)
    requires Ledger(w, s) && s.stack.On? && e.Leave? && s.stack.top.FilterFrame?
    requires ScopeSound(w, s.team, s.stack.top.scope)
    ensures Ledger(w, Return(w, s, e))
  {
    EndFilterOnly(w, s.(stack := s.stack.rest), s.stack.top.scope, e.verdict);
    LedgerAfterFilterEnd(w, s, Return(w, s, e), s.stack.top.scope);
  }

  /** The prelude turns into the running filter; what it holds stays held. */
  lemma EndPreludeLedger(w: World, s: State, e: Event)
    requires Ledger(w, s) && s.stack.On? && e.Leave? && s.stack.top.PreludeFrame?
    ensures Ledger(w, Return(w, s, e))
  {
  }

  lemma LedgerAfterRecord(w: World, s: State, s': State, frame: Frame, scoped: nat)
    requires Ledger(w, s) && s.stack == On(frame, s'.stack) && scoped == Bit(Is(frame, HasScope))
    requires !Is(frame, FilterOpen)
    requires s' == s.(stack := s'.stack, depth := s'.depth, team := s'.team, neutral := s'.neutral,
                      caller := s'.caller, secondary := s'.secondary, classifier := s'.classifier,
                      friendlyFire := s'.friendlyFire, seen := s.seen.(handed := s'.seen.handed))
    requires s'.depth == s.depth - scoped
    requires NeutralBalance(s'.neutral) && VerdictBalance(s'.caller) && VerdictBalance(s'.secondary)
    requires s'.classifier.applied + s'.classifier.skipped == s'.classifier.attempts <= s'.classifier.calls
    requires FriendlyFireBalance(s'.friendlyFire, Open(s.stack, VictimHeld) - Bit(Is(frame, VictimHeld)))
    ensures Ledger(w, s')
  {
  }

  lemma EndDamageLedger(w: World, s: State, e: Event)
    requires Ledger(w, s) && s.stack.On? && e.Leave? && (s.stack.top.DamageFrame? || s.stack.top.IoFrame?)
    requires Is(s.stack.top, VictimHeld) ==> s.stack.top.victim != 0
    ensures Ledger(w, Return(w, s, e))
  {
    LedgerAfterRecord(w, s, Return(w, s, e), s.stack.top, 1);
  }

  lemma EndCallerLedger(w: World, s: State, e: Event)
    requires Ledger(w, s) && s.stack.On? && e.Leave? && s.stack.top.CallerFrame?
    ensures Ledger(w, Return(w, s, e))
  {
    Neutralize2Only(w, s.(stack := s.stack.rest), s.stack.top.source, s.stack.top.target);
    LedgerAfterRecord(w, s, Return(w, s, e), s.stack.top, 1);
  }

  lemma EndSecondaryLedger(w: World, s: State, e: Event)
    requires Ledger(w, s) && s.stack.On? && e.Leave? && s.stack.top.SecondaryFrame?
    ensures Ledger(w, Return(w, s, e))
  {
    Neutralize3Only(w, s.(stack := s.stack.rest), s.stack.top.source, s.stack.top.attacker, s.stack.top.target);
    LedgerAfterRecord(w, s, Return(w, s, e), s.stack.top, 1);
  }

  lemma EndClassifierLedger(w: World, s: State, e: Event)
    requires Ledger(w, s) && s.stack.On? && e.Leave? && s.stack.top.ClassifierFrame?
    ensures Ledger(w, Return(w, s, e))
  {
    Neutralize1Only(w, s.(stack := s.stack.rest), s.stack.top.target);
    LedgerAfterRecord(w, s, Return(w, s, e), s.stack.top, 0);
  }

  lemma ReturnLedger(w: World, s: State, e: Event)
    requires Ledger(w, s) && s.stack.On? && e.Leave? && FrameSound(w, s.team, s.stack.top)
    ensures Ledger(w, Return(w, s, e))
  {
    match s.stack.top
    case FilterFrame(_) => EndFilterLedger(w, s, e);
    case PreludeFrame(_) => EndPreludeLedger(w, s, e);
    case CallerFrame(_, _, _) => EndCallerLedger(w, s, e);
    case SecondaryFrame(_, _, _, _) => EndSecondaryLedger(w, s, e);
    case ClassifierFrame(_, _) => EndClassifierLedger(w, s, e);
    case _ => EndDamageLedger(w, s, e);
  }

  lemma StepLedger(w: World, init: map<Entity, Byte>, s: State, e: Event)
    requires TeamInv(w, init, s) && Ledger(w, s) && !Faults(w, s, e)
    ensures Ledger(w, Step(w, s, e))
  {
    if !e.Leave? {
      EnterLedger(w, s, e);
    } else if s.stack.On? {
      assert FrameSound(w, init, s.stack.top);
      ReturnLedger(w, s, e);
    }
  }
}
