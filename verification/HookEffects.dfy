/** What one half of a detour does, told from the settings, the team bytes and the names alone. */
module HookEffects {
  import opened Common
  import opened DesignerNames
  import opened HookModel

  // ---------------------------------------------------------------- what the code reads

  /** The team byte of an entity can be read. */
  predicate Known(team: map<Entity, Byte>, e: Entity) { e != 0 && e in team }

  /** The byte an entity has once the neutraliser has had it. */
  function Seen(w: World, team: map<Entity, Byte>, e: Entity): Byte
    requires Known(team, e)
  {
    if w.enabled && w.globalNeutralize && w.neutralTeam <= 255 && e !in w.readonly then w.neutralTeam else team[e]
  }

  /** Both can be read, and the neutraliser leaves them with one byte. */
  predicate SameSide(w: World, team: map<Entity, Byte>, a: Entity, b: Entity) {
    Known(team, a) && Known(team, b) && Seen(w, team, a) == Seen(w, team, b)
  }

  predicate SameByte(team: map<Entity, Byte>, a: Entity, b: Entity) {
    Known(team, a) && Known(team, b) && team[a] == team[b]
  }

  predicate NamedObjective(w: World, e: Entity) {
    e != 0 && e in w.identity && w.identity[e].Named? && w.identity[e].objective
  }

  // ---------------------------------------------------------------- team bytes

  lemma NeutralizeTeams(w: World, s: State, a: Entity)
    ensures Neutralize(w, s, a).team.Keys == s.team.Keys
    ensures forall e | e in s.team ::
              Neutralize(w, s, a).team[e] == if e == a && e != 0 then Seen(w, s.team, e) else s.team[e]
    ensures Neutralize(w, s, a).depth == s.depth
  {
  }

  lemma Neutralize2Teams(w: World, s: State, a: Entity, b: Entity)
    ensures Neutralize2(w, s, a, b).team.Keys == s.team.Keys
    ensures forall e | e in s.team ::
              Neutralize2(w, s, a, b).team[e] == if (e == a || e == b) && e != 0 then Seen(w, s.team, e) else s.team[e]
  {
    NeutralizeTeams(w, s, a);
    NeutralizeTeams(w, Neutralize(w, s, a), b);
    hide Neutralize;
  }

  /** The source of a same-team call is spoofed to the other of 2 and 3. */
  predicate SourceChanges(w: World, team: map<Entity, Byte>, source: Entity, target: Entity) {
    && w.enabled && w.sourceSpoof && source != target && SameSide(w, team, source, target) && source !in w.readonly
    && (Seen(w, team, source) == 2 || Seen(w, team, source) == 3)
  }

  /** The target of a same-team call is spoofed. */
  predicate TargetChanges(w: World, team: map<Entity, Byte>, source: Entity, target: Entity) {
    w.enabled && w.targetSpoof && source != target && SameSide(w, team, source, target) && target !in w.readonly
  }

  /** The byte of an entity while the original filter runs: a source on team 2 of a same-team call is on 3,
      and one on 3 is on 2; the target is on the configured team, or on the other side if that is no byte;
      whatever else the neutraliser was given is neutral; nothing else has changed. */
  function UnderFilter(w: World, team: map<Entity, Byte>, source: Entity, target: Entity, e: Entity): Byte
    requires e in team
  {
    if e == source && SourceChanges(w, team, source, target) then 5 - Seen(w, team, source)
    else if e == target && TargetChanges(w, team, source, target) then
      if w.targetSpoofTeam <= 255 then w.targetSpoofTeam
      else if Seen(w, team, target) == 2 then 3 else if Seen(w, team, target) == 3 then 2 else 0
    else if w.enabled && (e == source || e == target) && e != 0 then Seen(w, team, e)
    else team[e]
  }

  lemma BeginFilterTeams(w: World, s: State, source: Entity, target: Entity, unit: nat)
    ensures var (s', scope) := BeginFilter(w, s, source, target, unit);
            && s'.team.Keys == s.team.Keys
            && forall e | e in s.team :: s'.team[e] == UnderFilter(w, s.team, source, target, e)
  {
    Neutralize2Teams(w, s, source, target);
    hide Neutralize2;
  }

  /** What the original filter finds in the team bytes. */
  lemma FilterTeams(w: World, s: State, source: Entity, target: Entity, unit: nat, usable: bool)
    ensures var s' := Step(w, s, EnterFilter(source, target, unit, usable));
            && s'.team.Keys == s.team.Keys
            && forall e | e in s.team :: s'.team[e] == UnderFilter(w, s.team, source, target, e)
  {
    BeginFilterTeams(w, EnterScope(s), source, target, unit);
    hide BeginFilter, UnderFilter;
  }

  /** The byte of the victim when the damage detour looks at it. */
  function VictimByte(w: World, s: State, victim: Entity): Byte
    requires Known(s.team, victim)
  {
    if s.depth == 0 then Seen(w, s.team, victim) else s.team[victim]
  }

  /** Friendly fire strikes: an objective hit by a call that is not nested, on the local team if there is
      one, and on team 2 or 3. */
  predicate VictimChanges(w: World, s: State, victim: Entity) {
    && w.friendlyFire && s.depth == 0 && NamedObjective(w, victim) && Known(s.team, victim)
    && (w.friendlyFireLocalTeam == 0 || VictimByte(w, s, victim) == w.friendlyFireLocalTeam % 256)
    && (VictimByte(w, s, victim) == 2 || VictimByte(w, s, victim) == 3)
  }

  lemma RecordDamageTeams(w: World, s: State, e: Event, recursive: bool)
    requires e.EnterDamage?
    ensures var s' := RecordDamage(w, s, e, recursive);
            && s'.team.Keys == s.team.Keys
            && forall x | x in s.team ::
                 s'.team[x] == if x == e.victim && x != 0 && !recursive then Seen(w, s.team, x) else s.team[x]
  {
    NeutralizeTeams(w, s, e.victim);
    hide Neutralize, CountVictim, CountAttacker;
  }

  /** Entering a damage detour faults exactly if the friendly-fire code reads the byte of an objective
      that cannot be read, or changes one that cannot be written. */
  lemma FaultsExactly(w: World, s: State, e: Event)
    ensures Faults(w, s, e) <==>
            && e.EnterDamage? && w.friendlyFire && s.depth == 0 && NamedObjective(w, e.victim)
            && (!Known(s.team, e.victim) || (VictimChanges(w, s, e.victim) && e.victim in w.readonly))
  {
    if e.EnterDamage? { RecordDamageTeams(w, EnterScope(s), e, s.depth != 0); }
    hide RecordDamage;
  }

  /** What the original damage function finds in the team bytes: the victim of friendly fire is on the
      other of 2 and 3; a victim given to the neutraliser is neutral; nothing else has changed. */
  lemma DamageTeams(w: World, s: State, e: Event)
    requires e.EnterDamage? && !Faults(w, s, e)
    ensures var s' := Step(w, s, e);
            && s'.team.Keys == s.team.Keys
            && forall x | x in s.team ::
                 s'.team[x] == if x == e.victim && x != 0 && VictimChanges(w, s, x) then 5 - VictimByte(w, s, x)
                               else if x == e.victim && x != 0 then VictimByte(w, s, x)
                               else s.team[x]
  {
    RecordDamageTeams(w, EnterScope(s), e, s.depth != 0);
    hide RecordDamage, Seen;
  }

  // ---------------------------------------------------------------- scopes and questions

  /** What a filter call is taken for: same-team and objective, from the bytes and the name. */
  lemma BeginFilterFinds(w: World, s: State, source: Entity, target: Entity, unit: nat)
    ensures var scope := BeginFilter(w, s, source, target, unit).1;
            && scope.sameTeam == (w.enabled && SameSide(w, s.team, source, target))
            && scope.objective == (w.enabled && NamedObjective(w, target))
            && (w.enabled ==> scope.source == source && scope.target == target)
            && (!w.enabled ==> !scope.sourceSpoofed && !scope.targetSpoofed)
  {
    Neutralize2Teams(w, s, source, target);
    hide Neutralize2;
  }

  predicate Concerned(w: World, team: map<Entity, Byte>, source: Entity, target: Entity) {
    w.enabled && (SameSide(w, team, source, target) || NamedObjective(w, target))
  }

  /** A filter call asks for a bitset bit exactly if bits are allowed or the simulation is on, the call is
      same-team or about an objective, and no pointer is null. Otherwise it runs at once, with a
      classifier scope exactly if one is configured with a bit up to 31. */
  lemma FilterStartsExactly(w: World, s: State, source: Entity, target: Entity, unit: nat, usable: bool)
    ensures var s' := Step(w, s, EnterFilter(source, target, unit, usable));
            && s'.stack.On? && s'.stack.rest == s.stack
            && (s'.stack.top.PreludeFrame? || s'.stack.top.FilterFrame?)
            && (s'.stack.top.PreludeFrame? <==>
                (w.bitsetAllow || w.neutralSimulation) && Concerned(w, s.team, source, target) && target != 0 && usable)
            && s'.stack.top.scope.sameTeam == (w.enabled && SameSide(w, s.team, source, target))
            && s'.stack.top.scope.objective == (w.enabled && NamedObjective(w, target))
            && (s'.stack.top.FilterFrame? ==>
                s'.classifierScope == if w.classifierSpoof && w.classifierBit <= 31 && target != 0 &&
                                         Concerned(w, s.team, source, target)
                                      then Active(target, w.classifierBit) else Inactive)
  {
    BeginFilterFinds(w, EnterScope(s), source, target, unit);
    FilterStack(w, EnterScope(s), source, target, unit);
    hide BeginFilter, SameSide, NamedObjective;
  }

  lemma FilterStack(w: World, s: State, source: Entity, target: Entity, unit: nat)
    ensures BeginFilter(w, s, source, target, unit).0.stack == s.stack
    ensures w.enabled ==> BeginFilter(w, s, source, target, unit).1.target == target
  {
    hide Neutralize;
    NeutralizeStack(w, s, source);
    NeutralizeStack(w, Neutralize(w, s, source), target);
  }

  lemma NeutralizeStack(w: World, s: State, e: Entity)
    ensures var s' := Neutralize(w, s, e);
            && s'.stack == s.stack && s'.depth == s.depth && s'.entries == s.entries
            && s'.recursiveEntries == s.recursiveEntries
  {
  }

  // ---------------------------------------------------------------- verdicts

  /** The verdict of the filter is forced exactly for a same-team call if that is set or the simulation
      is on, and for a call about an objective if that is set or the simulation is on. */
  lemma FilterForcedExactly(w: World, scope: FilterScope)
    ensures ForcedFilter(w, scope) <==>
            || (scope.sameTeam && w.forceFilterSameTeam) || (scope.objective && w.forceFilterObjective)
            || ((scope.sameTeam || scope.objective) && w.neutralSimulation)
    ensures !w.forceFilterSameTeam && !w.forceFilterObjective && !w.neutralSimulation ==> !ForcedFilter(w, scope)
    ensures w.neutralSimulation ==> (ForcedFilter(w, scope) <==> scope.sameTeam || scope.objective)
    ensures w.forceFilterSameTeam && !w.forceFilterObjective && !w.neutralSimulation ==>
            (ForcedFilter(w, scope) <==> scope.sameTeam)
    ensures !w.forceFilterSameTeam && w.forceFilterObjective && !w.neutralSimulation ==>
            (ForcedFilter(w, scope) <==> scope.objective)
  {
  }

  /** The same for the verdict of the caller, by its own two settings. */
  lemma CallerForcedExactly(w: World, team: map<Entity, Byte>, source: Entity, target: Entity)
    ensures ForcedCaller(w, Classify(w, team, source, target)) <==>
            || (SameByte(team, source, target) && (w.forceCallerSameTeam || w.neutralSimulation))
            || (NamedObjective(w, target) && (w.forceCallerObjective || w.neutralSimulation))
  {
  }

  lemma SecondaryForcedExactly(w: World)
    ensures ForcedSecondary(w) <==> w.forceSecondary || w.neutralSimulation
  {
  }

  // ---------------------------------------------------------------- counters

  /** A counter array has counted one value: in its own place, or as overflow. */
  predicate CountedIn(before: Histogram, after: Histogram, value: nat) {
    if value < |before.counts|
    then after.overflow == before.overflow && after.counts == before.counts[value := before.counts[value] + 1]
    else after.overflow == before.overflow + 1 && after.counts == before.counts
  }

  /** The three name counters have counted the name of an entity; one without a name counts nowhere. */
  predicate NameCounted(w: World, e: Entity, before: NameCounters, after: NameCounters) {
    var named := e != 0 && e in w.identity && w.identity[e].Named?;
    && after.objective == before.objective + Bit(named && w.identity[e].objective)
    && after.neutral == before.neutral + Bit(named && w.identity[e].neutral)
    && after.midboss == before.midboss + Bit(named && w.identity[e].midboss)
  }

  /** The counters of a filter call that has been entered. */
  predicate FilterCounted(w: World, team: map<Entity, Byte>, source: Entity, target: Entity, unit: nat,
                          a: FilterCounters, b: FilterCounters)
  {
    && b.all == Verdicts(a.all.calls + 1, a.all.allowed, a.all.denied)
    && b.sameTeam == Verdicts(a.sameTeam.calls + Bit(SameSide(w, team, source, target)),
                              a.sameTeam.allowed, a.sameTeam.denied)
    && b.objective == Verdicts(a.objective.calls + Bit(NamedObjective(w, target)),
                               a.objective.allowed, a.objective.denied)
    && NameCounted(w, target, a.names, b.names) && b.forcedAllowed == a.forcedAllowed
    && b.invalidSource == a.invalidSource + Bit(!Known(team, source))
    && b.invalidTarget == a.invalidTarget + Bit(!Known(team, target))
    && CountedIn(a.units, b.units, unit)
  }

  /** The spoofs tried and made. */
  predicate SpoofsCounted(w: World, s: State, source: Entity, target: Entity, s': State) {
    var both := source != target && SameSide(w, s.team, source, target);
    && s'.source == s.source.(
         attempts := s.source.attempts + Bit(w.sourceSpoof && both &&
                                             (Seen(w, s.team, source) == 2 || Seen(w, s.team, source) == 3)),
         applied := s.source.applied + Bit(SourceChanges(w, s.team, source, target)))
    && s'.target == s.target.(
         attempts := s.target.attempts + Bit(w.targetSpoof && both),
         applied := s.target.applied + Bit(TargetChanges(w, s.team, source, target)))
  }

  lemma BeginFilterCounts(w: World, s: State, source: Entity, target: Entity, unit: nat)
    requires w.enabled
    ensures var s' := BeginFilter(w, s, source, target, unit).0;
            FilterCounted(w, s.team, source, target, unit, s.filter, s'.filter) && s'.bitset == s.bitset
  {
    Neutralize2Teams(w, s, source, target);
    Neutralize2Filter(w, s, source, target);
    hide Neutralize2;
  }

  lemma Neutralize2Filter(w: World, s: State, a: Entity, b: Entity)
    ensures var s' := Neutralize2(w, s, a, b);
            s'.filter == s.filter && s'.bitset == s.bitset && s'.source == s.source && s'.target == s.target
  {
  }

  lemma BeginSpoofCounts(w: World, s: State, source: Entity, target: Entity, unit: nat)
    requires w.enabled
    ensures var s' := BeginFilter(w, s, source, target, unit).0;
            SpoofsCounted(w, s, source, target, s')
  {
    Neutralize2Teams(w, s, source, target);
    Neutralize2Filter(w, s, source, target);
    hide Neutralize2;
  }

  /** What entering a filter call counts with the probe enabled. */
  lemma FilterCounts(w: World, s: State, source: Entity, target: Entity, unit: nat, usable: bool)
    requires w.enabled
    ensures var s' := Step(w, s, EnterFilter(source, target, unit, usable));
            FilterCounted(w, s.team, source, target, unit, s.filter, s'.filter)
    ensures var s' := Step(w, s, EnterFilter(source, target, unit, usable));
            SpoofsCounted(w, s, source, target, s')
    ensures var s' := Step(w, s, EnterFilter(source, target, unit, usable));
            var asks := (w.bitsetAllow || w.neutralSimulation) && Concerned(w, s.team, source, target);
            && s'.bitset.attempts == s.bitset.attempts + Bit(asks) && s'.bitset.applied == s.bitset.applied
            && s'.bitset.failures == s.bitset.failures + Bit(asks && (target == 0 || !usable))
            && s'.depth == s.depth + 1 && s'.entries == s.entries + 1
            && s'.recursiveEntries == s.recursiveEntries + Bit(s.depth > 0)
  {
    var s0 := EnterScope(s);
    BeginFilterCounts(w, s0, source, target, unit);
    BeginSpoofCounts(w, s0, source, target, unit);
    BeginFilterFinds(w, s0, source, target, unit);
    BeginDepth(w, s0, source, target, unit);
    hide BeginFilter, SameSide, NamedObjective, FilterCounted, SourceChanges, TargetChanges;
  }

  lemma BeginDepth(w: World, s: State, source: Entity, target: Entity, unit: nat)
    ensures var s' := BeginFilter(w, s, source, target, unit).0;
            s'.depth == s.depth && s'.entries == s.entries && s'.recursiveEntries == s.recursiveEntries
  {
    hide Neutralize;
    NeutralizeStack(w, s, source);
    NeutralizeStack(w, Neutralize(w, s, source), target);
  }

  /** A spoof held by the scope has been counted as undone, with the answer that the call gave. */
  predicate UndoCounted(before: SpoofCounters, after: SpoofCounters, held: bool, answer: bool, written: bool) {
    && after.attempts == before.attempts && after.applied == before.applied
    && after.allowed == before.allowed + Bit(held && answer) && after.denied == before.denied + Bit(held && !answer)
    && after.restored == before.restored + Bit(held && written)
  }

  /** The counters of a filter call that has returned with an answer to a verdict of its original. */
  predicate AnswerCounted(w: World, team: map<Entity, Byte>, scope: FilterScope, verdict: bool, answer: bool,
                          a: FilterCounters, b: FilterCounters, source: SpoofCounters, source': SpoofCounters,
                          target: SpoofCounters, target': SpoofCounters)
  {
    && b.all == Verdicts(a.all.calls, a.all.allowed + Bit(answer), a.all.denied + Bit(!answer))
    && b.sameTeam == Verdicts(a.sameTeam.calls, a.sameTeam.allowed + Bit(scope.sameTeam && answer),
                              a.sameTeam.denied + Bit(scope.sameTeam && !answer))
    && b.objective == Verdicts(a.objective.calls, a.objective.allowed + Bit(scope.objective && answer),
                               a.objective.denied + Bit(scope.objective && !answer))
    && b.forcedAllowed == a.forcedAllowed + Bit(answer && !verdict)
    && UndoCounted(source, source', scope.sourceSpoofed && scope.source != 0, answer,
                   scope.source in team && scope.source !in w.readonly)
    && UndoCounted(target, target', scope.targetSpoofed && scope.target != 0, answer,
                   scope.target in team && scope.target !in w.readonly)
  }

  lemma WriteKeys(w: World, team: map<Entity, Byte>, e: Entity, value: Byte)
    ensures WriteTeam(w, team, e, value).Keys == team.Keys
  {
  }

  lemma EndFilterCounts(w: World, s: State, scope: FilterScope, verdict: bool)
    ensures var s' := EndFilter(w, s, scope, verdict);
            && AnswerCounted(w, s.team, scope, verdict, verdict || ForcedFilter(w, scope), s.filter, s'.filter,
                             s.source, s'.source, s.target, s'.target)
            && s'.classifierScope == Inactive
  {
    WriteKeys(w, s.team, scope.source, scope.sourceTeam);
    hide ForcedFilter, WriteTeam;
  }

  /** What the return of a filter call counts: its answer, which is the verdict of the original unless
      that is turned into an allowance. */
  lemma FilterReturnCounts(w: World, s: State, scope: FilterScope, rest: Stack, e: Event)
    requires e.Leave? && s.stack == On(FilterFrame(scope), rest)
    ensures var answer := || e.verdict || (scope.sameTeam && w.forceFilterSameTeam)
                          || (scope.objective && w.forceFilterObjective)
                          || ((scope.sameTeam || scope.objective) && w.neutralSimulation);
            var s' := Step(w, s, e);
            && AnswerCounted(w, s.team, scope, e.verdict, answer, s.filter, s'.filter, s.source, s'.source,
                             s.target, s'.target)
            && s'.classifierScope == Inactive
  {
    FilterForcedExactly(w, scope);
    EndFilterCounts(w, s.(stack := rest), scope, e.verdict);
    FilterReturns(w, s, scope, rest, e);
    hide ForcedFilter, EndFilter, Step, AnswerCounted;
  }

  lemma FilterReturns(w: World, s: State, scope: FilterScope, rest: Stack, e: Event)
    requires e.Leave? && s.stack == On(FilterFrame(scope), rest)
    ensures Step(w, s, e) == LeaveScope(EndFilter(w, s.(stack := rest), scope, e.verdict))
  {
    hide EndFilter, Enter, LeaveScope;
  }

  /** What has been recorded of the damage of one call: relations are told from the two bytes, and 2 and
      3 oppose each other. */
  predicate DamageCounted(w: World, team: map<Entity, Byte>, e: Event, a: DamageCounters, b: DamageCounters)
    requires e.EnterDamage?
  {
    var known := Known(team, e.attacker) && Known(team, e.victim);
    var mine := if !known then 0 else if e.attacker == e.victim then Seen(w, team, e.victim) else team[e.attacker];
    var theirs := if known then Seen(w, team, e.victim) else 0;
    var same := known && mine == theirs;
    var opposing := known && ((mine == 2 && theirs == 3) || (mine == 3 && theirs == 2));
    && b.calls == a.calls + 1 && b.invalidTeam == a.invalidTeam + Bit(!Known(team, e.victim))
    && CountedIn(a.victims, b.victims, e.unit) && NameCounted(w, e.victim, a.names, b.names)
    && b.attacker == Handles(a.attacker.valid + Bit(e.attacker != 0), a.attacker.invalid + Bit(e.attacker == 0))
    && b.inflictor == Handles(a.inflictor.valid + Bit(e.inflictorValid), a.inflictor.invalid + Bit(!e.inflictorValid))
    && (e.attacker == 0 ==>
          b.relations == a.relations && b.attackers == a.attackers && b.sameTeamVictims == a.sameTeamVictims)
    && (e.attacker != 0 ==>
          && b.relations == Relations(a.relations.same + Bit(same), a.relations.opposing + Bit(opposing),
                                      a.relations.other + Bit(!same && !opposing),
                                      a.relations.self + Bit(e.attacker == e.victim),
                                      a.relations.sameObjective + Bit(same && NamedObjective(w, e.victim)))
          && CountedIn(a.attackers, b.attackers, e.attackerUnit)
          && if same then CountedIn(a.sameTeamVictims, b.sameTeamVictims, e.unit)
             else b.sameTeamVictims == a.sameTeamVictims)
  }

  /** What entering a damage detour records, if the probe is enabled and the call is not nested. */
  lemma DamageCounts(w: World, s: State, e: Event)
    requires e.EnterDamage? && w.enabled && s.depth == 0 && !Faults(w, s, e)
    ensures DamageCounted(w, s.team, e, s.damage, Step(w, s, e).damage)
  {
    RecordDamageCounts(w, EnterScope(s), e);
    hide RecordDamage, DamageCounted, FriendlyFireFaults;
  }

  lemma RecordDamageCounts(w: World, s: State, e: Event)
    requires e.EnterDamage? && w.enabled
    ensures DamageCounted(w, s.team, e, s.damage, RecordDamage(w, s, e, false).damage)
  {
    NeutralizeTeams(w, s, e.victim);
    NeutralizeDamage(w, s, e.victim);
    hide Neutralize, Seen;
  }

  lemma NeutralizeDamage(w: World, s: State, a: Entity)
    ensures Neutralize(w, s, a).damage == s.damage && Neutralize(w, s, a).caller == s.caller
    ensures Neutralize(w, s, a).secondary == s.secondary && Neutralize(w, s, a).classifier == s.classifier
    ensures Neutralize(w, s, a).classifierScope == s.classifierScope
  {
  }

  /** What the friendly-fire code counts of a damage call: the first test that it fails, or its attempt. */
  lemma FriendlyFireCounts(w: World, s: State, e: Event)
    requires e.EnterDamage? && w.friendlyFire && !Faults(w, s, e)
    ensures var v, nested := e.victim, s.depth != 0;
            var anonymous := v == 0 || v !in w.identity;
            var nameless := !anonymous && w.identity[v].Missing?;
            var candidate := !nested && NamedObjective(w, v);
            var local := candidate && Known(s.team, v) &&
                         (w.friendlyFireLocalTeam == 0 || VictimByte(w, s, v) == w.friendlyFireLocalTeam % 256);
            var strikes := VictimChanges(w, s, v);
            var a, b := s.friendlyFire, Step(w, s, e).friendlyFire;
            && b.callbacks == a.callbacks + 1 && b.restored == a.restored
            && b.skips == Skips(a.skips.recursive + Bit(nested),
                                a.skips.missingIdentity + Bit(!nested && anonymous),
                                a.skips.missingName + Bit(!nested && nameless),
                                a.skips.nonObjective + Bit(!nested && !anonymous && !nameless && !candidate))
            && b.candidates == a.candidates + Bit(candidate)
            && b.invalidTeam == a.invalidTeam + Bit(local && !strikes)
            && b.attempts == a.attempts + Bit(strikes) && b.applied == a.applied + Bit(strikes)
  {
    RecordDamageTeams(w, EnterScope(s), e, s.depth != 0);
    RecordDamageFire(w, EnterScope(s), e, s.depth != 0);
    hide RecordDamage, Seen;
  }

  lemma RecordDamageFire(w: World, s: State, e: Event, recursive: bool)
    requires e.EnterDamage?
    ensures RecordDamage(w, s, e, recursive).friendlyFire == s.friendlyFire
  {
  }

  /** The bit found for a bitset counts as applied exactly if it is valid and below 0x40000. */
  lemma BitsetReturnCounts(w: World, s: State, scope: FilterScope, rest: Stack, e: Event)
    requires e.Leave? && s.stack == On(PreludeFrame(scope), rest)
    ensures var good := e.bit != 0xffff_ffff && e.bit < 0x4_0000;
            Step(w, s, e).bitset == BitsetCounters(s.bitset.attempts, s.bitset.applied + Bit(good),
                                                   s.bitset.failures + Bit(!good))
  {
  }

  /** What the return of the caller detour counts, if the probe is enabled and the call was not nested. */
  lemma CallerReturnCounts(w: World, s: State, source: Entity, target: Entity, rest: Stack, e: Event)
    requires e.Leave? && s.stack == On(CallerFrame(source, target, false), rest) && w.enabled
    ensures var forced := || (SameSide(w, s.team, source, target) && (w.forceCallerSameTeam || w.neutralSimulation))
                          || (NamedObjective(w, target) && (w.forceCallerObjective || w.neutralSimulation));
            var a := s.caller;
            Step(w, s, e).caller ==
            VerdictCounters(a.calls + 1, a.allowed + Bit(e.verdict || forced), a.denied + Bit(!e.verdict && !forced),
                            a.forced + Bit(!e.verdict && forced), a.bypass + Bit(e.unit == 0x1a))
  {
    var popped := s.(stack := rest);
    Neutralize2Teams(w, popped, source, target);
    NeutralizeDamage(w, popped, source);
    NeutralizeDamage(w, Neutralize(w, popped, source), target);
  }

  lemma SecondaryReturnCounts(w: World, s: State, source: Entity, attacker: Entity, target: Entity, rest: Stack,
                              e: Event)
    requires e.Leave? && s.stack == On(SecondaryFrame(source, attacker, target, false), rest) && w.enabled
    ensures var forced, a := w.forceSecondary || w.neutralSimulation, s.secondary;
            Step(w, s, e).secondary ==
            VerdictCounters(a.calls + 1, a.allowed + Bit(e.verdict || forced), a.denied + Bit(!e.verdict && !forced),
                            a.forced + Bit(!e.verdict && forced), a.bypass)
  {
    var popped := s.(stack := rest);
    hide Neutralize;
    NeutralizeDamage(w, popped, source);
    NeutralizeDamage(w, Neutralize(w, popped, source), attacker);
    NeutralizeDamage(w, Neutralize2(w, popped, source, attacker), target);
  }

  /** What the return of the classifier detour counts: an attempt for a scope on this target, applied
      exactly if its bit is at most 31. */
  lemma ClassifierReturnCounts(w: World, s: State, target: Entity, out: bool, rest: Stack, e: Event)
    requires e.Leave? && s.stack == On(ClassifierFrame(target, out), rest) && w.enabled
    ensures var met := out && s.classifierScope.Active? && s.classifierScope.target == target;
            var fits := met && s.classifierScope.bit <= 31;
            var a := s.classifier;
            && Step(w, s, e).classifier ==
               ClassifierCounters(a.calls + 1, a.invalid + Bit(!out || e.bit == 0xffff_ffff), a.attempts + Bit(met),
                                  a.applied + Bit(fits), a.skipped + Bit(met && !fits))
            && Answer(w, s, target, out, e.bit) == if fits then s.classifierScope.bit else e.bit
  {
    NeutralizeDamage(w, s.(stack := rest), target);
    hide Neutralize;
  }

  // ---------------------------------------------------------------- the neutraliser

  /** Each case of the neutraliser has its counter. */
  lemma NeutralizeCounts(w: World, s: State, e: Entity)
    ensures var on := w.enabled && w.globalNeutralize;
            var known := on && Known(s.team, e);
            var differs := known && s.team[e] != w.neutralTeam;
            var written := differs && w.neutralTeam <= 255 && e !in w.readonly;
            var a, b := s.neutral, Neutralize(w, s, e).neutral;
            && b.attempts == a.attempts + Bit(on) && b.nulls == a.nulls + Bit(on && e == 0)
            && b.invalidTeam == a.invalidTeam + Bit(on && e != 0 && !known)
            && b.already == a.already + Bit(known && !differs)
            && b.applied == a.applied + Bit(written) && b.writeFailures == a.writeFailures + Bit(differs && !written)
            && (if known then CountedIn(a.teams, b.teams, s.team[e]) else b.teams == a.teams)
  {
  }

  /** The neutraliser has had these entities, and no other byte has changed. */
  predicate Given(w: World, s: State, s': State, es: seq<Entity>) {
    && s'.team.Keys == s.team.Keys
    && (forall e | e in s.team :: s'.team[e] == if e in es && e != 0 then Seen(w, s.team, e) else s.team[e])
    && s'.neutral.attempts == s.neutral.attempts + (if w.enabled && w.globalNeutralize then |es| else 0)
  }

  lemma GivenOne(w: World, s: State, a: Entity)
    ensures Given(w, s, Neutralize(w, s, a), [a])
  {
    NeutralizeTeams(w, s, a);
  }

  lemma GivenThree(w: World, s: State, a: Entity, b: Entity, c: Entity)
    ensures Given(w, s, Neutralize2(w, s, a, b), [a, b])
    ensures Given(w, s, Neutralize3(w, s, a, b, c), [a, b, c])
  {
    GivenOne(w, s, a);
    GivenOne(w, Neutralize(w, s, a), b);
    GivenOne(w, Neutralize2(w, s, a, b), c);
    hide Neutralize;
  }

  /** An input or output call that is not nested gives its three entities to the neutraliser; entering
      the caller, secondary and classifier detours changes no team byte. */
  lemma EntersGive(w: World, s: State, e: Event)
    requires e.EnterIo? || e.EnterCaller? || e.EnterSecondary? || e.EnterClassifier?
    ensures Given(w, s, Step(w, s, e), if e.EnterIo? && s.depth == 0 then [e.self, e.activator, e.caller] else [])
  {
    if e.EnterIo? { GivenThree(w, EnterScope(s), e.self, e.activator, e.caller); }
    hide Neutralize3, Seen;
  }

  /** The caller and secondary detours give theirs when they return, unless they were nested; the
      classifier detour always does. */
  lemma ReturnsGive(w: World, s: State, rest: Stack, e: Event)
    requires e.Leave? && s.stack.On? && s.stack.rest == rest
    ensures match s.stack.top
            case CallerFrame(source, target, nested) =>
              Given(w, s, Step(w, s, e), if w.enabled && !nested then [source, target] else [])
            case SecondaryFrame(source, attacker, target, nested) =>
              Given(w, s, Step(w, s, e), if w.enabled && !nested then [source, attacker, target] else [])
            case ClassifierFrame(target, _) => Given(w, s, Step(w, s, e), if w.enabled then [target] else [])
            case IoFrame => Given(w, s, Step(w, s, e), [])
            case _ => true
  {
    var popped := s.(stack := rest);
    hide Neutralize, Neutralize2, Neutralize3, Seen;
    match s.stack.top
    case CallerFrame(source, target, _) => GivenThree(w, popped, source, target, 0);
    case SecondaryFrame(source, attacker, target, _) => GivenThree(w, popped, source, attacker, target);
    case ClassifierFrame(target, _) => GivenOne(w, popped, target);
    case _ =>
  }
}
