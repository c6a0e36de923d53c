/** The detours themselves, updating counters, team bytes and the classifier scope step by step.

    Every half of every detour is shown to take the state to the one given by `HookModel.Step`, and
    every call tree to run exactly the events it unfolds into (`HookTrees`), so the theorems of
    `HookRuns` and `HookScope` hold of this code. */
module HookDetours {
  import opened Common
  import opened DesignerNames
  import opened HookLedger
  import opened HookEffects
  import opened HookModel
  import opened HookRuns
  import opened HookTrees
  import opened HookTeams

  class Detours {
    const w: World
    var team: map<Entity, Byte>
    var depth: nat
    var entries: nat
    var recursiveEntries: nat
    var classifierScope: ClassifierScope
    var neutral: NeutralCounters
    var filter: FilterCounters
    var source: SpoofCounters
    var target: SpoofCounters
    var bitset: BitsetCounters
    var classifier: ClassifierCounters
    var damage: DamageCounters
    var caller: VerdictCounters
    var secondary: VerdictCounters
    var friendlyFire: FriendlyFireCounters
    ghost var stack: Stack
    ghost var seen: Observer

    ghost function View(): State
      reads this
    {
      State(team, stack, depth, entries, recursiveEntries, classifierScope, neutral, filter, source, target,
            bitset, classifier, damage, caller, secondary, friendlyFire, seen)
    }

    constructor (w: World, setup: Setup, team: map<Entity, Byte>)
      ensures this.w == w && View() == Init(setup, team)
    {
      this.w := w;
      var s := Init(setup, team);
      this.team, depth, entries, recursiveEntries := s.team, s.depth, s.entries, s.recursiveEntries;
      classifierScope, neutral, filter, source, target := s.classifierScope, s.neutral, s.filter, s.source, s.target;
      bitset, classifier, damage, caller, secondary := s.bitset, s.classifier, s.damage, s.caller, s.secondary;
      friendlyFire, stack, seen := s.friendlyFire, s.stack, s.seen;
    }

    // -------------------------------------------------------------- team bytes

    method SafeWriteTeam(e: Entity, value: Byte) returns (ok: bool)
      modifies `team
      ensures ok == Writable(w, old(team), e) && team == WriteTeam(w, old(team), e, value)
    {
      if e == 0 || e !in team || e in w.readonly {
        return false;
      }
      team := team[e := value];
      return true;
    }

    method MaybeGlobalNeutralizeEntity(e: Entity)
      modifies `team, `neutral, `seen
      ensures View() == Neutralize(w, old(View()), e)
    {
      if !w.enabled || !w.globalNeutralize {
        return;
      }
      seen := seen.(handed := seen.handed + {e});
      neutral := neutral.(attempts := neutral.attempts + 1);
      if e == 0 {
        neutral := neutral.(nulls := neutral.nulls + 1);
        return;
      }
      var originalTeam := ReadTeam(team, e);
      if e !in team {
        neutral := neutral.(invalidTeam := neutral.invalidTeam + 1);
        return;
      }
      neutral := neutral.(teams := neutral.teams.Record(originalTeam));
      if originalTeam == w.neutralTeam {
        neutral := neutral.(already := neutral.already + 1);
        return;
      }
      if w.neutralTeam > 0xff {
        neutral := neutral.(writeFailures := neutral.writeFailures + 1);
        return;
      }
      var ok := SafeWriteTeam(e, w.neutralTeam);
      if ok {
        neutral := neutral.(applied := neutral.applied + 1);
      } else {
        neutral := neutral.(writeFailures := neutral.writeFailures + 1);
      }
    }

    // -------------------------------------------------------------- the target filter

    method CountFilterNames(name: Name, sameTeam: bool)
      modifies `filter
      ensures filter == old(filter).(sameTeam := old(filter.sameTeam).Call(sameTeam),
                                     objective := old(filter.objective).Call(Objective(name)),
                                     names := old(filter.names).Record(name))
    {
      if sameTeam {
        filter := filter.(sameTeam := filter.sameTeam.(calls := filter.sameTeam.calls + 1));
      }
      if Objective(name) {
        filter := filter.(objective := filter.objective.(calls := filter.objective.calls + 1),
                          names := filter.names.(objective := filter.names.objective + 1));
      }
      if NeutralName(name) {
        filter := filter.(names := filter.names.(neutral := filter.names.neutral + 1));
      }
      if Midboss(name) {
        filter := filter.(names := filter.names.(midboss := filter.names.midboss + 1));
      }
    }

    /** The counting part of `begin_target_filter`, with the classification it hands on. */
    method CountFilterBegin(source: Entity, target: Entity, unit: nat) returns (scope: FilterScope)
      modifies `filter
      ensures scope == Classify(w, team, source, target)
      ensures filter == CountFilterCall(w, old(View()), scope, unit)
    {
      filter := filter.(all := filter.all.(calls := filter.all.calls + 1));
      var sourceTeam, targetTeam := ReadTeam(team, source), ReadTeam(team, target);
      if sourceTeam == INVALID {
        filter := filter.(invalidSource := filter.invalidSource + 1);
      }
      if targetTeam == INVALID {
        filter := filter.(invalidTarget := filter.invalidTarget + 1);
      }
      var name := NameOf(w, target);
      var sameTeam := sourceTeam != INVALID && targetTeam != INVALID && sourceTeam == targetTeam;
      filter := filter.(units := filter.units.Record(unit));
      CountFilterNames(name, sameTeam);
      scope := FilterScope(source, target, if sourceTeam <= 0xff then sourceTeam else 0,
                           if targetTeam <= 0xff then targetTeam else 0, sameTeam, Objective(name), false, false);
    }

    method SpoofSourceTeam(scope: FilterScope) returns (r: FilterScope)
      modifies `team, `source
      ensures (View(), r) == SpoofSource(w, old(View()), scope)
    {
      r := scope;
      if w.sourceSpoof && scope.sameTeam && scope.source != scope.target {
        var spoofedTeam := OpposingTeam(ReadTeam(team, scope.target));
        if spoofedTeam != 0 {
          source := source.(attempts := source.attempts + 1);
          var ok := SafeWriteTeam(scope.source, spoofedTeam);
          if ok {
            source := source.(applied := source.applied + 1);
          }
          r := r.(sourceSpoofed := ok);
        }
      }
    }

    method SpoofTargetTeam(scope: FilterScope) returns (r: FilterScope)
      modifies `team, `target
      ensures (View(), r) == SpoofTarget(w, old(View()), scope)
    {
      r := scope;
      if w.targetSpoof && scope.sameTeam && scope.source != scope.target {
        var spoofedTeam: Byte := if w.targetSpoofTeam <= 0xff then w.targetSpoofTeam
          else OpposingTeam(scope.sourceTeam);
        target := target.(attempts := target.attempts + 1);
        var ok := SafeWriteTeam(scope.target, spoofedTeam);
        if ok {
          target := target.(applied := target.applied + 1);
        }
        r := r.(targetSpoofed := ok);
      }
    }

    method BeginTargetFilter(source: Entity, target: Entity, unit: nat) returns (scope: FilterScope)
      modifies `team, `neutral, `seen, `filter, `source, `target
      ensures (View(), scope) == BeginFilter(w, old(View()), source, target, unit)
      ensures team.Keys == old(team).Keys
      ensures forall e | e in old(team) :: team[e] == UnderFilter(w, old(team), source, target, e)
    {
      BeginFilterTeams(w, View(), source, target, unit);
      hide UnderFilter;
      hide Neutralize, SpoofSource, SpoofTarget, CountFilterCall, Classify;
      if !w.enabled {
        return NO_FILTER_SCOPE;
      }
      MaybeGlobalNeutralizeEntity(source);
      MaybeGlobalNeutralizeEntity(target);
      scope := CountFilterBegin(source, target, unit);
      scope := SpoofSourceTeam(scope);
      scope := SpoofTargetTeam(scope);
    }

    method RecordResultCommon(result: bool, sameTeam: bool, objective: bool)
      modifies `filter
      ensures filter == old(filter).(all := old(filter.all).Result(true, result),
                                     sameTeam := old(filter.sameTeam).Result(sameTeam, result),
                                     objective := old(filter.objective).Result(objective, result))
    {
      if result {
        filter := filter.(all := filter.all.(allowed := filter.all.allowed + 1));
        if sameTeam {
          filter := filter.(sameTeam := filter.sameTeam.(allowed := filter.sameTeam.allowed + 1));
        }
        if objective {
          filter := filter.(objective := filter.objective.(allowed := filter.objective.allowed + 1));
        }
      } else {
        filter := filter.(all := filter.all.(denied := filter.all.denied + 1));
        if sameTeam {
          filter := filter.(sameTeam := filter.sameTeam.(denied := filter.sameTeam.denied + 1));
        }
        if objective {
          filter := filter.(objective := filter.objective.(denied := filter.objective.denied + 1));
        }
      }
    }

    method RestoreSource(scope: FilterScope, result: bool)
      requires scope.sourceSpoofed && scope.source != 0
      modifies `team, `source
      ensures source == CountRestore(old(source), result, Writable(w, old(team), scope.source))
      ensures team == WriteTeam(w, old(team), scope.source, scope.sourceTeam)
    {
      if result {
        source := source.(allowed := source.allowed + 1);
      } else {
        source := source.(denied := source.denied + 1);
      }
      var ok := SafeWriteTeam(scope.source, scope.sourceTeam);
      if ok {
        source := source.(restored := source.restored + 1);
      }
    }

    method RestoreTarget(scope: FilterScope, result: bool)
      requires scope.targetSpoofed && scope.target != 0
      modifies `team, `target
      ensures target == CountRestore(old(target), result, Writable(w, old(team), scope.target))
      ensures team == WriteTeam(w, old(team), scope.target, scope.targetTeam)
    {
      if result {
        target := target.(allowed := target.allowed + 1);
      } else {
        target := target.(denied := target.denied + 1);
      }
      var ok := SafeWriteTeam(scope.target, scope.targetTeam);
      if ok {
        target := target.(restored := target.restored + 1);
      }
    }

    /** The verdict and the counters of `finish_target_filter`. */
    method CountFilterEnd(scope: FilterScope, verdict: bool) returns (result: bool)
      modifies `filter
      ensures result == (verdict || ForcedFilter(w, scope))
      ensures filter == CountFilterResult(old(filter), scope, result, !verdict && result)
    {
      result := verdict;
      if !result && ((scope.sameTeam && (w.forceFilterSameTeam || w.neutralSimulation)) ||
                     (scope.objective && (w.forceFilterObjective || w.neutralSimulation))) {
        result := true;
        filter := filter.(forcedAllowed := filter.forcedAllowed + 1);
      }
      RecordResultCommon(result, scope.sameTeam, scope.objective);
    }

    method FinishTargetFilter(scope: FilterScope, verdict: bool) returns (result: bool)
      modifies `team, `filter, `source, `target
      ensures View() == FinishFilter(w, old(View()), scope, verdict)
      ensures result == (verdict || ForcedFilter(w, scope))
      ensures result == (verdict || (scope.sameTeam && w.forceFilterSameTeam) ||
                         (scope.objective && w.forceFilterObjective) ||
                         ((scope.sameTeam || scope.objective) && w.neutralSimulation))
    {
      FilterForcedExactly(w, scope);
      hide CountRestore, WriteTeam, Writable, ReadTeam, NameOf, ForcedFilter, CountFilterResult;
      result := CountFilterEnd(scope, verdict);
      if scope.sourceSpoofed && scope.source != 0 {
        RestoreSource(scope, result);
      }
      if scope.targetSpoofed && scope.target != 0 {
        RestoreTarget(scope, result);
      }
    }

    // -------------------------------------------------------------- the classifier scope

    method BeginTargetClassifierSpoofScope(scope: FilterScope)
      modifies `classifierScope
      ensures classifierScope == ScopeFor(w, scope)
    {
      classifierScope := Inactive;
      if !w.enabled || !w.classifierSpoof || scope.target == 0 || (!scope.sameTeam && !scope.objective) {
        return;
      }
      if w.classifierBit > 31 {
        return;
      }
      classifierScope := Active(scope.target, w.classifierBit);
    }

    method EndTargetClassifierSpoofScope()
      modifies `classifierScope
      ensures classifierScope == Inactive
    {
      classifierScope := Inactive;
    }

    /** `bit` is what the original wrote through `out`; the result is what its caller finds there. */
    method FinishTargetIdentityClassifier(target: Entity, out: bool, bit: nat) returns (final: nat)
      modifies `team, `neutral, `seen, `classifier
      ensures View() == FinishClassifier(w, old(View()), target, out, bit)
      ensures final == Answer(w, old(View()), target, out, bit)
    {
      hide Neutralize;
      final := bit;
      if !w.enabled {
        return;
      }
      MaybeGlobalNeutralizeEntity(target);
      classifier := classifier.(calls := classifier.calls + 1);
      if !out {
        classifier := classifier.(invalid := classifier.invalid + 1);
        return;
      }
      if bit == INVALID {
        classifier := classifier.(invalid := classifier.invalid + 1);
      }
      if classifierScope.Active? && target == classifierScope.target {
        classifier := classifier.(attempts := classifier.attempts + 1);
        if classifierScope.bit <= 31 {
          final := classifierScope.bit;
          classifier := classifier.(applied := classifier.applied + 1);
        } else {
          classifier := classifier.(skipped := classifier.skipped + 1);
        }
      }
    }

    // -------------------------------------------------------------- damage

    method CountDamageVictim(e: Event, victimTeam: nat, name: Name)
      requires e.EnterDamage?
      modifies `damage
      ensures damage == CountVictim(old(damage), e, victimTeam, name)
    {
      damage := damage.(calls := damage.calls + 1);
      if victimTeam == INVALID {
        damage := damage.(invalidTeam := damage.invalidTeam + 1);
      }
      damage := damage.(victims := damage.victims.Record(e.unit));
      if Objective(name) {
        damage := damage.(names := damage.names.(objective := damage.names.objective + 1));
      }
      if NeutralName(name) {
        damage := damage.(names := damage.names.(neutral := damage.names.neutral + 1));
      }
      if Midboss(name) {
        damage := damage.(names := damage.names.(midboss := damage.names.midboss + 1));
      }
      CountDamageHandles(e.inflictorValid, e.attacker != 0);
    }

    method CountDamageHandles(inflictorValid: bool, attackerValid: bool)
      modifies `damage
      ensures damage == old(damage).(inflictor := old(damage.inflictor).Record(inflictorValid),
                                     attacker := old(damage.attacker).Record(attackerValid))
    {
      if inflictorValid {
        damage := damage.(inflictor := damage.inflictor.(valid := damage.inflictor.valid + 1));
      } else {
        damage := damage.(inflictor := damage.inflictor.(invalid := damage.inflictor.invalid + 1));
      }
      if attackerValid {
        damage := damage.(attacker := damage.attacker.(valid := damage.attacker.valid + 1));
      } else {
        damage := damage.(attacker := damage.attacker.(invalid := damage.attacker.invalid + 1));
      }
    }

    method CountDamageAttacker(e: Event, attackerTeam: nat, victimTeam: nat, objective: bool)
      requires e.EnterDamage?
      modifies `damage
      ensures damage == CountAttacker(old(damage), e, attackerTeam, victimTeam, objective)
    {
      damage := damage.(attackers := damage.attackers.Record(e.attackerUnit));
      var r := damage.relations;
      if e.attacker == e.victim {
        r := r.(self := r.self + 1);
      }
      if attackerTeam == INVALID || victimTeam == INVALID {
        r := r.(other := r.other + 1);
      } else if attackerTeam == victimTeam {
        r := r.(same := r.same + 1);
        damage := damage.(sameTeamVictims := damage.sameTeamVictims.Record(e.unit));
        if objective {
          r := r.(sameObjective := r.sameObjective + 1);
        }
      } else if (attackerTeam == 2 && victimTeam == 3) || (attackerTeam == 3 && victimTeam == 2) {
        r := r.(opposing := r.opposing + 1);
      } else {
        r := r.(other := r.other + 1);
      }
      damage := damage.(relations := r);
    }

    method RecordDamageVictim(e: Event, recursive: bool)
      requires e.EnterDamage?
      modifies `team, `neutral, `seen, `damage
      ensures View() == RecordDamage(w, old(View()), e, recursive)
    {
      hide Neutralize, CountVictim, CountAttacker;
      if !w.enabled || recursive {
        return;
      }
      MaybeGlobalNeutralizeEntity(e.victim);
      var victimTeam, name := ReadTeam(team, e.victim), NameOf(w, e.victim);
      CountDamageVictim(e, victimTeam, name);
      if e.attacker == 0 {
        return;
      }
      CountDamageAttacker(e, ReadTeam(team, e.attacker), victimTeam, Objective(name));
    }

    /** The scope of `begin_friendly_fire_damage` is the entity, its team, and whether it was spoofed. */
    method BeginFriendlyFireDamage(e: Entity, recursive: bool) returns (scope: Frame)
      requires !FriendlyFireFaults(w, team, e, recursive)
      modifies `team, `friendlyFire
      ensures (View(), scope) == BeginFriendlyFire(w, old(View()), e, recursive) && scope.DamageFrame?
    {
      scope := DamageFrame(e, 0, false);
      if !w.friendlyFire {
        return;
      }
      friendlyFire := friendlyFire.(callbacks := friendlyFire.callbacks + 1);
      if recursive {
        friendlyFire := friendlyFire.(skips := friendlyFire.skips.(recursive := friendlyFire.skips.recursive + 1));
        return;
      }
      if e == 0 || e !in w.identity {
        friendlyFire :=
          friendlyFire.(skips := friendlyFire.skips.(missingIdentity := friendlyFire.skips.missingIdentity + 1));
        return;
      }
      if w.identity[e].Missing? {
        friendlyFire := friendlyFire.(skips := friendlyFire.skips.(missingName := friendlyFire.skips.missingName + 1));
        return;
      }
      if !Objective(w.identity[e]) {
        friendlyFire :=
          friendlyFire.(skips := friendlyFire.skips.(nonObjective := friendlyFire.skips.nonObjective + 1));
        return;
      }
      friendlyFire := friendlyFire.(candidates := friendlyFire.candidates + 1);
      assert Objective(NameOf(w, e));
      var originalTeam := team[e];
      if w.friendlyFireLocalTeam != 0 && originalTeam != w.friendlyFireLocalTeam % 256 {
        return;
      }
      var spoofedTeam := OpposingTeam(originalTeam);
      if spoofedTeam == 0 {
        friendlyFire := friendlyFire.(invalidTeam := friendlyFire.invalidTeam + 1);
        return;
      }
      friendlyFire := friendlyFire.(attempts := friendlyFire.attempts + 1);
      team := team[e := spoofedTeam];
      scope := DamageFrame(e, originalTeam, true);
      friendlyFire := friendlyFire.(applied := friendlyFire.applied + 1);
    }

    method EndFriendlyFireDamage(scope: Frame)
      requires scope.DamageFrame?
      modifies `team, `friendlyFire
      ensures View() == EndFriendlyFire(old(View()), scope)
    {
      if !scope.spoofed || scope.victim == 0 {
        return;
      }
      team := team[scope.victim := scope.team];
      friendlyFire := friendlyFire.(restored := friendlyFire.restored + 1);
    }

    // -------------------------------------------------------------- verdicts

    method CountCallerVerdict(verdict: bool, forced: bool, unit: nat) returns (result: bool)
      modifies `caller
      ensures caller == CountVerdict(old(caller), verdict, forced, unit == 0x1a) && result == (verdict || forced)
    {
      result := verdict;
      if !result && forced {
        result := true;
        caller := caller.(forced := caller.forced + 1);
      }
      caller := caller.(calls := caller.calls + 1);
      if result {
        caller := caller.(allowed := caller.allowed + 1);
      } else {
        caller := caller.(denied := caller.denied + 1);
      }
      if unit == 0x1a {
        caller := caller.(bypass := caller.bypass + 1);
      }
    }

    method RecordTargetFilterCaller(source: Entity, target: Entity, verdict: bool, unit: nat) returns (result: bool)
      modifies `team, `neutral, `seen, `caller
      ensures View() == RecordCaller(w, old(View()), source, target, verdict, unit)
      ensures result == (verdict || (w.enabled && ForcedCaller(w, Classify(w, team, source, target))))
    {
      hide Neutralize, CountVerdict;
      if !w.enabled {
        return verdict;
      }
      MaybeGlobalNeutralizeEntity(source);
      MaybeGlobalNeutralizeEntity(target);
      var sourceTeam, targetTeam := ReadTeam(team, source), ReadTeam(team, target);
      var sameTeam := sourceTeam != INVALID && targetTeam != INVALID && sourceTeam == targetTeam;
      var objective := Objective(NameOf(w, target));
      result := CountCallerVerdict(verdict, (sameTeam && (w.forceCallerSameTeam || w.neutralSimulation)) ||
                                            (objective && (w.forceCallerObjective || w.neutralSimulation)), unit);
    }

    method RecordSecondaryTargetGate(source: Entity, attacker: Entity, target: Entity, verdict: bool)
      returns (result: bool)
      modifies `team, `neutral, `seen, `secondary
      ensures View() == RecordSecondary(w, old(View()), source, attacker, target, verdict)
      ensures result == (verdict || (w.enabled && ForcedSecondary(w)))
    {
      hide Neutralize;
      result := verdict;
      if !w.enabled {
        return;
      }
      MaybeGlobalNeutralizeEntity(source);
      MaybeGlobalNeutralizeEntity(attacker);
      MaybeGlobalNeutralizeEntity(target);
      if !result && (w.forceSecondary || w.neutralSimulation) {
        result := true;
        secondary := secondary.(forced := secondary.forced + 1);
      }
      secondary := secondary.(calls := secondary.calls + 1);
      if result {
        secondary := secondary.(allowed := secondary.allowed + 1);
      } else {
        secondary := secondary.(denied := secondary.denied + 1);
      }
    }

    // -------------------------------------------------------------- callback scopes

    method EnterCallbackScope() returns (recursive: bool)
      modifies `depth, `entries, `recursiveEntries
      ensures View() == EnterScope(old(View())) && recursive == (old(depth) != 0)
    {
      recursive := depth != 0;
      depth := depth + 1;
      entries := entries + 1;
      if recursive {
        recursiveEntries := recursiveEntries + 1;
      }
    }

    method LeaveCallbackScope()
      modifies `depth
      ensures View() == LeaveScope(old(View()))
    {
      if depth != 0 {
        depth := depth - 1;
      }
    }

    // -------------------------------------------------------------- the halves of the detours

    /** `maybe_allow_target_bitset` up to its call of the classifier, if it gets there. */
    method StartBitset(scope: FilterScope, target: Entity, usable: bool) returns (asks: bool)
      modifies `bitset
      ensures asks == (AsksBitset(w, scope) && target != 0 && usable)
      ensures bitset == if !AsksBitset(w, scope) then old(bitset)
                        else old(bitset).(attempts := old(bitset.attempts) + 1,
                                          failures := old(bitset.failures) + Bit(!asks))
    {
      if !w.enabled || (!w.bitsetAllow && !w.neutralSimulation) || (!scope.sameTeam && !scope.objective) {
        return false;
      }
      bitset := bitset.(attempts := bitset.attempts + 1);
      if target == 0 || !usable {
        bitset := bitset.(failures := bitset.failures + 1);
        return false;
      }
      return true;
    }

    /** The rest of `maybe_allow_target_bitset`. */
    method FinishAllowBitset(bit: nat)
      modifies `bitset
      ensures View() == FinishBitset(old(View()), bit)
    {
      if bit == INVALID || bit >= 0x40000 {
        bitset := bitset.(failures := bitset.failures + 1);
        return;
      }
      bitset := bitset.(applied := bitset.applied + 1);
    }

    method StartOriginalFilter(scope: FilterScope)
      modifies `classifierScope, `stack
      ensures View() == StartFilter(w, old(View()), scope)
    {
      BeginTargetClassifierSpoofScope(scope);
      stack := On(FilterFrame(scope), stack);
    }

    method EnterTakeDamage(e: Event) returns (friendlyFireScope: Frame)
      requires e.EnterDamage? && !Faults(w, View(), e)
      modifies this
      ensures View() == Step(w, old(View()), e)
      ensures friendlyFireScope.DamageFrame? && stack == On(friendlyFireScope, old(stack))
    {
      hide RecordDamage, BeginFriendlyFire, FriendlyFireFaults;
      var recursive := EnterCallbackScope();
      RecordDamageVictim(e, recursive);
      friendlyFireScope := BeginFriendlyFireDamage(e.victim, recursive);
      stack := On(friendlyFireScope, stack);
    }

    method LeaveTakeDamage(friendlyFireScope: Frame, e: Event)
      requires e.Leave?
      requires stack.On? && stack.top == friendlyFireScope && friendlyFireScope.DamageFrame?
      modifies this
      ensures View() == Step(w, old(View()), e) && stack == old(stack).rest
    {
      stack := stack.rest;
      EndFriendlyFireDamage(friendlyFireScope);
      LeaveCallbackScope();
    }

    /** `detour_accept_input` and `detour_fire_output_internal` have the same first half. */
    method EnterInputOutput(e: Event)
      requires e.EnterIo?
      modifies this
      ensures View() == Step(w, old(View()), e) && stack == On(IoFrame, old(stack))
    {
      hide Neutralize;
      var recursive := EnterCallbackScope();
      if !recursive {
        MaybeGlobalNeutralizeEntity(e.self);
        MaybeGlobalNeutralizeEntity(e.activator);
        MaybeGlobalNeutralizeEntity(e.caller);
      }
      stack := On(IoFrame, stack);
    }

    method LeaveInputOutput(e: Event)
      requires e.Leave? && stack.On? && stack.top == IoFrame
      modifies this
      ensures View() == Step(w, old(View()), e) && stack == old(stack).rest
    {
      stack := stack.rest;
      LeaveCallbackScope();
    }

    method EnterTargetFilter(e: Event) returns (scope: FilterScope, asks: bool)
      requires e.EnterFilter?
      modifies this
      ensures View() == Step(w, old(View()), e)
      ensures stack == On(if asks then PreludeFrame(scope) else FilterFrame(scope), old(stack))
    {
      hide BeginFilter, AsksBitset, ScopeFor, Return, RecordDamage, BeginFriendlyFire, FriendlyFireFaults, Neutralize3;
      var recursive := EnterCallbackScope();
      scope := BeginTargetFilter(e.source, e.target, e.unit);
      asks := StartBitset(scope, e.target, e.usable);
      if asks {
        stack := On(PreludeFrame(scope), stack);
      } else {
        StartOriginalFilter(scope);
      }
    }

    method LeaveBitset(scope: FilterScope, e: Event)
      requires e.Leave? && stack.On? && stack.top == PreludeFrame(scope)
      modifies this
      ensures View() == Step(w, old(View()), e) && stack == On(FilterFrame(scope), old(stack).rest)
    {
      stack := stack.rest;
      FinishAllowBitset(e.bit);
      StartOriginalFilter(scope);
    }

    method LeaveTargetFilter(scope: FilterScope, e: Event) returns (result: bool)
      requires e.Leave? && stack.On? && stack.top == FilterFrame(scope)
      modifies this
      ensures View() == Step(w, old(View()), e) && stack == old(stack).rest
      ensures result == (e.verdict || ForcedFilter(w, scope))
    {
      hide FinishFilter, ForcedFilter, Enter, RecordCaller, RecordSecondary,
        FinishClassifier, FinishBitset, StartFilter;
      stack := stack.rest;
      EndTargetClassifierSpoofScope();
      seen := seen.(finished := seen.finished + 1);
      result := FinishTargetFilter(scope, e.verdict);
      LeaveCallbackScope();
    }

    method EnterFilterCaller(e: Event) returns (recursive: bool)
      requires e.EnterCaller?
      modifies this
      ensures View() == Step(w, old(View()), e)
      ensures stack == On(CallerFrame(e.source, e.target, recursive), old(stack)) && recursive == (old(depth) != 0)
    {
      recursive := EnterCallbackScope();
      stack := On(CallerFrame(e.source, e.target, recursive), stack);
    }

    method LeaveFilterCaller(source: Entity, target: Entity, recursive: bool, e: Event) returns (result: bool)
      requires e.Leave? && stack.On? && stack.top == CallerFrame(source, target, recursive)
      modifies this
      ensures View() == Step(w, old(View()), e) && stack == old(stack).rest
      ensures result == (e.verdict || (!recursive && w.enabled && ForcedCaller(w, Classify(w, team, source, target))))
    {
      hide RecordCaller, Enter, RecordSecondary, FinishClassifier, FinishFilter, FinishBitset, StartFilter;
      stack := stack.rest;
      result := e.verdict;
      if !recursive {
        result := RecordTargetFilterCaller(source, target, e.verdict, e.unit);
      }
      LeaveCallbackScope();
    }

    method EnterSecondaryGate(e: Event) returns (recursive: bool)
      requires e.EnterSecondary?
      modifies this
      ensures View() == Step(w, old(View()), e)
      ensures stack == On(SecondaryFrame(e.source, e.attacker, e.target, recursive), old(stack))
      ensures recursive == (old(depth) != 0)
    {
      recursive := EnterCallbackScope();
      stack := On(SecondaryFrame(e.source, e.attacker, e.target, recursive), stack);
    }

    method LeaveSecondaryGate(source: Entity, attacker: Entity, target: Entity, recursive: bool, e: Event)
      returns (result: bool)
      requires e.Leave?
      requires stack.On? && stack.top == SecondaryFrame(source, attacker, target, recursive)
      modifies this
      ensures View() == Step(w, old(View()), e) && stack == old(stack).rest
      ensures result == (e.verdict || (!recursive && w.enabled && ForcedSecondary(w)))
    {
      hide RecordSecondary, Enter, RecordCaller, FinishClassifier, FinishFilter, FinishBitset, StartFilter;
      stack := stack.rest;
      result := e.verdict;
      if !recursive {
        result := RecordSecondaryTargetGate(source, attacker, target, e.verdict);
      }
      LeaveCallbackScope();
    }

    method EnterIdentityClassifier(e: Event)
      requires e.EnterClassifier?
      modifies this
      ensures View() == Step(w, old(View()), e) && stack == On(ClassifierFrame(e.target, e.out), old(stack))
    {
      stack := On(ClassifierFrame(e.target, e.out), stack);
    }

    method LeaveClassifier(target: Entity, out: bool, e: Event) returns (final: nat)
      requires e.Leave? && stack.On? && stack.top == ClassifierFrame(target, out)
      modifies this
      ensures View() == Step(w, old(View()), e) && stack == old(stack).rest
      ensures final == Answer(w, old(View()), target, out, e.bit)
    {
      hide FinishClassifier;
      stack := stack.rest;
      final := FinishTargetIdentityClassifier(target, out, e.bit);
    }

    // -------------------------------------------------------------- the detours

    /** The machine can get to where this code is. */
    ghost predicate OnRun(setup: Setup, start: map<Entity, Byte>)
      reads this
    {
      Reachable(w, setup, start, View())
    }

    method DetourTakeDamageOld(c: Call, ghost setup: Setup, ghost start: map<Entity, Byte>)
      requires OnRun(setup, start) && Tree(c) && SmoothCall(w, View(), c) && c.enter.EnterDamage?
      modifies this
      ensures OnRun(setup, start) && stack == old(stack)
      ensures View() == AfterCall(w, old(View()), c)
      ensures var entered := Next(w, old(View()), c.enter);
              && entered.team.Keys == old(team).Keys
              && forall x | x in old(team) ::
                   entered.team[x] == if x != c.enter.victim || x == 0 then old(team)[x]
                                      else if VictimChanges(w, old(View()), x) then 5 - VictimByte(w, old(View()), x)
                                      else VictimByte(w, old(View()), x)
      decreases c, 0
    {
      hide Step, Reachable, Faults, SmoothCall, SmoothAll, FrontOf, AfterCall, AfterAll;
      ghost var before := View();
      FrontSteps(w, before, c);
      CallSteps(w, before, c);
      CallSmooth(w, before, c);
      StepReach(w, setup, start, before, c.enter);
      DamageTeams(w, before, c.enter);
      assert Next(w, before, c.enter) == Step(w, before, c.enter);
      var friendlyFireScope := EnterTakeDamage(c.enter);
      RunOriginal(c.inner, setup, start);
      StepReach(w, setup, start, View(), c.leave);
      LeaveTakeDamage(friendlyFireScope, c.leave);
    }

    /** `detour_accept_input` and `detour_fire_output_internal` */
    method DetourInputOutput(c: Call, ghost setup: Setup, ghost start: map<Entity, Byte>)
      requires OnRun(setup, start) && Tree(c) && SmoothCall(w, View(), c) && c.enter.EnterIo?
      modifies this
      ensures OnRun(setup, start) && stack == old(stack)
      ensures View() == AfterCall(w, old(View()), c)
      decreases c, 0
    {
      hide Step, Reachable, Faults, SmoothCall, SmoothAll, FrontOf, AfterCall, AfterAll;
      ghost var before := View();
      FrontSteps(w, before, c);
      CallSteps(w, before, c);
      CallSmooth(w, before, c);
      StepReach(w, setup, start, before, c.enter);
      EnterInputOutput(c.enter);
      RunOriginal(c.inner, setup, start);
      StepReach(w, setup, start, View(), c.leave);
      LeaveInputOutput(c.leave);
    }

    method DetourTargetFriendlyFireFilter(c: Call, ghost setup: Setup, ghost start: map<Entity, Byte>)
      returns (result: bool)
      requires OnRun(setup, start) && Tree(c) && SmoothCall(w, View(), c) && c.enter.EnterFilter?
      modifies this
      ensures OnRun(setup, start) && stack == old(stack)
      ensures View() == AfterCall(w, old(View()), c)
      ensures var same := w.enabled && SameSide(w, old(team), c.enter.source, c.enter.target);
              var objective := w.enabled && NamedObjective(w, c.enter.target);
              result == (c.leave.verdict || (same && w.forceFilterSameTeam) || (objective && w.forceFilterObjective) ||
                         ((same || objective) && w.neutralSimulation))
      ensures var entered := Next(w, old(View()), c.enter);
              && entered.team.Keys == old(team).Keys
              && forall e | e in old(team) ::
                   entered.team[e] == UnderFilter(w, old(team), c.enter.source, c.enter.target, e)
      decreases c, 0
    {
      hide Step, Reachable, Faults, ForcedFilter, SameSide, NamedObjective, UnderFilter;
      hide SmoothCall, SmoothAll, FrontOf, AfterCall, AfterAll;
      ghost var before := View();
      FrontSteps(w, before, c);
      CallSteps(w, before, c);
      CallSmooth(w, before, c);
      StepReach(w, setup, start, before, c.enter);
      FilterFound(w, before, c.enter);
      var scope, asks := EnterTargetFilter(c.enter);
      FilterForcedExactly(w, scope);
      if asks {
        RunOriginal(c.asking, setup, start);
        StepReach(w, setup, start, View(), c.asked);
        LeaveBitset(scope, c.asked);
      }
      RunOriginal(c.inner, setup, start);
      StepReach(w, setup, start, View(), c.leave);
      result := LeaveTargetFilter(scope, c.leave);
    }

    method DetourTargetFriendlyFireCaller(c: Call, ghost setup: Setup, ghost start: map<Entity, Byte>)
      returns (result: bool)
      requires OnRun(setup, start) && Tree(c) && SmoothCall(w, View(), c) && c.enter.EnterCaller?
      modifies this
      ensures OnRun(setup, start) && stack == old(stack)
      ensures View() == AfterCall(w, old(View()), c)
      ensures result == (c.leave.verdict || (old(depth) == 0 && w.enabled &&
                           ((SameByte(team, c.enter.source, c.enter.target) &&
                             (w.forceCallerSameTeam || w.neutralSimulation)) ||
                            (NamedObjective(w, c.enter.target) && (w.forceCallerObjective || w.neutralSimulation)))))
      decreases c, 0
    {
      hide Step, Reachable, Faults, ForcedCaller, Classify, SameByte, NamedObjective;
      hide SmoothCall, SmoothAll, FrontOf, AfterCall, AfterAll;
      ghost var before := View();
      FrontSteps(w, before, c);
      CallSteps(w, before, c);
      CallSmooth(w, before, c);
      StepReach(w, setup, start, before, c.enter);
      var recursive := EnterFilterCaller(c.enter);
      RunOriginal(c.inner, setup, start);
      StepReach(w, setup, start, View(), c.leave);
      result := LeaveFilterCaller(c.enter.source, c.enter.target, recursive, c.leave);
      CallerForcedExactly(w, team, c.enter.source, c.enter.target);
    }

    method DetourTargetSecondaryFriendlyFireGate(c: Call, ghost setup: Setup, ghost start: map<Entity, Byte>)
      returns (result: bool)
      requires OnRun(setup, start) && Tree(c) && SmoothCall(w, View(), c) && c.enter.EnterSecondary?
      modifies this
      ensures OnRun(setup, start) && stack == old(stack)
      ensures View() == AfterCall(w, old(View()), c)
      ensures result == (c.leave.verdict || (old(depth) == 0 && w.enabled && (w.forceSecondary || w.neutralSimulation)))
      decreases c, 0
    {
      hide Step, Reachable, Faults, SmoothCall, SmoothAll, FrontOf, AfterCall, AfterAll;
      ghost var before := View();
      FrontSteps(w, before, c);
      CallSteps(w, before, c);
      CallSmooth(w, before, c);
      StepReach(w, setup, start, before, c.enter);
      var recursive := EnterSecondaryGate(c.enter);
      RunOriginal(c.inner, setup, start);
      StepReach(w, setup, start, View(), c.leave);
      SecondaryForcedExactly(w);
      result := LeaveSecondaryGate(c.enter.source, c.enter.attacker, c.enter.target, recursive, c.leave);
    }

    method DetourTargetIdentityClassifier(c: Call, ghost setup: Setup, ghost start: map<Entity, Byte>)
      returns (found: nat)
      requires OnRun(setup, start) && Tree(c) && SmoothCall(w, View(), c) && c.enter.EnterClassifier?
      modifies this
      ensures OnRun(setup, start) && stack == old(stack)
      ensures View() == AfterCall(w, old(View()), c)
      ensures found == Answer(w, AfterAll(w, Next(w, old(View()), c.enter), c.inner),
                              c.enter.target, c.enter.out, c.leave.bit)
      ensures found != c.leave.bit ==>
              w.classifierSpoof && found == w.classifierBit &&
              Running(old(stack)).Some? && Running(old(stack)).value.target == c.enter.target
      decreases c, 0
    {
      hide Step, Reachable, Faults, SmoothCall, SmoothAll, FrontOf, AfterCall, AfterAll;
      ghost var before := View();
      FrontSteps(w, before, c);
      CallSteps(w, before, c);
      CallSmooth(w, before, c);
      StepReach(w, setup, start, before, c.enter);
      EnterIdentityClassifier(c.enter);
      RunOriginal(c.inner, setup, start);
      StepReach(w, setup, start, View(), c.leave);
      if Answer(w, View(), c.enter.target, c.enter.out, c.leave.bit) != c.leave.bit {
        RewritesOnlyInsideFilter(w, setup, start, View(), c.enter.target, c.enter.out, c.leave.bit);
      }
      found := LeaveClassifier(c.enter.target, c.enter.out, c.leave);
    }

    /** The engine enters one of the detours. */
    method Detour(c: Call, ghost setup: Setup, ghost start: map<Entity, Byte>)
      requires OnRun(setup, start) && Tree(c) && SmoothCall(w, View(), c)
      modifies this
      ensures OnRun(setup, start) && stack == old(stack)
      ensures View() == AfterCall(w, old(View()), c)
      decreases c, 1
    {
      hide OnRun, AfterCall, AfterAll, FrontOf, Forest;
      var result, found;
      match c.enter {
        case EnterDamage(_, _, _, _, _) => DetourTakeDamageOld(c, setup, start);
        case EnterIo(_, _, _) => DetourInputOutput(c, setup, start);
        case EnterFilter(_, _, _, _) => result := DetourTargetFriendlyFireFilter(c, setup, start);
        case EnterCaller(_, _) => result := DetourTargetFriendlyFireCaller(c, setup, start);
        case EnterSecondary(_, _, _) => result := DetourTargetSecondaryFriendlyFireGate(c, setup, start);
        case EnterClassifier(_, _) => found := DetourTargetIdentityClassifier(c, setup, start);
      }
    }

    /** An original engine function, which may enter any detours in any nesting. */
    method RunOriginal(cs: seq<Call>, ghost setup: Setup, ghost start: map<Entity, Byte>)
      requires OnRun(setup, start) && Forest(cs) && SmoothAll(w, View(), cs)
      modifies this
      ensures OnRun(setup, start) && stack == old(stack)
      ensures View() == AfterAll(w, old(View()), cs)
      decreases cs, 0
    {
      ghost var before := View();
      AllStart(w, before, cs);
      hide AfterAll, AfterCall, OnRun;
      for i := 0 to |cs|
        invariant OnRun(setup, start) && stack == old(stack)
        invariant View() == AfterAll(w, before, cs[..i])
      {
        AllSteps(w, before, cs, i);
        AllSmooth(w, before, cs, i);
        Detour(cs[i], setup, start);
      }
      assert cs[..|cs|] == cs;
    }
  }

  lemma FilterFound(w: World, s: State, e: Event)
    requires e.EnterFilter?
    ensures Next(w, s, e) == Step(w, s, e)
    ensures var s' := Step(w, s, e);
            && s'.stack.On? && (s'.stack.top.PreludeFrame? || s'.stack.top.FilterFrame?)
            && s'.stack.top.scope.sameTeam == (w.enabled && SameSide(w, s.team, e.source, e.target))
            && s'.stack.top.scope.objective == (w.enabled && NamedObjective(w, e.target))
            && s'.team.Keys == s.team.Keys
            && forall x | x in s.team :: s'.team[x] == UnderFilter(w, s.team, e.source, e.target, x)
  {
    FilterStartsExactly(w, s, e.source, e.target, e.unit, e.usable);
    FilterTeams(w, s, e.source, e.target, e.unit, e.usable);
    hide Step, SameSide, NamedObjective, UnderFilter;
  }

  /** Where a tree of calls leaves the machine when no detour was open and none is at the end. */
  lemma RunSettles(w: World, setup: Setup, start: map<Entity, Byte>, calls: seq<Call>)
    requires SmoothAll(w, Init(setup, start), calls) && AfterAll(w, Init(setup, start), calls).stack.Idle?
    ensures var s, trace := AfterAll(w, Init(setup, start), calls), TraceAll(w, Init(setup, start), calls);
            && s.team == Overwritten(w, start, HandedBy(w, Init(setup, start), trace))
            && (!Overwrites(w) ==> s.team == start)
            && s.filter.all.calls == (if w.enabled then FilterEntries(trace) else 0)
            && (w.enabled ==> Balanced(s.filter.all, 0))
            && Balanced(s.filter.sameTeam, 0) && Balanced(s.filter.objective, 0)
            && s.source.applied == s.source.restored && s.target.applied == s.target.restored
            && s.friendlyFire.applied == s.friendlyFire.restored && s.depth == 0
  {
    var s0, s := Init(setup, start), AfterAll(w, Init(setup, start), calls);
    InitReach(w, setup, start);
    AfterReach(w, setup, start, s0, TraceAll(w, s0, calls));
    TraceAdds(w, s0, TraceAll(w, s0, calls));
    hide Reachable, HandedBy, TraceAll, After;
    TeamsRestored(w, setup, start, s);
    ReachableInv(w, setup, start, s);
    LedgerBalances(w, setup, start, s);
  }

  /** Every well-nested tree of detour calls on one thread without a fault, from any counters at zero
      and any team bytes. The code runs exactly the events the calls unfold into. The final team map is
      the initial one, with the neutral team on exactly the writable entities those events name, if the
      neutraliser is on; every ledger is settled; and with the probe enabled every filter entry has been
      counted. */
  method RunThread(w: World, setup: Setup, start: map<Entity, Byte>, calls: seq<Call>)
    returns (team: map<Entity, Byte>, filter: FilterCounters, source: SpoofCounters, target: SpoofCounters,
             friendlyFire: FriendlyFireCounters, neutral: NeutralCounters, damage: DamageCounters,
             bitset: BitsetCounters, classifier: ClassifierCounters, caller: VerdictCounters,
             secondary: VerdictCounters, entries: nat, recursiveEntries: nat, depth: nat)
    requires Forest(calls) && SmoothAll(w, Init(setup, start), calls)
    ensures var s := AfterAll(w, Init(setup, start), calls);
            && team == s.team && filter == s.filter && source == s.source && target == s.target
            && friendlyFire == s.friendlyFire && neutral == s.neutral && damage == s.damage && bitset == s.bitset
            && classifier == s.classifier && caller == s.caller && secondary == s.secondary
            && entries == s.entries && recursiveEntries == s.recursiveEntries && depth == s.depth == 0
    ensures var s := Init(setup, start);
            && team == Overwritten(w, start, HandedBy(w, s, TraceAll(w, s, calls)))
            && filter.all.calls == if w.enabled then FilterEntries(TraceAll(w, s, calls)) else 0
    ensures !Overwrites(w) ==> team == start
    ensures w.enabled ==> Balanced(filter.all, 0)
    ensures Balanced(filter.sameTeam, 0) && Balanced(filter.objective, 0)
    ensures source.applied == source.restored && target.applied == target.restored
    ensures friendlyFire.applied == friendlyFire.restored
  {
    var detours := new Detours(w, setup, start);
    InitReach(w, setup, start);
    detours.RunOriginal(calls, setup, start);
    RunSettles(w, setup, start, calls);
    team, filter, source, target := detours.team, detours.filter, detours.source, detours.target;
    friendlyFire, neutral, damage, depth := detours.friendlyFire, detours.neutral, detours.damage, detours.depth;
    bitset, classifier, caller := detours.bitset, detours.classifier, detours.caller;
    secondary, entries, recursiveEntries := detours.secondary, detours.entries, detours.recursiveEntries;
  }
}
