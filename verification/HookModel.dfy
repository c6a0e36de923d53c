/** The engine detours on one thread, as a machine whose steps are the two halves of each detour.

    A detour runs code, calls the original engine function, and runs code again. While the original
    runs the engine may enter any detour, so a run is a sequence of `Enter...` and `Leave` events
    and the open detours form a stack. Everything the engine answers (verdicts, unit types,
    classifier bits, resolved handles) is carried by the events and is arbitrary. */
module HookModel {
  import opened Common
  import opened DesignerNames

  type Entity = nat                      // an address; 0 is the null pointer

  const INVALID: nat := 0xffffffff       // kInvalidTeam, kInvalidUnitType

  /** What does not change while hooks run: configuration, names, and pages that refuse writes. */
  datatype World = World(
    enabled: bool,
    sourceSpoof: bool,
    targetSpoof: bool,
    targetSpoofTeam: nat,
    bitsetAllow: bool,
    forceFilterSameTeam: bool,
    forceFilterObjective: bool,
    forceCallerSameTeam: bool,
    forceCallerObjective: bool,
    forceSecondary: bool,
    neutralSimulation: bool,
    classifierSpoof: bool,
    classifierBit: nat,
    globalNeutralize: bool,
    neutralTeam: nat,
    friendlyFire: bool,
    friendlyFireLocalTeam: nat,
    identity: map<Entity, Name>,         // classified designer names; absent: no identity pointer
    readonly: set<Entity>)               // entities whose team byte cannot be written

  /** A counter array with the overflow counter beside it. */
  datatype Histogram = Histogram(counts: seq<nat>, overflow: nat) {
    function Record(value: nat): Histogram {
      if value < |counts| then Histogram(counts[value := counts[value] + 1], overflow)
      else Histogram(counts, overflow + 1)
    }

    function Total(): nat { Sum(counts) + overflow }
  }

  function Sum(xs: seq<nat>): nat {
    if xs == [] then 0 else xs[0] + Sum(xs[1..])
  }

  function Zeros(size: nat): seq<nat> {
    if size == 0 then [] else [0] + Zeros(size - 1)
  }

  function EmptyHistogram(size: nat): Histogram { Histogram(Zeros(size), 0) }

  datatype NeutralCounters = NeutralCounters(
    attempts: nat, applied: nat, already: nat, nulls: nat, invalidTeam: nat, writeFailures: nat,
    teams: Histogram)

  datatype Verdicts = Verdicts(calls: nat, allowed: nat, denied: nat) {
    function Call(counted: bool): Verdicts { this.(calls := calls + Bit(counted)) }

    function Result(counted: bool, result: bool): Verdicts {
      this.(allowed := allowed + Bit(counted && result), denied := denied + Bit(counted && !result))
    }
  }

  datatype NameCounters = NameCounters(objective: nat, neutral: nat, midboss: nat) {
    function Record(name: Name): NameCounters {
      NameCounters(objective + Bit(Objective(name)), neutral + Bit(NeutralName(name)), midboss + Bit(Midboss(name)))
    }
  }

  /** `names.objective` of the filter is counted as `objective.calls`. */
  datatype FilterCounters = FilterCounters(
    all: Verdicts, sameTeam: Verdicts, objective: Verdicts, names: NameCounters,
    invalidSource: nat, invalidTarget: nat, forcedAllowed: nat, units: Histogram)

  datatype SpoofCounters = SpoofCounters(attempts: nat, applied: nat, restored: nat, allowed: nat, denied: nat)

  datatype Handles = Handles(valid: nat, invalid: nat) {
    function Record(ok: bool): Handles { Handles(valid + Bit(ok), invalid + Bit(!ok)) }
  }

  datatype Relations = Relations(same: nat, opposing: nat, other: nat, self: nat, sameObjective: nat)

  datatype DamageCounters = DamageCounters(
    calls: nat, invalidTeam: nat, names: NameCounters, attacker: Handles, inflictor: Handles,
    relations: Relations, victims: Histogram, attackers: Histogram, sameTeamVictims: Histogram)

  datatype BitsetCounters = BitsetCounters(attempts: nat, applied: nat, failures: nat)

  datatype ClassifierCounters = ClassifierCounters(
    calls: nat, invalid: nat, attempts: nat, applied: nat, skipped: nat)

  datatype VerdictCounters = VerdictCounters(calls: nat, allowed: nat, denied: nat, forced: nat, bypass: nat)

  datatype Skips = Skips(recursive: nat, missingIdentity: nat, missingName: nat, nonObjective: nat)

  datatype FriendlyFireCounters = FriendlyFireCounters(
    callbacks: nat, skips: Skips, candidates: nat, invalidTeam: nat, attempts: nat, applied: nat, restored: nat)

  /** What `begin_target_filter` hands to `finish_target_filter`. */
  datatype FilterScope = FilterScope(
    source: Entity, target: Entity, sourceTeam: Byte, targetTeam: Byte,
    sameTeam: bool, objective: bool, sourceSpoofed: bool, targetSpoofed: bool)

  const NO_FILTER_SCOPE := FilterScope(0, 0, 0, 0, false, false, false, false)

  /** The thread-local variable that rewrites classifier answers. */
  datatype ClassifierScope = Inactive | Active(target: Entity, bit: nat)

  /** An open detour, with what its second half will use. */
  datatype Frame =
    | DamageFrame(victim: Entity, team: Byte, spoofed: bool)
    | IoFrame
    | PreludeFrame(scope: FilterScope)   // the filter detour asks the classifier for a bitset bit
    | FilterFrame(scope: FilterScope)    // the filter detour runs the original filter
    | CallerFrame(source: Entity, target: Entity, recursive: bool)
    | SecondaryFrame(source: Entity, attacker: Entity, target: Entity, recursive: bool)
    | ClassifierFrame(target: Entity, out: bool)

  /** The open detours of one thread, innermost first. */
  datatype Stack = Idle | On(top: Frame, rest: Stack)

  /** What an observer adds up: the entities given to the neutraliser while it was on, and the filter
      calls that have returned. */
  datatype Observer = Observer(handed: set<Entity>, finished: nat)

  datatype State = State(
    team: map<Entity, Byte>,             // entities whose team byte can be read
    stack: Stack,
    depth: nat, entries: nat, recursiveEntries: nat,
    classifierScope: ClassifierScope,
    neutral: NeutralCounters,
    filter: FilterCounters,
    source: SpoofCounters,
    target: SpoofCounters,
    bitset: BitsetCounters,
    classifier: ClassifierCounters,
    damage: DamageCounters,
    caller: VerdictCounters,
    secondary: VerdictCounters,
    friendlyFire: FriendlyFireCounters,
    seen: Observer)

  datatype Event =
    // `attacker` is 0 when its handle does not resolve.
    | EnterDamage(victim: Entity, attacker: Entity, inflictorValid: bool, unit: nat, attackerUnit: nat)
    | EnterIo(self: Entity, activator: Entity, caller: Entity)
    // `usable`: neither the bitset nor the classifier pointer is null.
    | EnterFilter(source: Entity, target: Entity, unit: nat, usable: bool)
    | EnterCaller(source: Entity, target: Entity)
    | EnterSecondary(source: Entity, attacker: Entity, target: Entity)
    | EnterClassifier(target: Entity, out: bool)
    // The original returns `verdict`, or has written `bit`; `unit` is the target's unit type.
    | Leave(verdict: bool, bit: nat, unit: nat)

  /** The lengths of the counter arrays: 8 teams, 32 unit types of filter targets and 64 of damage in
      the program. */
  datatype Setup = Setup(teams: nat, units: nat, damage: nat)

  function Init(setup: Setup, team: map<Entity, Byte>): State {
    var spoof, verdict, calls := SpoofCounters(0, 0, 0, 0, 0), VerdictCounters(0, 0, 0, 0, 0), Verdicts(0, 0, 0);
    var teams, units, damage := EmptyHistogram(setup.teams), EmptyHistogram(setup.units), EmptyHistogram(setup.damage);
    State(team, Idle, 0, 0, 0, Inactive,
          NeutralCounters(0, 0, 0, 0, 0, 0, teams),
          FilterCounters(calls, calls, calls, NameCounters(0, 0, 0), 0, 0, 0, units),
          spoof, spoof, BitsetCounters(0, 0, 0), ClassifierCounters(0, 0, 0, 0, 0),
          DamageCounters(0, 0, NameCounters(0, 0, 0), Handles(0, 0), Handles(0, 0), Relations(0, 0, 0, 0, 0),
                         damage, damage, damage),
          verdict, verdict, FriendlyFireCounters(0, Skips(0, 0, 0, 0), 0, 0, 0, 0, 0),
          Observer({}, 0))
  }

  // ---------------------------------------------------------------- small helpers

  function OpposingTeam(team: nat): Byte {
    if team == 2 then 3 else if team == 3 then 2 else 0
  }

  /** `safe_read_team`: faults, and the null pointer, read as the invalid team. */
  function ReadTeam(team: map<Entity, Byte>, e: Entity): nat {
    if e != 0 && e in team then team[e] else INVALID
  }

  /** `safe_write_team` succeeds on these. */
  predicate Writable(w: World, team: map<Entity, Byte>, e: Entity) {
    e != 0 && e in team && e !in w.readonly
  }

  function NameOf(w: World, e: Entity): Name {
    if e != 0 && e in w.identity then w.identity[e] else Missing
  }

  predicate Objective(name: Name) { name.Named? && name.objective }
  predicate NeutralName(name: Name) { name.Named? && name.neutral }
  predicate Midboss(name: Name) { name.Named? && name.midboss }

  predicate NeutralizerOn(w: World) { w.enabled && w.globalNeutralize }

  // ---------------------------------------------------------------- first halves

  /** `maybe_global_neutralize_entity` */
  function Neutralize(w: World, s: State, e: Entity): State {
    if !NeutralizerOn(w) then s
    else
      var n := s.neutral.(attempts := s.neutral.attempts + 1);
      var s := s.(seen := s.seen.(handed := s.seen.handed + {e}));
      if e == 0 then s.(neutral := n.(nulls := n.nulls + 1))
      else if e !in s.team then s.(neutral := n.(invalidTeam := n.invalidTeam + 1))
      else
        var n := n.(teams := n.teams.Record(s.team[e]));
        if s.team[e] == w.neutralTeam then s.(neutral := n.(already := n.already + 1))
        else if w.neutralTeam > 255 || e in w.readonly then
          s.(neutral := n.(writeFailures := n.writeFailures + 1))
        else s.(neutral := n.(applied := n.applied + 1), team := s.team[e := w.neutralTeam])
  }

  function Neutralize2(w: World, s: State, a: Entity, b: Entity): State {
    Neutralize(w, Neutralize(w, s, a), b)
  }

  function Neutralize3(w: World, s: State, a: Entity, b: Entity, c: Entity): State {
    Neutralize(w, Neutralize2(w, s, a, b), c)
  }

  function Spoof(spoof: SpoofCounters, written: bool): SpoofCounters {
    spoof.(attempts := spoof.attempts + 1, applied := spoof.applied + Bit(written))
  }

  /** The classification part of `begin_target_filter`: what the filter counters and scope see. */
  function Classify(w: World, team: map<Entity, Byte>, source: Entity, target: Entity): FilterScope {
    var st, tt := ReadTeam(team, source), ReadTeam(team, target);
    FilterScope(source, target, if st <= 255 then st else 0, if tt <= 255 then tt else 0,
                st != INVALID && tt != INVALID && st == tt, Objective(NameOf(w, target)),
                false, false)
  }

  function CountFilterCall(w: World, s: State, scope: FilterScope, unit: nat): FilterCounters {
    var f := s.filter;
    f.(all := f.all.Call(true),
       sameTeam := f.sameTeam.Call(scope.sameTeam),
       objective := f.objective.Call(scope.objective),
       names := f.names.Record(NameOf(w, scope.target)),
       invalidSource := f.invalidSource + Bit(ReadTeam(s.team, scope.source) == INVALID),
       invalidTarget := f.invalidTarget + Bit(ReadTeam(s.team, scope.target) == INVALID),
       units := f.units.Record(unit))
  }

  /** The source half of the spoof in `begin_target_filter`. */
  function SpoofSource(w: World, s: State, scope: FilterScope): (State, FilterScope) {
    var team := OpposingTeam(ReadTeam(s.team, scope.target));
    if w.sourceSpoof && scope.sameTeam && scope.source != scope.target && team != 0 then
      var ok := Writable(w, s.team, scope.source);
      (s.(source := Spoof(s.source, ok), team := if ok then s.team[scope.source := team] else s.team),
       scope.(sourceSpoofed := ok))
    else (s, scope)
  }

  /** The target half. `scope.sourceTeam` is the source's team before its own spoof. */
  function SpoofTarget(w: World, s: State, scope: FilterScope): (State, FilterScope) {
    if w.targetSpoof && scope.sameTeam && scope.source != scope.target then
      var team: Byte := if w.targetSpoofTeam <= 255 then w.targetSpoofTeam else OpposingTeam(scope.sourceTeam);
      var ok := Writable(w, s.team, scope.target);
      (s.(target := Spoof(s.target, ok), team := if ok then s.team[scope.target := team] else s.team),
       scope.(targetSpoofed := ok))
    else (s, scope)
  }

  /** `begin_target_filter` */
  function BeginFilter(w: World, s: State, source: Entity, target: Entity, unit: nat): (State, FilterScope) {
    if !w.enabled then (s, NO_FILTER_SCOPE)
    else
      var s := Neutralize2(w, s, source, target);
      var scope := Classify(w, s.team, source, target);
      var s := s.(filter := CountFilterCall(w, s, scope, unit));
      var (s, scope) := SpoofSource(w, s, scope);
      SpoofTarget(w, s, scope)
  }

  predicate AsksBitset(w: World, scope: FilterScope) {
    w.enabled && (w.bitsetAllow || w.neutralSimulation) && (scope.sameTeam || scope.objective)
  }

  /** `begin_target_classifier_spoof_scope` */
  function ScopeFor(w: World, scope: FilterScope): ClassifierScope {
    if w.enabled && w.classifierSpoof && scope.target != 0 && (scope.sameTeam || scope.objective) &&
       w.classifierBit <= 31
    then Active(scope.target, w.classifierBit) else Inactive
  }

  /** The filter detour passes control to the original filter. */
  function StartFilter(w: World, s: State, scope: FilterScope): State {
    s.(stack := On(FilterFrame(scope), s.stack), classifierScope := ScopeFor(w, scope))
  }

  /** `record_damage_victim` */
  function RecordDamage(w: World, s: State, e: Event, recursive: bool): State
    requires e.EnterDamage?
  {
    if !w.enabled || recursive then s
    else
      var s := Neutralize(w, s, e.victim);
      var victimTeam, name := ReadTeam(s.team, e.victim), NameOf(w, e.victim);
      var d := CountVictim(s.damage, e, victimTeam, name);
      s.(damage := if e.attacker == 0 then d
                   else CountAttacker(d, e, ReadTeam(s.team, e.attacker), victimTeam, Objective(name)))
  }

  function CountVictim(d: DamageCounters, e: Event, victimTeam: nat, name: Name): DamageCounters
    requires e.EnterDamage?
  {
    d.(calls := d.calls + 1,
       invalidTeam := d.invalidTeam + Bit(victimTeam == INVALID),
       victims := d.victims.Record(e.unit),
       names := d.names.Record(name),
       inflictor := d.inflictor.Record(e.inflictorValid),
       attacker := d.attacker.Record(e.attacker != 0))
  }

  /** The part of `record_damage_victim` after the attacker's handle has resolved. */
  function CountAttacker(d: DamageCounters, e: Event, attackerTeam: nat, victimTeam: nat,
                         objective: bool): DamageCounters
    requires e.EnterDamage?
  {
    var r := d.relations.(self := d.relations.self + Bit(e.attacker == e.victim));
    var d := d.(attackers := d.attackers.Record(e.attackerUnit));
    if attackerTeam == INVALID || victimTeam == INVALID then d.(relations := r.(other := r.other + 1))
    else if attackerTeam == victimTeam then
      d.(relations := r.(same := r.same + 1, sameObjective := r.sameObjective + Bit(objective)),
         sameTeamVictims := d.sameTeamVictims.Record(e.unit))
    else if (attackerTeam == 2 && victimTeam == 3) || (attackerTeam == 3 && victimTeam == 2) then
      d.(relations := r.(opposing := r.opposing + 1))
    else d.(relations := r.(other := r.other + 1))
  }

  /** Friendly fire changes the team byte of an objective that is on this team. */
  predicate Strikes(w: World, original: Byte) {
    (w.friendlyFireLocalTeam == 0 || original == w.friendlyFireLocalTeam % 256) && OpposingTeam(original) != 0
  }

  /** The friendly-fire code touches the team byte of an objective without a guard: it faults on a byte
      that cannot be read, and on one that it changes and that cannot be written. */
  predicate FriendlyFireFaults(w: World, team: map<Entity, Byte>, e: Entity, recursive: bool) {
    w.friendlyFire && !recursive && Objective(NameOf(w, e)) && (e !in team || (e in w.readonly && Strikes(w, team[e])))
  }

  /** `begin_friendly_fire_damage`; the frame says what to restore. */
  function BeginFriendlyFire(w: World, s: State, e: Entity, recursive: bool): (State, Frame)
    requires !FriendlyFireFaults(w, s.team, e, recursive)
  {
    var none := DamageFrame(e, 0, false);
    if !w.friendlyFire then (s, none)
    else
      var f := s.friendlyFire.(callbacks := s.friendlyFire.callbacks + 1);
      if recursive then (s.(friendlyFire := f.(skips := f.skips.(recursive := f.skips.recursive + 1))), none)
      else if e == 0 || e !in w.identity then
        (s.(friendlyFire := f.(skips := f.skips.(missingIdentity := f.skips.missingIdentity + 1))), none)
      else if NameOf(w, e).Missing? then 
        (s.(friendlyFire := f.(skips := f.skips.(missingName := f.skips.missingName + 1))), none)
      else if !Objective(NameOf(w, e)) then
        (s.(friendlyFire := f.(skips := f.skips.(nonObjective := f.skips.nonObjective + 1))), none)
      else
        var f, original := f.(candidates := f.candidates + 1), s.team[e];
        if w.friendlyFireLocalTeam != 0 && original != w.friendlyFireLocalTeam % 256 then
          (s.(friendlyFire := f), none)
        else if OpposingTeam(original) == 0 then
          (s.(friendlyFire := f.(invalidTeam := f.invalidTeam + 1)), none)
        else
          (s.(friendlyFire := f.(attempts := f.attempts + 1, applied := f.applied + 1),
              team := s.team[e := OpposingTeam(original)]),
           DamageFrame(e, original, true))
  }

  /** The constructor of `CallbackScope`. */
  function EnterScope(s: State): State {
    s.(depth := s.depth + 1, entries := s.entries + 1,
       recursiveEntries := s.recursiveEntries + Bit(s.depth != 0))
  }

  function Push(s: State, frame: Frame): State { s.(stack := On(frame, s.stack)) }

  /** A fault ends the process, so such an event is the end of a run. */
  predicate Faults(w: World, s: State, e: Event): (f: bool)
    ensures f ==> e.EnterDamage?
  {
    var recursive := s.depth != 0;
    e.EnterDamage? && FriendlyFireFaults(w, RecordDamage(w, EnterScope(s), e, recursive).team, e.victim, recursive)
  }

  function Enter(w: World, s: State, e: Event): State
    requires !e.Leave? && !Faults(w, s, e)
  {
    var recursive := s.depth != 0;
    match e
    case EnterDamage(victim, _, _, _, _) =>
      var (s, frame) := BeginFriendlyFire(w, RecordDamage(w, EnterScope(s), e, recursive), victim, recursive);
      Push(s, frame)
    case EnterIo(self, activator, caller) =>
      var s := EnterScope(s);
      Push(if recursive then s else Neutralize3(w, s, self, activator, caller), IoFrame)
    case EnterFilter(source, target, unit, usable) =>
      var (s, scope) := BeginFilter(w, EnterScope(s), source, target, unit);
      if !AsksBitset(w, scope) then StartFilter(w, s, scope)
      else
        var s := s.(bitset := s.bitset.(attempts := s.bitset.attempts + 1));
        if target != 0 && usable then Push(s, PreludeFrame(scope))
        else StartFilter(w, s.(bitset := s.bitset.(failures := s.bitset.failures + 1)), scope)
    case EnterCaller(source, target) => Push(EnterScope(s), CallerFrame(source, target, recursive))
    case EnterSecondary(source, attacker, target) =>
      Push(EnterScope(s), SecondaryFrame(source, attacker, target, recursive))
    case EnterClassifier(target, out) => Push(s, ClassifierFrame(target, out))
  }

  // ---------------------------------------------------------------- second halves

  predicate ForcedFilter(w: World, scope: FilterScope) {
    || (scope.sameTeam && (w.forceFilterSameTeam || w.neutralSimulation))
    || (scope.objective && (w.forceFilterObjective || w.neutralSimulation))
  }

  /** `record_result_common` after the forced verdict of `finish_target_filter`. */
  function CountFilterResult(f: FilterCounters, scope: FilterScope, result: bool, forced: bool): FilterCounters {
    f.(forcedAllowed := f.forcedAllowed + Bit(forced),
       all := f.all.Result(true, result),
       sameTeam := f.sameTeam.Result(scope.sameTeam, result),
       objective := f.objective.Result(scope.objective, result))
  }

  function CountRestore(spoof: SpoofCounters, result: bool, written: bool): SpoofCounters {
    spoof.(allowed := spoof.allowed + Bit(result), denied := spoof.denied + Bit(!result),
           restored := spoof.restored + Bit(written))
  }

  function WriteTeam(w: World, team: map<Entity, Byte>, e: Entity, value: Byte): map<Entity, Byte> {
    if Writable(w, team, e) then team[e := value] else team
  }

  /** `finish_target_filter`; its answer is `verdict || ForcedFilter(w, scope)`. */
  function FinishFilter(w: World, s: State, scope: FilterScope, verdict: bool): State {
    var result := verdict || ForcedFilter(w, scope);
    var s := s.(filter := CountFilterResult(s.filter, scope, result, !verdict && result));
    var s := if !scope.sourceSpoofed || scope.source == 0 then s else
      s.(source := CountRestore(s.source, result, Writable(w, s.team, scope.source)),
         team := WriteTeam(w, s.team, scope.source, scope.sourceTeam));
    if !scope.targetSpoofed || scope.target == 0 then s else
      s.(target := CountRestore(s.target, result, Writable(w, s.team, scope.target)),
         team := WriteTeam(w, s.team, scope.target, scope.targetTeam))
  }

  /** The filter detour after the original filter has returned. */
  function EndFilter(w: World, s: State, scope: FilterScope, verdict: bool): State {
    FinishFilter(w, s.(classifierScope := Inactive,
                       seen := s.seen.(finished := s.seen.finished + 1)),
                 scope, verdict)
  }

  function CountVerdict(v: VerdictCounters, verdict: bool, forced: bool, bypass: bool): VerdictCounters {
    v.(calls := v.calls + 1, allowed := v.allowed + Bit(verdict || forced),
       denied := v.denied + Bit(!verdict && !forced), forced := v.forced + Bit(!verdict && forced),
       bypass := v.bypass + Bit(bypass))
  }

  predicate ForcedCaller(w: World, scope: FilterScope) {
    || (scope.sameTeam && (w.forceCallerSameTeam || w.neutralSimulation))
    || (scope.objective && (w.forceCallerObjective || w.neutralSimulation))
  }

  predicate ForcedSecondary(w: World) { w.forceSecondary || w.neutralSimulation }

  /** `record_target_filter_caller` */
  function RecordCaller(w: World, s: State, source: Entity, target: Entity, verdict: bool, unit: nat): State {
    if !w.enabled then s
    else
      var s := Neutralize2(w, s, source, target);
      var scope := Classify(w, s.team, source, target);
      s.(caller := CountVerdict(s.caller, verdict, ForcedCaller(w, scope), unit == 0x1a))
  }

  /** `record_secondary_target_gate` */
  function RecordSecondary(w: World, s: State, source: Entity, attacker: Entity, target: Entity, verdict: bool): State {
    if !w.enabled then s
    else
      var s := Neutralize3(w, s, source, attacker, target);
      s.(secondary := CountVerdict(s.secondary, verdict, ForcedSecondary(w), false))
  }

  /** The classifier was asked about the target of the scope. */
  predicate MeetsScope(w: World, s: State, target: Entity, out: bool) {
    w.enabled && out && s.classifierScope.Active? && s.classifierScope.target == target
  }

  /** Whether `finish_target_identity_classifier` replaces the bit the original classifier wrote. */
  predicate Rewrites(w: World, s: State, target: Entity, out: bool) {
    MeetsScope(w, s, target, out) && s.classifierScope.bit <= 31
  }

  /** The bit the caller of the classifier sees. */
  function Answer(w: World, s: State, target: Entity, out: bool, bit: nat): nat {
    if Rewrites(w, s, target, out) then s.classifierScope.bit else bit
  }

  /** `finish_target_identity_classifier` */
  function FinishClassifier(w: World, s: State, target: Entity, out: bool, bit: nat): State {
    if !w.enabled then s
    else
      var s := Neutralize(w, s, target);
      var c := s.classifier;
      s.(classifier := c.(calls := c.calls + 1, invalid := c.invalid + Bit(!out || bit == INVALID),
                          attempts := c.attempts + Bit(MeetsScope(w, s, target, out)),
                          applied := c.applied + Bit(Rewrites(w, s, target, out)),
                          skipped := c.skipped + Bit(MeetsScope(w, s, target, out) && !Rewrites(w, s, target, out))))
  }

  /** `end_friendly_fire_damage` */
  function EndFriendlyFire(s: State, frame: Frame): State
    requires frame.DamageFrame?
  {
    if !frame.spoofed || frame.victim == 0 then s
    else s.(team := s.team[frame.victim := frame.team],
            friendlyFire := s.friendlyFire.(restored := s.friendlyFire.restored + 1))
  }

  /** The destructor of `CallbackScope`. */
  function LeaveScope(s: State): State {
    if s.depth == 0 then s else s.(depth := s.depth - 1)
  }

  /** The bit the classifier found is set in the caller's bitset, unless it is out of range. */
  function FinishBitset(s: State, bit: nat): State {
    var failed := bit == INVALID || bit >= 0x40000;
    s.(bitset := s.bitset.(applied := s.bitset.applied + Bit(!failed),
                           failures := s.bitset.failures + Bit(failed)))
  }

  /** The second half of the detour `frame`, up to the destructor of its `CallbackScope`. */
  function Finish(w: World, s: State, frame: Frame, e: Event): State
    requires e.Leave?
  {
    match frame
    case DamageFrame(_, _, _) => EndFriendlyFire(s, frame)
    case IoFrame => s
    case PreludeFrame(scope) => StartFilter(w, FinishBitset(s, e.bit), scope)
    case FilterFrame(scope) => EndFilter(w, s, scope, e.verdict)
    case CallerFrame(source, target, recursive) =>
      if recursive then s else RecordCaller(w, s, source, target, e.verdict, e.unit)
    case SecondaryFrame(source, attacker, target, recursive) =>
      if recursive then s else RecordSecondary(w, s, source, attacker, target, e.verdict)
    case ClassifierFrame(target, out) => FinishClassifier(w, s, target, out, e.bit)
  }

  /** The classifier detour has no `CallbackScope`, and a filter detour is not over at its prelude. */
  predicate Leaves(frame: Frame) { !frame.ClassifierFrame? && !frame.PreludeFrame? }

  function Return(w: World, s: State, e: Event): State
    requires e.Leave? && s.stack.On?
  {
    var s' := Finish(w, s.(stack := s.stack.rest), s.stack.top, e);
    if Leaves(s.stack.top) then LeaveScope(s') else s'
  }

  /** One half of one detour; a `Leave` with no detour open does nothing. */
  function Step(w: World, s: State, e: Event): State
    requires !Faults(w, s, e)
  {
    if !e.Leave? then Enter(w, s, e)
    else if s.stack.Idle? then s
    else Return(w, s, e)
  }
}
