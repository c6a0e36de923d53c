/** The append-only fact store, the feature set, and the registry that gates hook installation. */
module HookRegistry {
  import opened Common

  datatype Right = Observe | Read | Call | Mutate | Block | Replace

  type Access = set<Right>

  datatype FactKey = FactKey(surface: nat, kind: nat, owner: string, name: string)

  /** `content` stands for what is never looked into here. */
  datatype MemoryFact = MemoryFact(key: FactKey, valueKind: nat, content: nat, access: Access)

  datatype Purpose = Visitor | Hook | VisitorAndHook

  datatype RunMode = Disabled | Shadow | Active

  datatype DiscoveryRequirement = DiscoveryRequirement(fact: FactKey, required: bool)

  datatype FeatureDependency = FeatureDependency(name: string, required: bool)

  datatype HookDescriptor = HookDescriptor(
    name: string, purpose: Purpose, access: Access, runMode: RunMode,
    discovery: seq<DiscoveryRequirement>, features: seq<FeatureDependency>)

  datatype Health = Resolved | Installed | NotUsable

  datatype HookStatus = HookStatus(
    mode: RunMode, health: Health, missingFacts: seq<FactKey>, missingFeatures: seq<string>)

  datatype Error =
    | DuplicateFact | KindMismatch | FactReplaceForbidden
    | DuplicateHook | MissingHook | VisitorRequestsWriteAccess | HookReplaceForbidden
    | CannotInstallDisabledHook | CannotInstallUnresolvedHook

  // ---------------------------------------------------------------- evaluation

  function MissingFacts(requirements: seq<DiscoveryRequirement>, facts: map<FactKey, MemoryFact>): seq<FactKey> {
    if requirements == [] then []
    else
      var r := requirements[0];
      (if r.required && r.fact !in facts then [r.fact] else []) + MissingFacts(requirements[1..], facts)
  }

  function MissingRequired(dependencies: seq<FeatureDependency>, enabled: set<string>): seq<string> {
    if dependencies == [] then []
    else
      var d := dependencies[0];
      (if d.required && d.name !in enabled then [d.name] else []) + MissingRequired(dependencies[1..], enabled)
  }

  function EvaluateDescriptor(d: HookDescriptor, isInstalled: bool, facts: map<FactKey, MemoryFact>,
                              enabled: set<string>): HookStatus
  {
    var missingFacts, missingFeatures := MissingFacts(d.discovery, facts), MissingRequired(d.features, enabled);
    if d.runMode == Disabled then HookStatus(d.runMode, NotUsable, [], [])
    else if missingFacts != [] || missingFeatures != [] then
      HookStatus(d.runMode, NotUsable, missingFacts, missingFeatures)
    else HookStatus(d.runMode, if isInstalled then Installed else Resolved, [], [])
  }

  predicate IsUsable(s: HookStatus) {
    (s.health == Resolved || s.health == Installed) && s.mode != Disabled &&
      s.missingFacts == [] && s.missingFeatures == []
  }

  ghost predicate FactsKnown(d: HookDescriptor, facts: map<FactKey, MemoryFact>) {
    forall r | r in d.discovery :: r.required ==> r.fact in facts
  }

  ghost predicate FeaturesOn(d: HookDescriptor, enabled: set<string>) {
    forall f | f in d.features :: f.required ==> f.name in enabled
  }

  lemma {:induction false} MissingFactsExactly(requirements: seq<DiscoveryRequirement>, facts: map<FactKey, MemoryFact>)
    ensures forall k :: k in MissingFacts(requirements, facts) <==>
                        k !in facts && DiscoveryRequirement(k, true) in requirements
  {
    if requirements != [] {
      MissingFactsExactly(requirements[1..], facts);
      assert requirements == [requirements[0]] + requirements[1..];
    }
  }

  lemma {:induction false} MissingRequiredExactly(dependencies: seq<FeatureDependency>, enabled: set<string>)
    ensures forall n :: n in MissingRequired(dependencies, enabled) <==>
                        n !in enabled && FeatureDependency(n, true) in dependencies
  {
    if dependencies != [] {
      MissingRequiredExactly(dependencies[1..], enabled);
      assert dependencies == [dependencies[0]] + dependencies[1..];
    }
  }

  lemma NothingMissing(d: HookDescriptor, facts: map<FactKey, MemoryFact>, enabled: set<string>)
    ensures MissingFacts(d.discovery, facts) == [] <==> FactsKnown(d, facts)
    ensures MissingRequired(d.features, enabled) == [] <==> FeaturesOn(d, enabled)
  {
    MissingFactsExactly(d.discovery, facts);
    MissingRequiredExactly(d.features, enabled);
    var a, b := MissingFacts(d.discovery, facts), MissingRequired(d.features, enabled);
    if a != [] {
      assert a[0] in a && DiscoveryRequirement(a[0], true) in d.discovery;
    }
    if b != [] {
      assert b[0] in b && FeatureDependency(b[0], true) in d.features;
    }
    if a == [] {
      forall r | r in d.discovery && r.required ensures r.fact in facts {
        assert r == DiscoveryRequirement(r.fact, true) && r.fact !in a;
      }
    }
    if b == [] {
      forall f | f in d.features && f.required ensures f.name in enabled {
        assert f == FeatureDependency(f.name, true) && f.name !in b;
      }
    }
  }

  /** A hook is usable exactly when its mode is not disabled, every required fact is known and every
      required feature is on; then its health says whether it is installed. */
  lemma UsableExactly(d: HookDescriptor, isInstalled: bool, facts: map<FactKey, MemoryFact>, enabled: set<string>)
    ensures var s := EvaluateDescriptor(d, isInstalled, facts, enabled);
            && (IsUsable(s) <==> d.runMode != Disabled && FactsKnown(d, facts) && FeaturesOn(d, enabled))
            && (s.health == Installed <==> IsUsable(s) && isInstalled)
  {
    NothingMissing(d, facts, enabled);
  }

  /** Every evaluation: the mode is that of the hook; a disabled hook is not usable and lists nothing;
      any other lists exactly the required facts that are unknown and the required features that are
      off, and is not usable exactly if there are some. */
  lemma EvaluationTold(d: HookDescriptor, isInstalled: bool, facts: map<FactKey, MemoryFact>, enabled: set<string>)
    ensures var s := EvaluateDescriptor(d, isInstalled, facts, enabled);
            && s.mode == d.runMode
            && (d.runMode == Disabled ==> s.health == NotUsable && s.missingFacts == [] && s.missingFeatures == [])
            && (d.runMode != Disabled ==>
                  && (forall k :: k in s.missingFacts <==> k !in facts && DiscoveryRequirement(k, true) in d.discovery)
                  && (forall n :: n in s.missingFeatures <==> n !in enabled && FeatureDependency(n, true) in d.features)
                  && (s.health == NotUsable <==> s.missingFacts != [] || s.missingFeatures != [])
                  && (s.health == Installed <==> isInstalled && s.missingFacts == [] && s.missingFeatures == []))
  {
    MissingFactsExactly(d.discovery, facts);
    MissingRequiredExactly(d.features, enabled);
  }

  lemma Regroup<T>(a: seq<T>, b: seq<T>, c: seq<T>)
    ensures a + b + c == a + (b + c)
  {
  }

  /** The lists keep the order and the number of the requirements: each is listed in its own place. */
  lemma {:induction false} MissingFactsAppend(
      a: seq<DiscoveryRequirement>, b: seq<DiscoveryRequirement>, facts: map<FactKey, MemoryFact>)
    ensures MissingFacts(a + b, facts) == MissingFacts(a, facts) + MissingFacts(b, facts)
  {
    if a == [] {
      assert a + b == b;
    } else {
      var rest := a[1..] + b;
      MissingFactsAppend(a[1..], b, facts);
      assert (a + b)[1..] == rest && (a + b)[0] == a[0];
      FirstFact(a + b, facts);
      FirstFact(a, facts);
      hide MissingFacts;
      Regroup(if a[0].required && a[0].fact !in facts then [a[0].fact] else [],
              MissingFacts(a[1..], facts), MissingFacts(b, facts));
    }
  }

  lemma FirstFact(a: seq<DiscoveryRequirement>, facts: map<FactKey, MemoryFact>)
    requires a != []
    ensures MissingFacts(a, facts) ==
            (if a[0].required && a[0].fact !in facts then [a[0].fact] else []) + MissingFacts(a[1..], facts)
  {
  }

  lemma {:induction false} MissingRequiredAppend(
      a: seq<FeatureDependency>, b: seq<FeatureDependency>, enabled: set<string>)
    ensures MissingRequired(a + b, enabled) == MissingRequired(a, enabled) + MissingRequired(b, enabled)
  {
    if a == [] {
      assert a + b == b;
    } else {
      var rest := a[1..] + b;
      MissingRequiredAppend(a[1..], b, enabled);
      assert (a + b)[1..] == rest && (a + b)[0] == a[0];
      FirstFeature(a + b, enabled);
      FirstFeature(a, enabled);
      hide MissingRequired;
      Regroup(if a[0].required && a[0].name !in enabled then [a[0].name] else [],
              MissingRequired(a[1..], enabled), MissingRequired(b, enabled));
    }
  }

  lemma FirstFeature(a: seq<FeatureDependency>, enabled: set<string>)
    requires a != []
    ensures MissingRequired(a, enabled) ==
            (if a[0].required && a[0].name !in enabled then [a[0].name] else []) + MissingRequired(a[1..], enabled)
  {
  }

  /** More facts and more features never make a usable hook unusable. */
  lemma UsabilityMonotone(d: HookDescriptor, before: bool, after: bool, facts: map<FactKey, MemoryFact>,
                          facts': map<FactKey, MemoryFact>, enabled: set<string>, enabled': set<string>)
    requires facts.Keys <= facts'.Keys && enabled <= enabled'
    requires IsUsable(EvaluateDescriptor(d, before, facts, enabled))
    ensures IsUsable(EvaluateDescriptor(d, after, facts', enabled'))
  {
    UsableExactly(d, before, facts, enabled);
    UsableExactly(d, after, facts', enabled');
  }

  // ---------------------------------------------------------------- manifest and features

  predicate FactShapeOk(fact: MemoryFact) { fact.key.kind == fact.valueKind && Replace !in fact.access }

  function ValidateFactShape(fact: MemoryFact): Option<Error> {
    if fact.key.kind != fact.valueKind then Some(KindMismatch)
    else if Replace in fact.access then Some(FactReplaceForbidden)
    else None
  }

  class MemoryManifest {
    var facts: map<FactKey, MemoryFact>

    ghost predicate Valid()
      reads this
    {
      forall k | k in facts :: facts[k].key == k && FactShapeOk(facts[k])
    }

    constructor ()
      ensures Valid() && facts == map[]
    {
      facts := map[];
    }

    /** A fact goes in under its own key if its shape is good and the key is new; otherwise nothing
        changes. */
    method Insert(fact: MemoryFact) returns (error: Option<Error>)
      requires Valid()
      modifies this
      ensures Valid()
      ensures error.None? <==> FactShapeOk(fact) && fact.key !in old(facts)
      ensures error == Some(DuplicateFact) <==> FactShapeOk(fact) && fact.key in old(facts)
      ensures error == Some(KindMismatch) <==> fact.key.kind != fact.valueKind
      ensures error == Some(FactReplaceForbidden) <==> fact.key.kind == fact.valueKind && Replace in fact.access
      ensures facts == if error.None? then old(facts)[fact.key := fact] else old(facts)
    {
      error := ValidateFactShape(fact);
      if error.Some? {
        return;
      }
      if fact.key in facts {
        return Some(DuplicateFact);
      }
      facts := facts[fact.key := fact];
    }
  }

  class FeatureSet {
    var enabled: set<string>

    constructor ()
      ensures enabled == {}
    {
      enabled := {};
    }

    method Enable(name: string) returns (added: bool)
      modifies this
      ensures enabled == old(enabled) + {name} && (added <==> name !in old(enabled))
    {
      added := name !in enabled;
      enabled := enabled + {name};
    }

    method Disable(name: string) returns (removed: bool)
      modifies this
      ensures enabled == old(enabled) - {name} && (removed <==> name in old(enabled))
    {
      removed := name in enabled;
      enabled := enabled - {name};
    }
  }

  // ---------------------------------------------------------------- the registry

  const WRITES: seq<Right> := [Block, Mutate, Call, Replace]

  /** Visitors read only, and nobody replaces. */
  predicate HookShapeOk(d: HookDescriptor) {
    Replace !in d.access && (d.purpose == Visitor ==> d.access !! {Block, Mutate, Call})
  }

  /** `validate_shape` */
  method ValidateShape(d: HookDescriptor) returns (error: Option<Error>)
    ensures error.None? <==> HookShapeOk(d)
    ensures error == Some(VisitorRequestsWriteAccess) <==> d.purpose == Visitor && !HookShapeOk(d)
    ensures error == Some(VisitorRequestsWriteAccess) <==>
            d.purpose == Visitor && (Block in d.access || Mutate in d.access || Call in d.access || Replace in d.access)
    ensures error == Some(HookReplaceForbidden) <==> d.purpose != Visitor && Replace in d.access
    ensures error.Some? ==> error.value == VisitorRequestsWriteAccess || error.value == HookReplaceForbidden
  {
    if d.purpose == Visitor {
      for i := 0 to |WRITES|
        invariant forall j | 0 <= j < i :: WRITES[j] !in d.access
      {
        if WRITES[i] in d.access {
          return Some(VisitorRequestsWriteAccess);
        }
      }
      assert WRITES[0] !in d.access && WRITES[1] !in d.access && WRITES[2] !in d.access && WRITES[3] !in d.access;
    }
    if Replace in d.access {
      return Some(HookReplaceForbidden);
    }
    return None;
  }

  class Registry {
    var hooks: map<string, HookDescriptor>
    var installed: map<string, RunMode>

    /** Installed names are registered, with the mode their descriptor has, which is not disabled. */
    ghost predicate Valid()
      reads this
    {
      && (forall n | n in hooks :: hooks[n].name == n && HookShapeOk(hooks[n]))
      && (forall n | n in installed :: n in hooks && installed[n] == hooks[n].runMode != Disabled)
    }

    constructor ()
      ensures Valid() && hooks == map[] && installed == map[]
    {
      hooks, installed := map[], map[];
    }

    method Register(d: HookDescriptor) returns (error: Option<Error>)
      requires Valid()
      modifies `hooks
      ensures Valid()
      ensures error.None? <==> HookShapeOk(d) && d.name !in old(hooks)
      ensures error == Some(DuplicateHook) <==> HookShapeOk(d) && d.name in old(hooks)
      ensures error == Some(VisitorRequestsWriteAccess) <==>
              d.purpose == Visitor &&
              (Block in d.access || Mutate in d.access || Call in d.access || Replace in d.access)
      ensures error == Some(HookReplaceForbidden) <==> d.purpose != Visitor && Replace in d.access
      ensures hooks == if error.None? then old(hooks)[d.name := d] else old(hooks)
    {
      error := ValidateShape(d);
      if error.Some? {
        return;
      }
      if d.name in hooks {
        return Some(DuplicateHook);
      }
      hooks := hooks[d.name := d];
    }

    function Evaluate(name: string, facts: map<FactKey, MemoryFact>, enabled: set<string>): Option<HookStatus>
      reads this
    {
      if name !in hooks then None
      else Some(EvaluateDescriptor(hooks[name], hooks[name].name in installed, facts, enabled))
    }

    method MarkInstalled(name: string, manifest: MemoryManifest, features: FeatureSet) returns (error: Option<Error>)
      requires Valid()
      modifies `installed
      ensures Valid()
      ensures error.None? <==> name in hooks && hooks[name].runMode != Disabled &&
                               FactsKnown(hooks[name], manifest.facts) && FeaturesOn(hooks[name], features.enabled)
      ensures error == Some(MissingHook) <==> name !in hooks
      ensures error == Some(CannotInstallDisabledHook) <==> name in hooks && hooks[name].runMode == Disabled
      ensures error == Some(CannotInstallUnresolvedHook) <==>
              name in hooks && hooks[name].runMode != Disabled &&
              !(FactsKnown(hooks[name], manifest.facts) && FeaturesOn(hooks[name], features.enabled))
      ensures installed == if error.None? then old(installed)[name := hooks[name].runMode] else old(installed)
    {
      var status := Evaluate(name, manifest.facts, features.enabled);
      if status.None? {
        return Some(MissingHook);
      }
      UsableExactly(hooks[name], hooks[name].name in installed, manifest.facts, features.enabled);
      if status.value.mode == Disabled {
        return Some(CannotInstallDisabledHook);
      }
      if !IsUsable(status.value) {
        return Some(CannotInstallUnresolvedHook);
      }
      installed := installed[name := status.value.mode];
      return None;
    }
  }

  // ---------------------------------------------------------------- what a run leaves

  datatype Action =
    | InsertFact(fact: MemoryFact)
    | EnableFeature(feature: string)
    | DisableFeature(feature: string)
    | RegisterHook(hook: HookDescriptor)
    | InstallHook(name: string)

  /** The facts, features, hooks and installations after some actions. */
  datatype Stand = Stand(
    facts: map<FactKey, MemoryFact>, enabled: set<string>, hooks: map<string, HookDescriptor>,
    installed: map<string, RunMode>)

  /** A hook that may be installed as things stand. */
  ghost predicate MayInstall(s: Stand, name: string) {
    && name in s.hooks && s.hooks[name].runMode != Disabled
    && FactsKnown(s.hooks[name], s.facts) && FeaturesOn(s.hooks[name], s.enabled)
  }

  ghost function AfterAction(s: Stand, a: Action): Stand {
    match a
    case InsertFact(fact) =>
      if FactShapeOk(fact) && fact.key !in s.facts then s.(facts := s.facts[fact.key := fact]) else s
    case EnableFeature(feature) => s.(enabled := s.enabled + {feature})
    case DisableFeature(feature) => s.(enabled := s.enabled - {feature})
    case RegisterHook(hook) =>
      if HookShapeOk(hook) && hook.name !in s.hooks then s.(hooks := s.hooks[hook.name := hook]) else s
    case InstallHook(name) =>
      if MayInstall(s, name) then s.(installed := s.installed[name := s.hooks[name].runMode]) else s
  }

  const NOTHING := Stand(map[], {}, map[], map[])

  ghost function After(actions: seq<Action>): Stand {
    if |actions| == 0 then NOTHING else AfterAction(After(actions[..|actions| - 1]), actions[|actions| - 1])
  }

  /** A well-shaped insertion of the key. */
  predicate Inserts(a: Action, key: FactKey) { a.InsertFact? && a.fact.key == key && FactShapeOk(a.fact) }

  predicate Registers(a: Action, name: string) { a.RegisterHook? && a.hook.name == name && HookShapeOk(a.hook) }

  /** What one action does to a key. */
  lemma StepInserts(s: Stand, a: Action, key: FactKey)
    ensures key in AfterAction(s, a).facts <==> key in s.facts || Inserts(a, key)
    ensures key in s.facts ==> AfterAction(s, a).facts[key] == s.facts[key]
    ensures key !in s.facts && Inserts(a, key) ==> AfterAction(s, a).facts[key] == a.fact
  {
    hide MayInstall;
  }

  /** A key is known exactly if some action inserts it. */
  lemma {:induction false} KeyKnown(actions: seq<Action>, key: FactKey)
    ensures key in After(actions).facts <==> exists i: nat :: i < |actions| && Inserts(actions[i], key)
  {
    hide AfterAction, Inserts;
    if |actions| > 0 {
      var before, n := actions[..|actions| - 1], |actions| - 1;
      KeyKnown(before, key);
      StepInserts(After(before), actions[n], key);
      forall i: nat | i < n ensures Inserts(actions[i], key) <==> Inserts(before[i], key) {
      }
    }
  }

  /** Action `i` is the first well-shaped insertion of the key, and inserts this fact. */
  ghost predicate FirstInserts(actions: seq<Action>, i: nat, key: FactKey, fact: MemoryFact) {
    && i < |actions| && Inserts(actions[i], key) && actions[i].fact == fact
    && forall j: nat | j < i :: !Inserts(actions[j], key)
  }

  /** The first insertion is what is kept. */
  lemma {:induction false} FirstKept(actions: seq<Action>, i: nat, key: FactKey, fact: MemoryFact)
    requires FirstInserts(actions, i, key, fact)
    ensures key in After(actions).facts && After(actions).facts[key] == fact
  {
    hide AfterAction;
    var before, n := actions[..|actions| - 1], |actions| - 1;
    StepInserts(After(before), actions[n], key);
    if i < n {
      FirstKept(before, i, key, fact);
    } else {
      KeyKnown(before, key);
    }
  }

  /** There is a first insertion if there is any. */
  lemma {:induction false} SomeFirst(actions: seq<Action>, key: FactKey, i: nat) returns (first: nat)
    requires i < |actions| && Inserts(actions[i], key)
    ensures first < |actions| && Inserts(actions[first], key) && FirstInserts(actions, first, key, actions[first].fact)
    decreases i
  {
    if j: nat :| j < i && Inserts(actions[j], key) {
      first := SomeFirst(actions, key, j);
    } else {
      first := i;
    }
  }

  /** The first well-shaped insertion of a key is the fact the manifest keeps. */
  lemma FirstInsertionWins(actions: seq<Action>, key: FactKey, fact: MemoryFact)
    ensures key in After(actions).facts && After(actions).facts[key] == fact <==>
            exists i: nat :: FirstInserts(actions, i, key, fact)
    ensures key in After(actions).facts <==> exists i: nat :: i < |actions| && Inserts(actions[i], key)
  {
    hide After;
    KeyKnown(actions, key);
    if key in After(actions).facts {
      var i: nat :| i < |actions| && Inserts(actions[i], key);
      var first := SomeFirst(actions, key, i);
      FirstKept(actions, first, key, actions[first].fact);
    }
    forall i: nat | FirstInserts(actions, i, key, fact)
      ensures key in After(actions).facts && After(actions).facts[key] == fact
    {
      FirstKept(actions, i, key, fact);
    }
  }

  /** What one action does to a name. */
  lemma StepRegisters(s: Stand, a: Action, name: string)
    ensures name in AfterAction(s, a).hooks <==> name in s.hooks || Registers(a, name)
    ensures name in s.hooks ==> AfterAction(s, a).hooks[name] == s.hooks[name]
    ensures name !in s.hooks && Registers(a, name) ==> AfterAction(s, a).hooks[name] == a.hook
  {
    hide MayInstall;
  }

  /** A name is registered exactly if some action registers it. */
  lemma {:induction false} NameKnown(actions: seq<Action>, name: string)
    ensures name in After(actions).hooks <==> exists i: nat :: i < |actions| && Registers(actions[i], name)
  {
    hide AfterAction, Registers;
    if |actions| > 0 {
      var before, n := actions[..|actions| - 1], |actions| - 1;
      NameKnown(before, name);
      StepRegisters(After(before), actions[n], name);
      forall i: nat | i < n ensures Registers(actions[i], name) <==> Registers(before[i], name) {
      }
    }
  }

  /** Action `i` is the first well-shaped registration of the name, and registers this hook. */
  ghost predicate FirstRegisters(actions: seq<Action>, i: nat, name: string, hook: HookDescriptor) {
    && i < |actions| && Registers(actions[i], name) && actions[i].hook == hook
    && forall j: nat | j < i :: !Registers(actions[j], name)
  }

  /** The first registration is what is kept. */
  lemma {:induction false} FirstHookKept(actions: seq<Action>, i: nat, name: string, hook: HookDescriptor)
    requires FirstRegisters(actions, i, name, hook)
    ensures name in After(actions).hooks && After(actions).hooks[name] == hook
  {
    hide AfterAction;
    var before, n := actions[..|actions| - 1], |actions| - 1;
    StepRegisters(After(before), actions[n], name);
    if i < n {
      FirstHookKept(before, i, name, hook);
    } else {
      NameKnown(before, name);
    }
  }

  /** There is a first registration if there is any. */
  lemma {:induction false} SomeFirstHook(actions: seq<Action>, name: string, i: nat) returns (first: nat)
    requires i < |actions| && Registers(actions[i], name)
    ensures first < |actions| && Registers(actions[first], name)
    ensures FirstRegisters(actions, first, name, actions[first].hook)
    decreases i
  {
    if j: nat :| j < i && Registers(actions[j], name) {
      first := SomeFirstHook(actions, name, j);
    } else {
      first := i;
    }
  }

  /** The first well-shaped registration of a name is the hook the registry keeps. */
  lemma FirstRegistrationWins(actions: seq<Action>, name: string, hook: HookDescriptor)
    ensures name in After(actions).hooks && After(actions).hooks[name] == hook <==>
            exists i: nat :: FirstRegisters(actions, i, name, hook)
    ensures name in After(actions).hooks <==> exists i: nat :: i < |actions| && Registers(actions[i], name)
  {
    hide After;
    NameKnown(actions, name);
    if name in After(actions).hooks {
      var i: nat :| i < |actions| && Registers(actions[i], name);
      var first := SomeFirstHook(actions, name, i);
      FirstHookKept(actions, first, name, actions[first].hook);
    }
    forall i: nat | FirstRegisters(actions, i, name, hook)
      ensures name in After(actions).hooks && After(actions).hooks[name] == hook
    {
      FirstHookKept(actions, i, name, hook);
    }
  }

  /** Action `i` switches the feature on and no later one switches it off. */
  ghost predicate OnSince(actions: seq<Action>, i: nat, feature: string) {
    && i < |actions| && actions[i] == EnableFeature(feature)
    && forall j | i < j < |actions| :: actions[j] != DisableFeature(feature)
  }

  /** A feature is on exactly if its last toggle switched it on. */
  lemma {:induction false} LastToggleWins(actions: seq<Action>, feature: string)
    ensures feature in After(actions).enabled <==> exists i: nat :: OnSince(actions, i, feature)
  {
    if |actions| > 0 {
      var before, n := actions[..|actions| - 1], |actions| - 1;
      LastToggleWins(before, feature);
      forall i: nat | i < n
        ensures OnSince(actions, i, feature) <==> OnSince(before, i, feature) && actions[n] != DisableFeature(feature)
      {
        assert forall j | i < j < n :: before[j] == actions[j];
      }
      assert OnSince(actions, n, feature) <==> actions[n] == EnableFeature(feature);
    }
  }

  /** Action `i` installs the name, as things stand then. */
  ghost predicate InstallsAt(actions: seq<Action>, i: nat, name: string) {
    i < |actions| && actions[i] == InstallHook(name) && MayInstall(After(actions[..i]), name)
  }

  /** A name is installed exactly if at some action installing it, it could be. */
  lemma {:induction false} InstalledOnce(actions: seq<Action>, name: string)
    ensures name in After(actions).installed <==> exists i: nat :: InstallsAt(actions, i, name)
  {
    hide MayInstall;
    if |actions| > 0 {
      var before, n := actions[..|actions| - 1], |actions| - 1;
      InstalledOnce(before, name);
      forall i: nat | i < n ensures InstallsAt(actions, i, name) <==> InstallsAt(before, i, name) {
        assert before[..i] == actions[..i];
      }
      assert InstallsAt(actions, n, name) <==> actions[n] == InstallHook(name) && MayInstall(After(before), name);
    }
  }

  // ---------------------------------------------------------------- whole runs

  /** One manifest, one feature set and one registry, over their whole life. */
  class Session {
    const manifest: MemoryManifest
    const features: FeatureSet
    const registry: Registry

    ghost function Now(): Stand
      reads manifest, features, registry
    {
      Stand(manifest.facts, features.enabled, registry.hooks, registry.installed)
    }

    /** Besides the invariants of the parts: whatever is installed has all its required facts. */
    ghost predicate Valid()
      reads this, manifest, features, registry
    {
      && manifest.Valid() && registry.Valid()
      && forall n | n in registry.installed :: FactsKnown(registry.hooks[n], manifest.facts)
    }

    constructor ()
      ensures Valid() && fresh(manifest) && fresh(features) && fresh(registry) && Now() == NOTHING
    {
      manifest := new MemoryManifest();
      features := new FeatureSet();
      registry := new Registry();
    }

    /** An action does exactly what it should, and changes or loses no fact, registration or
        installation. */
    method Apply(a: Action)
      requires Valid()
      modifies manifest, features, registry
      ensures Valid() && Now() == AfterAction(old(Now()), a)
      ensures Extends(old(manifest.facts), manifest.facts) && Extends(old(registry.hooks), registry.hooks)
      ensures Extends(old(registry.installed), registry.installed)
    {
      match a {
        case InsertFact(fact) => var e := manifest.Insert(fact);
        case EnableFeature(feature) => var b := features.Enable(feature);
        case DisableFeature(feature) => var b := features.Disable(feature);
        case RegisterHook(hook) => var e := registry.Register(hook);
        case InstallHook(name) => var e := registry.MarkInstalled(name, manifest, features);
      }
    }
  }

  ghost predicate Extends<K, V(!new)>(a: map<K, V>, b: map<K, V>) {
    forall k | k in a :: k in b && b[k] == a[k]
  }

  /** After any run an installed hook reports that it is installed, exactly while the features it
      requires are on. */
  lemma InstalledExactly(s: Session, name: string)
    requires s.Valid() && name in s.registry.installed
    ensures var status := s.registry.Evaluate(name, s.manifest.facts, s.features.enabled);
            && status.Some? && status.value.mode == s.registry.installed[name]
            && (status.value.health == Installed <==> FeaturesOn(s.registry.hooks[name], s.features.enabled))
  {
    UsableExactly(s.registry.hooks[name], true, s.manifest.facts, s.features.enabled);
  }

  lemma AfterNext(actions: seq<Action>, i: nat)
    requires i < |actions|
    ensures After(actions[..i + 1]) == AfterAction(After(actions[..i]), actions[i])
  {
    assert actions[..i + 1][..i] == actions[..i];
  }

  /** What any run of actions leaves: the first good insertions and registrations, the last toggles,
      and whatever could be installed when it was; installed names are registered with the mode of
      their descriptor and report Installed exactly while their features are on. */
  method Run(actions: seq<Action>)
    returns (facts: map<FactKey, MemoryFact>, enabled: set<string>, hooks: map<string, HookDescriptor>,
             installed: map<string, RunMode>)
    ensures Stand(facts, enabled, hooks, installed) == After(actions)
    ensures forall n | n in installed ::
              && n in hooks && installed[n] == hooks[n].runMode != Disabled
              && (EvaluateDescriptor(hooks[n], true, facts, enabled).health == Installed <==>
                  FeaturesOn(hooks[n], enabled))
  {
    var s := new Session();
    for i := 0 to |actions|
      invariant s.Valid() && fresh(s) && fresh(s.manifest) && fresh(s.features) && fresh(s.registry)
      invariant s.Now() == After(actions[..i])
    {
      AfterNext(actions, i);
      s.Apply(actions[i]);
    }
    assert actions[..|actions|] == actions;
    facts, enabled, hooks, installed := s.manifest.facts, s.features.enabled, s.registry.hooks, s.registry.installed;
    forall n | n in installed
      ensures EvaluateDescriptor(hooks[n], true, facts, enabled).health == Installed <==> FeaturesOn(hooks[n], enabled)
    {
      UsableExactly(hooks[n], true, facts, enabled);
    }
  }

  ghost predicate ModesRight(s: Stand) {
    forall n | n in s.installed :: n in s.hooks && s.installed[n] == s.hooks[n].runMode
  }

  lemma ActionKeeps(s: Stand, a: Action)
    requires ModesRight(s)
    ensures ModesRight(AfterAction(s, a))
    ensures Extends(s.facts, AfterAction(s, a).facts) && Extends(s.hooks, AfterAction(s, a).hooks)
    ensures Extends(s.installed, AfterAction(s, a).installed)
  {
    hide FactsKnown, FeaturesOn;
  }

  lemma {:induction false} ModesStayRight(actions: seq<Action>)
    ensures ModesRight(After(actions))
  {
    hide AfterAction, ModesRight;
    if |actions| > 0 {
      ModesStayRight(actions[..|actions| - 1]);
      ActionKeeps(After(actions[..|actions| - 1]), actions[|actions| - 1]);
    } else {
      NothingRight();
    }
  }

  lemma NothingRight()
    ensures ModesRight(NOTHING)
  {
  }

  /** Nothing of a run is lost in any continuation of it. */
  lemma {:induction false} NothingLost(first: seq<Action>, second: seq<Action>)
    ensures Extends(After(first).facts, After(first + second).facts)
    ensures Extends(After(first).hooks, After(first + second).hooks)
    ensures Extends(After(first).installed, After(first + second).installed)
    decreases |second|
  {
    hide AfterAction, ModesRight;
    if |second| == 0 {
      assert first + second == first;
    } else {
      var before := second[..|second| - 1];
      NothingLost(first, before);
      assert (first + second)[..|first + second| - 1] == first + before;
      ModesStayRight(first + before);
      ActionKeeps(After(first + before), second[|second| - 1]);
    }
  }
}
