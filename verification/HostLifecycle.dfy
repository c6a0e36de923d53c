/** The host: it loads a runtime, resolves signatures, and installs all seven hooks or none. */
module HostLifecycle {
  import opened Common
  import opened HookBackend
  import opened PatternSearch
  import opened RuntimeShim
  import opened SignaturePattern

  // ---------------------------------------------------------------- signatures

  datatype Descriptor = Descriptor(name: string, pattern: string, expectedRva: U32, required: bool)

  datatype ResolveError = NoError | BadPattern | NotFound | MatchedMoreThanOnce

  datatype ResolvedSignature = ResolvedSignature(
    name: string, rva: Option<nat>, error: ResolveError, unique: bool, expectedRvaOk: bool)

  /** The address of the only match of a pattern in the searched sections. */
  function SoleRva(m: Module, pattern: string): Option<nat> {
    if Compile(pattern).Ok? && |AllRvas(m, Compile(pattern).bytes)| == 1
    then Some(AllRvas(m, Compile(pattern).bytes)[0]) else None
  }

  /** It really is the only one: no other address matches inside the searched sections. */
  lemma SoleRvaIsSole(m: Module, pattern: string, rva: nat, other: nat)
    requires SoleRva(m, pattern) == Some(rva)
    ensures var bytes := Compile(pattern).bytes;
            && rva + |bytes| <= |m.image|
            && ((exists s :: s in m.sections && MatchIn(m, s, bytes, other)) <==> other == rva)
  {
    hide Finish, Tokens, Spells, RvasOf, MatchIn;
    FinishOk([], Tokens(pattern), Compile(pattern).bytes);
    RvasExactly(m, m.sections, Compile(pattern).bytes, rva);
    RvasExactly(m, m.sections, Compile(pattern).bytes, other);
  }

  /** The text compiles, and its bytes are found at this address in one searched section and nowhere else. */
  ghost predicate SoleMatch(m: Module, pattern: string, rva: nat) {
    Compile(pattern).Ok? && FoundOnce(m, Compile(pattern).bytes, rva)
  }

  lemma SoleRvaExactly(m: Module, pattern: string, rva: nat)
    ensures SoleRva(m, pattern) == Some(rva) <==> SoleMatch(m, pattern, rva)
  {
    hide Finish, Tokens, Spells, AllRvas, FoundOnce;
    if Compile(pattern).Ok? {
      var bytes := Compile(pattern).bytes;
      FinishOk([], Tokens(pattern), bytes);
      OneReportExactly(m, bytes, rva);
      var rvas := AllRvas(m, bytes);
      if |rvas| == 1 { assert rvas == [rvas[0]]; }
    }
  }

  predicate ExpectedRva(d: Descriptor, rva: nat) { d.expectedRva == 0 || d.expectedRva == rva }

  /** A resolution reports the sole match if there is one, and why there is none otherwise. */
  ghost predicate Resolves(m: Module, d: Descriptor, r: ResolvedSignature) {
    && r.name == d.name && r.rva == SoleRva(m, d.pattern)
    && r.unique == r.rva.Some?
    && (r.expectedRvaOk <==> r.rva.Some? && ExpectedRva(d, r.rva.value))
    && r.error == if !Compile(d.pattern).Ok? then BadPattern
                  else if AllRvas(m, Compile(d.pattern).bytes) == [] then NotFound
                  else if r.rva.None? then MatchedMoreThanOnce
                  else NoError
  }

  method ResolveMappedSignature(m: MappedModule, d: Descriptor) returns (r: ResolvedSignature)
    ensures Resolves(m, d, r)
  {
    r := ResolvedSignature(d.name, None, NoError, false, false);
    var pattern := CompilePattern(d.pattern);
    if !pattern.Ok? {
      return r.(error := BadPattern);
    }
    var rvas := FindPatternRvas(m, pattern.bytes, 3);
    CapKeepsVerdict(AllRvas(m, pattern.bytes));
    r := r.(unique := |rvas| == 1);
    if r.unique {
      assert rvas == [rvas[0]];
      r := r.(rva := Some(rvas[0]), expectedRvaOk := d.expectedRva == 0 || rvas[0] == d.expectedRva);
    } else if rvas == [] {
      r := r.(error := NotFound);
    } else {
      r := r.(error := MatchedMoreThanOnce);
    }
  }

  predicate Acceptable(m: Module, d: Descriptor, drift: bool) {
    SoleRva(m, d.pattern).Some? && (drift || ExpectedRva(d, SoleRva(m, d.pattern).value))
  }

  function RequiredFailures(m: Module, ds: seq<Descriptor>, drift: bool): nat {
    if ds == [] then 0
    else
      var last := ds[|ds| - 1];
      RequiredFailures(m, ds[..|ds| - 1], drift) + if last.required && !Acceptable(m, last, drift) then 1 else 0
  }

  function FirstNamed(ds: seq<Descriptor>, name: string): Option<Descriptor> {
    if ds == [] then None else if ds[0].name == name then Some(ds[0]) else FirstNamed(ds[1..], name)
  }

  /** The descriptor at `i` is the first of its name. */
  ghost predicate FirstOfName(ds: seq<Descriptor>, i: nat, name: string) {
    i < |ds| && ds[i].name == name && forall j | 0 <= j < i :: ds[j].name != name
  }

  lemma {:induction false} FirstNamedExactly(ds: seq<Descriptor>, name: string, i: nat)
    requires FirstOfName(ds, i, name)
    ensures FirstNamed(ds, name) == Some(ds[i])
  {
    if i > 0 {
      assert forall j | 0 <= j < i - 1 :: ds[1..][j] == ds[j + 1];
      FirstNamedExactly(ds[1..], name, i - 1);
    }
  }

  lemma {:induction false} SomeFirstOfName(ds: seq<Descriptor>, name: string) returns (i: nat)
    requires FirstNamed(ds, name).Some?
    ensures FirstOfName(ds, i, name)
  {
    if ds[0].name == name {
      i := 0;
    } else {
      var j := SomeFirstOfName(ds[1..], name);
      i := j + 1;
      forall l | 0 <= l < i ensures ds[l].name != name {
        if l > 0 { assert ds[l] == ds[1..][l - 1]; }
      }
    }
  }

  ghost predicate AllResolved(m: Module, ds: seq<Descriptor>, rs: seq<ResolvedSignature>) {
    |rs| == |ds| && forall i | 0 <= i < |ds| :: Resolves(m, ds[i], rs[i])
  }

  method FindResolvedSignature(rs: seq<ResolvedSignature>, name: string, ghost m: Module, ghost ds: seq<Descriptor>)
    returns (r: Option<ResolvedSignature>)
    requires AllResolved(m, ds, rs)
    ensures r.Some? == FirstNamed(ds, name).Some?
    ensures r.Some? ==> r.value.rva == SoleRva(m, FirstNamed(ds, name).value.pattern)
  {
    hide SoleRva;
    for i := 0 to |rs|
      invariant FirstNamed(ds, name) == FirstNamed(ds[i..], name)
    {
      assert Resolves(m, ds[i], rs[i]);
      if rs[i].name == name {
        return Some(rs[i]);
      }
      assert ds[i..][1..] == ds[i + 1..];
    }
    return None;
  }

  // ---------------------------------------------------------------- configuration and environment

  datatype Status =
    | HostOk | BadArgument | AlreadyInitialized | RuntimeLoadFailed | RuntimeAbiMismatch | RuntimeCreateFailed
    | RuntimeProbeFailed | ServerModuleNotFound | SignatureValidationFailed | SummaryWriteFailed
    | HookInstallFailed | NotInitialized

  const HOST_ABI_VERSION: nat := 1

  datatype Config = Config(
    abiVersion: nat, requireRuntime: bool, requireSignatures: bool, allowMappedFile: bool, allowRvaDrift: bool,
    installHooks: bool, hasRuntimePath: bool, hasServerPath: bool, hasSummaryPath: bool)

  /** A module at a non-null base; its headers may be no PE headers. */
  datatype View = BadHeaders | View(base: Address, m: MappedModule)

  type LoadedView = v: View | v.View? ==> v.base != 0 witness BadHeaders

  /** What the system, the runtime and the hooking library answer during one call. */
  datatype Environment = Environment(
    load: LoadOutcome, abiMatches: bool, made: bool, probeOk: bool, live: Option<LoadedView>,
    mapped: Option<LoadedView>, outcomes: seq<Outcome>, summaryWritten: bool)
  {
    function OutcomeOf(k: nat): Outcome { if k < |outcomes| then outcomes[k] else CreateFails }
  }

  const HOOKS: nat := 7

  function HookName(k: nat): string {
    if k == 0 then "CBaseEntity::TakeDamageOld"
    else if k == 1 then "CEntityInstance::AcceptInput"
    else if k == 2 then "CEntityIOOutput::FireOutputInternal"
    else if k == 3 then "CitadelTargetFilter::FriendlyFire"
    else if k == 4 then "CitadelTargetFilter::FriendlyFireCaller"
    else if k == 5 then "CitadelTargetFilter::SecondaryFriendlyFireGate"
    else "CEntityIdentity::IndexForEntityInstance"
  }

  /** Where hook `k` goes: the base plus the sole match of its pattern, or nowhere. */
  function TargetAddress(ds: seq<Descriptor>, view: View, k: nat): Address
    requires view.View?
  {
    var d := FirstNamed(ds, HookName(k));
    if d.None? || SoleRva(view.m, d.value.pattern).None? then 0
    else view.base + SoleRva(view.m, d.value.pattern).value
  }

  /** `target` is the base of the module plus the only match of the pattern of the first descriptor of
      that name. */
  ghost predicate Placed(ds: seq<Descriptor>, view: View, name: string, target: Address)
    requires view.View?
  {
    exists i: nat, rva: nat ::
      FirstOfName(ds, i, name) && SoleMatch(view.m, ds[i].pattern, rva) && target == view.base + rva
  }

  lemma TargetPlaced(ds: seq<Descriptor>, view: View, k: nat)
    requires view.View? && view.base != 0
    ensures forall target :: target != 0 ==>
              (Placed(ds, view, HookName(k), target) <==> TargetAddress(ds, view, k) == target)
  {
    hide HookName, SoleRva, SoleMatch, FirstNamed;
    var name := HookName(k);
    if FirstNamed(ds, name).Some? {
      var i := SomeFirstOfName(ds, name);
      FirstNamedExactly(ds, name, i);
      forall rva: nat ensures SoleRva(view.m, ds[i].pattern) == Some(rva) <==> SoleMatch(view.m, ds[i].pattern, rva) {
        SoleRvaExactly(view.m, ds[i].pattern, rva);
      }
    }
    forall i: nat | FirstOfName(ds, i, name) ensures FirstNamed(ds, name) == Some(ds[i]) {
      FirstNamedExactly(ds, name, i);
    }
    forall i: nat, j: nat ensures FirstOfName(ds, i, name) && FirstOfName(ds, j, name) ==> i == j {
      if FirstOfName(ds, i, name) && FirstOfName(ds, j, name) {
        FirstsEqual(ds, i, j, name);
      }
    }
  }

  lemma FirstsEqual(ds: seq<Descriptor>, i: nat, j: nat, name: string)
    requires FirstOfName(ds, i, name) && FirstOfName(ds, j, name)
    ensures i == j
  {
  }

  predicate Installable(ds: seq<Descriptor>, view: View, env: Environment, k: nat)
    requires view.View?
  {
    TargetAddress(ds, view, k) != 0 && env.OutcomeOf(k).Works?
  }

  ghost predicate AllInstallable(ds: seq<Descriptor>, view: View, env: Environment, n: nat)
    requires view.View?
  {
    forall k: nat | k < n :: Installable(ds, view, env, k)
  }

  lemma NextInstallable(ds: seq<Descriptor>, view: View, env: Environment, k: nat)
    requires view.View?
    ensures AllInstallable(ds, view, env, k + 1) <==> AllInstallable(ds, view, env, k) && Installable(ds, view, env, k)
  {
  }

  function RuntimeStatus(config: Config, env: Environment): Status {
    if !config.requireRuntime then HostOk
    else if !config.hasRuntimePath || !Complete(env.load) then RuntimeLoadFailed
    else if !env.abiMatches then RuntimeAbiMismatch
    else if !env.made then RuntimeCreateFailed
    else if !env.probeOk then RuntimeProbeFailed
    else HostOk
  }

  /** When resolution installs hooks: they are asked for, the live module is loaded and readable,
      nothing required is missing, and all seven can be installed. */
  ghost predicate HooksGoIn(ds: seq<Descriptor>, config: Config, env: Environment) {
    && config.installHooks
    && env.live.Some? && env.live.value.View?
    && (config.requireSignatures ==> RequiredFailures(env.live.value.m, ds, config.allowRvaDrift) == 0)
    && AllInstallable(ds, env.live.value, env, HOOKS)
  }

  /** What resolution answers: no usable module, a required signature missing, hooks that cannot go
      into a mapped file or cannot all be installed, or success. */
  ghost function ResolveStatus(ds: seq<Descriptor>, config: Config, env: Environment): Status {
    if env.live.None? && !LoadsMapped(config, env) then ServerModuleNotFound
    else
      var view: View := if env.live.Some? then env.live.value else env.mapped.value;
      if view.BadHeaders? then ServerModuleNotFound
      else if config.requireSignatures && RequiredFailures(view.m, ds, config.allowRvaDrift) != 0 then
        SignatureValidationFailed
      else if config.installHooks && (env.live.None? || !AllInstallable(ds, view, env, HOOKS)) then HookInstallFailed
      else HostOk
  }

  /** Resolution maps the server file for want of a live module. */
  predicate LoadsMapped(config: Config, env: Environment) {
    env.live.None? && config.allowMappedFile && config.hasServerPath && env.mapped.Some?
  }

  /** Hooks go in only when resolution succeeds. */
  lemma HooksMeanSuccess(ds: seq<Descriptor>, config: Config, env: Environment)
    ensures HooksGoIn(ds, config, env) ==> ResolveStatus(ds, config, env) == HostOk
    ensures ResolveStatus(ds, config, env) == HostOk && config.installHooks ==> HooksGoIn(ds, config, env)
  {
    hide RequiredFailures, AllInstallable;
  }

  /** The host is initialised unless something required fails. */
  ghost predicate Starts(ds: seq<Descriptor>, config: Config, env: Environment) {
    RuntimeStatus(config, env) == HostOk && (!config.requireSignatures || ResolveStatus(ds, config, env) == HostOk)
  }

  ghost function StartStatus(ds: seq<Descriptor>, config: Config, env: Environment): Status {
    if RuntimeStatus(config, env) != HostOk then RuntimeStatus(config, env)
    else if !Starts(ds, config, env) then ResolveStatus(ds, config, env)
    else if config.hasSummaryPath && !env.summaryWritten then SummaryWriteFailed
    else HostOk
  }

  lemma StartStatusIsOwn(ds: seq<Descriptor>, config: Option<Config>, env: Environment)
    requires GoodArgument(config)
    ensures StartStatus(ds, config.value, env) != BadArgument &&
            StartStatus(ds, config.value, env) != AlreadyInitialized
  {
  }

  // ---------------------------------------------------------------- what a run of calls leaves

  datatype Call = Initialize(config: Option<Config>, env: Environment) | Shutdown | CheckRunning

  datatype Launch = Launch(config: Config, env: Environment)

  /** The call that initialised the host, if it is; whether module and runtime are held; and how many
      modules have been loaded, runtimes made and mapped fallbacks loaded. */
  datatype Life = Life(up: Option<Launch>, library: bool, runtime: bool, loads: nat, made: nat, mapped: nat)

  function NotStarted(): Life { Life(None, false, false, 0, 0, 0) }

  predicate GoodArgument(config: Option<Config>) { config.Some? && config.value.abiVersion == HOST_ABI_VERSION }

  predicate MakesRuntime(env: Environment) { Complete(env.load) && env.abiMatches && env.made }

  /** Module and runtime after the runtime part of an initialisation: those there were, without a path. */
  function WithRuntime(life: Life, config: Config, env: Environment): (after: Life)
    ensures after.mapped == life.mapped
  {
    if !config.hasRuntimePath then life
    else life.(library := Complete(env.load), runtime := MakesRuntime(env),
               loads := life.loads + Bit(Complete(env.load)), made := life.made + Bit(MakesRuntime(env)))
  }

  /** What an initialisation leaves held and counted. */
  function Launched(life: Life, config: Config, env: Environment): Life {
    var resolves := RuntimeStatus(config, env) == HostOk && LoadsMapped(config, env);
    WithRuntime(life, config, env).(mapped := life.mapped + Bit(resolves))
  }

  ghost function AfterCall(ds: seq<Descriptor>, life: Life, call: Call): Life {
    match call
    case Initialize(config, env) =>
      if !GoodArgument(config) || life.up.Some? then life
      else Launched(life, config.value, env)
           .(up := if Starts(ds, config.value, env) then Some(Launch(config.value, env)) else None)
    case Shutdown => life.(up := None, library := false, runtime := false)
    case CheckRunning => life
  }

  ghost function CallStatus(ds: seq<Descriptor>, life: Life, call: Call): Status {
    match call
    case Initialize(config, env) =>
      if !GoodArgument(config) then BadArgument
      else if life.up.Some? then AlreadyInitialized
      else StartStatus(ds, config.value, env)
    case Shutdown => HostOk
    case CheckRunning => if life.up.Some? && life.runtime then HostOk else NotInitialized
  }

  ghost function LifeOf(ds: seq<Descriptor>, calls: seq<Call>): Life {
    if |calls| == 0 then NotStarted()
    else AfterCall(ds, LifeOf(ds, calls[..|calls| - 1]), calls[|calls| - 1])
  }

  ghost function StatusesOf(ds: seq<Descriptor>, calls: seq<Call>): seq<Status> {
    if |calls| == 0 then []
    else
      var before := calls[..|calls| - 1];
      StatusesOf(ds, before) + [CallStatus(ds, LifeOf(ds, before), calls[|calls| - 1])]
  }

  /** The hooks are in. */
  ghost predicate Hooked(ds: seq<Descriptor>, life: Life) {
    life.up.Some? && HooksGoIn(ds, life.up.value.config, life.up.value.env)
  }

  // ---------------------------------------------------------------- the host

  class Host {
    const descriptors: seq<Descriptor>
    const runtime: Shim
    const hooks: Backend
    var originals: seq<Address>        // g_original_...
    var initialized: bool
    var runtimeLoaded: bool
    var runtimeProbeOk: bool
    var signaturesChecked: bool
    var usedLiveServerModule: bool
    var usedMappedFileFallback: bool
    var attempts: nat
    var installed: nat
    var failures: nat
    var requiredFailures: nat
    var signatures: seq<ResolvedSignature>
    ghost var mappedLoads: nat         // mapped fallbacks loaded and released
    ghost var mappedFrees: nat
    ghost var server: View             // the live module the hooks are in
    ghost var answers: seq<Outcome>    // what the hooking library answered when they were installed

    ghost predicate NoHooks()
      reads `originals, hooks
    {
      hooks.records == [] && forall k | 0 <= k < |originals| :: originals[k] == 0
    }

    ghost predicate HookAt(k: nat)
      requires k < |hooks.records| && k < |originals| && server.View?
      reads `originals, `server, `answers, hooks
    {
      var r := hooks.records[k];
      && r.name == HookName(k) && r.detour == k + 1
      && r.target == TargetAddress(descriptors, server, k) != 0
      && originals[k] == r.original && k < |answers| && answers[k] == Works(r.original)
    }

    /** All seven hooks, in the live module of an initialised host. */
    ghost predicate AllHooks()
      reads this, hooks
    {
      initialized && HookedExceptInitialized()
    }

    /** What holds between any two calls. */
    ghost predicate Valid()
      reads this, runtime, hooks
    {
      && runtime.Valid()
      && |originals| == HOOKS
      && (NoHooks() || AllHooks())
      && attempts == installed + failures
      && |hooks.records| == (if failures == 0 then installed else 0)
      && mappedLoads == mappedFrees
      && (runtimeLoaded ==> runtime.moduleHeld)
      && NeverUnderHooks()
    }

    /** No runtime was ever freed while a hook was installed. */
    ghost predicate NeverUnderHooks()
      reads runtime
    {
      forall n | n in runtime.frees :: n == 0
    }

    constructor (descriptors: seq<Descriptor>)
      ensures Valid() && Follows(NotStarted()) && this.descriptors == descriptors
      ensures fresh(runtime) && fresh(hooks)
    {
      this.descriptors := descriptors;
      runtime := new Shim();
      hooks := new Backend();
      originals := seq(HOOKS, _ => 0);
      initialized, runtimeLoaded, runtimeProbeOk, signaturesChecked := false, false, false, false;
      usedLiveServerModule, usedMappedFileFallback := false, false;
      attempts, installed, failures, requiredFailures, signatures := 0, 0, 0, 0, [];
      mappedLoads, mappedFrees, server, answers := 0, 0, BadHeaders, [];
    }

    /** `HookBackend::reset` and the seven assignments of null that always follow it. */
    method DropHooks()
      modifies `originals, hooks
      ensures NoHooks() && hooks.records == [] && |originals| == HOOKS
    {
      hooks.Reset();
      originals := seq(HOOKS, _ => 0);
    }

    /** The state of `install_probe_hooks` after `k` of its seven installs. */
    ghost predicate Installing(env: Environment, k: nat)
      reads this, hooks
    {
      && |originals| == attempts == HOOKS && installed + failures == k <= HOOKS && server.View?
      && answers == env.outcomes
      && (failures == 0 <==> AllInstallable(descriptors, server, env, k))
      && (failures == 0 ==> |hooks.records| == k && forall i: nat | i < k :: HookAt(i))
    }

    /** `resolved_target_address` */
    method ResolvedTargetAddress(view: View, k: nat) returns (target: Address)
      requires view.View? && AllResolved(view.m, descriptors, signatures)
      ensures target == TargetAddress(descriptors, view, k)
    {
      hide HookName, SoleRva;
      var signature := FindResolvedSignature(signatures, HookName(k), view.m, descriptors);
      if signature.None? || signature.value.rva.None? {
        return 0;
      }
      return view.base + signature.value.rva.value;
    }

    /** One use of the lambda `install`. */
    method Install(view: View, env: Environment, k: nat)
      requires k < HOOKS && view == server && Installing(env, k)
      requires AllResolved(view.m, descriptors, signatures)
      modifies `originals, `installed, `failures, hooks
      ensures Installing(env, k + 1)
    {
      hide HookName, TargetAddress;
      var target := ResolvedTargetAddress(view, k);
      var ok, written := hooks.InstallInline(HookName(k), target, k + 1, true, env.OutcomeOf(k));
      if written.Some? {
        originals := originals[k := written.value];
      }
      assert ok <==> Installable(descriptors, server, env, k);
      NextInstallable(descriptors, server, env, k);
      if !ok {
        failures := failures + 1;
        return;
      }
      installed := installed + 1;
      if failures == 0 {
        forall i: nat | i < k + 1 ensures HookAt(i) {
          if i < k { assert old(HookAt(i)); }
        }
      }
    }

    method InstallProbeHooks(view: View, env: Environment) returns (status: Status)
      requires view.View? && AllResolved(view.m, descriptors, signatures)
      modifies `attempts, `installed, `failures, `originals, `server, `answers, hooks
      ensures attempts == HOOKS == |originals| && attempts == installed + failures
      ensures server == view && answers == env.outcomes
      ensures status == if AllInstallable(descriptors, view, env, HOOKS) then HostOk else HookInstallFailed
      ensures status == HostOk <==> failures == 0
      ensures status == HostOk ==> |hooks.records| == installed == HOOKS && forall i: nat | i < HOOKS :: HookAt(i)
      ensures status != HostOk ==> NoHooks()
    {
      attempts, failures, installed, server, answers := 7, 0, 0, view, env.outcomes;
      DropHooks();
      Install(view, env, 0);
      Install(view, env, 1);
      Install(view, env, 2);
      Install(view, env, 3);
      Install(view, env, 4);
      Install(view, env, 5);
      Install(view, env, 6);
      if failures != 0 {
        DropHooks();
        return HookInstallFailed;
      }
      return HostOk;
    }

    /** The loop over the default signatures. */
    method CheckSignatures(m: MappedModule, drift: bool)
      modifies `signatures, `requiredFailures, `signaturesChecked
      ensures AllResolved(m, descriptors, signatures)
      ensures requiredFailures == RequiredFailures(m, descriptors, drift)
    {
      hide Resolves;
      signatures := [];
      requiredFailures := 0;
      signaturesChecked := true;
      for i := 0 to |descriptors|
        invariant AllResolved(m, descriptors[..i], signatures)
        invariant requiredFailures == RequiredFailures(m, descriptors[..i], drift)
      {
        var d := descriptors[i];
        var sig := ResolveMappedSignature(m, d);
        var ok := SignatureOk(m, d, sig, drift);
        assert descriptors[..i + 1][..i] == descriptors[..i];
        if d.required && !ok {
          requiredFailures := requiredFailures + 1;
        }
        signatures := signatures + [sig];
      }
      assert descriptors[..|descriptors|] == descriptors;
    }

    method SignatureOk(m: MappedModule, d: Descriptor, sig: ResolvedSignature, drift: bool) returns (ok: bool)
      requires Resolves(m, d, sig)
      ensures ok == Acceptable(m, d, drift)
    {
      var acceptableRva := sig.expectedRvaOk || drift;
      ok := sig.unique && sig.rva.Some? && acceptableRva;
    }

    /** The mapped fallback is released here on every path that loaded it. */
    method FreeMapped(fallback: bool)
      modifies `mappedFrees
      ensures mappedFrees == old(mappedFrees) + Bit(fallback)
    {
      if fallback {
        mappedFrees := mappedFrees + 1;
      }
    }

    /** `resolve_server_signatures` once the headers of its module have been read. */
    method ResolveInView(view: View, fallback: bool, config: Config, env: Environment) returns (status: Status)
      requires |originals| == HOOKS && NoHooks() && attempts == installed == failures == 0
      requires view.View? && usedMappedFileFallback == fallback && usedLiveServerModule == !fallback
      requires if fallback then LoadsMapped(config, env) && view == env.mapped.value
               else env.live.Some? && view == env.live.value
      requires mappedLoads == mappedFrees + Bit(fallback)
      modifies `signatures, `requiredFailures, `signaturesChecked, `attempts, `installed, `failures, `originals,
        `server, `answers, `mappedFrees, hooks
      ensures mappedLoads == mappedFrees && |originals| == HOOKS && attempts == installed + failures
      ensures |hooks.records| == if failures == 0 then installed else 0
      ensures HooksGoIn(descriptors, config, env) ==>
              HookedExceptInitialized() && env.live.value == server && env.outcomes == answers
      ensures !HooksGoIn(descriptors, config, env) ==> NoHooks()
      ensures status == ResolveStatus(descriptors, config, env)
    {
      hide RequiredFailures, AllInstallable, AllResolved, HookAt;
      CheckSignatures(view.m, config.allowRvaDrift);
      if config.requireSignatures && requiredFailures != 0 {
        FreeMapped(fallback);
        return SignatureValidationFailed;
      }
      if config.installHooks {
        if fallback {
          FreeMapped(fallback);
          return HookInstallFailed;
        }
        status := InstallProbeHooks(view, env);
        if status != HostOk {
          return;
        }
      }
      FreeMapped(fallback);
      return HostOk;
    }

    method ResolveServerSignatures(config: Config, env: Environment) returns (status: Status)
      requires |originals| == HOOKS && NoHooks() && attempts == installed == failures == 0
      requires !usedLiveServerModule && !usedMappedFileFallback && mappedLoads == mappedFrees
      modifies this, hooks
      ensures mappedLoads == old(mappedLoads) + Bit(LoadsMapped(config, env))
      ensures mappedLoads == mappedFrees && |originals| == HOOKS && attempts == installed + failures
      ensures |hooks.records| == if failures == 0 then installed else 0
      ensures initialized == old(initialized) && runtimeLoaded == old(runtimeLoaded)
      ensures HooksGoIn(descriptors, config, env) ==> status == HostOk && HookedExceptInitialized()
      ensures HooksGoIn(descriptors, config, env) ==>
              env.live.Some? && env.live.value == server && env.outcomes == answers
      ensures !HooksGoIn(descriptors, config, env) ==> NoHooks()
      ensures status == ResolveStatus(descriptors, config, env)
    {
      hide RequiredFailures, AllInstallable, HookAt, HookedExceptInitialized;
      var view, fallback := BadHeaders, false;
      if env.live.Some? {
        usedLiveServerModule := true;
        view := env.live.value;
      } else if config.allowMappedFile && config.hasServerPath {
        if env.mapped.None? {
          return ServerModuleNotFound;
        }
        mappedLoads := mappedLoads + 1;
        fallback := true;
        view := env.mapped.value;
        usedMappedFileFallback := true;
      } else {
        return ServerModuleNotFound;
      }
      if view.BadHeaders? {
        FreeMapped(fallback);
        return ServerModuleNotFound;
      }
      status := ResolveInView(view, fallback, config, env);
    }

    /** `AllHooks`, before `dwrt_host_initialize` has said that it is initialised. */
    ghost predicate HookedExceptInitialized()
      reads this, hooks
    {
      && |hooks.records| == |originals| == installed == HOOKS && failures == 0
      && usedLiveServerModule && !usedMappedFileFallback && server.View?
      && forall k: nat | k < HOOKS :: HookAt(k)
    }

    /** The runtime part of `dwrt_host_initialize`. */
    method StartRuntime(config: Config, env: Environment) returns (status: Status)
      requires runtime.Valid() && !runtimeLoaded && !runtimeProbeOk && NoHooks()
      requires NeverUnderHooks()
      modifies `runtimeLoaded, `runtimeProbeOk, runtime
      ensures runtime.Valid() && NeverUnderHooks()
      ensures runtimeLoaded ==> runtime.moduleHeld
      ensures runtimeProbeOk ==> runtime.runtimeHeld
      ensures status == RuntimeStatus(config, env)
      ensures Holds(WithRuntime(old(Held()), config, env))
    {
      hide Shim.Valid, Exports, Complete;
      if config.hasRuntimePath {
        var loaded := runtime.Load(env.load, |hooks.records|);
        if !loaded {
          if config.requireRuntime {
            return RuntimeLoadFailed;
          }
        } else {
          runtimeLoaded := true;
          if !env.abiMatches {
            if config.requireRuntime {
              return RuntimeAbiMismatch;
            }
          } else {
            var made := runtime.CreateRuntime(env.made, |hooks.records|);
            if !made {
              if config.requireRuntime {
                return RuntimeCreateFailed;
              }
            } else {
              runtimeProbeOk := env.probeOk;
              if !runtimeProbeOk && config.requireRuntime {
                return RuntimeProbeFailed;
              }
            }
          }
        }
      } else if config.requireRuntime {
        return RuntimeLoadFailed;
      }
      return HostOk;
    }

    /** The resets at the start of `dwrt_host_initialize` and in `dwrt_host_shutdown`. */
    method ClearState()
      modifies `runtimeLoaded, `runtimeProbeOk, `signaturesChecked, `usedLiveServerModule, `usedMappedFileFallback,
        `requiredFailures, `attempts, `installed, `failures, `signatures
      ensures !runtimeLoaded && !runtimeProbeOk && !usedLiveServerModule && !usedMappedFileFallback
      ensures attempts == installed == failures == 0
    {
      runtimeLoaded, runtimeProbeOk, signaturesChecked := false, false, false;
      usedLiveServerModule, usedMappedFileFallback := false, false;
      requiredFailures, attempts, installed, failures := 0, 0, 0, 0;
      signatures := [];
    }

    /** The part of `dwrt_host_initialize` before the signatures: everything reset, the runtime started. */
    method Begin(c: Config, env: Environment) returns (status: Status)
      requires Valid() && !initialized
      modifies this, runtime, hooks
      ensures Valid() && NoHooks() && !initialized
      ensures attempts == installed == failures == 0 && !usedLiveServerModule && !usedMappedFileFallback
      ensures status == RuntimeStatus(c, env)
      ensures Holds(WithRuntime(old(Held()), c, env))
    {
      hide RuntimeStatus, WithRuntime, HookedExceptInitialized, NoHooks, NeverUnderHooks, Shim.Valid;
      ClearState();
      DropHooks();
      status := StartRuntime(c, env);
    }

    /** `dwrt_host_initialize` once its argument is good and it is not initialised already. */
    method Start(c: Config, env: Environment) returns (status: Status)
      requires Valid() && !initialized
      modifies this, runtime, hooks
      ensures Valid() && status == StartStatus(descriptors, c, env) && initialized == Starts(descriptors, c, env)
      ensures AllHooks() <==> Starts(descriptors, c, env) && HooksGoIn(descriptors, c, env)
      ensures AllHooks() ==> env.live.Some? && env.live.value == server && env.outcomes == answers
      ensures Holds(Launched(old(Held()), c, env))
    {
      hide RequiredFailures, AllInstallable, HookAt, HooksGoIn, RuntimeStatus, ResolveStatus, WithRuntime;
      hide NeverUnderHooks, Shim.Valid;
      HooksMeanSuccess(descriptors, c, env);
      status := Begin(c, env);
      if status != HostOk {
        return;
      }
      status := ResolveServerSignatures(c, env);
      if status != HostOk && c.requireSignatures {
        return;
      }
      initialized := true;
      if c.hasSummaryPath && !env.summaryWritten {
        return SummaryWriteFailed;
      }
      return HostOk;
    }

    /** What the observer sees of runtime and mapped fallbacks. */
    ghost function Held(): Life
      reads `mappedLoads, runtime
    {
      Life(None, runtime.moduleHeld, runtime.runtimeHeld, runtime.runtimeLoads, runtime.runtimesMade, mappedLoads)
    }

    ghost predicate Holds(life: Life)
      reads `mappedLoads, runtime
    {
      life.(up := None) == Held()
    }

    /** The host is as a run of calls has left it. */
    ghost predicate Follows(life: Life)
      reads this, runtime, hooks
    {
      && Holds(life) && initialized == life.up.Some?
      && (AllHooks() <==> Hooked(descriptors, life))
      && (AllHooks() ==>
            var env := life.up.value.env;
            env.live.Some? && env.live.value == server && env.outcomes == answers)
    }

    /** `dwrt_host_initialize` */
    method Initialize(config: Option<Config>, env: Environment, ghost life: Life) returns (status: Status)
      requires Valid() && Follows(life)
      modifies this, runtime, hooks
      ensures Valid() && Follows(AfterCall(descriptors, life, Call.Initialize(config, env)))
      ensures status == CallStatus(descriptors, life, Call.Initialize(config, env))
      ensures status == BadArgument || status == AlreadyInitialized ==>
              unchanged(this) && unchanged(runtime) && unchanged(hooks)
    {
      if GoodArgument(config) { StartStatusIsOwn(descriptors, config, env); }
      hide HooksGoIn, Starts, StartStatus, HookedExceptInitialized, NoHooks, NeverUnderHooks, Shim.Valid;
      if config.None? || config.value.abiVersion != HOST_ABI_VERSION {
        return BadArgument;
      }
      if initialized {
        return AlreadyInitialized;
      }
      status := Start(config.value, env);
    }

    /** `dwrt_host_shutdown` */
    method Shutdown(ghost life: Life) returns (status: Status)
      requires Valid() && Follows(life)
      modifies this, runtime, hooks
      ensures Valid() && NoHooks() && Follows(AfterCall(descriptors, life, Call.Shutdown))
      ensures status == CallStatus(descriptors, life, Call.Shutdown)
    {
      hide HookedExceptInitialized, NoHooks, HooksGoIn, Starts, StartStatus, WithRuntime, Exports, Shim.Valid;
      DropHooks();
      runtime.Unload(|hooks.records|);
      initialized := false;
      ClearState();
      return HostOk;
    }

    /** The guard of `dwrt_host_set_probe_mount_mask` and its neighbours, which leave all this alone. */
    method CheckRunning(ghost life: Life) returns (status: Status)
      requires Valid() && Follows(life)
      ensures status == CallStatus(descriptors, life, Call.CheckRunning)
      ensures status == HostOk ==> runtime.moduleHeld && runtime.bound == Exports()
    {
      if !initialized || !runtime.runtimeHeld {
        return NotInitialized;
      }
      return HostOk;
    }
  }

  // ---------------------------------------------------------------- whole runs

  lemma LifeNext(ds: seq<Descriptor>, calls: seq<Call>, i: nat)
    requires i < |calls|
    ensures LifeOf(ds, calls[..i + 1]) == AfterCall(ds, LifeOf(ds, calls[..i]), calls[i])
    ensures StatusesOf(ds, calls[..i + 1]) ==
            StatusesOf(ds, calls[..i]) + [CallStatus(ds, LifeOf(ds, calls[..i]), calls[i])]
  {
    hide AfterCall, CallStatus;
    assert calls[..i + 1][..i] == calls[..i];
  }

  /** The seven records and originals of a host: the seven names in order, each at the base of the live
      module plus the only match of its pattern, with its own detour, and with the original that the
      hooking library answered for it. */
  ghost predicate HooksRight(ds: seq<Descriptor>, env: Environment, records: seq<InlineHookRecord>,
                             originals: seq<Address>)
  {
    && |records| == |originals| == 7 <= |env.outcomes| && env.live.Some? && env.live.value.View?
    && [records[0].name, records[1].name, records[2].name, records[3].name, records[4].name, records[5].name,
        records[6].name] ==
       ["CBaseEntity::TakeDamageOld", "CEntityInstance::AcceptInput", "CEntityIOOutput::FireOutputInternal",
        "CitadelTargetFilter::FriendlyFire", "CitadelTargetFilter::FriendlyFireCaller",
        "CitadelTargetFilter::SecondaryFriendlyFireGate", "CEntityIdentity::IndexForEntityInstance"]
    && forall k: nat | k < 7 ::
         && Placed(ds, env.live.value, records[k].name, records[k].target)
         && records[k].target != 0 && records[k].detour == k + 1
         && env.outcomes[k] == Works(records[k].original) && originals[k] == records[k].original
  }

  lemma HooksTold(host: Host, life: Life)
    requires host.Valid() && host.Follows(life)
    ensures host.initialized == life.up.Some? && (host.hooks.records != [] <==> Hooked(host.descriptors, life))
    ensures host.hooks.records == [] ==> forall k | 0 <= k < HOOKS :: host.originals[k] == 0
    ensures host.hooks.records != [] ==>
            && host.installed == 7 && host.failures == 0
            && HooksRight(host.descriptors, life.up.value.env, host.hooks.records, host.originals)
  {
    hide HooksGoIn, Placed, TargetAddress;
    var records := host.hooks.records;
    if records != [] {
      forall k: nat | k < 7
        ensures records[k].name == HookName(k) && records[k].detour == k + 1 && records[k].target != 0
        ensures k < |host.answers| && host.answers[k] == Works(records[k].original)
        ensures host.originals[k] == records[k].original
        ensures Placed(host.descriptors, host.server, records[k].name, records[k].target)
      {
        assert host.HookAt(k);
        TargetPlaced(host.descriptors, host.server, k);
      }
      assert records[6].detour == 7;
      assert forall k: nat | k < 7 :: life.up.value.env.outcomes[k] == host.answers[k];
    }
  }

  /** Any sequence of calls and any answers from outside. Every status is the one it should be. There
      are hooks exactly if the host is up and the call that launched it could install them: then there
      are seven, each at the base of that call's live module plus the sole match of its pattern, and
      otherwise none, with all originals null. Modules, runtimes and mapped fallbacks are accounted for,
      and no runtime was ever freed while hooks were installed. */
  method Run(ds: seq<Descriptor>, calls: seq<Call>)
    returns (statuses: seq<Status>, records: seq<InlineHookRecord>, originals: seq<Address>, initialized: bool,
             attempts: nat, installed: nat, failures: nat, loads: nat, unloads: nat, held: bool, runtimeHeld: bool,
             ghost frees: seq<nat>, ghost mappedLoads: nat, ghost mappedFrees: nat)
    ensures statuses == StatusesOf(ds, calls) && |originals| == HOOKS
    ensures initialized == LifeOf(ds, calls).up.Some?
    ensures records != [] <==> Hooked(ds, LifeOf(ds, calls))
    ensures records == [] ==> forall k | 0 <= k < HOOKS :: originals[k] == 0
    ensures records != [] ==>
            && installed == 7 && failures == 0
            && HooksRight(ds, LifeOf(ds, calls).up.value.env, records, originals)
    ensures attempts == installed + failures
    ensures var life := LifeOf(ds, calls);
            && held == life.library && runtimeHeld == life.runtime
            && loads == life.loads == unloads + Bit(held)
            && life.made == |frees| + Bit(runtimeHeld)
            && mappedLoads == mappedFrees == life.mapped
    ensures forall n | n in frees :: n == 0
  {
    var host := new Host(ds);
    statuses := [];
    for i := 0 to |calls|
      invariant host.Valid() && host.descriptors == ds && fresh(host) && fresh(host.runtime) && fresh(host.hooks)
      invariant host.Follows(LifeOf(ds, calls[..i])) && statuses == StatusesOf(ds, calls[..i])
    {
      LifeNext(ds, calls, i);
      ghost var life := LifeOf(ds, calls[..i]);
      hide *;
      var status;
      match calls[i] {
        case Initialize(config, env) => status := host.Initialize(config, env, life);
        case Shutdown => status := host.Shutdown(life);
        case CheckRunning => status := host.CheckRunning(life);
      }
      statuses := statuses + [status];
    }
    assert calls[..|calls|] == calls;
    HooksTold(host, LifeOf(ds, calls));
    hide AfterCall, CallStatus, HooksGoIn, HooksRight, Hooked;
    records, originals, initialized := host.hooks.records, host.originals, host.initialized;
    attempts, installed, failures := host.attempts, host.installed, host.failures;
    loads, unloads, held := host.runtime.runtimeLoads, host.runtime.runtimeUnloads, host.runtime.moduleHeld;
    runtimeHeld, frees := host.runtime.runtimeHeld, host.runtime.frees;
    mappedLoads, mappedFrees := host.mappedLoads, host.mappedFrees;
  }
}
