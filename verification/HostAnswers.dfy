/** What every call of the host answers, told from its settings and from what the system answers. */
module HostAnswers {
  import opened Common
  import opened HookBackend
  import opened HostLifecycle
  import opened PatternSearch
  import opened RuntimeShim

  /** The library loads and has all of its fifteen exports. */
  predicate HasExports(load: LoadOutcome) { load.Library? && forall i: nat | i < 15 :: i !in load.missing }

  lemma CompleteExactly(load: LoadOutcome)
    ensures Complete(load) <==> HasExports(load)
  {
    if load.Library? && HasExports(load) {
      assert load.missing * Exports() == {};
    }
  }

  /** The runtime part fails only if a runtime is required, and then with its first failure: no path or
      no complete library, another ABI, no runtime made, a probe that fails. */
  lemma RuntimeAnswers(config: Config, env: Environment)
    ensures var status, loads := RuntimeStatus(config, env), config.hasRuntimePath && HasExports(env.load);
            && (status == RuntimeLoadFailed <==> config.requireRuntime && !loads)
            && (status == RuntimeAbiMismatch <==> config.requireRuntime && loads && !env.abiMatches)
            && (status == RuntimeCreateFailed <==> config.requireRuntime && loads && env.abiMatches && !env.made)
            && (status == RuntimeProbeFailed <==>
                config.requireRuntime && loads && env.abiMatches && env.made && !env.probeOk)
            && (status == HostOk <==>
                config.requireRuntime ==> loads && env.abiMatches && env.made && env.probeOk)
  {
    CompleteExactly(env.load);
    hide Complete, HasExports;
  }

  /** The pattern of a descriptor has a sole match, which is the expected address unless none is expected
      or drift is allowed. */
  ghost predicate Suits(m: Module, d: Descriptor, drift: bool) {
    exists rva: nat :: SoleMatch(m, d.pattern, rva) && (drift || d.expectedRva == 0 || d.expectedRva == rva)
  }

  lemma AcceptableExactly(m: Module, d: Descriptor, drift: bool)
    ensures Acceptable(m, d, drift) <==> Suits(m, d, drift)
  {
    hide SoleRva, SoleMatch;
    forall rva: nat ensures SoleRva(m, d.pattern) == Some(rva) <==> SoleMatch(m, d.pattern, rva) {
      SoleRvaExactly(m, d.pattern, rva);
    }
  }

  /** The required descriptors that do not suit. */
  ghost function Unsuited(m: Module, ds: seq<Descriptor>, drift: bool): set<nat> {
    set i: nat | i < |ds| && ds[i].required && !Suits(m, ds[i], drift)
  }

  lemma LastUnsuited(m: Module, ds: seq<Descriptor>, drift: bool)
    requires ds != []
    ensures var n, earlier := |ds| - 1, Unsuited(m, ds[..|ds| - 1], drift);
            && Unsuited(m, ds, drift) == (if ds[n].required && !Suits(m, ds[n], drift) then earlier + {n} else earlier)
            && n !in earlier
  {
    hide Suits;
  }

  lemma {:induction false} RequiredFailuresExactly(m: Module, ds: seq<Descriptor>, drift: bool)
    ensures RequiredFailures(m, ds, drift) == |Unsuited(m, ds, drift)|
  {
    hide Suits, Acceptable;
    if ds == [] {
      assert Unsuited(m, ds, drift) == {};
    } else {
      hide Unsuited;
      LastUnsuited(m, ds, drift);
      RequiredFailuresExactly(m, ds[..|ds| - 1], drift);
      AcceptableExactly(m, ds[|ds| - 1], drift);
    }
  }

  /** The module that is looked at: the live one, or the mapped file if there is no live one and the
      settings allow and name a file. */
  function Chosen(config: Config, env: Environment): Option<LoadedView> {
    if env.live.Some? then env.live
    else if config.allowMappedFile && config.hasServerPath then env.mapped
    else None
  }

  predicate Readable(view: Option<LoadedView>) { view.Some? && view.value.View? }

  /** Hook `k` can be made: its function has an address and the hooking library makes it. */
  ghost predicate CanHook(ds: seq<Descriptor>, view: View, env: Environment, k: nat)
    requires view.View?
  {
    && k < |env.outcomes| && env.outcomes[k].Works?
    && exists target: nat :: target != 0 && Placed(ds, view, HookName(k), target)
  }

  lemma InstallableExactly(ds: seq<Descriptor>, view: View, env: Environment)
    requires view.View? && view.base != 0
    ensures AllInstallable(ds, view, env, 7) <==> forall k: nat | k < 7 :: CanHook(ds, view, env, k)
  {
    hide Placed, TargetAddress, HookName;
    forall k: nat ensures Installable(ds, view, env, k) <==> CanHook(ds, view, env, k) {
      TargetPlaced(ds, view, k);
      var target := TargetAddress(ds, view, k);
      assert target != 0 ==> Placed(ds, view, HookName(k), target);
    }
  }

  ghost predicate Fits(ds: seq<Descriptor>, config: Config, view: View)
    requires view.View?
  {
    config.requireSignatures ==>
      forall i: nat | i < |ds| :: ds[i].required ==> Suits(view.m, ds[i], config.allowRvaDrift)
  }

  lemma FitsExactly(ds: seq<Descriptor>, config: Config, view: View)
    requires view.View?
    ensures Fits(ds, config, view) <==>
            (config.requireSignatures ==> RequiredFailures(view.m, ds, config.allowRvaDrift) == 0)
  {
    hide Suits, RequiredFailures;
    RequiredFailuresExactly(view.m, ds, config.allowRvaDrift);
    var missing := Unsuited(view.m, ds, config.allowRvaDrift);
    if missing == {} {
      forall i: nat | i < |ds| && ds[i].required ensures Suits(view.m, ds[i], config.allowRvaDrift) {
        assert i !in missing;
      }
    } else {
      var i :| i in missing;
      assert i < |ds| && ds[i].required && !Suits(view.m, ds[i], config.allowRvaDrift);
    }
  }

  /** Resolution fails with the first of: no readable module, a required signature that does not suit
      while signatures are required, hooks wanted that cannot all be made in a live module. */
  lemma ResolveAnswers(ds: seq<Descriptor>, config: Config, env: Environment)
    ensures var status, chosen := ResolveStatus(ds, config, env), Chosen(config, env);
            && (status == ServerModuleNotFound <==> !Readable(chosen))
            && (Readable(chosen) ==>
                  && (status == SignatureValidationFailed <==> !Fits(ds, config, chosen.value))
                  && (status == HookInstallFailed <==>
                      Fits(ds, config, chosen.value) && config.installHooks &&
                      (env.live.None? || exists k: nat | k < 7 :: !CanHook(ds, chosen.value, env, k)))
                  && (status == HostOk <==>
                      Fits(ds, config, chosen.value) && (config.installHooks ==>
                        env.live.Some? && forall k: nat | k < 7 :: CanHook(ds, chosen.value, env, k))))
  {
    var chosen := Chosen(config, env);
    if Readable(chosen) {
      FitsExactly(ds, config, chosen.value);
      InstallableExactly(ds, chosen.value, env);
    }
    hide Fits, CanHook, AllInstallable, RequiredFailures;
  }

  /** Hooks go in exactly if they are wanted, the live module can be read, the required signatures suit
      if signatures are required, and all seven can be made. */
  lemma HooksGoInTold(ds: seq<Descriptor>, config: Config, env: Environment)
    ensures HooksGoIn(ds, config, env) <==>
            && config.installHooks && Readable(env.live) && Fits(ds, config, env.live.value)
            && forall k: nat | k < 7 :: CanHook(ds, env.live.value, env, k)
  {
    if Readable(env.live) {
      FitsExactly(ds, config, env.live.value);
      InstallableExactly(ds, env.live.value, env);
    }
    hide Fits, CanHook, AllInstallable, RequiredFailures;
  }

  /** The argument of an initialisation is a configuration of ABI version 1. */
  predicate Welcome(config: Option<Config>) { config.Some? && config.value.abiVersion == 1 }

  /** What an initialisation answers and whether the host is up after it: refused for a bad argument, or
      if it is up already; else the failure of the runtime part; else that of resolution, but only if
      signatures are required; else the host is up, whether or not the summary could be written. */
  lemma InitializeAnswers(ds: seq<Descriptor>, life: Life, config: Option<Config>, env: Environment)
    ensures var call := Call.Initialize(config, env);
            var status, after := CallStatus(ds, life, call), AfterCall(ds, life, call);
            && (status == BadArgument <==> !Welcome(config))
            && (status == AlreadyInitialized <==> Welcome(config) && life.up.Some?)
            && (status == BadArgument || status == AlreadyInitialized ==> after == life)
    ensures var call := Call.Initialize(config, env);
            var status, after := CallStatus(ds, life, call), AfterCall(ds, life, call);
            Welcome(config) && life.up.None? ==>
              var c := config.value;
              var runtime, resolved := RuntimeStatus(c, env), ResolveStatus(ds, c, env);
              var starts := runtime == HostOk && (c.requireSignatures ==> resolved == HostOk);
              && after.up == (if starts then Some(Launch(c, env)) else None)
              && (runtime != HostOk ==> status == runtime)
              && (runtime == HostOk && !starts ==> status == resolved)
              && (starts ==> (status == SummaryWriteFailed <==> c.hasSummaryPath && !env.summaryWritten))
              && (starts ==> (status == HostOk <==> c.hasSummaryPath ==> env.summaryWritten))
              && after.library == (if c.hasRuntimePath then HasExports(env.load) else life.library)
              && after.runtime == (if c.hasRuntimePath then HasExports(env.load) && env.abiMatches && env.made
                                   else life.runtime)
              && after.loads == life.loads + Bit(c.hasRuntimePath && HasExports(env.load))
              && after.made == life.made + Bit(c.hasRuntimePath && HasExports(env.load) && env.abiMatches && env.made)
              && after.mapped == life.mapped + Bit(runtime == HostOk && env.live.None? && c.allowMappedFile &&
                                                   c.hasServerPath && env.mapped.Some?)
  {
    if Welcome(config) {
      CompleteExactly(env.load);
      StartStatusIsOwn(ds, config, env);
    }
    hide ResolveStatus, RuntimeStatus, Complete, HasExports;
  }

  /** A shutdown always succeeds and gives everything up; the guard passes for a host that is up and
      holds a runtime. */
  lemma OtherAnswers(ds: seq<Descriptor>, life: Life)
    ensures var after := AfterCall(ds, life, Call.Shutdown);
            && CallStatus(ds, life, Call.Shutdown) == HostOk
            && after.up.None? && !after.library && !after.runtime
            && after.loads == life.loads && after.made == life.made && after.mapped == life.mapped
    ensures AfterCall(ds, life, Call.CheckRunning) == life
    ensures CallStatus(ds, life, Call.CheckRunning) == if life.up.Some? && life.runtime then HostOk else NotInitialized
  {
  }
}
