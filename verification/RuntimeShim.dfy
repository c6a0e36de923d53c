/** Ownership of the runtime library and the runtime object made by it. */
module RuntimeShim {
  import opened Common

  const EXPORT_COUNT: nat := 15
  const RUNTIME_NEW: nat := 1
  const RUNTIME_FREE: nat := 2

  function Below(n: nat): (r: set<nat>)
    ensures forall i: nat :: i in r <==> i < n
  {
    if n == 0 then {} else Below(n - 1) + {n - 1}
  }

  function Exports(): set<nat> { Below(EXPORT_COUNT) }

  /** What the system answers when the library is loaded; exports are numbered in binding order. */
  datatype LoadOutcome = NoLibrary | Library(missing: set<nat>)

  predicate Complete(outcome: LoadOutcome) { outcome.Library? && outcome.missing !! Exports() }

  class Shim {
    var moduleHeld: bool
    var runtimeHeld: bool
    var bound: set<nat>           // function pointers that are not null
    var runtimeLoads: nat
    var runtimeUnloads: nat
    var createFailures: nat
    // Kept by an observer: every library opened and closed, every runtime made, and for every
    // runtime freed the number of hooks that were installed at that moment.
    ghost var libraryOpens: nat
    ghost var libraryCloses: nat
    ghost var runtimesMade: nat
    ghost var frees: seq<nat>

    /** Loads less unloads is whether the module is held, runtimes created less freed whether the
        runtime is, and a held runtime has its module with every export bound. */
    ghost predicate Valid()
      reads this
    {
      && bound == (if moduleHeld then Exports() else {})
      && (runtimeHeld ==> moduleHeld)
      && runtimeLoads == runtimeUnloads + Bit(moduleHeld)
      && libraryOpens == libraryCloses + Bit(moduleHeld)
      && runtimesMade == |frees| + Bit(runtimeHeld)
    }

    constructor ()
      ensures Valid() && !moduleHeld && frees == [] && runtimeLoads == runtimesMade == 0
    {
      moduleHeld, runtimeHeld, bound := false, false, {};
      runtimeLoads, runtimeUnloads, createFailures := 0, 0, 0;
      libraryOpens, libraryCloses, runtimesMade, frees := 0, 0, 0, [];
    }

    method DestroyRuntime(ghost hooks: nat)
      requires Valid()
      modifies `runtimeHeld, `frees
      ensures Valid() && !runtimeHeld
      ensures frees == old(frees) + if old(runtimeHeld) then [hooks] else []
    {
      if runtimeHeld && RUNTIME_FREE in bound {
        frees := frees + [hooks];
      }
      runtimeHeld := false;
    }

    method Unload(ghost hooks: nat)
      requires Valid()
      modifies this
      ensures Valid() && !moduleHeld
      ensures frees == old(frees) + if old(runtimeHeld) then [hooks] else []
      ensures createFailures == old(createFailures) && runtimeLoads == old(runtimeLoads)
      ensures runtimesMade == old(runtimesMade)
    {
      DestroyRuntime(hooks);
      if moduleHeld {
        libraryCloses := libraryCloses + 1;
        moduleHeld := false;
        runtimeUnloads := runtimeUnloads + 1;
      }
      bound := {};
    }

    method Load(outcome: LoadOutcome, ghost hooks: nat) returns (ok: bool)
      requires Valid()
      modifies this
      ensures Valid() && !runtimeHeld
      ensures ok == moduleHeld == Complete(outcome)
      ensures frees == old(frees) + if old(runtimeHeld) then [hooks] else []
      ensures runtimeLoads == old(runtimeLoads) + Bit(ok) && runtimesMade == old(runtimesMade)
    {
      hide Below;
      Unload(hooks);
      if outcome.NoLibrary? {
        return false;
      }
      libraryOpens := libraryOpens + 1;
      var i := 0;
      while i < EXPORT_COUNT
        invariant i <= EXPORT_COUNT && bound == Below(i)
        invariant forall k: nat | k < i :: k !in outcome.missing
        modifies `bound, `libraryCloses
        invariant libraryCloses == libraryOpens - 1
      {
        if i in outcome.missing {
          assert i in Exports();
          libraryCloses := libraryCloses + 1;
          bound := {};
          return false;
        }
        bound := bound + {i};
        i := i + 1;
      }
      moduleHeld := true;
      runtimeLoads := runtimeLoads + 1;
      return true;
    }

    method CreateRuntime(made: bool, ghost hooks: nat) returns (ok: bool)
      requires Valid()
      modifies this
      ensures Valid() && moduleHeld == old(moduleHeld)
      ensures ok == runtimeHeld == (moduleHeld && made)
      ensures frees == old(frees) + if old(runtimeHeld) then [hooks] else []
      ensures createFailures == old(createFailures) + Bit(!ok) && runtimeLoads == old(runtimeLoads)
      ensures runtimesMade == old(runtimesMade) + Bit(ok)
    {
      DestroyRuntime(hooks);
      if RUNTIME_NEW !in bound {
        createFailures := createFailures + 1;
        return false;
      }
      runtimeHeld := made;
      if !made {
        createFailures := createFailures + 1;
        return false;
      }
      runtimesMade := runtimesMade + 1;
      return true;
    }
  }
}
