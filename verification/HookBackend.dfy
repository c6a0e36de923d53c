/** The list of installed inline hooks. */
module HookBackend {
  import opened Common

  type Address = nat   // 0 is the null pointer

  datatype InlineHookRecord = InlineHookRecord(name: string, target: Address, detour: Address, original: Address)

  /** What the hooking library answers for one hook. */
  datatype Outcome = CreateFails | EnableFails(trampoline: Address) | Works(trampoline: Address)

  class Backend {
    var records: seq<InlineHookRecord>

    constructor ()
      ensures records == []
    {
      records := [];
    }

    /** `written` is what has been stored through `original_out`, if anything. */
    method InstallInline(name: string, target: Address, detour: Address, hasOut: bool, outcome: Outcome)
      returns (ok: bool, written: Option<Address>)
      modifies this
      ensures ok <==> target != 0 && detour != 0 && hasOut && outcome.Works?
      ensures ok ==> written == Some(outcome.trampoline) &&
                     records == old(records) + [InlineHookRecord(name, target, detour, outcome.trampoline)]
      ensures !ok ==> records == old(records) && (written.None? || written == Some(0))
    {
      if target == 0 || detour == 0 || !hasOut {
        return false, None;
      }
      if outcome.CreateFails? {
        return false, None;
      }
      var record := InlineHookRecord(name, target, detour, outcome.trampoline);
      written := Some(record.original);
      if outcome.EnableFails? {
        written := Some(0);
        return false, written;
      }
      records := records + [record];
      return true, written;
    }

    method Reset()
      modifies this
      ensures records == []
    {
      records := [];
    }
  }
}
