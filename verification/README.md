# Verification of the DWRT runtime and host

DWRT routes engine events through an interest gate, detours seven engine functions while spoofing
team bytes around them, finds those functions by signature in a mapped module, and writes JSONL
traces of what it did. This project models those mechanisms in Dafny and proves what they keep over
every run.

The parts, one module to a file:

- **Interest gate.** `InterestGate` is the lock-free gate as a state machine: any number of threads,
  one atomic operation a step, counters that wrap at 2^32. `InterestTheorems` says what holds in
  every interleaving, `InterestLoads` what a route answers whose loads lie at different moments of
  one, and `NetInterest` has `add`, `remove` and routing as code, each of whose atomic operations is a
  step of that machine, with steps of other threads in between. `MaxDepth` is the compare-exchange
  loop behind the largest callback depth.
- **Detours.** `HookModel` is the machine of the re-entrant detours on one thread, a step for each
  half of a detour; `HookEffects` tells what each half does from the settings, the team bytes and the
  names alone; `HookTeams`, `HookLedger` and `HookRuns` prove what every nesting keeps, and `HookScope`
  tells the classifier scope from the history of a run. `HookTrees` unfolds a tree of
  detour calls into events. `HookDetours` is the detour code itself, updating counters, team bytes and
  the classifier scope in place; for every tree of calls it ends exactly where the machine ends over
  the events of the tree. `DesignerNames` classifies entities, `HandleTable` resolves entity handles.
- **Signatures and host.** `SignaturePattern` compiles textual signatures, `PatternSearch` searches
  byte spans, mapped modules and image files, `Fnv` is the hash of the scanner. `RuntimeShim`,
  `HookBackend` and `HostLifecycle` are the owners of the runtime, the hook records and the whole
  host, driven by arbitrary answers of the system, and `HostAnswers` says what every call answers to
  them, told from first matches and readable modules.
- **Trace.** `JsonText` has the printers and an independent reader of the text, `TraceRecords` the
  records as JSON fields and back, `TraceKeys` what a line says to a reader that looks values up by
  their keys, `TraceWriter` the printing code and the JSONL writer, `TraceOutput`
  whole outputs of it whatever write fails, `TraceRing` the bounded ring.
- **Smaller cores.** `WalkerPatrol` (round-robin teleports) and `HookRegistry` (the fact store, the
  feature set and the install gate).

Six expectations turned out not to hold of the code; each is stated here as it is, with the exact
condition under which the expectation does hold:

- An `add` that has returned can still be hidden by the gate while the thread that took the entry
  from 0 to 1 has not reached `track` (`InterestTheorems.ReturnedAddStillHidden`). The gate is closed
  exactly when the adds past their 0-to-1 step that have not tracked equal in number the mounted
  entries plus the removes that have not untracked (`GateClosedExactly`), and the router is right
  exactly when nothing is to be reported or those numbers differ (`RouteRightExactly`).
- A route is not the answer of one moment: its loads can straddle changes so that a message that has
  a mount all the time is routed nowhere (`InterestLoads.TornRoute`). That happens in no interleaving,
  and every answer through an open gate is that of some moment, exactly if at most one entry exists
  among those the message meets (`TornExactly`). A mount that stays for the whole route is missed
  exactly if the gate was closed (`HeldMountReportedExactly`).
- `finish_target_filter` counts verdicts even when the probe is disabled, while
  `begin_target_filter` does not count the call. The filter ledger therefore balances exactly when the
  probe is enabled or no filter call has been entered (`HookRuns.FilterLedgerExactly`).
- The classifier scope is not always that of the innermost open filter call. While a nested call is
  still asking for its bitset bit the outer scope is in force (`HookScope.NestedAskSeesOuterScope`), and
  once a nested filter call has returned the scope is off for the rest of the outer one
  (`NestedReturnClearsScope`). `ScopeExactly` tells the scope from the history of any run;
  `ForInnermostExactly` says in which states it is for the innermost open call; and for all runs it is
  exactly under settings that set no scopes or never ask for bits (`ForInnermostSettings`), while a
  running call keeps its own exactly under settings that set none (`ForRunningSettings`).
- The file search and the mapped search differ on raw bytes beyond the virtual size of a section
  (`PatternSearch.RawTailFoundOnlyInFile`). They agree on a window exactly if the file search does not
  find it or the searched part of some section holds it (`ResolversAgree`, `ModuleAgrees`).
- An output of the JSONL writer does not read back once a write has failed after part of its line got
  out, because the next line runs into that part. It reads back as exactly the lines written without
  an error if and only if there was no such failure (`TraceOutput.OutputReadsBack`).

Two details of the host are visible in its invariant: after a failed installation the counter of
installed hooks keeps its value although every hook has been taken out again, so the records number
`installed` only when there are no failures; and a module held since a failed `initialize` stays held,
with `runtimeLoaded` off, when the next `initialize` is given no runtime path.

## Model

| member | source | states |
|---|---|---|
| `InterestTheorems.GaugeEquation` | crates/dwrt-core/src/net/mod.rs:103-159 | In every interleaving each gauge plus the adds that still owe it equals, mod 2^32, the mounted entries it covers plus the removes that still owe it plus entry wraps, of which there are none below 2^32 live mounts |
| `InterestTheorems.NoWraps` | crates/dwrt-core/src/interest/mod.rs:49-60 | While every entry has fewer than 2^32 live mounts, no `fetch_add` has wrapped |
| `InterestTheorems.GateClosedExactly` | crates/dwrt-core/src/net/mod.rs:63-66 | The total is zero exactly when adds owing it equal in number mounted entries plus removes owing it |
| `InterestTheorems.RouteRightExactly` | crates/dwrt-core/src/net/mod.rs:103-126 | The router answers as the six tables do exactly when nothing the message meets is mounted, or the adds owing the total are not as many as the mounted entries plus the removes owing it |
| `InterestTheorems.RouteEqualsLookup` | crates/dwrt-core/src/net/mod.rs:103-126 | With no add between its 0-to-1 step and `track`, gated routing equals the six-table lookup, whatever removes are in flight |
| `InterestTheorems.QuiescentGaugesExact` | crates/dwrt-core/src/interest/mod.rs:28-36 | Between operations `active_ids` and the total are the exact numbers of mounted entries |
| `InterestTheorems.QuiescentRoute` | crates/dwrt-core/src/net/mod.rs:128-136 | Between operations a native event routes as the tables say, and an unknown direction never does |
| `InterestTheorems.LookupMeansMounts` | crates/dwrt-core/src/net/mod.rs:68-145 | A message is routed serialized, or fast, exactly if it meets a live mount of that kind by direction and id or by user message type; no two mounts share an entry |
| `InterestTheorems.ReturnedAddStillHidden` | crates/dwrt-core/src/net/mod.rs:147-152 | A reachable state in which a returned `add` with two mounts is routed as no interest |
| `InterestLoads.KindReportedExactly` | crates/dwrt-core/src/net/mod.rs:103-126 | With every load of a route at its own moment of an interleaving: a kind is reported exactly if the gate was open and a mount of that kind which the message meets was live when the route looked for it |
| `InterestLoads.HeldMountReportedExactly` | crates/dwrt-core/src/net/mod.rs:103-126 | A mount the message meets, live from the first load of a route to the last, is reported whatever other threads do meanwhile, exactly unless the adds owing the total equalled the mounted entries plus the removes owing it when the gate was loaded |
| `InterestLoads.TornRoute` | crates/dwrt-core/src/net/mod.rs:108-126 | For any two existing entries that a message meets, an interleaving in which the gate is open and the message has a mount at every moment of a route, yet the route is no interest |
| `InterestLoads.TornExactly` | crates/dwrt-core/src/net/mod.rs:103-126 | No interleaving tears a route, and every route through an open gate is the answer of some one moment, exactly if at most one entry exists among the four that the message meets |
| `InterestTheorems.EntryHistory` | crates/dwrt-core/src/interest/mod.rs:49-94 | An entry is adds minus removes and never below zero; true-adds minus true-removes is its mounted bit |
| `InterestTheorems.FailuresHaveWinners` | crates/dwrt-core/src/interest/mod.rs:67-94 | Non-spurious compare-exchange failures of a `remove` are no more than the changes of the entry since it was first read, and its own success lowers a positive entry by one |
| `InterestGate.StepKeepsBalance` | crates/dwrt-core/src/net/mod.rs:147-159 | Every atomic step of every thread keeps the balance of every gauge |
| `InterestGate.ReachableInv` | crates/dwrt-core/src/interest/mod.rs:49-94 | Every reachable state has sound entries, sound loops and balanced gauges |
| `NetInterest.Interest.Add` | crates/dwrt-core/src/interest/mod.rs:49-60 | With any steps of other threads before each atomic operation: the state is the machine run over exactly those steps and its own; one entry changes at one moment, the `fetch_add`, by one modulo 2^32; true exactly if the id was disabled at that moment, and exactly then both gauges are counted; out of range does nothing; alone, the entry and both gauges go up |
| `NetInterest.Interest.CompareExchange` | crates/dwrt-core/src/interest/mod.rs:78-91 | The exchange succeeds exactly if the entry is the expected one and no spurious failure strikes, and tells the actual value; it is one step of the gate |
| `NetInterest.Interest.Remove` | crates/dwrt-core/src/interest/mod.rs:67-94 | With any steps of other threads before each atomic operation and any spurious failures: the state is the machine run over exactly those steps and its own; one entry changes at one moment, by one, or is found zero at it; true exactly if the id had one mount at that moment, and exactly then both gauges are counted; it always ends; alone, the entry and both gauges go down |
| `NetInterest.Interest.CountMount` | crates/dwrt-core/src/net/mod.rs:147-152 | With other threads stepping in between, exactly two steps of the gate that change no entry; alone, `active_ids` of the table and the total go up by one modulo 2^32 and no other gauge changes |
| `NetInterest.Interest.CountUnmount` | crates/dwrt-core/src/net/mod.rs:154-159 | With other threads stepping in between, exactly two steps of the gate that change no entry; alone, `active_ids` of the table and the total go down by one modulo 2^32 and no other gauge changes |
| `NetInterest.Interest.RouteMessage` | crates/dwrt-core/src/net/mod.rs:103-126 | The code answers as the gated router of the machine in every state, and as the six tables when nobody is inside an operation |
| `MaxDepth.MaximumIsExact` | native/dwrt-host/dwrt_host_testpoints.cpp:17-26 | In every interleaving the maximum is 0 or a recorded depth, no finished update is lost, it is the largest depth once nobody updates, and an update of depth d fails non-spuriously at most d times |
| `HookRuns.TeamsRestored` | native/dwrt-host/dwrt_host.cpp:141-249 | At every point of every run that has not faulted, undoing the open detours gives the initial team map with the neutral team on exactly the writable entities handed to the neutraliser; with none open that is the team map, and without the neutraliser the initial one |
| `HookRuns.LedgerBalances` | native/dwrt-host/dwrt_target_probe.cpp:659-763 | At every point of every nesting the whole ledger: same-team and objective calls less verdicts are their open frames, spoofs applied less restored the frames holding one, every counter group (bitset, classifier, damage, neutraliser, friendly fire, caller, secondary) and histogram adds up; and with the probe enabled all filter calls less verdicts are the open ones |
| `HookRuns.FilterLedgerExactly` | native/dwrt-host/dwrt_target_probe.cpp:962-973 | The filter ledger balances exactly when the probe is enabled or no filter call has been entered |
| `HookRuns.ScopeBelongsToRunningFilter` | native/dwrt-host/dwrt_target_probe.cpp:812-833 | An active classifier scope has the target of the innermost running filter, which is same-team or objective |
| `HookRuns.RewritesOnlyInsideFilter` | native/dwrt-host/dwrt_target_probe.cpp:835-879 | A classifier answer is changed only to the configured bit, inside a running filter on that very target |
| `HookScope.ScopeExactly` | native/dwrt-host/dwrt_target_probe.cpp:812-833 | Told by the history: with no filter running the scope is off; otherwise it is that of the innermost running filter exactly until some filter call has returned since that filter started, and off from then on |
| `HookScope.AnswerExactly` | native/dwrt-host/dwrt_target_probe.cpp:835-879 | The classifier answer is the configured bit exactly while the innermost running filter is on that target, was given a scope and has seen no filter call return; otherwise it is the original answer |
| `HookScope.ForInnermostExactly` | native/dwrt-host/dwrt_host.cpp:200-216 | An active scope has the target of the innermost open filter call exactly if that call is running, or is still asking for its bit but has the target of the innermost running one |
| `HookScope.ForInnermostSettings` | native/dwrt-host/dwrt_target_probe.cpp:765-833 | The scope is for the innermost open filter call in every run exactly under settings that set no scopes or never ask for bits |
| `HookScope.NestedAskSeesOuterScope` | native/dwrt-host/dwrt_host.cpp:200-216 | Under all other settings a reachable state in which the outer scope rewrites answers while a nested filter call is open |
| `HookScope.ForRunningSettings` | native/dwrt-host/dwrt_target_probe.cpp:812-833 | A running filter call keeps the scope it was given in every run exactly under settings that set no scopes |
| `HookScope.NestedReturnClearsScope` | native/dwrt-host/dwrt_target_probe.cpp:831-833 | Under all other settings a reachable state in which a filter call with a scope of its own runs with the scope off, a nested call having returned |
| `HookScope.StepMoves` | native/dwrt-host/dwrt_host.cpp:141-249 | Every half of every detour starts a filter and sets its scope, returns from one and clears it, or leaves running filters and scope alone |
| `HookRuns.StepKeepsInv` | native/dwrt-host/dwrt_host.cpp:141-249 | Either half of any detour keeps the team, ledger and scope invariants |
| `HookTeams.SpoofsUndone` | native/dwrt-host/dwrt_target_probe.cpp:740-763 | Undoing the source and target spoofs of a filter call gives back the team map before them |
| `HookTeams.FriendlyFireTeam` | native/dwrt-host/dwrt_friendly_fire.cpp:141-197 | The frame of a damage detour undoes the victim spoof exactly, and pushing it keeps what the open detours unwind to |
| `HookEffects.FilterTeams` | native/dwrt-host/dwrt_target_probe.cpp:695-763 | The team bytes the original filter finds: a source spoofed in a same-team call is on 3 if it was on 2 and on 2 if it was on 3; a spoofed target is on the configured team, or on the other side if that is no byte; whatever else the neutraliser was given is neutral; every other byte is as before |
| `HookEffects.DamageTeams` | native/dwrt-host/dwrt_friendly_fire.cpp:141-189 | The team bytes the original damage function finds: the victim of friendly fire is on 3 for 2 and on 2 for 3; a victim given to the neutraliser is neutral; every other byte is as before |
| `HookEffects.FaultsExactly` | native/dwrt-host/dwrt_friendly_fire.cpp:169-183 | Entering a damage detour faults exactly if an objective that friendly fire looks at cannot be read, or would be changed and cannot be written |
| `HookEffects.FilterStartsExactly` | native/dwrt-host/dwrt_target_probe.cpp:765-829 | A filter call asks for a bitset bit exactly if bits are allowed or the simulation is on, the call is same-team or about an objective, and nothing is null; otherwise it runs at once, with a classifier scope on its target exactly if one is configured with a bit up to 31 |
| `HookEffects.FilterForcedExactly` | native/dwrt-host/dwrt_target_probe.cpp:962-969 | By the settings: nothing is forced with both settings and the simulation off; every same-team or objective call is with the simulation on; exactly same-team calls with only that setting on, and exactly objective calls with only the other |
| `HookEffects.CallerForcedExactly` | native/dwrt-host/dwrt_target_probe.cpp:1013-1019 | The caller verdict is forced exactly for entities with one team byte if that is set, for a named objective if that is set, and for both with the simulation on |
| `HookEffects.SecondaryForcedExactly` | native/dwrt-host/dwrt_target_probe.cpp:1043-1047 | The secondary verdict is forced exactly if that is set or the simulation is on |
| `HookEffects.FilterCounts` | native/dwrt-host/dwrt_target_probe.cpp:695-782 | What entering a filter call adds to every counter, from the bytes, the name and the unit type: calls, same-team, objective, names, invalid entities, units, both spoofs tried and made, bits asked for, depth and entries |
| `HookEffects.FilterReturnCounts` | native/dwrt-host/dwrt_target_probe.cpp:962-996 | What its return adds: the answer, forced or not, to the three groups of verdicts and to the spoofs held, with those written back |
| `HookEffects.DamageCounts` | native/dwrt-host/dwrt_target_probe.cpp:881-960 | What a damage call records: a relation of attacker and victim is same for equal bytes, opposing for 2 and 3, and other for the rest and for what cannot be read; names, handles and unit types in their places |
| `HookEffects.FriendlyFireCounts` | native/dwrt-host/dwrt_friendly_fire.cpp:141-189 | What friendly fire counts: the first test that a victim fails, or the attempt |
| `HookEffects.BitsetReturnCounts` | native/dwrt-host/dwrt_target_probe.cpp:784-809 | A bit found counts as applied exactly if it is valid and below 0x40000 |
| `HookEffects.CallerReturnCounts` | native/dwrt-host/dwrt_target_probe.cpp:998-1033 | What the caller detour counts: the forced verdict and unit type 0x1a |
| `HookEffects.SecondaryReturnCounts` | native/dwrt-host/dwrt_target_probe.cpp:1035-1057 | What the secondary gate counts of its forced verdict |
| `HookEffects.ClassifierReturnCounts` | native/dwrt-host/dwrt_target_probe.cpp:835-879 | What the classifier detour counts and answers: the bit of a scope on this target if it is at most 31, otherwise the bit of the original |
| `HookEffects.NeutralizeCounts` | native/dwrt-host/dwrt_target_probe.cpp:659-693 | Each case of the neutraliser, told from the byte and the neutral team, has its counter |
| `HookEffects.EntersGive` | native/dwrt-host/dwrt_host.cpp:157-198 | Input and output calls that are not nested give their three entities to the neutraliser, and the other entries change no byte |
| `HookEffects.ReturnsGive` | native/dwrt-host/dwrt_target_probe.cpp:835-1042 | The returns of the caller, secondary and classifier detours give theirs to it, the first two unless nested, and change no other byte |
| `HookLedger.RecordTotal` | native/dwrt-host/dwrt_target_probe.cpp:416-459 | Recording any value in a counter array adds one to the array and its overflow together |
| `HookLedger.NeutralizeBalance` | native/dwrt-host/dwrt_target_probe.cpp:659-693 | Attempts stay split into null, invalid, already, applied and write-failed, and the histogram sums to the readable ones |
| `HookLedger.CountAttackerBalance` | native/dwrt-host/dwrt_target_probe.cpp:931-959 | Valid attackers stay split into same, opposing and other team |
| `DesignerNames.ReadKeepsClass` | native/dwrt-host/dwrt_target_probe.cpp:371-414 | Reading at most 128 characters never changes how a name is classified |
| `DesignerNames.ObjectivesExactly` | native/dwrt-host/dwrt_target_probe.cpp:371-377 | The objectives are the bosses of tiers 1 to 3 under three prefixes, the trooper boss under three names, and the barrack boss |
| `DesignerNames.NeutralsExactly` | native/dwrt-host/dwrt_target_probe.cpp:379-390 | A neutral has one of two prefixes or one of two names, and the mid boss has three names |
| `HookDetours.Detours.BeginTargetFilter` | native/dwrt-host/dwrt_target_probe.cpp:695-763 | The code ends, and hands on the scope, where the filter start of the machine does: neutraliser, classification, counters and both spoofs; every team byte is the one told from settings and bytes: a spoofed source on the other of 2 and 3, a spoofed target on the configured team or the other side |
| `HookDetours.Detours.FinishTargetFilter` | native/dwrt-host/dwrt_target_probe.cpp:962-996 | The code ends where the filter end of the machine does: verdict counted, both spoofs undone; the result is the verdict, or an allowance for a same-team call if that is set, for an objective if that is set, and for either with the simulation on |
| `HookDetours.Detours.FinishTargetIdentityClassifier` | native/dwrt-host/dwrt_target_probe.cpp:835-879 | The code ends where the classifier end of the machine does; the bit found is that of the scope exactly if its target is asked about |
| `HookDetours.Detours.RecordTargetFilterCaller` | native/dwrt-host/dwrt_target_probe.cpp:998-1033 | The code ends where the caller record of the machine does; a denial can only become an allowance, exactly when it is forced |
| `HookDetours.Detours.RecordSecondaryTargetGate` | native/dwrt-host/dwrt_target_probe.cpp:1035-1060 | The code ends where the secondary gate record of the machine does; a denial can only become an allowance, exactly when it is forced |
| `HookDetours.Detours.DetourTakeDamageOld` | native/dwrt-host/dwrt_host.cpp:141-155 | With any detours nested in the original, the state is exactly the machine run from the old one over the events the call unfolds into, and no detour stays open; at the entry of the original the victim of friendly fire is on the other of 2 and 3 and no other byte has changed but that of a neutralised victim |
| `HookDetours.Detours.DetourInputOutput` | native/dwrt-host/dwrt_host.cpp:157-198 | For the input and output detours: exactly the machine run over the entry, all nested calls and the return |
| `HookDetours.Detours.DetourTargetFriendlyFireFilter` | native/dwrt-host/dwrt_host.cpp:200-216 | Exactly the machine run over the entry, the bitset question with what is nested in it if it is asked, the nested calls and the return; the team bytes at its entry are told from settings and bytes; the result is the verdict of the original, or an allowance exactly if the settings force one for a same-team or objective call |
| `HookDetours.Detours.DetourTargetFriendlyFireCaller` | native/dwrt-host/dwrt_host.cpp:218-228 | Exactly the machine run over the events of the call; the result is the verdict, or an allowance if the call was not nested and the caller settings or the simulation force one for equal team bytes or a named objective |
| `HookDetours.Detours.DetourTargetSecondaryFriendlyFireGate` | native/dwrt-host/dwrt_host.cpp:230-240 | Exactly the machine run over the events of the call; the result is the verdict, or an allowance if the call was not nested and its setting or the simulation is on |
| `HookDetours.Detours.DetourTargetIdentityClassifier` | native/dwrt-host/dwrt_host.cpp:242-249 | Exactly the machine run over the events of the call; the answer is that of the scope left by the nested calls, and differs from the original only inside a running filter on that target |
| `HookDetours.Detours.RunOriginal` | native/dwrt-host/dwrt_host.cpp:141-249 | An original that enters any detours in any nesting takes the code where the machine goes over their events, one call after the other |
| `HookDetours.RunSettles` | native/dwrt-host/dwrt_host.cpp:141-249 | Where a tree of calls leaves the machine when no detour is open: teams, filter entries, verdicts, spoofs and depth |
| `HookTrees.CallSteps` | native/dwrt-host/dwrt_host.cpp:141-249 | A call is its front, then everything nested in the original, then its return |
| `HookTrees.FrontSteps` | native/dwrt-host/dwrt_host.cpp:200-212 | The front of a call is its entry and, for a filter that asks, everything nested in the question and the answer |
| `HookTrees.CallSmooth` | native/dwrt-host/dwrt_host.cpp:141-249 | If no event of a call faults, nothing nested in its question or its original does |
| `HookTrees.TraceAdds` | native/dwrt-host/dwrt_target_probe.cpp:659-763 | Over any run of events exactly the entities they name have been handed to the neutraliser, and exactly the filter entries counted if the probe is enabled |
| `HookDetours.RunThread` | native/dwrt-host/dwrt_host.cpp:141-249 | For every tree of detour calls in which nothing faults: the team bytes and every counter are those of the machine after exactly the events the calls unfold into; so the team map is the initial one with the neutral team on exactly the writable entities those events hand over, every filter entry is counted if the probe is enabled, every ledger is settled and the depth is zero |
| `HandleTable.ResolveEntityHandle` | native/dwrt-host/dwrt_target_probe.cpp:282-317 | The lookup gives the pointer in the slot if that holds this very handle, and nothing on any fault or null |
| `HandleTable.ResolvesExactly` | native/dwrt-host/dwrt_target_probe.cpp:282-317 | A handle stands for a pointer exactly if it is no reserved one and the table at its offset, the chunk of its upper six of 15 bits and the slot of its lower nine hold that pointer beside this very handle |
| `HandleTable.LoadsFour` | native/dwrt-host/dwrt_target_probe.cpp:300-309 | Four bytes load with the low one first, exactly if all four can be read |
| `HandleTable.SharedSlotResolvesOnce` | native/dwrt-host/dwrt_target_probe.cpp:300-309 | Two handles sharing the low 15 bits never both resolve |
| `HandleTable.SlotsApart` | native/dwrt-host/dwrt_target_probe.cpp:300-306 | Slots of different indices never overlap |
| `HandleTable.PutThenResolve` | native/dwrt-host/dwrt_target_probe.cpp:282-317 | The two-level table behaves as one flat table over the low 15 bits: reusing a slot gives the new handle its entity, ends every other handle of the slot, and leaves all other handles alone |
| `HandleTable.PutKeepsLayout` | native/dwrt-host/dwrt_target_probe.cpp:300-306 | An insertion keeps the separation of chunks and table, and every chunk pointer |
| `HandleTable.LastInsertionWins` | native/dwrt-host/dwrt_target_probe.cpp:282-317 | After any sequence of insertions a handle stands for the entity of the last one into its slot if that was for this very handle, for nothing if it was for another, and for what it stood for at the start if there was none |
| `SignaturePattern.CompilePattern` | native/dwrt-host/dwrt_signature_scanner.cpp:240-277 | The nested loops compute the compilation of the tokens |
| `SignaturePattern.TokensExactly` | native/dwrt-host/dwrt_signature_scanner.cpp:243-255 | The tokens are the only way to read the text as blank-separated maximal runs |
| `SignaturePattern.CompilesExactly` | native/dwrt-host/dwrt_signature_scanner.cpp:17-37 | Compilation gives exactly the bytes the text writes out, in either hex case, with one or two question marks and any blanks |
| `SignaturePattern.FailsExactly` | native/dwrt-host/dwrt_signature_scanner.cpp:262-275 | It fails exactly without a token, or at the first token that spells no byte |
| `SignaturePattern.ParseHexByte` | native/dwrt-host/dwrt_signature_scanner.cpp:21-37 | A byte is found exactly for two hexadecimal digits |
| `SignaturePattern.NibbleExactly` | native/dwrt-host/dwrt_signature_scanner.cpp:25-34 | The sixteen digits in either case have their values, and nothing else is a digit |
| `PatternSearch.FindPattern` | native/dwrt-host/dwrt_signature_scanner.cpp:279-306 | The first min(max, total) of all matching offsets |
| `PatternSearch.AllMatchesExactly` | native/dwrt-host/dwrt_signature_scanner.cpp:288-304 | All matches are every matching offset, once, in increasing order |
| `PatternSearch.FindPatternRvas` | native/dwrt-host/dwrt_signature_scanner.cpp:308-348 | The first `maxMatches` of the section-by-section matches |
| `PatternSearch.ScanSection` | native/dwrt-host/dwrt_signature_scanner.cpp:317-345 | One section yields the front of its matches, and nothing unless one of its two code flags is set; the overflow test never skips one |
| `PatternSearch.RvasExactly` | native/dwrt-host/dwrt_signature_scanner.cpp:317-340 | An address is reported exactly if the pattern matches there wholly inside a clamped executable section, so inside the image |
| `PatternSearch.ReportedExactly` | native/dwrt-host/dwrt_signature_scanner.cpp:308-348 | An address is reported exactly if some section has the flag 0x20 or 0x20000000, starts at or below it, and the matching window ends by the end of the image and of the section, by its virtual size or, if that is zero, its raw size |
| `PatternSearch.ReportsInOrder` | native/dwrt-host/dwrt_signature_scanner.cpp:308-348 | The reports come section by section in the order of the sections, ascending within each, and every such address of every section has one |
| `PatternSearch.OneReportExactly` | native/dwrt-host/dwrt_signature_scanner.cpp:308-348 | Exactly one address is reported if and only if the pattern is found at it in one such section, and nowhere else in that or any other |
| `PatternSearch.CapKeepsVerdict` | native/dwrt-host/dwrt_host.cpp:105-116 | Asking for three matches never changes the verdict none, one or several, nor which one |
| `PatternSearch.RvaFromFileOffset` | native/dwrt-host/dwrt_signature_scanner.cpp:140-162 | The address beside the offset in the first section whose raw bytes hold it, unless that is no 32-bit number; held by none, the offset itself before the first section, and nothing behind it |
| `PatternSearch.RvaOfSection` | native/dwrt-host/dwrt_signature_scanner.cpp:140-162 | With disjoint raw ranges an offset backed by a section converts to exactly the address beside it in that section |
| `PatternSearch.ResolversAgree` | native/dwrt-host/dwrt_signature_scanner.cpp:140-162 | For copied sections with disjoint raw ranges and an offset converted to an address: the mapped search of the section, and of the module, finds the address exactly when the file search finds the offset and the window is inside the searched part of that section, or of any |
| `PatternSearch.ModuleAgrees` | native/dwrt-host/dwrt_signature_scanner.cpp:308-348 | For any section copied from the file: the whole mapped search finds an address exactly when the file search finds its offset and the searched part of some section holds the window |
| `PatternSearch.SearchesAgree` | native/dwrt-host/dwrt_signature_scanner.cpp:308-348 | On windows inside the searched part of their section the file search and the whole mapped search find the same |
| `PatternSearch.RawTailFoundOnlyInFile` | native/dwrt-host/dwrt_signature_scanner.cpp:322-328 | Beyond the virtual size the file search finds what the mapped search does not |
| `Fnv.Fnv1a64` | native/dwrt-host/dwrt_signature_scanner.cpp:350-357 | The loop computes the FNV-1a fold |
| `Fnv.KnownHashes` | native/dwrt-host/dwrt_signature_scanner.cpp:350-357 | The empty text and the text "a" have their published hashes |
| `Fnv.StepBijective` | native/dwrt-host/dwrt_signature_scanner.cpp:352-355 | Each step of the hash is a bijection on 64-bit states |
| `Fnv.FoldAppend` | native/dwrt-host/dwrt_signature_scanner.cpp:350-357 | Hashing is a left fold over concatenation |
| `Fnv.SingleByteChangeDetected` | native/dwrt-host/dwrt_signature_scanner.cpp:350-357 | Two inputs of one length that differ in exactly one byte never hash the same |
| `HostLifecycle.ResolveMappedSignature` | native/dwrt-host/dwrt_host.cpp:91-118 | The sole match is reported if there is one, and otherwise why there is none |
| `HostLifecycle.SoleRvaIsSole` | native/dwrt-host/dwrt_host.cpp:105-116 | No other address matches inside the searched sections |
| `HostLifecycle.SoleRvaExactly` | native/dwrt-host/dwrt_host.cpp:91-118 | A pattern has a sole match exactly at an address where it is found in one section with a code flag, and nowhere else in that or any other |
| `HostLifecycle.FindResolvedSignature` | native/dwrt-host/dwrt_host.cpp:251-258 | The resolution found is that of the first descriptor with the name |
| `HostLifecycle.Host.ResolvedTargetAddress` | native/dwrt-host/dwrt_host.cpp:260-269 | The base plus the sole match of the hook's pattern, or null |
| `HostLifecycle.TargetPlaced` | native/dwrt-host/dwrt_host.cpp:251-269 | An address that is not null is the target of a hook exactly if it is the base of the module plus the only place where the pattern of the first descriptor of that name is found |
| `HostLifecycle.Host.InstallProbeHooks` | native/dwrt-host/dwrt_host.cpp:271-339 | All seven hooks at their targets with their originals stored, exactly if all seven can be installed; otherwise none and all originals null |
| `HostLifecycle.Host.CheckSignatures` | native/dwrt-host/dwrt_host.cpp:383-395 | Every descriptor is resolved and the required ones that are not acceptable are counted |
| `HostLifecycle.Host.ResolveServerSignatures` | native/dwrt-host/dwrt_host.cpp:341-422 | The status is exactly no usable module, a required signature missing, hooks that cannot go in, or success; hooks go in exactly under `HooksGoIn`, only in the live module; the mapped fallback is loaded exactly if there is no live module and one is allowed and can be mapped, and is released on every path that loaded it |
| `HostLifecycle.Host.StartRuntime` | native/dwrt-host/dwrt_host.cpp:704-736 | The runtime part ends early exactly when it is required and fails, with the code of the first failure; what is then held, loaded and made is exactly told; no runtime is freed under a hook |
| `HostLifecycle.Host.Initialize` | native/dwrt-host/dwrt_host.cpp:666-751 | A bad argument or a second call changes nothing; otherwise the status, whether the host is up, what is held and whether the hooks are in are exactly those of the answers given |
| `HostLifecycle.Host.Shutdown` | native/dwrt-host/dwrt_host.cpp:837-863 | No hooks, no module, not initialised; hooks go before the runtime; the loads and runtimes made stay counted |
| `HostLifecycle.Host.CheckRunning` | native/dwrt-host/dwrt_host.cpp:781-811 | The guarded calls pass exactly with an initialised host that holds a runtime, and then its module has every export bound |
| `HostLifecycle.Run` | native/dwrt-host/dwrt_host.cpp:666-863 | Over every sequence of calls and answers: every status; hooks exactly if the host is up and the call that launched it could install them, then exactly seven, of the seven names in order, each at the base of that very call's live module plus the only place where the pattern of the first descriptor of its name is found, with its own detour and the original that the library answered, and otherwise none with null originals; loads are unloads plus module held, runtimes made are those freed plus the one held, mapped fallbacks loaded are those the calls had to load and all are released, and no runtime was freed while hooks were installed |
| `HostAnswers.RuntimeAnswers` | native/dwrt-host/dwrt_host.cpp:704-736 | The runtime part fails exactly if a runtime is required, with the first of: no path or no library with all fifteen exports, another ABI, none made, a failed probe |
| `HostAnswers.RequiredFailuresExactly` | native/dwrt-host/dwrt_host.cpp:383-395 | The failures counted are as many as the required descriptors whose pattern has no sole match, or one at an address that is not the expected one while drift is not allowed |
| `HostAnswers.ResolveAnswers` | native/dwrt-host/dwrt_host.cpp:341-422 | Resolution answers the first of: no readable module, a required descriptor that does not suit while signatures are required, hooks wanted that cannot all be made in a live module; otherwise success |
| `HostAnswers.HooksGoInTold` | native/dwrt-host/dwrt_host.cpp:341-422 | Hooks go in exactly if wanted, the live module is readable, the required descriptors suit if signatures are required, and each of the seven has an address and is made by the library |
| `HostAnswers.InitializeAnswers` | native/dwrt-host/dwrt_host.cpp:666-751 | The answer to an initialisation, whether the host is up after it, and everything it then holds and has loaded, told from the argument, the settings and the answers of the system |
| `HostAnswers.OtherAnswers` | native/dwrt-host/dwrt_host.cpp:781-863 | A shutdown succeeds and gives everything up; the guard passes exactly for a host that is up and holds a runtime |
| `HookBackend.Backend.InstallInline` | native/dwrt-host/dwrt_hook_backend.cpp:12-46 | A record is kept and its original stored exactly if nothing is null and the hook is made and enabled; otherwise the list is unchanged and at most null is stored |
| `RuntimeShim.Shim.Load` | native/dwrt-shim/dwrt_shadow_shim.cpp:70-125 | The module is held exactly if it loads with every export, counted once; a library lacking one is closed again |
| `RuntimeShim.Shim.Unload` | native/dwrt-shim/dwrt_shadow_shim.cpp:127-151 | Runtime and module are given up, the runtime first, and the counts still balance |
| `RuntimeShim.Shim.CreateRuntime` | native/dwrt-shim/dwrt_shadow_shim.cpp:153-169 | A runtime is held exactly if the module is and it was made; every failure is counted |
| `RuntimeShim.Shim.DestroyRuntime` | native/dwrt-shim/dwrt_shadow_shim.cpp:171-176 | A held runtime is freed exactly once |
| `JsonText.ReadEscaped` | crates/dwrt-trace/src/json.rs:3-19 | Reading undoes the escaping of either printer for every string, whatever follows the closing quote (section 7 of RFC 8259) |
| `JsonText.EscapesExactly` | crates/dwrt-trace/src/json.rs:3-19 | How each character is written by either printer: the short escapes, four hexadecimal digits for every other control character, and everything else as it is |
| `JsonText.JsonEscape` | native/dwrt-host/dwrt_signature_scanner.cpp:359-385 | The native loop escapes every character |
| `JsonText.ReadDecimal` | crates/dwrt-trace/src/json.rs:27-34 | Reading undoes printing for every integer |
| `JsonText.ObjectRoundTrip` | crates/dwrt-trace/src/json.rs:3-43 | Reading undoes printing for every list of fields |
| `JsonText.ObjectIsClean` | crates/dwrt-trace/src/json.rs:3-19 | A printed object holds no control character, so it is one line |
| `TraceRecords.LineRoundTrip` | crates/dwrt-trace/src/event.rs:27-36 | Reading a printed line gives back its number and its header or event, for all five kinds, all strings and all integers |
| `TraceRecords.ReadLineExactly` | crates/dwrt-trace/src/event.rs:123-437 | A text reads as a line exactly if it holds the fields of that line, in their order |
| `TraceKeys.LineSays` | crates/dwrt-trace/src/event.rs:27-437 | Looking a key up by its name in a printed line gives, for each of the five kinds and the header, the very field of the record that the key names, the number under "seq" and the kind under "type"; there are no other keys and none occurs twice |
| `TraceKeys.Texts` | crates/dwrt-trace/src/event.rs:98-437 | The text of every value of every enumeration |
| `TraceWriter.Buffer.PushJsonString` | crates/dwrt-trace/src/json.rs:3-19 | The loop appends the quoted, escaped string |
| `TraceWriter.Buffer.PushJsonStringField` | crates/dwrt-trace/src/json.rs:21-25 | Appends the printed field |
| `TraceWriter.Buffer.PushJsonOptionalI32Field` | crates/dwrt-trace/src/json.rs:27-34 | Appends the printed field, null for none |
| `TraceWriter.Buffer.PushJsonOptionalStringField` | crates/dwrt-trace/src/json.rs:36-43 | Appends the printed field, null for none |
| `TraceWriter.PushEventFields` | crates/dwrt-trace/src/event.rs:79-89 | The pushes for any of the five kinds append exactly the printed fields of the event, separated by commas, so `TraceKeys.LineSays` holds of them |
| `TraceWriter.ToJsonLine` | crates/dwrt-trace/src/event.rs:27-36 | The pushes produce exactly the printed line, so `LineRoundTrip` reads it back; looked up by name, every key of the event yields its own field and nothing else is there |
| `TraceWriter.HeaderText` | crates/dwrt-trace/src/writer.rs:28-35 | The pushes produce exactly the printed schema header, whose text is given literally, with sequence number and version under their keys |
| `TraceWriter.LinesRoundTrip` | crates/dwrt-trace/src/writer.rs:24-53 | Any output of lines splits at its newlines back into exactly those lines |
| `TraceWriter.JsonlTraceWriter.WriteSchemaHeader` | crates/dwrt-trace/src/writer.rs:24-39 | The next number is used up; the header line and its newline go out, or on an error what the device kept of them; the number is answered exactly without error |
| `TraceWriter.JsonlTraceWriter.WriteEvent` | crates/dwrt-trace/src/writer.rs:48-53 | The next number is used up; the event line and its newline go out, or on an error what the device kept of them; the number is answered exactly without error |
| `TraceWriter.JsonlTraceWriter.WriteRecord` | crates/dwrt-trace/src/writer.rs:55-57 | A line with a number of its own goes out, or on an error what the device kept of it, and the counter stays |
| `TraceOutput.OutputReadsBack` | crates/dwrt-trace/src/writer.rs:24-57 | The output of any writes reads back as exactly the lines written without an error if and only if no write failed after something of its line had got out; after such a failure it does not read at all |
| `TraceOutput.SpoiltLine` | crates/dwrt-trace/src/event.rs:27-36 | A printed line with anything in front of it reads as no line |
| `TraceOutput.ObjectScans` | crates/dwrt-trace/src/json.rs:3-43 | Whatever reads as an object scans from its opening brace to the outside of strings, with only structural characters there |
| `TraceOutput.LinesNumbered` | crates/dwrt-trace/src/writer.rs:24-53 | Without records of other numbers, write `i` carries the number `i` with failed writes counted, and its line comes right after those of the earlier writes that worked |
| `TraceOutput.Run` | crates/dwrt-trace/src/writer.rs:24-57 | For any calls of a new writer on any device: every answer, the exact output, and that it reads back as the lines written exactly if nothing was torn |
| `TraceRing.TraceRingBuffer.Push` | crates/dwrt-trace/src/ring.rs:22-33 | The ring holds the last `capacity` pushes in order, and the oldest is counted as dropped exactly when there is no room |
| `TraceRing.TraceRingBuffer.Drain` | crates/dwrt-trace/src/ring.rs:59-62 | The held records are given out and the ring is empty |
| `TraceRing.Run` | crates/dwrt-trace/src/ring.rs:14-62 | For every run at any capacity: what is held, what every drain returned, and pushed = drained + dropped + held |
| `WalkerPatrol.ItemsRejoin` | native/dwrt-host/dwrt_walker_patrol.cpp:164-179 | The split at `;` loses nothing but one closing separator |
| `WalkerPatrol.VectorsAppend` | native/dwrt-host/dwrt_walker_patrol.cpp:164-179 | Every item of the list that is not empty and can be read gives its vector, in its own place |
| `WalkerPatrol.ParseVectors` | native/dwrt-host/dwrt_walker_patrol.cpp:164-179 | The loop finds the first eight valid items of the split, or all if there are fewer |
| `WalkerPatrol.Patrol.ParseVectorEnvironment` | native/dwrt-host/dwrt_walker_patrol.cpp:156-189 | Those become the waypoints, or the four defaults if there are none |
| `WalkerPatrol.Patrol.ReadEntityAbsOrigin` | native/dwrt-host/dwrt_walker_patrol.cpp:254-280 | Every read is a success or a failure, with its cause counted |
| `WalkerPatrol.Patrol.CountCallback` | native/dwrt-host/dwrt_walker_patrol.cpp:319-338 | Each callback is counted as exactly one of recursive, without identity, without name, no walker, or goes on as a candidate |
| `WalkerPatrol.KindsPartition` | native/dwrt-host/dwrt_walker_patrol.cpp:319-338 | Every callback of a run is of exactly one of the five kinds |
| `WalkerPatrol.KindsExactly` | native/dwrt-host/dwrt_walker_patrol.cpp:199-338 | A callback is a candidate exactly if it is not nested and its victim has one of the three names of a walker; each other kind is told in the same way |
| `WalkerPatrol.MovesExactly` | native/dwrt-host/dwrt_walker_patrol.cpp:339-365 | A callback tells its entity to move exactly if it is a candidate whose number is a multiple of the stride: to the waypoint after the last used, round and round, as a velocity or added to an origin that can be read |
| `WalkerPatrol.Patrol.MaybeApplyOnDamage` | native/dwrt-host/dwrt_walker_patrol.cpp:315-365 | Keeps: attempts are candidates over stride, attempt k used waypoint k modulo the count, callbacks split five ways, reads balance; and says what the entity is told |
| `WalkerPatrol.UsesExactly` | native/dwrt-host/dwrt_walker_patrol.cpp:350-350 | How often each waypoint is used in n attempts |
| `WalkerPatrol.Fair` | native/dwrt-host/dwrt_walker_patrol.cpp:350-350 | No waypoint is used more than once oftener than another |
| `WalkerPatrol.Run` | native/dwrt-host/dwrt_walker_patrol.cpp:291-365 | Over every run of callbacks since the reset: how many there were of each of the five kinds, the number of attempts, and what every single callback told its entity |
| `HookRegistry.UsableExactly` | crates/dwrt-hooks/src/registry.rs:84-124 | Usable exactly if not disabled, all required facts known and all required features on; installed exactly if usable and installed |
| `HookRegistry.EvaluationTold` | crates/dwrt-hooks/src/registry.rs:84-124 | Every evaluation: a disabled hook lists nothing; any other lists exactly the required facts that are unknown and the required features that are off, and is not usable exactly if there are some |
| `HookRegistry.MissingFactsAppend` | crates/dwrt-hooks/src/registry.rs:99-106 | The missing facts are listed in the order and number of the requirements |
| `HookRegistry.UsabilityMonotone` | crates/dwrt-hooks/src/registry.rs:84-124 | More facts and features never make a usable hook unusable |
| `HookRegistry.MissingFactsExactly` | crates/dwrt-hooks/src/registry.rs:99-106 | Exactly the required facts the manifest lacks are reported |
| `HookRegistry.MissingRequiredExactly` | crates/dwrt-hooks/src/feature.rs:61-71 | Exactly the required features that are off are reported |
| `HookRegistry.MemoryManifest.Insert` | crates/dwrt-memory/src/manifest/mod.rs:31-38 | A well-shaped fact with a new key goes in; otherwise nothing changes and the error says why |
| `HookRegistry.ValidateShape` | crates/dwrt-hooks/src/descriptor.rs:151-165 | Passes exactly for visitors that only read and hooks that do not replace |
| `HookRegistry.Registry.Register` | crates/dwrt-hooks/src/registry.rs:19-26 | A well-shaped hook with a new name goes in; otherwise nothing changes |
| `HookRegistry.Registry.MarkInstalled` | crates/dwrt-hooks/src/registry.rs:67-82 | Installed with its own mode exactly if registered, not disabled and usable; otherwise nothing changes |
| `HookRegistry.Session.Apply` | crates/dwrt-hooks/src/registry.rs:19-82 | Facts, features, hooks and installations end exactly where the action should take them, and no action changes or loses a fact, a registration or an installation |
| `HookRegistry.FirstKept` | crates/dwrt-memory/src/manifest/mod.rs:31-38 | Whatever follows, the first well-shaped insertion of a key is what stays |
| `HookRegistry.FirstInsertionWins` | crates/dwrt-memory/src/manifest/mod.rs:31-38 | After any run a key has exactly the fact of its first well-shaped insertion |
| `HookRegistry.FirstRegistrationWins` | crates/dwrt-hooks/src/registry.rs:19-26 | After any run a name has exactly the hook of its first well-shaped registration |
| `HookRegistry.LastToggleWins` | crates/dwrt-hooks/src/feature.rs:48-54 | After any run a feature is on exactly if its last toggle switched it on |
| `HookRegistry.InstalledOnce` | crates/dwrt-hooks/src/registry.rs:67-82 | After any run a name is installed exactly if at some action installing it the hook was registered, not disabled and usable |
| `HookRegistry.NothingLost` | crates/dwrt-hooks/src/registry.rs:19-82 | Facts, hooks and installations of a run are the same in every continuation of it |
| `HookRegistry.InstalledExactly` | crates/dwrt-hooks/src/registry.rs:119-123 | After any run an installed hook reports Installed exactly while its required features are on |
| `HookRegistry.Run` | crates/dwrt-hooks/src/registry.rs:19-124 | For any run of actions the code leaves exactly what the first good insertions and registrations, the last toggles and the successful installations leave; installed names are registered with their non-disabled mode and report Installed exactly while their features are on |

## Left out

- Weak memory: relaxed atomics are modelled as sequentially consistent interleavings.
- The detours run on one thread; interleavings of detours on different threads are not modelled.
- The last-seen fields of the probe, the snapshot copies and the JSON summaries of the host are left out.
- Counters other than those of the gate and the trace writer are unbounded; the balances proved of them hold modulo 2^64 as well.
- Guarded reads and writes are a fixed set of readable entities and a fixed set of unwritable ones. A fault in the unguarded friendly-fire access ends the process; a run ends there too, and nothing is said of what would follow.
- The walker patrol runs inside the damage detour but touches none of its state, so it is modelled on its own.
- Originals that write team bytes themselves are not modelled, nor are faults while the bitset bit is set or the classifier's answer is written.
- `set_probe_mount_mask` and the record calls into the runtime are only their guard; route and timing counters of the shim are left out.
- TraceRecords.LineRoundTrip: works on Unicode scalar values; the UTF-8 bytes of the output are not modelled.
- Sequence numbers wrap at 2^64 as in a release build; a debug build would stop there.
- PE header parsing, module loading, environment variables, float parsing and vtable calls: sections, modules, settings, parsed vectors and unit types are given data.
- Hook name validation, evidence checks, trace comparison, the usercmd mask router, the surface catalog and the C ABI wrappers: single calls without state of their own, which nothing modelled here depends on.
