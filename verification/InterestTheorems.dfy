/** What the interest gate guarantees in every interleaving, and exactly where it does not. */
module InterestTheorems {
  import opened Common
  import opened InterestGate

  /** Fewer than 2^32 live mounts on every entry. */
  ghost predicate LiveBelow(s: Gate) {
    forall k | k in s.logs :: s.logs[k].adds - s.logs[k].removes < WORD
  }

  /** Room for the sums below in one 32-bit word. */
  ghost predicate Fits(s: Gate) {
    && |s.counts| + Count(s.pcs, RemOwes(TotalActive)) < WORD
    && Count(s.pcs, AddOwes(TotalActive)) < WORD
  }

  ghost predicate Quiescent(s: Gate) {
    forall t | t in s.pcs :: s.pcs[t].Idle?
  }

  // ---------------------------------------------------------------- every reachable state

  /** While every entry has fewer than 2^32 live mounts no `fetch_add` has wrapped an entry. */
  lemma NoWraps(s: Gate, g: Gauge)
    requires Inv(s) && LiveBelow(s)
    ensures s.books[g].wraps == 0
  {
    forall k | k in s.logs ensures s.logs[k].wraps == 0 {
      assert EntrySound(s.counts[k], s.logs[k]);
    }
    assert WrapHasCause(s, g);
  }

  lemma ModCongruent(x: int, y: int)
    ensures (x % WORD + y) % WORD == (x + y) % WORD
  {
    var r := (x % WORD + y) % WORD;
    assert x + y == WORD * (x / WORD + (x % WORD + y) / WORD) + r;
  }

  /** In every interleaving each gauge plus the adds that still owe it equals, modulo 2^32, the
      mounted entries it covers plus the removes that still owe it plus the entry wraps; and there
      are no wraps while every entry has fewer than 2^32 live mounts. */
  lemma GaugeEquation(keys: set<Key>, s: Gate, g: Gauge)
    requires Reachable(keys, s)
    ensures Shaped(s) && s.counts.Keys == keys
    ensures (s.gauges[g] + Count(s.pcs, AddOwes(g))) % WORD ==
            (Count(s.counts, Mounted(g)) + Count(s.pcs, RemOwes(g)) + s.books[g].wraps) % WORD
    ensures LiveBelow(s) ==> s.books[g].wraps == 0
  {
    ReachableInv(keys, s);
    assert Balanced(s, g);
    ModCongruent(s.books[g].net, Count(s.pcs, AddOwes(g)));
    if LiveBelow(s) { NoWraps(s, g); }
  }

  lemma SubsetSize<T>(a: set<T>, b: set<T>)
    requires a <= b
    ensures |a| <= |b|
  {
    assert b == a + (b - a);
  }

  lemma MountedBounded(s: Gate, g: Gauge)
    ensures Count(s.counts, Mounted(g)) <= |s.counts|
  {
    SubsetSize(Where(s.counts, Mounted(g)), s.counts.Keys);
  }

  /** The word the router tests is zero exactly when the adds in flight past their 0-to-1 step
      equal in number the mounted entries together with the removes past their 1-to-0 step. */
  lemma GateClosedExactly(keys: set<Key>, s: Gate)
    requires Reachable(keys, s) && LiveBelow(s) && Fits(s)
    ensures Shaped(s)
    ensures !HasAny(s) <==>
            Count(s.pcs, AddOwes(TotalActive)) ==
            Count(s.counts, Mounted(TotalActive)) + Count(s.pcs, RemOwes(TotalActive))
  {
    hide Count, Reachable, EntriesSound;
    ReachableInv(keys, s);
    NoWraps(s, TotalActive);
    MountedBounded(s, TotalActive);
    assert Balanced(s, TotalActive);
  }

  lemma NothingMountedMeansNoInterest(s: Gate, d: Direction, id: int, user: Option<int>)
    requires Count(s.counts, Mounted(TotalActive)) == 0
    ensures Lookup(s, d, id, user) == NoInterest
  {
    assert forall k :: Has(s, k) ==> k in Where(s.counts, Mounted(TotalActive));
  }

  /** The gate changes no answer exactly when there is nothing to answer or the word is not zero: the
      router is right if and only if nothing that the message meets is mounted, or the adds in flight
      past their 0-to-1 step are not as many as the mounted entries and the removes past their 1-to-0
      step. */
  lemma RouteRightExactly(keys: set<Key>, s: Gate, d: Direction, id: int, user: Option<int>)
    requires Reachable(keys, s) && LiveBelow(s) && Fits(s)
    ensures Shaped(s)
    ensures RouteMessage(s, d, id, user) == Lookup(s, d, id, user) <==>
            || Lookup(s, d, id, user) == NoInterest
            || Count(s.pcs, AddOwes(TotalActive)) !=
               Count(s.counts, Mounted(TotalActive)) + Count(s.pcs, RemOwes(TotalActive))
  {
    hide Lookup;
    GateClosedExactly(keys, s);
  }

  /** With no add between its 0-to-1 step and its `track`, the gate never hides a mounted entry,
      whatever removes are in flight: routing equals the six-table lookup without the gate. */
  lemma RouteEqualsLookup(keys: set<Key>, s: Gate, d: Direction, id: int, user: Option<int>)
    requires Reachable(keys, s) && LiveBelow(s) && Fits(s)
    requires Count(s.pcs, AddOwes(TotalActive)) == 0
    ensures Shaped(s) && RouteMessage(s, d, id, user) == Lookup(s, d, id, user)
  {
    GateClosedExactly(keys, s);
    if !HasAny(s) { NothingMountedMeansNoInterest(s, d, id, user); }
  }

  lemma QuiescentOwesNothing(s: Gate, g: Gauge)
    requires Quiescent(s)
    ensures Count(s.pcs, AddOwes(g)) == 0 && Count(s.pcs, RemOwes(g)) == 0
  {
    assert Where(s.pcs, AddOwes(g)) == {} && Where(s.pcs, RemOwes(g)) == {};
  }

  lemma ExactWithoutOwing(s: Gate, g: Gauge)
    requires Inv(s) && LiveBelow(s)
    requires Count(s.pcs, AddOwes(g)) == Count(s.pcs, RemOwes(g)) == 0 && Count(s.counts, Mounted(g)) < WORD
    ensures s.gauges[g] == Count(s.counts, Mounted(g))
  {
    NoWraps(s, g);
    hide Count;
    assert Balanced(s, g);
  }

  /** Between operations the counters are exact: each `active_ids` is the number of mounted ids of
      its table, and the total is the number over all six. */
  lemma QuiescentGaugesExact(keys: set<Key>, s: Gate, g: Gauge)
    requires Reachable(keys, s) && LiveBelow(s) && Quiescent(s) && |keys| < WORD
    ensures Shaped(s) && s.gauges[g] == Count(s.counts, Mounted(g))
  {
    ReachableInv(keys, s);
    QuiescentOwesNothing(s, g);
    MountedBounded(s, g);
    assert |s.counts| == |s.counts.Keys|;
    ExactWithoutOwing(s, g);
  }

  /** Between operations a native event routes as the tables say; an unknown direction never does. */
  lemma QuiescentRoute(keys: set<Key>, s: Gate, direction: int, id: int, hasUser: int, userType: int)
    requires Reachable(keys, s) && LiveBelow(s) && Quiescent(s) && |keys| < WORD
    ensures Shaped(s)
    ensures var user := if hasUser == 0 then None else Some(userType);
            RouteFastEvent(s, direction, id, hasUser, userType) ==
            if direction == 0 then Lookup(s, Incoming, id, user)
            else if direction == 1 then Lookup(s, Outgoing, id, user)
            else NoInterest
  {
    QuiescentGaugesExact(keys, s, TotalActive);
    var user := if hasUser == 0 then None else Some(userType);
    if !HasAny(s) {
      NothingMountedMeansNoInterest(s, Incoming, id, user);
      NothingMountedMeansNoInterest(s, Outgoing, id, user);
    }
  }

  /** Without the condition on adds the gate does hide mounts: thread 1's `add` has returned and the
      entry has two mounts, but thread 0, which saw the 0, has not reached `track` yet. */
  lemma ReturnedAddStillHidden(id: int) returns (s: Gate)
    ensures Reachable({Key(IncomingFast, id)}, s)
    ensures Shaped(s) && s.counts == map[Key(IncomingFast, id) := 2] && PcOf(s, 1).Idle?
    ensures RouteMessage(s, Incoming, id, None) == NoInterest
    ensures Lookup(s, Incoming, id, None) == FastOnly
  {
    var k := Key(IncomingFast, id);
    InitReach({k});
    s := BeginAddReach({k}, Init({k}), 0, k);
    s := FetchAddReach({k}, s, 0, k);
    s := BeginAddReach({k}, s, 1, k);
    s := FetchAddReach({k}, s, 1, k);
  }

  lemma InitReach(keys: set<Key>)
    ensures Reachable(keys, Init(keys))
  {
    var states: seq<Gate>, events: seq<Event> := [Init(keys)], [];
    assert Execution(keys, states, events);
    assert states[|events|] == Init(keys);
  }

  lemma StepReach(keys: set<Key>, s: Gate, e: Event)
    requires Reachable(keys, s)
    ensures Shaped(s) && Reachable(keys, Step(s, e))
  {
    ReachableInv(keys, s);
    var states, events :| Execution(keys, states, events) && s == states[|events|];
    Extend(keys, states, events, e);
    assert (states + [Step(s, e)])[|events + [e]|] == Step(s, e);
  }

  lemma Extend(keys: set<Key>, states: seq<Gate>, events: seq<Event>, e: Event)
    requires Execution(keys, states, events) && Shaped(states[|events|])
    ensures Execution(keys, states + [Step(states[|events|], e)], events + [e])
  {
    var states', events' := states + [Step(states[|events|], e)], events + [e];
    forall i | 0 <= i < |events'| ensures Steps(states'[i], events'[i], states'[i + 1]) {
      if i < |events| { assert Steps(states[i], events[i], states[i + 1]); }
    }
  }

  lemma BeginAddReach(keys: set<Key>, s: Gate, t: nat, k: Key) returns (s': Gate)
    requires Reachable(keys, s) && PcOf(s, t).Idle? && k in s.counts
    ensures Reachable(keys, s') && Shaped(s')
    ensures s'.pcs == s.pcs[t := AddEntry(k)] && s'.counts == s.counts && s'.gauges == s.gauges
  {
    StepReach(keys, s, BeginAdd(t, k));
    s' := Step(s, BeginAdd(t, k));
    ReachableInv(keys, s');
  }

  lemma FetchAddReach(keys: set<Key>, s: Gate, t: nat, k: Key) returns (s': Gate)
    requires Reachable(keys, s) && PcOf(s, t) == AddEntry(k) && k in s.counts && s.counts[k] + 1 < WORD
    ensures Reachable(keys, s') && Shaped(s')
    ensures s'.pcs == s.pcs[t := if s.counts[k] == 0 then AddActive(k) else Idle]
    ensures s'.counts == s.counts[k := s.counts[k] + 1] && s'.gauges == s.gauges
  {
    StepReach(keys, s, Next(t, false));
    s' := Step(s, Next(t, false));
    ReachableInv(keys, s');
  }

  // ---------------------------------------------------------------- single entries

  /** On every entry the adds that reported `true` minus the removes that took it to zero is its
      mounted bit, and the entry is the number of live mounts: removes never take it below zero. */
  lemma EntryHistory(keys: set<Key>, s: Gate, k: Key)
    requires Reachable(keys, s) && LiveBelow(s) && k in keys
    ensures Shaped(s) && k in s.counts
    ensures s.counts[k] == s.logs[k].adds - s.logs[k].removes
    ensures s.logs[k].ups - s.logs[k].downs == Bit(Has(s, k))
  {
    ReachableInv(keys, s);
    assert EntrySound(s.counts[k], s.logs[k]);
  }

  /** A `remove` in its CAS loop has failed non-spuriously no more often than the entry was changed
      since it first read it, and only the thread that wins changes the entry, by exactly one. */
  lemma FailuresHaveWinners(keys: set<Key>, s: Gate, t: nat)
    requires Reachable(keys, s) && PcOf(s, t).RemCas?
    ensures Shaped(s) && PcOf(s, t).key in s.counts
    ensures var pc := PcOf(s, t);
            pc.misses <= s.logs[pc.key].Version() - pc.first
    ensures forall spurious ::
              var pc, s' := PcOf(s, t), Step(s, Next(t, spurious));
              s'.counts != s.counts ==>
                s.counts[pc.key] > 0 && s'.counts == s.counts[pc.key := s.counts[pc.key] - 1]
  {
    ReachableInv(keys, s);
    assert LoopSound(s, s.pcs[t]);
  }

  // ---------------------------------------------------------------- mounts and routes

  /** What the eight add and remove operations of the router mount and unmount. */
  datatype Mount =
    | MountSerialized(direction: Direction, id: int)
    | MountFast(direction: Direction, id: int)
    | MountUserSerialized(id: int)
    | MountUserFast(id: int)

  function EntryOf(m: Mount): Key {
    match m
    case MountSerialized(d, id) => Key(TableFor(d, Serialized), id)
    case MountFast(d, id) => Key(TableFor(d, Fast), id)
    case MountUserSerialized(id) => Key(UserSerialized, id)
    case MountUserFast(id) => Key(UserFast, id)
  }

  /** A message meets a mount by its direction and id, or by its user message type. */
  predicate Meets(m: Mount, d: Direction, id: int, user: Option<int>) {
    match m
    case MountSerialized(d', id') => d' == d && id' == id
    case MountFast(d', id') => d' == d && id' == id
    case MountUserSerialized(id') => user == Some(id')
    case MountUserFast(id') => user == Some(id')
  }

  predicate IsSerialized(m: Mount) { m.MountSerialized? || m.MountUserSerialized? }

  predicate WantsSerialized(r: Route) { r == SerializedOnly || r == FastAndSerialized }

  predicate WantsFast(r: Route) { r == FastOnly || r == FastAndSerialized }

  /** A message is routed serialized exactly if it meets a live serialized mount, and fast exactly if
      it meets a live fast one: no mount is taken for another of another table, direction or id. */
  lemma LookupMeansMounts(s: Gate, d: Direction, id: int, user: Option<int>)
    ensures WantsSerialized(Lookup(s, d, id, user)) <==>
            exists m :: IsSerialized(m) && Meets(m, d, id, user) && Has(s, EntryOf(m))
    ensures WantsFast(Lookup(s, d, id, user)) <==>
            exists m :: !IsSerialized(m) && Meets(m, d, id, user) && Has(s, EntryOf(m))
    ensures forall m, n :: EntryOf(m) == EntryOf(n) ==> m == n
  {
    var a, b := MountSerialized(d, id), MountFast(d, id);
    assert IsSerialized(a) && Meets(a, d, id, user) && !IsSerialized(b) && Meets(b, d, id, user);
    assert EntryOf(a) == Key(TableFor(d, Serialized), id) && EntryOf(b) == Key(TableFor(d, Fast), id);
    if user.Some? {
      var c, e := MountUserSerialized(user.value), MountUserFast(user.value);
      assert IsSerialized(c) && Meets(c, d, id, user) && !IsSerialized(e) && Meets(e, d, id, user);
      assert EntryOf(c) == Key(UserSerialized, user.value) && EntryOf(e) == Key(UserFast, user.value);
    }
  }
}
