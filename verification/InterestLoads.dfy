/** The router as it reads: one load of the gate and one of every entry it looks at, each at its own
    moment of an interleaving, with steps of adds and removes in between. */
module InterestLoads {
  import opened Common
  import opened InterestGate
  import opened InterestTheorems

  /** The states of an interleaving that one route looks at. */
  datatype Looks = Looks(gate: nat, serialized: nat, userSerialized: nat, fast: nat, userFast: nat)

  predicate InOrder(w: Looks, end: nat) {
    w.gate <= w.serialized <= w.userSerialized <= w.fast <= w.userFast < end
  }

  /** `route_message`, every load in the state it meets. */
  function RouteLoading(states: seq<Gate>, w: Looks, d: Direction, id: int, user: Option<int>): Route
    requires InOrder(w, |states|) && TotalActive in states[w.gate].gauges
  {
    if !HasAny(states[w.gate]) then NoInterest
    else
      var serialized := Has(states[w.serialized], Key(TableFor(d, Serialized), id)) ||
                        (user.Some? && Has(states[w.userSerialized], Key(UserSerialized, user.value)));
      var fast := Has(states[w.fast], Key(TableFor(d, Fast), id)) ||
                  (user.Some? && Has(states[w.userFast], Key(UserFast, user.value)));
      RouteOf(fast, serialized)
  }

  /** The state in which a route looks for a mount. */
  function LookFor(w: Looks, m: Mount): nat {
    match m
    case MountSerialized(_, _) => w.serialized
    case MountFast(_, _) => w.fast
    case MountUserSerialized(_) => w.userSerialized
    case MountUserFast(_) => w.userFast
  }

  predicate Wants(r: Route, m: Mount) {
    if IsSerialized(m) then WantsSerialized(r) else WantsFast(r)
  }

  /** The mount is live when the route looks for it. */
  predicate Seen(states: seq<Gate>, w: Looks, m: Mount)
    requires InOrder(w, |states|)
  {
    Has(states[LookFor(w, m)], EntryOf(m))
  }

  /** A kind is reported exactly if the gate was open and some mount of that kind that the message
      meets was live when the route looked for it. Nothing is reported that was never mounted. */
  lemma KindReportedExactly(states: seq<Gate>, w: Looks, d: Direction, id: int, user: Option<int>)
    requires InOrder(w, |states|) && TotalActive in states[w.gate].gauges
    ensures var route := RouteLoading(states, w, d, id, user);
            && (WantsSerialized(route) <==>
                (HasAny(states[w.gate]) && exists m :: IsSerialized(m) && Meets(m, d, id, user) && Seen(states, w, m)))
            && (WantsFast(route) <==>
                (HasAny(states[w.gate]) && exists m :: !IsSerialized(m) && Meets(m, d, id, user) && Seen(states, w, m)))
    ensures forall m :: w.gate <= LookFor(w, m) <= w.userFast
  {
    var a, b := MountSerialized(d, id), MountFast(d, id);
    assert IsSerialized(a) && Meets(a, d, id, user) && !IsSerialized(b) && Meets(b, d, id, user);
    assert Seen(states, w, a) <==> Has(states[w.serialized], Key(TableFor(d, Serialized), id));
    assert Seen(states, w, b) <==> Has(states[w.fast], Key(TableFor(d, Fast), id));
    if user.Some? {
      var c, e := MountUserSerialized(user.value), MountUserFast(user.value);
      assert IsSerialized(c) && Meets(c, d, id, user) && !IsSerialized(e) && Meets(e, d, id, user);
      assert Seen(states, w, c) <==> Has(states[w.userSerialized], Key(UserSerialized, user.value));
      assert Seen(states, w, e) <==> Has(states[w.userFast], Key(UserFast, user.value));
    }
  }

  /** Whatever other threads do during the route: a mount that the message meets and that is live from
      the first load to the last is reported, exactly unless the adds in flight past their 0-to-1 step
      equalled, at the load of the gate, the mounted entries and the removes past their 1-to-0 step. */
  lemma HeldMountReportedExactly(
      keys: set<Key>, states: seq<Gate>, events: seq<Event>, w: Looks, m: Mount,
      d: Direction, id: int, user: Option<int>)
    requires Execution(keys, states, events) && InOrder(w, |states|)
    requires LiveBelow(states[w.gate]) && Fits(states[w.gate])
    requires Meets(m, d, id, user)
    requires forall j | w.gate <= j <= w.userFast :: Has(states[j], EntryOf(m))
    ensures Shaped(states[w.gate])
    ensures var s := states[w.gate];
            Wants(RouteLoading(states, w, d, id, user), m) <==>
            Count(s.pcs, AddOwes(TotalActive)) !=
            Count(s.counts, Mounted(TotalActive)) + Count(s.pcs, RemOwes(TotalActive))
  {
    var s := states[w.gate];
    assert Reachable(keys, s) by { StateReachable(keys, states, events, w.gate); }
    hide Count, Reachable, Execution, LiveBelow, Fits;
    GateClosedExactly(keys, s);
    KindReportedExactly(states, w, d, id, user);
    assert Seen(states, w, m);
  }

  lemma StateReachable(keys: set<Key>, states: seq<Gate>, events: seq<Event>, n: nat)
    requires Execution(keys, states, events) && n < |states|
    ensures Reachable(keys, states[n])
  {
    var states', events' := states[..n + 1], events[..n];
    forall i | 0 <= i < n ensures Steps(states'[i], events'[i], states'[i + 1]) {
      assert Steps(states[i], events[i], states[i + 1]);
    }
    assert Execution(keys, states', events') && states[n] == states'[|events'|];
  }

  // ---------------------------------------------------------------- an answer of no moment

  /** One more step of a run of which only the last state matters here. */
  lemma Grow(keys: set<Key>, states: seq<Gate>, events: seq<Event>, e: Event)
    returns (states': seq<Gate>, events': seq<Event>)
    requires Execution(keys, states, events)
    ensures Shaped(states[|events|]) && Execution(keys, states', events')
    ensures states' == states + [Step(states[|events|], e)] && events' == events + [e]
  {
    ExecutionInv(keys, states, events, |events|);
    Extend(keys, states, events, e);
    states', events' := states + [Step(states[|events|], e)], events + [e];
  }

  /** The first half of an `add` of an entry that is zero, up to its 0-to-1 step. */
  lemma EnterRun(keys: set<Key>, states: seq<Gate>, events: seq<Event>, t: nat, k: Key)
    returns (states': seq<Gate>, events': seq<Event>)
    requires Execution(keys, states, events)
    requires var s := states[|events|]; PcOf(s, t).Idle? && k in s.counts && s.counts[k] == 0
    ensures Execution(keys, states', events') && |events'| == |events| + 2 && states <= states'
    ensures var s, s' := states[|events|], states'[|events'|];
            && s'.counts == s.counts[k := 1] && PcOf(s', t) == AddActive(k) && s'.gauges == s.gauges
            && forall u | u != t :: PcOf(s', u) == PcOf(s, u)
    ensures forall j | |states| <= j < |states'| ::
              states'[j].counts == states[|events|].counts || states'[j].counts == states[|events|].counts[k := 1]
  {
    hide Execution, TryRemove, Wrapped, GAUGES;
    states', events' := Grow(keys, states, events, BeginAdd(t, k));
    states', events' := Grow(keys, states', events', Next(t, false));
  }

  /** The second half: both gauges. */
  lemma TrackRun(keys: set<Key>, states: seq<Gate>, events: seq<Event>, t: nat, k: Key)
    returns (states': seq<Gate>, events': seq<Event>)
    requires Execution(keys, states, events) && PcOf(states[|events|], t) == AddActive(k)
    ensures Execution(keys, states', events') && |events'| == |events| + 2 && states <= states'
    ensures var s, s' := states[|events|], states'[|events'|];
            && PcOf(s', t).Idle? && (forall u | u != t :: PcOf(s', u) == PcOf(s, u))
            && TotalActive in s.gauges && TotalActive in s'.gauges
            && s'.gauges[TotalActive] == (s.gauges[TotalActive] + 1) % WORD
    ensures forall j | |states| <= j < |states'| :: states'[j].counts == states[|events|].counts
  {
    hide Execution, TryRemove, Wrapped, GAUGES;
    states', events' := Grow(keys, states, events, Next(t, false));
    states', events' := Grow(keys, states', events', Next(t, false));
  }

  /** A complete `add` of an entry that is zero, by an idle thread. */
  lemma AddRun(keys: set<Key>, states: seq<Gate>, events: seq<Event>, t: nat, k: Key)
    returns (states': seq<Gate>, events': seq<Event>)
    requires Execution(keys, states, events)
    requires var s := states[|events|]; PcOf(s, t).Idle? && k in s.counts && s.counts[k] == 0
    ensures Execution(keys, states', events') && |states'| == |events'| + 1 && states <= states'
    ensures var s, s' := states[|events|], states'[|events'|];
            && s'.counts == s.counts[k := 1] && PcOf(s', t).Idle?
            && (forall u | u != t :: PcOf(s', u) == PcOf(s, u))
            && TotalActive in s.gauges && TotalActive in s'.gauges
            && s'.gauges[TotalActive] == (s.gauges[TotalActive] + 1) % WORD
    ensures forall j | |states| <= j < |states'| ::
              states'[j].counts == states[|events|].counts || states'[j].counts == states[|events|].counts[k := 1]
  {
    hide Step, Shaped, PcOf;
    var middle, some := EnterRun(keys, states, events, t, k);
    states', events' := TrackRun(keys, middle, some, t, k);
  }

  /** A `remove` of an entry that is one, up to the exchange that takes it to zero. */
  lemma RemoveRun(keys: set<Key>, states: seq<Gate>, events: seq<Event>, t: nat, k: Key)
    returns (states': seq<Gate>, events': seq<Event>)
    requires Execution(keys, states, events)
    requires var s := states[|events|]; PcOf(s, t).Idle? && k in s.counts && s.counts[k] == 1
    ensures Execution(keys, states', events') && |states'| == |events'| + 1 && states <= states'
    ensures states'[|events'|].counts == states[|events|].counts[k := 0]
    ensures forall j | |states| <= j < |states'| ::
              states'[j].counts == states[|events|].counts || states'[j].counts == states[|events|].counts[k := 0]
  {
    hide Execution;
    states', events' := Grow(keys, states, events, BeginRemove(t, k));
    states', events' := Grow(keys, states', events', Next(t, false));
    states', events' := Grow(keys, states', events', Next(t, false));
  }

  lemma NothingMounted(keys: set<Key>)
    ensures Execution(keys, [Init(keys)], [])
    ensures Init(keys).counts.Keys == keys && forall k | k in keys :: Init(keys).counts[k] == 0
    ensures forall t :: PcOf(Init(keys), t).Idle?
    ensures TotalActive in Init(keys).gauges && Init(keys).gauges[TotalActive] == 0
  {
  }

  /** The entries that a route looks at. */
  predicate MetEntry(k: Key, d: Direction, id: int, user: Option<int>) {
    || k == Key(TableFor(d, Serialized), id)
    || k == Key(TableFor(d, Fast), id)
    || (user.Some? && (k == Key(UserSerialized, user.value) || k == Key(UserFast, user.value)))
  }

  /** The order in which a route looks at entries. */
  function Rank(k: Key): nat {
    match k.table
    case IncomingSerialized => 0
    case OutgoingSerialized => 0
    case UserSerialized => 1
    case IncomingFast => 2
    case OutgoingFast => 2
    case UserFast => 3
  }

  /** The state in which a route looks at an entry. */
  function LookAt(w: Looks, k: Key): nat {
    var r := Rank(k);
    if r == 0 then w.serialized else if r == 1 then w.userSerialized else if r == 2 then w.fast else w.userFast
  }

  predicate AtMostOneMet(keys: set<Key>, d: Direction, id: int, user: Option<int>) {
    forall a, b | a in keys && b in keys && MetEntry(a, d, id, user) && MetEntry(b, d, id, user) :: a == b
  }

  /** A route through an open gate during some interleaving. */
  ghost predicate Routes(keys: set<Key>, states: seq<Gate>, events: seq<Event>, w: Looks) {
    && Execution(keys, states, events) && InOrder(w, |states|)
    && TotalActive in states[w.gate].gauges && HasAny(states[w.gate])
  }

  /** At every moment of the route the message has a mount, and yet the answer is that it has none. */
  ghost predicate Torn(keys: set<Key>, states: seq<Gate>, events: seq<Event>, w: Looks,
                       d: Direction, id: int, user: Option<int>)
  {
    && Routes(keys, states, events, w)
    && (forall j | w.gate <= j <= w.userFast :: Lookup(states[j], d, id, user) != NoInterest)
    && RouteLoading(states, w, d, id, user) == NoInterest
  }

  /** The answer is the one that the tables give at some moment of the route. */
  ghost predicate OfOneMoment(states: seq<Gate>, w: Looks, d: Direction, id: int, user: Option<int>)
    requires InOrder(w, |states|) && TotalActive in states[w.gate].gauges
  {
    exists j :: w.gate <= j <= w.userFast && RouteLoading(states, w, d, id, user) == Lookup(states[j], d, id, user)
  }

  lemma LookupMet(s: Gate, d: Direction, id: int, user: Option<int>)
    ensures Lookup(s, d, id, user) != NoInterest <==> exists k :: MetEntry(k, d, id, user) && Has(s, k)
  {
    assert MetEntry(Key(TableFor(d, Serialized), id), d, id, user) && MetEntry(Key(TableFor(d, Fast), id), d, id, user);
    if user.Some? {
      assert MetEntry(Key(UserSerialized, user.value), d, id, user) && MetEntry(Key(UserFast, user.value), d, id, user);
    }
  }

  lemma NothingSeen(states: seq<Gate>, w: Looks, d: Direction, id: int, user: Option<int>)
    requires InOrder(w, |states|) && TotalActive in states[w.gate].gauges
    requires forall k | MetEntry(k, d, id, user) :: !Has(states[LookAt(w, k)], k)
    ensures RouteLoading(states, w, d, id, user) == NoInterest
  {
    var a, b := Key(TableFor(d, Serialized), id), Key(TableFor(d, Fast), id);
    assert MetEntry(a, d, id, user) && LookAt(w, a) == w.serialized;
    assert MetEntry(b, d, id, user) && LookAt(w, b) == w.fast;
    if user.Some? {
      var c, e := Key(UserSerialized, user.value), Key(UserFast, user.value);
      assert MetEntry(c, d, id, user) && LookAt(w, c) == w.userSerialized;
      assert MetEntry(e, d, id, user) && LookAt(w, e) == w.userFast;
    }
  }

  /** If only `k` can be mounted, the answer is that of the moment at which the route looks at `k`. */
  lemma AnswerOfOne(states: seq<Gate>, w: Looks, k: Key, d: Direction, id: int, user: Option<int>)
    requires InOrder(w, |states|) && TotalActive in states[w.gate].gauges && HasAny(states[w.gate])
    requires forall j, other | 0 <= j < |states| && MetEntry(other, d, id, user) && other != k :: !Has(states[j], other)
    ensures RouteLoading(states, w, d, id, user) == Lookup(states[LookAt(w, k)], d, id, user)
  {
    var a, b := Key(TableFor(d, Serialized), id), Key(TableFor(d, Fast), id);
    assert MetEntry(a, d, id, user) && MetEntry(b, d, id, user);
    if user.Some? {
      assert MetEntry(Key(UserSerialized, user.value), d, id, user) && MetEntry(Key(UserFast, user.value), d, id, user);
    }
  }

  lemma OneMetOneMoment(keys: set<Key>, states: seq<Gate>, events: seq<Event>, w: Looks,
                        d: Direction, id: int, user: Option<int>)
    requires AtMostOneMet(keys, d, id, user) && Routes(keys, states, events, w)
    ensures OfOneMoment(states, w, d, id, user)
  {
    var k := if o :| o in keys && MetEntry(o, d, id, user) then o else Key(TableFor(d, Serialized), id);
    forall j, other | 0 <= j < |states| && MetEntry(other, d, id, user) && other != k ensures !Has(states[j], other) {
      ExecutionInv(keys, states, events, j);
    }
    hide Execution, HasAny, MetEntry, Lookup;
    AnswerOfOne(states, w, k, d, id, user);
    assert w.gate <= LookAt(w, k) <= w.userFast;
  }

  // ---------------------------------------------------------------- two entries are enough

  /** Thread 0 has mounted the entry that the route looks at later. */
  lemma LaterMounted(keys: set<Key>, b: Key) returns (states: seq<Gate>, events: seq<Event>)
    requires b in keys
    ensures Execution(keys, states, events) && |states| == |events| + 1
    ensures var s := states[|events|];
            && s.counts == Init(keys).counts[b := 1] && PcOf(s, 0).Idle? && PcOf(s, 1).Idle?
            && TotalActive in s.gauges && HasAny(s)
  {
    states, events := [Init(keys)], [];
    NothingMounted(keys);
    hide Init, GAUGES, Execution, Shaped, Step;
    states, events := AddRun(keys, states, events, 0, b);
  }

  /** Then thread 1 mounts the other one, and thread 0 takes the first away. */
  lemma MountsSwapped(keys: set<Key>, a: Key, b: Key) returns (states: seq<Gate>, events: seq<Event>, gate: nat)
    requires a in keys && b in keys && a != b
    ensures Execution(keys, states, events) && gate <= |events| < |states|
    ensures TotalActive in states[gate].gauges && HasAny(states[gate])
    ensures states[gate].counts == Init(keys).counts[b := 1]
    ensures states[|events|].counts == Init(keys).counts[b := 1][a := 1][b := 0]
    ensures forall j | gate <= j <= |events| :: Has(states[j], a) || Has(states[j], b)
  {
    NothingMounted(keys);
    var states0, events0 := LaterMounted(keys, b);
    hide Init, Execution, Shaped, Step;
    gate := |events0|;
    var states1, events1 := AddRun(keys, states0, events0, 1, a);
    states, events := RemoveRun(keys, states1, events1, 0, b);
    forall j | gate <= j < |states| ensures Has(states[j], a) || Has(states[j], b) {
      if j < |states0| { assert states[j] == states0[j]; } else if j < |states1| { assert states[j] == states1[j]; }
    }
  }

  /** Between its looks at the two, the route misses both. */
  lemma MissesBoth(keys: set<Key>, a: Key, b: Key, states: seq<Gate>, gate: nat, end: nat, w: Looks,
                   d: Direction, id: int, user: Option<int>)
    requires a in keys && b in keys && MetEntry(a, d, id, user) && MetEntry(b, d, id, user) && Rank(a) < Rank(b)
    requires gate <= end < |states| && TotalActive in states[gate].gauges
    requires states[gate].counts == Init(keys).counts[b := 1]
    requires states[end].counts == Init(keys).counts[b := 1][a := 1][b := 0]
    requires InOrder(w, |states|) && w.gate == gate && w.userFast == end
    requires forall k :: LookAt(w, k) == if Rank(k) <= Rank(a) then gate else end
    requires forall j | gate <= j <= end :: Has(states[j], a) || Has(states[j], b)
    ensures RouteLoading(states, w, d, id, user) == NoInterest
    ensures forall j | gate <= j <= end :: Lookup(states[j], d, id, user) != NoInterest
  {
    NothingMounted(keys);
    hide Init, Lookup, RouteLoading;
    forall k | MetEntry(k, d, id, user) ensures !Has(states[LookAt(w, k)], k) {
    }
    NothingSeen(states, w, d, id, user);
    forall j | gate <= j <= end ensures Lookup(states[j], d, id, user) != NoInterest {
      LookupMet(states[j], d, id, user);
    }
  }

  /** The answer need not be that of any one moment. While the router is between its look at one entry
      and its look at another, the one appears and the other goes: at every moment the message has a
      mount and the gate is open, yet the route is none. */
  lemma TornRoute(keys: set<Key>, a: Key, b: Key, d: Direction, id: int, user: Option<int>)
    returns (states: seq<Gate>, events: seq<Event>, w: Looks)
    requires a in keys && b in keys && MetEntry(a, d, id, user) && MetEntry(b, d, id, user) && Rank(a) < Rank(b)
    ensures Torn(keys, states, events, w, d, id, user)
  {
    var gate;
    states, events, gate := MountsSwapped(keys, a, b);
    var r, end := Rank(a), |events|;
    w := Looks(gate, gate, if r < 1 then end else gate, if r < 2 then end else gate, end);
    hide Execution, Init, Lookup, RouteLoading, MetEntry, HasAny;
    MissesBoth(keys, a, b, states, gate, end, w, d, id, user);
  }

  lemma MetRanks(a: Key, b: Key, d: Direction, id: int, user: Option<int>)
    requires MetEntry(a, d, id, user) && MetEntry(b, d, id, user) && a != b
    ensures Rank(a) != Rank(b)
  {
  }

  /** A message that has a mount at every moment of a route through an open gate is never routed
      nowhere, and every answer is that of some moment, exactly if at most one entry that the message
      meets exists. With two of them, whatever else exists, some interleaving tears the route. */
  lemma TornExactly(keys: set<Key>, d: Direction, id: int, user: Option<int>)
    ensures AtMostOneMet(keys, d, id, user) <==>
            forall states, events, w :: !Torn(keys, states, events, w, d, id, user)
    ensures AtMostOneMet(keys, d, id, user) <==>
            forall states, events, w | Routes(keys, states, events, w) :: OfOneMoment(states, w, d, id, user)
  {
    hide Execution, HasAny, OfOneMoment, MetEntry, Torn;
    if AtMostOneMet(keys, d, id, user) {
      forall states, events, w | Routes(keys, states, events, w)
        ensures OfOneMoment(states, w, d, id, user) && !Torn(keys, states, events, w, d, id, user)
      {
        OneMetOneMoment(keys, states, events, w, d, id, user);
        MomentNotTorn(keys, states, events, w, d, id, user);
      }
      forall states, events, w ensures Torn(keys, states, events, w, d, id, user) ==> Routes(keys, states, events, w) {
        TornRoutes(keys, states, events, w, d, id, user);
      }
    } else {
      var a, b :| a in keys && b in keys && MetEntry(a, d, id, user) && MetEntry(b, d, id, user) && a != b;
      MetRanks(a, b, d, id, user);
      var states, events, w;
      if Rank(a) < Rank(b) {
        states, events, w := TornRoute(keys, a, b, d, id, user);
      } else {
        states, events, w := TornRoute(keys, b, a, d, id, user);
      }
      TornRoutes(keys, states, events, w, d, id, user);
      MomentNotTorn(keys, states, events, w, d, id, user);
    }
  }

  lemma TornRoutes(keys: set<Key>, states: seq<Gate>, events: seq<Event>, w: Looks,
                   d: Direction, id: int, user: Option<int>)
    ensures Torn(keys, states, events, w, d, id, user) ==> Routes(keys, states, events, w)
    ensures Routes(keys, states, events, w) ==> InOrder(w, |states|) && TotalActive in states[w.gate].gauges
  {
  }

  lemma MomentNotTorn(keys: set<Key>, states: seq<Gate>, events: seq<Event>, w: Looks,
                      d: Direction, id: int, user: Option<int>)
    requires Routes(keys, states, events, w)
    ensures OfOneMoment(states, w, d, id, user) ==> !Torn(keys, states, events, w, d, id, user)
  {
  }
}
