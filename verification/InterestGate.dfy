/** The ref-counted interest tables and the gated router over six of them, as a state machine.

    Every atomic operation of `add`, `remove`, `track` and `untrack` is one step, any thread may
    take the next step, and counters wrap at 2^32. A thread is named by a number; threads nobody
    has mentioned yet are idle, so a sequence of events is an interleaving of any number of them. */
module InterestGate {
  import opened Common

  const WORD: int := 0x1_0000_0000

  datatype Direction = Incoming | Outgoing

  datatype Table =
    | IncomingSerialized | OutgoingSerialized
    | IncomingFast | OutgoingFast
    | UserSerialized | UserFast

  /** One entry of one table; it exists when it is a key of `Gate.counts` (the bounds check). */
  datatype Key = Key(table: Table, id: int)

  /** The words that count mounted entries: `active_ids` of each table, and the word of the router. */
  datatype Gauge = ActiveIds(table: Table) | TotalActive

  /** Where a thread stands inside an operation. */
  datatype Pc =
    | Idle
    | AddEntry(key: Key)   // before entry.fetch_add
    | AddActive(key: Key)  // saw 0; before active_ids.fetch_add
    | AddTrack(key: Key)   // before total_active_tables.fetch_add
    | RemLoad(key: Key)    // before entry.load
    // In the CAS loop, holding `current`. The rest is bookkeeping of this proof only: the entry's
    // version when it was first and last read, and the CAS failures that were not spurious.
    | RemCas(key: Key, current: nat, first: nat, seen: nat, misses: nat)
    | RemActive(key: Key)  // took the entry to 0; before active_ids.fetch_sub
    | RemTrack(key: Key)   // before total_active_tables.fetch_sub

  /** What an observer counts per entry at the atomic step: all changes, those from and to zero,
      and fetch_adds that wrapped the entry to zero. The program never reads this. */
  datatype Log = Log(adds: nat, removes: nat, ups: nat, downs: nat, wraps: nat) {
    function Version(): nat { adds + removes }
  }

  /** What an observer counts per gauge: fetch_adds minus fetch_subs, and entry wraps it covers. */
  datatype Book = Book(net: int, wraps: nat)

  datatype Gate = Gate(
    counts: map<Key, nat>,
    gauges: map<Gauge, nat>,
    pcs: map<nat, Pc>,
    logs: map<Key, Log>,
    books: map<Gauge, Book>)

  datatype Event =
    | BeginAdd(thread: nat, key: Key)
    | BeginRemove(thread: nat, key: Key)
    | Next(thread: nat, spurious: bool)

  // ---------------------------------------------------------------- the machine

  const GAUGES: set<Gauge> := {TotalActive} + set t: Table | true :: ActiveIds(t)

  function Init(keys: set<Key>): Gate {
    Gate(map k | k in keys :: 0, map g | g in GAUGES :: 0, map[],
         map k | k in keys :: Log(0, 0, 0, 0, 0), map g | g in GAUGES :: Book(0, 0))
  }

  function PcOf(s: Gate, t: nat): Pc {
    if t in s.pcs then s.pcs[t] else Idle
  }

  function Goto(s: Gate, t: nat, pc: Pc): Gate {
    s.(pcs := s.pcs[t := pc])
  }

  predicate Covers(g: Gauge, k: Key) {
    g == TotalActive || g == ActiveIds(k.table)
  }

  function Wrapped(books: map<Gauge, Book>, k: Key): map<Gauge, Book> {
    map g | g in books :: if Covers(g, k) then books[g].(wraps := books[g].wraps + 1) else books[g]
  }

  /** `entry.fetch_add(1)` and the branch on the value it returned. */
  function FetchAdd(s: Gate, t: nat, k: Key): Gate
    requires k in s.counts && k in s.logs
  {
    var previous, log := s.counts[k], s.logs[k];
    var overflow := previous + 1 == WORD;
    Goto(s, t, if previous == 0 then AddActive(k) else Idle)
    .(counts := s.counts[k := if overflow then 0 else previous + 1],
      logs := s.logs[k := log.(adds := log.adds + 1,
                               ups := log.ups + (if previous == 0 then 1 else 0),
                               wraps := log.wraps + (if overflow then 1 else 0))],
      books := if overflow then Wrapped(s.books, k) else s.books)
  }

  /** One turn of the `compare_exchange_weak` loop, with the test for zero in front of it. */
  function TryRemove(s: Gate, t: nat, pc: Pc, spurious: bool): Gate
    requires pc.RemCas? && pc.key in s.counts && pc.key in s.logs
  {
    var k, log := pc.key, s.logs[pc.key];
    if pc.current == 0 then
      Goto(s, t, Idle)
    else if s.counts[k] != pc.current then
      Goto(s, t, pc.(current := s.counts[k], seen := log.Version(), misses := pc.misses + 1))
    else if spurious then
      Goto(s, t, pc.(seen := log.Version()))
    else
      Goto(s, t, if pc.current == 1 then RemActive(k) else Idle)
      .(counts := s.counts[k := pc.current - 1],
        logs := s.logs[k := log.(removes := log.removes + 1,
                                 downs := log.downs + if pc.current == 1 then 1 else 0)])
  }

  function BumpGauge(s: Gate, g: Gauge, delta: int): Gate
    requires g in s.gauges && g in s.books
  {
    s.(gauges := s.gauges[g := (s.gauges[g] + delta) % WORD],
       books := s.books[g := s.books[g].(net := s.books[g].net + delta)])
  }

  /** The next atomic step of thread `t`. */
  function Advance(s: Gate, t: nat, spurious: bool): Gate
    requires Shaped(s)
  {
    match PcOf(s, t)
    case Idle => s
    case AddEntry(k) => FetchAdd(s, t, k)
    case AddActive(k) => Goto(BumpGauge(s, ActiveIds(k.table), 1), t, AddTrack(k))
    case AddTrack(k) => Goto(BumpGauge(s, TotalActive, 1), t, Idle)
    case RemLoad(k) =>
      Goto(s, t, RemCas(k, s.counts[k], s.logs[k].Version(), s.logs[k].Version(), 0))
    case RemCas(_, _, _, _, _) => TryRemove(s, t, PcOf(s, t), spurious)
    case RemActive(k) => Goto(BumpGauge(s, ActiveIds(k.table), -1), t, RemTrack(k))
    case RemTrack(k) => Goto(BumpGauge(s, TotalActive, -1), t, Idle)
  }

  function Step(s: Gate, e: Event): Gate
    requires Shaped(s)
  {
    match e
    case BeginAdd(t, k) =>
      if PcOf(s, t).Idle? && k in s.counts then Goto(s, t, AddEntry(k)) else s
    case BeginRemove(t, k) =>
      if PcOf(s, t).Idle? && k in s.counts then Goto(s, t, RemLoad(k)) else s
    case Next(t, spurious) => Advance(s, t, spurious)
  }

  ghost predicate Steps(s: Gate, e: Event, s': Gate) {
    Shaped(s) && s' == Step(s, e)
  }

  /** An interleaving: the states it goes through, from empty tables, one atomic step at a time. */
  ghost predicate Execution(keys: set<Key>, states: seq<Gate>, events: seq<Event>) {
    && |states| == |events| + 1
    && states[0] == Init(keys)
    && forall i | 0 <= i < |events| :: Steps(states[i], events[i], states[i + 1])
  }

  /** Some interleaving of some operations of some threads leads to `s`. */
  ghost predicate Reachable(keys: set<Key>, s: Gate) {
    exists states, events :: Execution(keys, states, events) && s == states[|events|]
  }

  // ---------------------------------------------------------------- the router

  datatype Kind = Serialized | Fast

  datatype Route = NoInterest | FastOnly | SerializedOnly | FastAndSerialized

  function TableFor(d: Direction, kind: Kind): Table {
    match (d, kind)
    case (Incoming, Serialized) => IncomingSerialized
    case (Outgoing, Serialized) => OutgoingSerialized
    case (Incoming, Fast) => IncomingFast
    case (Outgoing, Fast) => OutgoingFast
  }

  predicate Has(s: Gate, k: Key) {
    k in s.counts && s.counts[k] != 0
  }

  function RouteOf(fast: bool, serialized: bool): Route {
    match (fast, serialized)
    case (false, false) => NoInterest
    case (true, false) => FastOnly
    case (false, true) => SerializedOnly
    case (true, true) => FastAndSerialized
  }

  /** The routing decision without the gate in front of it. */
  function Lookup(s: Gate, d: Direction, id: int, user: Option<int>): Route {
    var serialized := Has(s, Key(TableFor(d, Serialized), id)) ||
                      (user.Some? && Has(s, Key(UserSerialized, user.value)));
    var fast := Has(s, Key(TableFor(d, Fast), id)) ||
                (user.Some? && Has(s, Key(UserFast, user.value)));
    RouteOf(fast, serialized)
  }

  predicate HasAny(s: Gate)
    requires TotalActive in s.gauges
  {
    s.gauges[TotalActive] != 0
  }

  function RouteMessage(s: Gate, d: Direction, id: int, user: Option<int>): Route
    requires TotalActive in s.gauges
  {
    if HasAny(s) then Lookup(s, d, id, user) else NoInterest
  }

  function DirectionFrom(value: int): Option<Direction> {
    if value == 0 then Some(Incoming) else if value == 1 then Some(Outgoing) else None
  }

  function RouteFastEvent(s: Gate, direction: int, id: int, hasUser: int, userType: int): Route
    requires TotalActive in s.gauges
  {
    match DirectionFrom(direction)
    case None => NoInterest
    case Some(d) => RouteMessage(s, d, id, if hasUser != 0 then Some(userType) else None)
  }

  // ---------------------------------------------------------------- counting

  function Where<K, V>(m: map<K, V>, p: (K, V) -> bool): set<K> {
    set k | k in m && p(k, m[k])
  }

  function Count<K, V>(m: map<K, V>, p: (K, V) -> bool): nat {
    |Where(m, p)|
  }

  /** Changing one key moves a count by what that key contributes, before and after. */
  lemma CountUpdate<K, V>(m: map<K, V>, p: (K, V) -> bool, k: K, v: V)
    ensures Count(m[k := v], p) == Count(m, p) - Bit(k in m && p(k, m[k])) + Bit(p(k, v))
  {
    var others := Where(m, p) - {k};
    assert Where(m[k := v], p) == if p(k, v) then others + {k} else others;
    assert Where(m, p) == if k in m && p(k, m[k]) then others + {k} else others;
  }

  /** Entries that gauge `g` is meant to count. */
  function Mounted(g: Gauge): (Key, nat) -> bool {
    (k: Key, n: nat) => Covers(g, k) && n != 0
  }

  /** A thread past its 0-to-1 step that has not yet added to gauge `g`. */
  function AddOwes(g: Gauge): (nat, Pc) -> bool {
    (t: nat, pc: Pc) => (pc.AddActive? && Covers(g, pc.key)) || (pc.AddTrack? && g == TotalActive)
  }

  /** A thread past its 1-to-0 step that has not yet subtracted from gauge `g`. */
  function RemOwes(g: Gauge): (nat, Pc) -> bool {
    (t: nat, pc: Pc) => (pc.RemActive? && Covers(g, pc.key)) || (pc.RemTrack? && g == TotalActive)
  }

  // ---------------------------------------------------------------- the invariant

  ghost predicate Shaped(s: Gate) {
    && (forall g: Gauge :: g in s.gauges && g in s.books)
    && s.logs.Keys == s.counts.Keys
    && forall t | t in s.pcs :: s.pcs[t].Idle? || s.pcs[t].key in s.counts
  }

  lemma StepKeepsShape(s: Gate, e: Event)
    requires Shaped(s)
    ensures Shaped(Step(s, e)) && Step(s, e).counts.Keys == s.counts.Keys
  {
  }

  /** The gauge is the net number of its changes modulo 2^32, and that net number plus the adds
      still owed is exactly the mounted entries plus the removes still owed plus the wraps. */
  ghost predicate Balanced(s: Gate, g: Gauge)
    requires g in s.gauges && g in s.books
  {
    && s.gauges[g] == s.books[g].net % WORD
    && s.books[g].net + Count(s.pcs, AddOwes(g)) ==
       Count(s.counts, Mounted(g)) + Count(s.pcs, RemOwes(g)) + s.books[g].wraps
  }

  ghost predicate EntrySound(n: nat, log: Log) {
    && n < WORD
    && log.adds - log.removes == n + WORD * log.wraps
    && log.ups == log.downs + Bit(n != 0) + log.wraps
  }

  /** A CAS loop has failed no oftener than the entry was changed since the loop first read it. */
  ghost predicate LoopSound(s: Gate, pc: Pc)
    requires pc.RemCas? ==> pc.key in s.counts && pc.key in s.logs
  {
    pc.RemCas? ==>
      && pc.misses + pc.first <= pc.seen <= s.logs[pc.key].Version()
      && (pc.seen == s.logs[pc.key].Version() ==> s.counts[pc.key] == pc.current)
  }

  ghost predicate EntriesSound(s: Gate)
    requires Shaped(s)
  {
    && (forall k | k in s.counts :: EntrySound(s.counts[k], s.logs[k]))
    && (forall t | t in s.pcs :: LoopSound(s, s.pcs[t]))
  }

  /** A gauge has met a wrap only if some entry it covers did. */
  ghost predicate WrapHasCause(s: Gate, g: Gauge)
    requires g in s.books
  {
    s.books[g].wraps > 0 ==> exists k :: k in s.logs && Covers(g, k) && s.logs[k].wraps > 0
  }

  ghost predicate Inv(s: Gate) {
    && Shaped(s)
    && EntriesSound(s)
    && forall g: Gauge :: Balanced(s, g) && WrapHasCause(s, g)
  }

  lemma InitShaped(keys: set<Key>)
    ensures Shaped(Init(keys)) && EntriesSound(Init(keys))
    ensures forall g: Gauge :: Init(keys).gauges[g] == 0 && Init(keys).books[g] == Book(0, 0)
  {
    forall g: Gauge ensures g in GAUGES {
      if g.ActiveIds? { assert g == ActiveIds(g.table); }
    }
  }

  lemma NothingCounted(s: Gate, g: Gauge)
    requires s.pcs == map[] && forall k | k in s.counts :: s.counts[k] == 0
    ensures Count(s.counts, Mounted(g)) == Count(s.pcs, AddOwes(g)) == Count(s.pcs, RemOwes(g)) == 0
  {
    assert Where(s.counts, Mounted(g)) == {} && Where(s.pcs, AddOwes(g)) == {} && Where(s.pcs, RemOwes(g)) == {};
  }

  lemma EmptyBalanced(s: Gate, g: Gauge)
    requires g in s.gauges && g in s.books && s.gauges[g] == 0 && s.books[g] == Book(0, 0)
    requires s.pcs == map[] && forall k | k in s.counts :: s.counts[k] == 0
    ensures Balanced(s, g) && WrapHasCause(s, g)
  {
    hide Count;
    NothingCounted(s, g);
  }

  lemma InitInv(keys: set<Key>)
    ensures Inv(Init(keys))
  {
    InitShaped(keys);
    forall g: Gauge ensures Balanced(Init(keys), g) && WrapHasCause(Init(keys), g) {
      hide Balanced, WrapHasCause;
      EmptyBalanced(Init(keys), g);
    }
  }

  /** Thread `t` moving from one position to another changes what is owed by these two alone. */
  lemma GotoOwes(pcs: map<nat, Pc>, t: nat, pc: Pc, g: Gauge)
    ensures var from := if t in pcs then pcs[t] else Idle;
            && Count(pcs[t := pc], AddOwes(g)) ==
               Count(pcs, AddOwes(g)) - Bit(AddOwes(g)(t, from)) + Bit(AddOwes(g)(t, pc))
            && Count(pcs[t := pc], RemOwes(g)) ==
               Count(pcs, RemOwes(g)) - Bit(RemOwes(g)(t, from)) + Bit(RemOwes(g)(t, pc))
  {
    CountUpdate(pcs, AddOwes(g), t, pc);
    CountUpdate(pcs, RemOwes(g), t, pc);
  }

  /** Steps that only move a thread between positions at which it owes nothing. */
  lemma GotoKeepsBalance(s: Gate, t: nat, pc: Pc, g: Gauge)
    requires Shaped(s) && Balanced(s, g)
    requires AddOwes(g)(t, pc) == AddOwes(g)(t, PcOf(s, t))
    requires RemOwes(g)(t, pc) == RemOwes(g)(t, PcOf(s, t))
    ensures Balanced(Goto(s, t, pc), g)
  {
    GotoOwes(s.pcs, t, pc, g);
  }

  lemma FetchAddKeepsBalance(s: Gate, t: nat, k: Key, g: Gauge)
    requires Shaped(s) && Balanced(s, g) && PcOf(s, t) == AddEntry(k)
    requires k in s.counts && EntrySound(s.counts[k], s.logs[k])
    ensures Balanced(FetchAdd(s, t, k), g)
  {
    var s' := FetchAdd(s, t, k);
    GotoOwes(s.pcs, t, s'.pcs[t], g);
    CountUpdate(s.counts, Mounted(g), k, s'.counts[k]);
  }

  lemma TryRemoveKeepsBalance(s: Gate, t: nat, pc: Pc, spurious: bool, g: Gauge)
    requires Shaped(s) && Balanced(s, g) && PcOf(s, t) == pc && pc.RemCas? && pc.key in s.counts
    ensures Balanced(TryRemove(s, t, pc, spurious), g)
  {
    var s' := TryRemove(s, t, pc, spurious);
    GotoOwes(s.pcs, t, s'.pcs[t], g);
    CountUpdate(s.counts, Mounted(g), pc.key, s'.counts[pc.key]);
    assert s.counts[pc.key := s.counts[pc.key]] == s.counts;
  }

  lemma GaugeStepKeepsBalance(s: Gate, t: nat, own: Gauge, delta: int, pc: Pc, g: Gauge)
    requires Shaped(s) && Balanced(s, g)
    requires Bit(AddOwes(g)(t, PcOf(s, t))) - Bit(AddOwes(g)(t, pc)) == if g == own && delta == 1 then 1 else 0
    requires Bit(RemOwes(g)(t, PcOf(s, t))) - Bit(RemOwes(g)(t, pc)) == if g == own && delta == -1 then 1 else 0
    requires delta == 1 || delta == -1
    ensures Balanced(Goto(BumpGauge(s, own, delta), t, pc), g)
  {
    GotoOwes(s.pcs, t, pc, g);
  }

  lemma StepKeepsBalance(s: Gate, e: Event, g: Gauge)
    requires Shaped(s) && EntriesSound(s) && Balanced(s, g)
    ensures Balanced(Step(s, e), g)
  {
    hide Count;
    var t, pc := e.thread, PcOf(s, e.thread);
    match e
    case BeginAdd(_, k) => if pc.Idle? { GotoKeepsBalance(s, t, AddEntry(k), g); }
    case BeginRemove(_, k) => if pc.Idle? { GotoKeepsBalance(s, t, RemLoad(k), g); }
    case Next(_, spurious) =>
      match pc
      case Idle =>
      case AddEntry(k) => FetchAddKeepsBalance(s, t, k, g);
      case AddActive(k) => GaugeStepKeepsBalance(s, t, ActiveIds(k.table), 1, AddTrack(k), g);
      case AddTrack(k) => GaugeStepKeepsBalance(s, t, TotalActive, 1, Idle, g);
      case RemLoad(k) => GotoKeepsBalance(s, t, Step(s, e).pcs[t], g);
      case RemCas(_, _, _, _, _) => TryRemoveKeepsBalance(s, t, pc, spurious, g);
      case RemActive(k) => GaugeStepKeepsBalance(s, t, ActiveIds(k.table), -1, RemTrack(k), g);
      case RemTrack(k) => GaugeStepKeepsBalance(s, t, TotalActive, -1, Idle, g);
  }

  /** An entry changes only together with its version, and versions never go back. */
  ghost predicate Moved(n: nat, log: Log, n': nat, log': Log) {
    && EntrySound(n', log')
    && log.Version() <= log'.Version()
    && (log.Version() == log'.Version() ==> n == n')
  }

  lemma FetchAddMoves(s: Gate, t: nat, k: Key)
    requires k in s.counts && k in s.logs && EntrySound(s.counts[k], s.logs[k])
    ensures var s' := FetchAdd(s, t, k); Moved(s.counts[k], s.logs[k], s'.counts[k], s'.logs[k])
  {
  }

  lemma TryRemoveMoves(s: Gate, t: nat, pc: Pc, spurious: bool)
    requires pc.RemCas? && pc.key in s.counts && pc.key in s.logs
    requires EntrySound(s.counts[pc.key], s.logs[pc.key])
    ensures var s', k := TryRemove(s, t, pc, spurious), pc.key;
            Moved(s.counts[k], s.logs[k], s'.counts[k], s'.logs[k])
  {
  }

  lemma StepMovesEntry(s: Gate, e: Event, k: Key)
    requires Shaped(s) && k in s.counts && EntrySound(s.counts[k], s.logs[k])
    ensures Shaped(Step(s, e))
    ensures Moved(s.counts[k], s.logs[k], Step(s, e).counts[k], Step(s, e).logs[k])
  {
    StepKeepsShape(s, e);
    var pc := PcOf(s, e.thread);
    if e.Next? && !pc.Idle? && pc.key == k {
      if pc.AddEntry? {
        FetchAddMoves(s, e.thread, k);
      } else if pc.RemCas? {
        TryRemoveMoves(s, e.thread, pc, e.spurious);
      }
    }
  }

  lemma StepFramesThread(s: Gate, e: Event, t: nat)
    requires Shaped(s) && t != e.thread
    ensures t in Step(s, e).pcs ==> t in s.pcs && Step(s, e).pcs[t] == s.pcs[t]
  {
  }

  lemma OthersKeepPc(s: Gate, e: Event, t: nat)
    requires Shaped(s) && t != e.thread
    ensures PcOf(Step(s, e), t) == PcOf(s, t)
  {
  }

  lemma StepKeepsLoop(s: Gate, e: Event, t: nat)
    requires Shaped(s) && EntriesSound(s) && Shaped(Step(s, e)) && t in Step(s, e).pcs
    ensures LoopSound(Step(s, e), Step(s, e).pcs[t])
  {
    var pc := PcOf(s, t);
    assert LoopSound(s, pc);
    if t != e.thread {
      StepFramesThread(s, e, t);
      if pc.RemCas? { StepMovesEntry(s, e, pc.key); }
    }
  }

  lemma StepKeepsEntries(s: Gate, e: Event)
    requires Shaped(s) && EntriesSound(s)
    ensures Shaped(Step(s, e)) && EntriesSound(Step(s, e))
  {
    StepKeepsShape(s, e);
    forall k | k in s.counts ensures EntrySound(Step(s, e).counts[k], Step(s, e).logs[k]) {
      StepMovesEntry(s, e, k);
    }
    forall t | t in Step(s, e).pcs ensures LoopSound(Step(s, e), Step(s, e).pcs[t]) {
      StepKeepsLoop(s, e, t);
    }
  }

  lemma StepKeepsCause(s: Gate, e: Event, g: Gauge)
    requires Shaped(s) && WrapHasCause(s, g)
    ensures Shaped(Step(s, e)) && WrapHasCause(Step(s, e), g)
  {
    StepKeepsShape(s, e);
    var s' := Step(s, e);
    if s'.books[g].wraps > s.books[g].wraps {
      var k := PcOf(s, e.thread).key;
      assert k in s'.logs && Covers(g, k) && s'.logs[k].wraps > 0;
    } else if s.books[g].wraps > 0 {
      var k :| k in s.logs && Covers(g, k) && s.logs[k].wraps > 0;
      assert k in s'.logs && s'.logs[k].wraps >= s.logs[k].wraps;
    }
  }

  lemma StepKeepsInv(s: Gate, e: Event)
    requires Shaped(s) && Inv(s)
    ensures Inv(Step(s, e))
  {
    StepKeepsEntries(s, e);
    forall g: Gauge ensures Balanced(Step(s, e), g) && WrapHasCause(Step(s, e), g) {
      StepKeepsBalance(s, e, g);
      StepKeepsCause(s, e, g);
    }
  }

  lemma {:induction false} ExecutionInv(keys: set<Key>, states: seq<Gate>, events: seq<Event>, n: nat)
    requires Execution(keys, states, events) && n <= |events|
    ensures Inv(states[n]) && states[n].counts.Keys == keys
  {
    if n == 0 {
      InitInv(keys);
    } else {
      ExecutionInv(keys, states, events, n - 1);
      var e := events[n - 1];
      assert Steps(states[n - 1], e, states[n]);
      StepKeepsInv(states[n - 1], e);
      StepKeepsShape(states[n - 1], e);
    }
  }

  lemma ReachableInv(keys: set<Key>, s: Gate)
    requires Reachable(keys, s)
    ensures Inv(s) && s.counts.Keys == keys
  {
    var states, events :| Execution(keys, states, events) && s == states[|events|];
    ExecutionInv(keys, states, events, |events|);
  }
}
