/** The interest tables and the router as one thread uses them, step by step, with steps of the other
    threads before every atomic operation.

    Every atomic operation is shown to be one step of `InterestGate`, so whatever holds in every
    interleaving holds here. */
module NetInterest {
  import opened Common
  import opened InterestGate
  import opened InterestTheorems

  lemma InitFine(keys: set<Key>)
    ensures Reachable(keys, Init(keys)) && Shaped(Init(keys)) && Quiescent(Init(keys))
    ensures Init(keys).counts == map k | k in keys :: 0
  {
    InitReach(keys);
    InitShaped(keys);
  }

  // ---------------------------------------------------------------- runs and where they take effect

  /** The gate after the steps of a trace. */
  ghost function After(s: Gate, trace: seq<Event>): Gate {
    if |trace| == 0 then s
    else
      var before := After(s, trace[..|trace| - 1]);
      if Shaped(before) then Step(before, trace[|trace| - 1]) else before
  }

  lemma AfterNext(s: Gate, trace: seq<Event>, e: Event)
    requires Shaped(After(s, trace))
    ensures After(s, trace + [e]) == Step(After(s, trace), e)
  {
    assert (trace + [e])[..|trace|] == trace;
  }

  lemma {:induction false} AfterAppend(s: Gate, a: seq<Event>, b: seq<Event>)
    ensures After(s, a + b) == After(After(s, a), b)
  {
    hide Step, Shaped;
    if |b| == 0 {
      assert a + b == a;
    } else {
      AfterAppend(s, a, b[..|b| - 1]);
      assert (a + b)[..|a + b| - 1] == a + b[..|b| - 1];
    }
  }

  /** Thread `t` changes no entry. */
  ghost predicate Untouched(s: Gate, trace: seq<Event>, t: nat) {
    |trace| > 0 ==>
      && Untouched(s, trace[..|trace| - 1], t)
      && (trace[|trace| - 1].thread == t ==> After(s, trace).counts == After(s, trace[..|trace| - 1]).counts)
  }

  predicate OfOthers(es: seq<Event>, t: nat) { forall i | 0 <= i < |es| :: es[i].thread != t }

  lemma {:induction false} UntouchedBehind(s: Gate, a: seq<Event>, b: seq<Event>, t: nat)
    requires Untouched(s, a, t) && Untouched(After(s, a), b, t)
    ensures Untouched(s, a + b, t)
  {
    hide After;
    if |b| == 0 {
      assert a + b == a;
    } else {
      UntouchedBehind(s, a, b[..|b| - 1], t);
      assert (a + b)[..|a + b| - 1] == a + b[..|b| - 1];
      AfterAppend(s, a, b);
      AfterAppend(s, a, b[..|b| - 1]);
    }
  }

  lemma {:induction false} OthersUntouched(s: Gate, es: seq<Event>, t: nat)
    requires OfOthers(es, t)
    ensures Untouched(s, es, t)
  {
    hide After;
    if |es| > 0 { OthersUntouched(s, es[..|es| - 1], t); }
  }

  function Up(n: nat): nat { if n + 1 == WORD then 0 else n + 1 }

  function Down(n: nat): nat { if n == 0 then 0 else n - 1 }

  /** Step `at` of the trace, which is one of thread `t`, changes entry `k` from `n` to `m`; no other step
      of that thread changes any entry. */
  ghost predicate TakesEffect(s: Gate, trace: seq<Event>, t: nat, k: Key, at: nat, n: nat, m: nat) {
    && at < |trace| && trace[at].thread == t
    && Untouched(s, trace[..at], t)
    && k in After(s, trace[..at]).counts && After(s, trace[..at]).counts[k] == n
    && After(s, trace[..at + 1]).counts == After(s, trace[..at]).counts[k := m]
    && Untouched(After(s, trace[..at + 1]), trace[at + 1..], t)
  }

  lemma EffectHere(s: Gate, trace: seq<Event>, e: Event, t: nat, k: Key, m: nat)
    requires Untouched(s, trace, t) && Shaped(After(s, trace)) && e.thread == t && k in After(s, trace).counts
    requires Step(After(s, trace), e).counts == After(s, trace).counts[k := m]
    ensures TakesEffect(s, trace + [e], t, k, |trace|, After(s, trace).counts[k], m)
  {
    hide Step, Shaped;
    AfterNext(s, trace, e);
    assert (trace + [e])[..|trace|] == trace && (trace + [e])[..|trace| + 1] == trace + [e];
    assert (trace + [e])[|trace| + 1..] == [];
  }

  lemma EffectStays(s: Gate, trace: seq<Event>, more: seq<Event>, t: nat, k: Key, at: nat, n: nat, m: nat)
    requires TakesEffect(s, trace, t, k, at, n, m) && Untouched(After(s, trace), more, t)
    ensures TakesEffect(s, trace + more, t, k, at, n, m)
  {
    Slices(trace, more, at);
    hide After, Untouched;
    var middle := After(s, trace[..at + 1]);
    AfterAppend(s, trace[..at + 1], trace[at + 1..]);
    UntouchedBehind(middle, trace[at + 1..], more, t);
  }

  lemma Slices<T>(a: seq<T>, b: seq<T>, at: nat)
    requires at < |a|
    ensures (a + b)[..at] == a[..at] && (a + b)[..at + 1] == a[..at + 1] && (a + b)[at] == a[at]
    ensures (a + b)[at + 1..] == a[at + 1..] + b && a[..at + 1] + a[at + 1..] == a
  {
  }

  lemma AfterOne(s: Gate, e: Event, t: nat)
    requires Shaped(s) && Step(s, e).counts == s.counts
    ensures After(s, [e]) == Step(s, e) && Untouched(s, [e], t)
  {
    hide Step, Shaped;
    assert [e][..0] == [];
  }

  lemma Nothing(s: Gate, t: nat)
    ensures After(s, []) == s && Untouched(s, [], t)
  {
  }

  lemma Joined(s: Gate, a: seq<Event>, b: seq<Event>, t: nat)
    requires Untouched(s, a, t) && Untouched(After(s, a), b, t)
    ensures After(s, a + b) == After(After(s, a), b) && Untouched(s, a + b, t)
  {
    hide After, Untouched;
    AfterAppend(s, a, b);
    UntouchedBehind(s, a, b, t);
  }

  lemma Behind(s: Gate, a: seq<Event>, es: seq<Event>, t: nat)
    requires Untouched(s, a, t) && OfOthers(es, t)
    ensures After(s, a + es) == After(After(s, a), es) && Untouched(s, a + es, t)
  {
    hide After, Untouched;
    OthersUntouched(After(s, a), es, t);
    Joined(s, a, es, t);
  }

  /** Steps of other threads and then one that changes no entry. */
  lemma OthersThenOne(s: Gate, es: seq<Event>, t: nat, e: Event)
    requires OfOthers(es, t) && Shaped(After(s, es)) && Step(After(s, es), e).counts == After(s, es).counts
    ensures After(s, es + [e]) == Step(After(s, es), e) && Untouched(s, es + [e], t)
  {
    hide After, Untouched, Step, Shaped;
    OthersUntouched(s, es, t);
    AfterOne(After(s, es), e, t);
    Joined(s, es, [e], t);
  }

  // ---------------------------------------------------------------- what others do meanwhile

  /** The two gauges that cover an entry have moved by `delta`, modulo 2^32, and no other has. */
  ghost predicate Counted(before: map<Gauge, nat>, after: map<Gauge, nat>, k: Key, delta: int) {
    && after.Keys == before.Keys
    && forall g | g in before :: after[g] == if Covers(g, k) then (before[g] + delta) % WORD else before[g]
  }

  lemma BothCounted(gauges: map<Gauge, nat>, k: Key, delta: int)
    requires ActiveIds(k.table) in gauges && TotalActive in gauges
    ensures var one := gauges[ActiveIds(k.table) := (gauges[ActiveIds(k.table)] + delta) % WORD];
            Counted(gauges, one[TotalActive := (one[TotalActive] + delta) % WORD], k, delta)
  {
  }

  /** What happens during one turn of a loop: steps of other threads, and a failure for no reason. */
  datatype Turn = Turn(others: seq<Event>, spurious: bool)

  predicate TurnsOfOthers(turns: seq<Turn>, t: nat) { forall i | 0 <= i < |turns| :: OfOthers(turns[i].others, t) }

  /** The first `m` turns of the loop of `remove`, each an exchange tried after steps of others; when the
      turns run out, nobody else moves and no exchange fails for no reason. */
  function Tries(turns: seq<Turn>, t: nat, m: nat): seq<Event> {
    if m == 0 then []
    else Tries(turns, t, m - 1) + (TurnAt(turns, m - 1).others + [Next(t, TurnAt(turns, m - 1).spurious)])
  }

  function TurnAt(turns: seq<Turn>, i: nat): Turn { if i < |turns| then turns[i] else Turn([], false) }

  /** What the thread does after the moment at which it found `n` mounts: it leaves the loop at once, counts
      both gauges down, or is done. */
  function Rest(t: nat, n: nat, g1: seq<Event>, g2: seq<Event>): seq<Event> {
    if n == 0 then [Next(t, false)]
    else if n == 1 then g1 + [Next(t, false)] + (g2 + [Next(t, false)])
    else []
  }

  /** Step `e`, the last so far, has read `current` and changed no entry; nor has the thread before it. */
  ghost predicate JustRead(s: Gate, before: seq<Event>, e: Event, t: nat, k: Key, current: nat) {
    && e.thread == t && Untouched(s, before, t) && Shaped(After(s, before))
    && k in After(s, before).counts && After(s, before).counts[k] == current
    && Step(After(s, before), e).counts == After(s, before).counts
  }

  lemma ReadUntouched(s: Gate, before: seq<Event>, e: Event, t: nat, k: Key, current: nat)
    requires JustRead(s, before, e, t, k, current)
    ensures After(s, before + [e]) == Step(After(s, before), e) && Untouched(s, before + [e], t)
  {
    hide After, Untouched, Step, Shaped;
    AfterOne(After(s, before), e, t);
    Joined(s, before, [e], t);
  }

  lemma TurnIs(turns: seq<Turn>, i: nat, m: nat)
    requires m == i || (i >= |turns| && m >= i)
    ensures TurnAt(turns, m) == if i < |turns| then turns[i] else Turn([], false)
  {
  }

  lemma NoTries(front: seq<Event>, turns: seq<Turn>, t: nat)
    ensures front == front + Tries(turns, t, 0) && |Tries(turns, t, 0)| == 0
  {
  }

  lemma TriesNext(front: seq<Event>, turns: seq<Turn>, t: nat, m: nat)
    requires TurnsOfOthers(turns, t)
    ensures var turn := TurnAt(turns, m);
            && OfOthers(turn.others, t) && (Alone(turns) ==> turn.others == [])
            && front + Tries(turns, t, m) + turn.others + [Next(t, turn.spurious)] == front + Tries(turns, t, m + 1)
            && |front + Tries(turns, t, m) + turn.others| == |front| + |Tries(turns, t, m + 1)| - 1
  {
  }

  /** A read that finds zero is the moment of a `remove` that changes nothing. */
  lemma ReadZero(s: Gate, before: seq<Event>, e: Event, t: nat, k: Key)
    requires JustRead(s, before, e, t, k, 0)
    ensures TakesEffect(s, before + [e], t, k, |before|, 0, 0)
  {
    hide After, Untouched, Step, Shaped, TakesEffect;
    var counts := After(s, before).counts;
    assert counts[k := counts[k]] == counts;
    EffectHere(s, before, e, t, k, 0);
  }

  predicate Alone(turns: seq<Turn>) { forall i | 0 <= i < |turns| :: turns[i].others == [] }

  class Interest {
    const keys: set<Key>                 // the entries of the six tables
    var counts: map<Key, nat>
    var gauges: map<Gauge, nat>          // active_ids of each table, and total_active_tables
    // Where every thread stands and what an observer counts. An operation only notes its own steps
    // here; the steps of the other threads depend on it.
    var pcs: map<nat, Pc>
    var logs: map<Key, Log>
    var books: map<Gauge, Book>

    function View(): Gate
      reads this
    {
      Gate(counts, gauges, pcs, logs, books)
    }

    ghost predicate OnRun()
      reads this
    {
      Reachable(keys, View()) && Shaped(View()) && counts.Keys == keys
    }

    /** Nobody is inside an operation. */
    ghost predicate Valid()
      reads this
    {
      OnRun() && Quiescent(View())
    }

    constructor (keys: set<Key>)
      ensures Valid() && this.keys == keys && counts == map k | k in keys :: 0
    {
      hide Init, Reachable, Shaped, Quiescent;
      InitFine(keys);
      var s := Init(keys);
      this.keys := keys;
      counts, gauges, pcs, logs, books := s.counts, s.gauges, s.pcs, s.logs, s.books;
    }

    // -------------------------------------------------------------- atomic steps

    /** The machine takes the step that the fields have taken. */
    method Follow(before: Gate, e: Event)
      requires Reachable(keys, before) && Shaped(before) && before.counts.Keys == keys
      requires counts == Step(before, e).counts && gauges == Step(before, e).gauges
      modifies `pcs, `logs, `books
      ensures View() == Step(before, e) && OnRun()
    {
      StepReach(keys, before, e);
      StepKeepsShape(before, e);
      var s := Step(before, e);
      pcs, logs, books := s.pcs, s.logs, s.books;
    }

    /** Other threads take steps. */
    method Others(es: seq<Event>, ghost t: nat)
      requires OnRun() && OfOthers(es, t)
      modifies this
      ensures OnRun() && View() == After(old(View()), es) && PcOf(View(), t) == PcOf(old(View()), t)
      ensures es == [] ==> View() == old(View())
    {
      hide Reachable, Shaped, Step, PcOf;
      for i := 0 to |es|
        invariant OnRun() && View() == After(old(View()), es[..i]) && PcOf(View(), t) == PcOf(old(View()), t)
      {
        ghost var before := View();
        var s := Step(View(), es[i]);
        OthersKeepPc(View(), es[i], t);
        assert es[..i + 1] == es[..i] + [es[i]];
        AfterNext(old(View()), es[..i], es[i]);
        counts, gauges := s.counts, s.gauges;
        StepReach(keys, before, es[i]);
        StepKeepsShape(before, es[i]);
        pcs, logs, books := s.pcs, s.logs, s.books;
        assert View() == s;
      }
      assert es[..|es|] == es;
    }

    method FetchAddEntry(t: nat, k: Key) returns (previous: nat)
      requires OnRun() && PcOf(View(), t) == AddEntry(k) && k in keys
      modifies this
      ensures OnRun() && View() == Step(old(View()), Next(t, false))
      ensures previous == old(counts)[k] && counts == old(counts)[k := Up(previous)] && gauges == old(gauges)
      ensures PcOf(View(), t) == if previous == 0 then AddActive(k) else Idle
    {
      var before := View();
      previous := counts[k];
      counts := counts[k := if previous + 1 == WORD then 0 else previous + 1];
      Follow(before, Next(t, false));
    }

    /** `fetch_add` and `fetch_sub` of one on a gauge. */
    method Bump(g: Gauge, delta: int, t: nat, ghost next: Pc)
      requires OnRun()
      requires Step(View(), Next(t, false)) == Goto(BumpGauge(View(), g, delta), t, next)
      modifies this
      ensures OnRun() && View() == Step(old(View()), Next(t, false))
      ensures counts == old(counts) && PcOf(View(), t) == next
      ensures g in old(gauges) && gauges == old(gauges)[g := (old(gauges)[g] + delta) % WORD]
    {
      hide Reachable, Step, Covers;
      var before := View();
      gauges := gauges[g := (gauges[g] + delta) % WORD];
      Follow(before, Next(t, false));
    }

    /** `active_ids.fetch_add` and `track`, after a 0-to-1 step. */
    method CountMount(k: Key, t: nat, g1: seq<Event>, g2: seq<Event>)
      requires OnRun() && PcOf(View(), t) == AddActive(k) && OfOthers(g1, t) && OfOthers(g2, t)
      modifies this
      ensures OnRun() && PcOf(View(), t).Idle?
      ensures var trace := g1 + [Next(t, false)] + (g2 + [Next(t, false)]);
              View() == After(old(View()), trace) && Untouched(old(View()), trace, t)
      ensures g1 == [] && g2 == [] ==> counts == old(counts) && Counted(old(gauges), gauges, k, 1)
    {
      hide Reachable, FetchAdd, TryRemove, Wrapped, After, Untouched, Counted, Covers;
      ghost var start := View();
      Others(g1, t);
      Bump(ActiveIds(k.table), 1, t, AddTrack(k));
      OthersThenOne(start, g1, t, Next(t, false));
      ghost var middle := View();
      Others(g2, t);
      Bump(TotalActive, 1, t, Idle);
      BothCounted(start.gauges, k, 1);
      OthersThenOne(middle, g2, t, Next(t, false));
      Joined(start, g1 + [Next(t, false)], g2 + [Next(t, false)], t);
    }

    /** `active_ids.fetch_sub` and `untrack`, after a 1-to-0 step. */
    method CountUnmount(k: Key, t: nat, g1: seq<Event>, g2: seq<Event>)
      requires OnRun() && PcOf(View(), t) == RemActive(k) && OfOthers(g1, t) && OfOthers(g2, t)
      modifies this
      ensures OnRun() && PcOf(View(), t).Idle?
      ensures var trace := g1 + [Next(t, false)] + (g2 + [Next(t, false)]);
              View() == After(old(View()), trace) && Untouched(old(View()), trace, t)
      ensures g1 == [] && g2 == [] ==> counts == old(counts) && Counted(old(gauges), gauges, k, -1)
    {
      hide Reachable, FetchAdd, TryRemove, Wrapped, After, Untouched, Counted, Covers;
      ghost var start := View();
      Others(g1, t);
      Bump(ActiveIds(k.table), -1, t, RemTrack(k));
      OthersThenOne(start, g1, t, Next(t, false));
      ghost var middle := View();
      Others(g2, t);
      Bump(TotalActive, -1, t, Idle);
      BothCounted(start.gauges, k, -1);
      OthersThenOne(middle, g2, t, Next(t, false));
      Joined(start, g1 + [Next(t, false)], g2 + [Next(t, false)], t);
    }

    // -------------------------------------------------------------- operations

    /** `InterestTable::add` followed by `track`, while other threads take any steps before each of its
        atomic operations. It changes one entry at one moment, its `fetch_add`: true exactly if the id
        was disabled at that moment, and exactly then both gauges are counted up. */
    method Add(k: Key, t: nat, g0: seq<Event>, g1: seq<Event>, g2: seq<Event>)
      returns (transitioned: bool, ghost trace: seq<Event>, ghost n: nat)
      requires OnRun() && PcOf(View(), t).Idle? && OfOthers(g0, t) && OfOthers(g1, t) && OfOthers(g2, t)
      modifies this
      ensures OnRun() && PcOf(View(), t).Idle? && View() == After(old(View()), trace)
      ensures k !in keys ==> !transitioned && trace == []
      ensures k in keys ==>
              && transitioned == (n == 0)
              && TakesEffect(old(View()), trace, t, k, 1 + |g0|, n, Up(n))
              && trace == [BeginAdd(t, k)] + g0 + [Next(t, false)] +
                          if transitioned then g1 + [Next(t, false)] + (g2 + [Next(t, false)]) else []
      ensures k in keys && g0 == [] && g1 == [] && g2 == [] ==>
              && n == old(counts)[k] && counts == old(counts)[k := Up(n)]
              && if transitioned then Counted(old(gauges), gauges, k, 1) else gauges == old(gauges)
    {
      hide Reachable, Counted, Shaped, Advance, After, Untouched, TakesEffect;
      trace, n := [], 0;
      ghost var start := View();
      Nothing(start, t);
      if k !in counts {
        return false, trace, n;
      }
      Begin(BeginAdd(t, k));
      AfterOne(start, BeginAdd(t, k), t);
      ghost var begun := View();
      Others(g0, t);
      Behind(start, [BeginAdd(t, k)], g0, t);
      ghost var front := [BeginAdd(t, k)] + g0;
      ghost var seen := View();
      var previous := FetchAddEntry(t, k);
      n, trace := previous, front + [Next(t, false)];
      EffectHere(start, front, Next(t, false), t, k, Up(n));
      AfterNext(start, front, Next(t, false));
      transitioned := previous == 0;
      if transitioned {
        ghost var more := g1 + [Next(t, false)] + (g2 + [Next(t, false)]);
        ghost var middle := View();
        CountMount(k, t, g1, g2);
        EffectStays(start, trace, more, t, k, 1 + |g0|, n, Up(n));
        AfterAppend(start, trace, more);
        trace := trace + more;
      } else {
        assert trace + [] == trace;
      }
    }

    /** A thread that is idle starts an operation. */
    method Begin(e: Event)
      requires OnRun() && PcOf(View(), e.thread).Idle? && !e.Next? && e.key in keys
      modifies `pcs, `logs, `books
      ensures OnRun() && View() == Step(old(View()), e) && gauges == old(gauges) && counts == old(counts)
      ensures PcOf(View(), e.thread) == if e.BeginAdd? then AddEntry(e.key) else RemLoad(e.key)
    {
      hide Reachable;
      Follow(View(), e);
    }

    method LoadEntry(t: nat, k: Key) returns (current: nat)
      requires OnRun() && PcOf(View(), t) == RemLoad(k) && k in keys
      modifies `pcs, `logs, `books
      ensures OnRun() && View() == Step(old(View()), Next(t, false))
      ensures InLoop(t, k, current) && current == counts[k] && gauges == old(gauges)
    {
      hide Reachable;
      current := counts[k];
      Follow(View(), Next(t, false));
    }

    /** Thread `t` is about to try to exchange `current`. */
    ghost predicate InLoop(t: nat, k: Key, current: nat)
      reads this
    {
      k in keys && PcOf(View(), t).RemCas? && PcOf(View(), t).key == k && PcOf(View(), t).current == current
    }

    /** `compare_exchange_weak(current, current - 1)`, which may fail for no reason. */
    method CompareExchange(t: nat, k: Key, current: nat, spurious: bool) returns (ok: bool, actual: nat)
      requires OnRun() && InLoop(t, k, current) && current > 0
      modifies this
      ensures OnRun() && View() == Step(old(View()), Next(t, spurious))
      ensures actual == old(counts)[k] && gauges == old(gauges)
      ensures ok == (actual == current && !spurious)
      ensures counts == if ok then old(counts)[k := current - 1] else old(counts)
      ensures ok ==> PcOf(View(), t) == if current == 1 then RemActive(k) else Idle
      ensures !ok ==> InLoop(t, k, actual)
    {
      hide Reachable, FetchAdd, BumpGauge, Wrapped;
      var before := View();
      actual := counts[k];
      ok := actual == current && !spurious;
      if ok {
        counts := counts[k := current - 1];
      }
      Follow(before, Next(t, spurious));
    }

    /** The loop is left when the entry was zero. */
    method GiveUp(t: nat, k: Key)
      requires OnRun() && InLoop(t, k, 0)
      modifies `pcs, `logs, `books
      ensures OnRun() && View() == Step(old(View()), Next(t, false)) && PcOf(View(), t).Idle?
    {
      hide Reachable;
      Follow(View(), Next(t, false));
    }

    /** The part of `remove` before its loop. */
    method StartRemoval(k: Key, t: nat, g0: seq<Event>) returns (current: nat)
      requires OnRun() && PcOf(View(), t).Idle? && OfOthers(g0, t) && k in keys
      modifies this
      ensures OnRun() && InLoop(t, k, current) && k in counts && current == counts[k]
      ensures View() == After(old(View()), [BeginRemove(t, k)] + g0 + [Next(t, false)])
      ensures JustRead(old(View()), [BeginRemove(t, k)] + g0, Next(t, false), t, k, current)
      ensures g0 == [] ==> counts == old(counts) && gauges == old(gauges)
    {
      hide Reachable, Shaped, Step, Advance, After, Untouched, PcOf;
      ghost var start := View();
      Begin(BeginRemove(t, k));
      AfterOne(start, BeginRemove(t, k), t);
      Others(g0, t);
      Behind(start, [BeginRemove(t, k)], g0, t);
      current := LoadEntry(t, k);
      AfterNext(start, [BeginRemove(t, k)] + g0, Next(t, false));
    }

    /** One turn of the loop of `remove`, when `current` is not zero. */
    method Attempt(k: Key, t: nat, current: nat, turn: Turn, ghost start: Gate, ghost trace: seq<Event>)
      returns (ok: bool, actual: nat)
      requires OnRun() && InLoop(t, k, current) && current > 0 && OfOthers(turn.others, t)
      requires View() == After(start, trace) && Untouched(start, trace, t)
      modifies this
      ensures OnRun() && View() == After(start, trace + turn.others + [Next(t, turn.spurious)])
      ensures ok ==> PcOf(View(), t) == if current == 1 then RemActive(k) else Idle
      ensures ok ==> TakesEffect(start, trace + turn.others + [Next(t, turn.spurious)], t, k,
                                 |trace + turn.others|, current, Down(current))
      ensures !ok ==> InLoop(t, k, actual) && k in counts && actual == counts[k]
      ensures !ok ==> JustRead(start, trace + turn.others, Next(t, turn.spurious), t, k, actual)
      ensures !ok && turn.others == [] && current == old(counts)[k] ==> turn.spurious
      ensures turn.others == [] ==>
              && gauges == old(gauges)
              && counts == (if ok then old(counts)[k := Down(current)] else old(counts))
              && (ok ==> current == old(counts)[k])
    {
      hide Reachable, Shaped, Step, After, Untouched, TakesEffect, PcOf;
      ghost var s0 := View();
      Others(turn.others, t);
      Behind(start, trace, turn.others, t);
      ghost var s1 := View();
      ok, actual := CompareExchange(t, k, current, turn.spurious);
      AfterNext(start, trace + turn.others, Next(t, turn.spurious));
      if ok {
        EffectHere(start, trace + turn.others, Next(t, turn.spurious), t, k, current - 1);
      }
    }

    /** The loop after some tries: nothing has been changed by the thread, and its last step read `current`. */
    ghost predicate Removing(start: Gate, front: seq<Event>, turns: seq<Turn>, t: nat, k: Key, current: nat,
                             before: seq<Event>, last: Event, tries: nat)
      reads this
    {
      && OnRun() && InLoop(t, k, current)
      && before + [last] == front + Tries(turns, t, tries) && |before| + 1 == |front| + |Tries(turns, t, tries)|
      && View() == After(start, before + [last])
      && JustRead(start, before, last, t, k, current)
    }

    /** The next turn, which is number `tries`. */
    method NextTurn(k: Key, t: nat, current: nat, turns: seq<Turn>, i: nat, ghost start: Gate,
                    ghost front: seq<Event>, ghost before: seq<Event>, ghost last: Event, ghost tries: nat)
      returns (ok: bool, actual: nat, ghost before': seq<Event>, ghost last': Event)
      requires Removing(start, front, turns, t, k, current, before, last, tries) && current > 0
      requires TurnsOfOthers(turns, t) && (tries == i || (i >= |turns| && tries >= i))
      modifies this
      ensures ok ==>
              && OnRun() && View() == After(start, before' + [last'])
              && before' + [last'] == front + Tries(turns, t, tries + 1)
              && |before'| + 1 == |front| + |Tries(turns, t, tries + 1)|
              && PcOf(View(), t) == (if current == 1 then RemActive(k) else Idle)
              && TakesEffect(start, before' + [last'], t, k, |before'|, current, Down(current))
      ensures !ok ==> Removing(start, front, turns, t, k, actual, before', last', tries + 1)
      ensures !ok ==> k in counts && actual == counts[k]
      ensures !ok && i >= |turns| ==> current != old(counts)[k]
      ensures Alone(turns) ==>
              && gauges == old(gauges)
              && counts == (if ok then old(counts)[k := Down(current)] else old(counts))
              && (ok ==> current == old(counts)[k])
    {
      hide Reachable, Shaped, Step, After, Untouched, TakesEffect, PcOf, JustRead, Tries, OnRun, InLoop;
      ReadUntouched(start, before, last, t, k, current);
      var turn := if i < |turns| then turns[i] else Turn([], false);
      TurnIs(turns, i, tries);
      TriesNext(front, turns, t, tries);
      ok, actual := Attempt(k, t, current, turn, start, before + [last]);
      before', last' := before + [last] + turn.others, Next(t, turn.spurious);
    }

    /** The loop is left because its last read found zero. */
    method Leave(k: Key, t: nat, ghost start: Gate, ghost front: seq<Event>, ghost turns: seq<Turn>,
                 ghost before: seq<Event>, ghost last: Event, ghost tries: nat, ghost g1: seq<Event>,
                 ghost g2: seq<Event>)
      returns (ghost longer: seq<Event>)
      requires Removing(start, front, turns, t, k, 0, before, last, tries)
      modifies this
      ensures OnRun() && PcOf(View(), t).Idle? && View() == After(start, longer)
      ensures longer == front + Tries(turns, t, tries) + Rest(t, 0, g1, g2)
      ensures TakesEffect(start, longer, t, k, |front| + |Tries(turns, t, tries)| - 1, 0, Down(0))
      ensures gauges == old(gauges) && (old(counts)[k] == 0 ==> counts == old(counts)[k := Down(0)])
    {
      hide Reachable, Shaped, Step, After, Untouched, TakesEffect, PcOf, JustRead;
      ReadZero(start, before, last, t, k);
      GiveUp(t, k);
      AfterOne(old(View()), Next(t, false), t);
      EffectStays(start, before + [last], [Next(t, false)], t, k, |before|, 0, 0);
      AfterAppend(start, before + [last], [Next(t, false)]);
      longer := before + [last] + [Next(t, false)];
    }

    /** What follows a successful exchange. */
    method Untrack(k: Key, t: nat, g1: seq<Event>, g2: seq<Event>, ghost start: Gate, ghost trace: seq<Event>,
                   ghost at: nat, current: nat)
      returns (ghost longer: seq<Event>)
      requires OnRun() && OfOthers(g1, t) && OfOthers(g2, t) && View() == After(start, trace) && current > 0
      requires PcOf(View(), t) == if current == 1 then RemActive(k) else Idle
      requires TakesEffect(start, trace, t, k, at, current, Down(current))
      modifies this
      ensures OnRun() && PcOf(View(), t).Idle? && View() == After(start, longer)
      ensures longer == trace + Rest(t, current, g1, g2)
      ensures TakesEffect(start, longer, t, k, at, current, Down(current))
      ensures g1 == [] && g2 == [] ==>
              && counts == old(counts)
              && if current == 1 then Counted(old(gauges), gauges, k, -1) else gauges == old(gauges)
    {
      hide Reachable, Counted, Shaped, Step, After, Untouched, TakesEffect, PcOf;
      longer := trace;
      assert trace + [] == trace;
      if current == 1 {
        ghost var more := g1 + [Next(t, false)] + (g2 + [Next(t, false)]);
        CountUnmount(k, t, g1, g2);
        EffectStays(start, trace, more, t, k, at, current, Down(current));
        AfterAppend(start, trace, more);
        longer := trace + more;
      }
    }

    /** The loop of `remove`, and `untrack` behind it. */
    method Exchange(k: Key, t: nat, first: nat, turns: seq<Turn>, g1: seq<Event>, g2: seq<Event>, ghost start: Gate,
                    ghost front: seq<Event>, ghost begun: seq<Event>, ghost read: Event)
      returns (transitioned: bool, ghost trace: seq<Event>, ghost n: nat, ghost tries: nat)
      requires Removing(start, front, turns, t, k, first, begun, read, 0) && TurnsOfOthers(turns, t)
      requires OfOthers(g1, t) && OfOthers(g2, t) && k in counts && first == counts[k]
      modifies this
      ensures OnRun() && PcOf(View(), t).Idle? && View() == After(start, trace) && transitioned == (n == 1)
      ensures TakesEffect(start, trace, t, k, |front| + |Tries(turns, t, tries)| - 1, n, Down(n))
      ensures trace == front + Tries(turns, t, tries) + Rest(t, n, g1, g2)
      ensures Alone(turns) && g1 == [] && g2 == [] ==>
              && n == old(counts)[k] && counts == old(counts)[k := Down(n)]
              && if transitioned then Counted(old(gauges), gauges, k, -1) else gauges == old(gauges)
    {
      hide *;
      ghost var before, last := begun, read;
      var current, i := first, 0;
      tries := 0;
      while current != 0
        invariant Removing(start, front, turns, t, k, current, before, last, tries)
        invariant k in counts && i <= |turns| && (tries == i || (i == |turns| && tries >= i))
        invariant Alone(turns) ==> counts == old(counts) && gauges == old(gauges) && current == counts[k]
        decreases |turns| - i, if current == counts[k] then 0 else 1
      {
        var ok, actual;
        ok, actual, before, last := NextTurn(k, t, current, turns, i, start, front, before, last, tries);
        tries := tries + 1;
        if ok {
          trace := Untrack(k, t, g1, g2, start, before + [last], |before|, current);
          return current == 1, trace, current, tries;
        }
        current, i := actual, if i < |turns| then i + 1 else i;
      }
      trace := Leave(k, t, start, front, turns, before, last, tries, g1, g2);
      return false, trace, 0, tries;
    }

    /** `InterestTable::remove` followed by `untrack`, while other threads take any steps before each of
        its atomic operations and exchanges fail for no reason. It changes one entry at one moment, or
        finds it zero at one: true exactly if the id had one mount at that moment, and exactly then both
        gauges are counted down. */
    method Remove(k: Key, t: nat, g0: seq<Event>, turns: seq<Turn>, g1: seq<Event>, g2: seq<Event>)
      returns (transitioned: bool, ghost trace: seq<Event>, ghost n: nat, ghost tries: nat)
      requires OnRun() && PcOf(View(), t).Idle? && OfOthers(g0, t) && TurnsOfOthers(turns, t)
      requires OfOthers(g1, t) && OfOthers(g2, t)
      modifies this
      ensures OnRun() && PcOf(View(), t).Idle? && View() == After(old(View()), trace)
      ensures k !in keys ==> !transitioned && trace == []
      ensures k in keys ==>
              && transitioned == (n == 1)
              && TakesEffect(old(View()), trace, t, k, 1 + |g0| + |Tries(turns, t, tries)|, n, Down(n))
              && trace == [BeginRemove(t, k)] + g0 + [Next(t, false)] + Tries(turns, t, tries) + Rest(t, n, g1, g2)
      ensures k in keys && g0 == [] && Alone(turns) && g1 == [] && g2 == [] ==>
              && n == old(counts)[k] && counts == old(counts)[k := Down(n)]
              && if transitioned then Counted(old(gauges), gauges, k, -1) else gauges == old(gauges)
    {
      hide Reachable, Counted, Shaped, Step, Advance, After, Untouched, TakesEffect, PcOf,
        JustRead, InLoop, Rest, Tries;
      trace, n, tries := [], 0, 0;
      ghost var start := View();
      Nothing(start, t);
      if k !in counts {
        return false, trace, n, tries;
      }
      var current := StartRemoval(k, t, g0);
      ghost var before, last := [BeginRemove(t, k)] + g0, Next(t, false);
      NoTries(before + [last], turns, t);
      transitioned, trace, n, tries := Exchange(k, t, current, turns, g1, g2, start, before + [last], before, last);
    }

    // -------------------------------------------------------------- routing

    method HasEntry(k: Key) returns (mounted: bool)
      ensures mounted == Has(View(), k)
    {
      if k !in counts {
        return false;
      }
      return counts[k] != 0;
    }

    /** `has_any` */
    method HasAnyInterest() returns (any: bool)
      requires OnRun()
      ensures TotalActive in gauges && any == HasAny(View())
    {
      hide Reachable;
      return gauges[TotalActive] != 0;
    }

    /** The part of `route_message` behind the gate. */
    method LookUp(d: Direction, id: int, user: Option<int>) returns (route: Route)
      ensures route == Lookup(View(), d, id, user)
    {
      hide Has, TableFor, RouteOf;
      var serialized := HasEntry(Key(TableFor(d, Serialized), id));
      if !serialized && user.Some? {
        serialized := HasEntry(Key(UserSerialized, user.value));
      }
      var fast := HasEntry(Key(TableFor(d, Fast), id));
      if !fast && user.Some? {
        fast := HasEntry(Key(UserFast, user.value));
      }
      return RouteOf(fast, serialized);
    }

    /** `route_message`: what the gated router of the machine answers; with nobody inside an
        operation the gate in front of the tables does not change the answer. */
    method RouteMessage(d: Direction, id: int, user: Option<int>) returns (route: Route)
      requires OnRun()
      ensures TotalActive in gauges && route == InterestGate.RouteMessage(View(), d, id, user)
      ensures Valid() && LiveBelow(View()) && |keys| < WORD ==> route == Lookup(View(), d, id, user)
    {
      hide Lookup, Reachable, Shaped, Quiescent, LiveBelow, HasAny;
      if Quiescent(View()) && LiveBelow(View()) && |keys| < WORD {
        QuietRoute(keys, View(), d, id, user);
      }
      var any := HasAnyInterest();
      if !any {
        return NoInterest;
      }
      route := LookUp(d, id, user);
    }
  }

  lemma QuietRoute(keys: set<Key>, s: Gate, d: Direction, id: int, user: Option<int>)
    requires Reachable(keys, s) && LiveBelow(s) && Quiescent(s) && |keys| < WORD
    ensures Shaped(s) && InterestGate.RouteMessage(s, d, id, user) == Lookup(s, d, id, user)
  {
    hide Count, Reachable;
    QuiescentGaugesExact(keys, s, TotalActive);
    if !HasAny(s) { NothingMountedMeansNoInterest(s, d, id, user); }
  }
}
