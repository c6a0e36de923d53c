/** The callback depth of each thread and the process-wide maximum kept by a compare-exchange loop. */
module MaxDepth {

  /** Where a thread stands inside `update_max_depth`. */
  datatype Pc =
    | Idle
    | Load(depth: nat)
    // In the loop; `misses` counts this call's failures that were not spurious (bookkeeping only).
    | Loop(depth: nat, previous: nat, misses: nat)

  /** `recorded` and `finished` are the observer's: the depths handed to an update that has started,
      and those whose update has returned. */
  datatype State = State(
    max: nat,
    depths: map<nat, nat>,
    pcs: map<nat, Pc>,
    recorded: set<nat>,
    finished: set<nat>)

  datatype Event =
    | Enter(thread: nat)
    | Leave(thread: nat)
    | Next(thread: nat, spurious: bool)

  const INIT := State(0, map[], map[], {}, {})

  function DepthOf(s: State, t: nat): nat { if t in s.depths then s.depths[t] else 0 }

  function PcOf(s: State, t: nat): Pc { if t in s.pcs then s.pcs[t] else Idle }

  function Goto(s: State, t: nat, pc: Pc): State { s.(pcs := s.pcs[t := pc]) }

  function Finish(s: State, t: nat, depth: nat): State {
    Goto(s, t, Idle).(finished := s.finished + {depth})
  }

  function Step(s: State, e: Event): State {
    var t, depth := e.thread, DepthOf(s, e.thread);
    match e
    case Enter(_) =>  // the constructor of CallbackScope
      if !PcOf(s, t).Idle? then s
      else Goto(s, t, Load(depth + 1)).(depths := s.depths[t := depth + 1],
                                        recorded := s.recorded + {depth + 1})
    case Leave(_) =>  // its destructor
      if !PcOf(s, t).Idle? || depth == 0 then s else s.(depths := s.depths[t := depth - 1])
    case Next(_, spurious) =>
      match PcOf(s, t)
      case Idle => s
      case Load(d) => Goto(s, t, Loop(d, s.max, 0))
      case Loop(d, previous, misses) =>
        if d <= previous then Finish(s, t, d)
        else if s.max != previous then Goto(s, t, Loop(d, s.max, misses + 1))
        else if spurious then s
        else Finish(s, t, d).(max := d)
  }

  function Run(s: State, events: seq<Event>): State
    decreases |events|
  {
    if events == [] then s else Run(Step(s, events[0]), events[1..])
  }

  ghost predicate PcSound(s: State, pc: Pc) {
    && (pc.Idle? || pc.depth in s.recorded)
    && (pc.Loop? ==> pc.misses <= pc.previous <= s.max && pc.misses <= pc.depth)
  }

  ghost predicate Inv(s: State) {
    && (s.max == 0 || s.max in s.recorded)
    && (forall d | d in s.finished :: d <= s.max)
    && (forall t | t in s.pcs :: PcSound(s, s.pcs[t]))
    && (forall d | d in s.recorded ::
          d in s.finished || exists t :: t in s.pcs && !s.pcs[t].Idle? && s.pcs[t].depth == d)
  }

  lemma StepKeepsInv(s: State, e: Event)
    requires Inv(s)
    ensures Inv(Step(s, e)) && s.max <= Step(s, e).max
  {
    var s', t := Step(s, e), e.thread;
    forall u | u in s'.pcs ensures PcSound(s', s'.pcs[u]) {
      assert u in s.pcs ==> PcSound(s, s.pcs[u]);
      assert t in s.pcs ==> PcSound(s, s.pcs[t]);
    }
    forall d | d in s'.recorded
      ensures d in s'.finished || exists u :: u in s'.pcs && !s'.pcs[u].Idle? && s'.pcs[u].depth == d
    {
      if d !in s.recorded {
        assert s'.pcs[t].depth == d;
      } else if d !in s.finished {
        var u :| u in s.pcs && !s.pcs[u].Idle? && s.pcs[u].depth == d;
        assert u in s'.pcs && (s'.pcs[u].Idle? ==> d in s'.finished);
      }
    }
  }

  lemma {:induction false} RunKeepsInv(s: State, events: seq<Event>)
    requires Inv(s)
    ensures Inv(Run(s, events)) && s.max <= Run(s, events).max
    decreases |events|
  {
    if events != [] {
      StepKeepsInv(s, events[0]);
      RunKeepsInv(Step(s, events[0]), events[1..]);
    }
  }

  /** In every interleaving the maximum is 0 or a recorded depth and no finished update is lost; once
      nobody is inside an update it is the largest depth ever recorded. An update of depth `d` fails
      a compare-exchange non-spuriously at most `d` times. */
  lemma MaximumIsExact(events: seq<Event>, s: State)
    requires s == Run(INIT, events)
    ensures s.max == 0 || s.max in s.recorded
    ensures forall d | d in s.finished :: d <= s.max
    ensures (forall t | t in s.pcs :: s.pcs[t].Idle?) ==> forall d | d in s.recorded :: d <= s.max
    ensures forall t | t in s.pcs && s.pcs[t].Loop? :: s.pcs[t].misses <= s.pcs[t].depth
  {
    RunKeepsInv(INIT, events);
    forall t | t in s.pcs && s.pcs[t].Loop? ensures s.pcs[t].misses <= s.pcs[t].depth {
      assert PcSound(s, s.pcs[t]);
    }
  }
}
