/** The walker patrol: waypoints read from a list, and one teleport per `stride` damaged walkers. */
module WalkerPatrol {
  import opened Common

  const MAX_WAYPOINTS: nat := 8

  datatype Vec3 = Vec3(x: real, y: real, z: real)

  datatype Mode = Velocity | OriginNudge

  // ---------------------------------------------------------------- the configured list

  /** Where the first `;` is, or the length. */
  function Find(text: string): (k: nat)
    ensures k <= |text|
    ensures forall i | 0 <= i < k :: text[i] != ';'
    ensures k < |text| ==> text[k] == ';'
  {
    if text == [] || text[0] == ';' then 0 else 1 + Find(text[1..])
  }

  /** The `;` split; nothing follows a `;` that ends the text. */
  function Items(text: string): seq<string>
    decreases |text|
  {
    var k := Find(text);
    if text == [] then []
    else if k == |text| then [text]
    else [text[..k]] + Items(text[k + 1..])
  }

  function Rejoined(items: seq<string>): string {
    if items == [] then [] else items[0] + [';'] + Rejoined(items[1..])
  }

  lemma RejoinNext(item: string, items: seq<string>)
    ensures Rejoined([item] + items) == item + [';'] + Rejoined(items)
  {
    assert ([item] + items)[1..] == items;
  }

  /** The split loses nothing but one closing `;`, and no item holds a `;`. */
  lemma {:induction false} ItemsRejoin(text: string)
    ensures Rejoined(Items(text)) == text || Rejoined(Items(text)) == text + [';']
    ensures forall i | 0 <= i < |Items(text)| :: ';' !in Items(text)[i]
    decreases |text|
  {
    hide Find, Rejoined;
    var k := Find(text);
    if text == [] {
      RejoinNothing();
    } else if k == |text| {
      RejoinNothing();
      RejoinNext(text, []);
      assert [text] + [] == [text];
    } else {
      var front, rest := text[..k], text[k + 1..];
      ItemsRejoin(rest);
      RejoinNext(front, Items(rest));
      assert text == front + [';'] + rest;
      assert text + [';'] == front + [';'] + (rest + [';']);
    }
  }

  lemma RejoinNothing()
    ensures Rejoined([]) == []
  {
  }

  /** The items that are vectors, read by `parse`. */
  function Vectors(items: seq<string>, parse: string -> Option<Vec3>): seq<Vec3> {
    if items == [] then []
    else
      var more := Vectors(items[1..], parse);
      if items[0] != [] && parse(items[0]).Some? then [parse(items[0]).value] + more else more
  }

  /** Every item that is not empty and can be read gives its vector in its own place. */
  lemma {:induction false} VectorsAppend(a: seq<string>, b: seq<string>, parse: string -> Option<Vec3>)
    ensures Vectors(a + b, parse) == Vectors(a, parse) + Vectors(b, parse)
    ensures |a| == 1 ==> Vectors(a, parse) == if a[0] != "" && parse(a[0]).Some? then [parse(a[0]).value] else []
  {
    if a == [] {
      assert a + b == b;
    } else {
      VectorsAppend(a[1..], b, parse);
      assert (a + b)[1..] == a[1..] + b;
    }
  }

  /** What the front item of a text adds to the vectors of the rest. */
  lemma NextItem(text: string, k: nat, parse: string -> Option<Vec3>)
    requires text != [] && k == Find(text)
    ensures var rest := if k == |text| then [] else text[k + 1..];
            Vectors(Items(text), parse) ==
            (if text[..k] != [] && parse(text[..k]).Some? then [parse(text[..k]).value] else []) +
            Vectors(Items(rest), parse)
  {
    hide Find;
    var rest := if k == |text| then [] else text[k + 1..];
    if k == |text| {
      assert text[..k] == text && Items([]) == [] && [text] + [] == [text];
    }
    assert Items(text) == [text[..k]] + Items(rest);
    assert Items(text)[1..] == Items(rest);
  }

  function Defaults(mode: Mode): seq<Vec3> {
    var d := if mode.OriginNudge? then 500.0 else 900.0;
    [Vec3(d, 0.0, 0.0), Vec3(0.0, d, 0.0), Vec3(-d, 0.0, 0.0), Vec3(0.0, -d, 0.0)]
  }

  /** The waypoints in force: the first eight valid items, or the four defaults if there are none. */
  function Waypoints(text: string, mode: Mode, parse: string -> Option<Vec3>): seq<Vec3> {
    var found := FirstOf(Vectors(Items(text), parse), MAX_WAYPOINTS);
    if found == [] then Defaults(mode) else found
  }

  // ---------------------------------------------------------------- damage

  datatype OriginRead = NoBodyComponent | NoSceneNode | NoOrigin | Origin(at: Vec3)

  /** A damaged entity: its identity's designer name (empty: none), and what reading its origin gives. */
  datatype Victim = Victim(name: Option<string>, origin: OriginRead)

  datatype Call = Call(victim: Victim, recursive: bool)

  predicate IsWalkerName(name: string) {
    name == "npc_boss_tier2" || name == "alt_npc_boss_tier2" || name == "CNPC_Boss_Tier2"
  }

  /** What a damage callback is counted as. */
  datatype Kind = Recursive | WithoutIdentity | WithoutName | NoWalker | Candidate

  function KindOf(c: Call): Kind {
    if c.recursive then Recursive
    else if c.victim.name.None? then WithoutIdentity
    else if c.victim.name.value == "" then WithoutName
    else if IsWalkerName(c.victim.name.value) then Candidate else NoWalker
  }

  predicate IsCandidate(c: Call) { KindOf(c) == Candidate }

  function HowMany(calls: seq<Call>, kind: Kind): nat {
    if |calls| == 0 then 0
    else HowMany(calls[..|calls| - 1], kind) + Bit(KindOf(calls[|calls| - 1]) == kind)
  }

  datatype Move = SetVelocity(v: Vec3) | SetPosition(v: Vec3)

  function Plus(a: Vec3, b: Vec3): Vec3 { Vec3(a.x + b.x, a.y + b.y, a.z + b.z) }

  /** Attempts due after a number of candidates. */
  function Due(candidates: nat, stride: nat): nat
    requires stride > 0
  {
    candidates / stride
  }

  /** The waypoint of attempt `k`. */
  function Next(k: nat, count: nat): (i: nat)
    requires count > 0
    ensures i < count
  {
    k % count
  }

  class Patrol {
    var enabled: bool
    var stride: nat
    var mode: Mode
    const vectors: array<Vec3>
    var waypointCount: nat
    var damageCallbacks: nat
    var candidateWalkers: nat
    var nonWalkerVictims: nat
    var skippedRecursive: nat
    var missingIdentity: nat
    var missingDesignerName: nat
    var teleportAttempts: nat
    var teleportCalls: nat
    var bodyComponentMissing: nat
    var sceneNodeMissing: nat
    var originReadAttempts: nat
    var originReadSuccesses: nat
    var originReadFailures: nat
    ghost var chosen: seq<Vec3>      // the waypoint of every attempt since the counters were reset

    ghost predicate Configured()
      reads this
    {
      vectors.Length == MAX_WAYPOINTS && 0 < waypointCount <= MAX_WAYPOINTS
    }

    function Stride(): nat
      reads this
    {
      if stride == 0 then 1 else stride
    }

    function Tally(kind: Kind): nat
      reads this
    {
      match kind
      case Recursive => skippedRecursive
      case WithoutIdentity => missingIdentity
      case WithoutName => missingDesignerName
      case NoWalker => nonWalkerVictims
      case Candidate => candidateWalkers
    }

    /** One attempt per `stride` candidates, the k-th of them with waypoint k modulo the count; every
        callback is one of five kinds; and reads of the origin balance. */
    ghost predicate Valid()
      reads this, vectors
    {
      && Configured()
      && teleportAttempts == |chosen| == Due(candidateWalkers, Stride())
      && (forall k: nat | k < |chosen| :: chosen[k] == vectors[Next(k, waypointCount)])
      && damageCallbacks == skippedRecursive + missingIdentity + missingDesignerName +
                          nonWalkerVictims + candidateWalkers
      && originReadAttempts == originReadSuccesses + originReadFailures
      && bodyComponentMissing + sceneNodeMissing <= originReadFailures
      && originReadAttempts == (if mode.OriginNudge? then teleportAttempts else 0)
      && teleportCalls == if mode.OriginNudge? then originReadSuccesses else teleportAttempts
    }

    constructor ()
      ensures vectors.Length == MAX_WAYPOINTS && fresh(vectors) && !enabled && waypointCount == 0
    {
      vectors := new Vec3[MAX_WAYPOINTS](_ => Vec3(0.0, 0.0, 0.0));
      enabled, stride, mode, waypointCount := false, 16, Velocity, 0;
      damageCallbacks, candidateWalkers, nonWalkerVictims, skippedRecursive := 0, 0, 0, 0;
      missingIdentity, missingDesignerName, teleportAttempts, teleportCalls := 0, 0, 0, 0;
      bodyComponentMissing, sceneNodeMissing := 0, 0;
      originReadAttempts, originReadSuccesses, originReadFailures := 0, 0, 0;
      chosen := [];
    }

    method ResetReads()
      modifies `bodyComponentMissing, `sceneNodeMissing, `originReadAttempts, `originReadSuccesses, `originReadFailures
      ensures bodyComponentMissing == sceneNodeMissing == 0
      ensures originReadAttempts == originReadSuccesses == originReadFailures == 0
    {
      bodyComponentMissing, sceneNodeMissing := 0, 0;
      originReadAttempts, originReadSuccesses, originReadFailures := 0, 0, 0;
    }

    method ResetOutcomes()
      modifies `damageCallbacks, `nonWalkerVictims, `skippedRecursive, `missingIdentity, `missingDesignerName
      ensures damageCallbacks == skippedRecursive == missingIdentity == missingDesignerName == nonWalkerVictims == 0
    {
      damageCallbacks, nonWalkerVictims, skippedRecursive := 0, 0, 0;
      missingIdentity, missingDesignerName := 0, 0;
    }

    /** `reset_walker_patrol_counters` */
    method ResetCounters()
      modifies this
      ensures Configured() ==> Valid()
      ensures enabled == old(enabled) && stride == old(stride) && mode == old(mode)
      ensures waypointCount == old(waypointCount)
      ensures candidateWalkers == 0 && chosen == []
      ensures damageCallbacks == skippedRecursive == missingIdentity == missingDesignerName == nonWalkerVictims == 0
    {
      hide Due, Next;
      ResetOutcomes();
      candidateWalkers, teleportAttempts, teleportCalls, chosen := 0, 0, 0, [];
      ResetReads();
      DueNothing(Stride());
    }

    /** `set_default_vectors` */
    method SetDefaultVectors(mode: Mode)
      requires vectors.Length == MAX_WAYPOINTS
      modifies `waypointCount, vectors
      ensures waypointCount == 4 && vectors[..4] == Defaults(mode)
    {
      var d := if mode.OriginNudge? then 500.0 else 900.0;
      vectors[0], vectors[1] := Vec3(d, 0.0, 0.0), Vec3(0.0, d, 0.0);
      vectors[2], vectors[3] := Vec3(-d, 0.0, 0.0), Vec3(0.0, -d, 0.0);
      waypointCount := 4;
    }

    /** `parse_vector_environment`; an unset or overlong variable is the empty text. */
    method ParseVectorEnvironment(text: string, mode: Mode, parse: string -> Option<Vec3>)
      requires vectors.Length == MAX_WAYPOINTS
      modifies `waypointCount, vectors
      ensures waypointCount == |Waypoints(text, mode, parse)| && Configured()
      ensures vectors[..waypointCount] == Waypoints(text, mode, parse)
    {
      hide Vectors, Items;
      var parsed := ParseVectors(text, parse);
      if parsed == [] {
        SetDefaultVectors(mode);
        return;
      }
      for index := 0 to |parsed|
        invariant vectors[..index] == parsed[..index]
      {
        vectors[index] := parsed[index];
      }
      waypointCount := |parsed|;
    }

    /** The part of `dwrt_host_initialize` about the patrol. */
    method Start(enabled: bool, stride: nat, mode: Mode, text: string, parse: string -> Option<Vec3>)
      requires vectors.Length == MAX_WAYPOINTS
      modifies this, vectors
      ensures Valid() && this.enabled == enabled && Stride() == (if stride == 0 then 1 else stride) && this.mode == mode
      ensures vectors[..waypointCount] == Waypoints(text, mode, parse)
      ensures candidateWalkers == 0 && chosen == []
      ensures damageCallbacks == skippedRecursive == missingIdentity == missingDesignerName == nonWalkerVictims == 0
    {
      hide Waypoints;
      ParseVectorEnvironment(text, mode, parse);
      this.enabled, this.stride, this.mode := enabled, stride, mode;
      ResetCounters();
    }

    method ReadEntityAbsOrigin(read: OriginRead) returns (origin: Option<Vec3>)
      modifies `originReadAttempts, `originReadSuccesses, `originReadFailures, `bodyComponentMissing, `sceneNodeMissing
      ensures originReadAttempts == old(originReadAttempts) + 1
      ensures origin == if read.Origin? then Some(read.at) else None
      ensures originReadSuccesses == old(originReadSuccesses) + (if origin.Some? then 1 else 0)
      ensures originReadFailures == old(originReadFailures) + (if origin.None? then 1 else 0)
      ensures bodyComponentMissing == old(bodyComponentMissing) + (if read.NoBodyComponent? then 1 else 0)
      ensures sceneNodeMissing == old(sceneNodeMissing) + (if read.NoSceneNode? then 1 else 0)
    {
      originReadAttempts := originReadAttempts + 1;
      if read.NoBodyComponent? {
        bodyComponentMissing := bodyComponentMissing + 1;
        originReadFailures := originReadFailures + 1;
        return None;
      }
      if read.NoSceneNode? {
        sceneNodeMissing := sceneNodeMissing + 1;
        originReadFailures := originReadFailures + 1;
        return None;
      }
      if read.NoOrigin? {
        originReadFailures := originReadFailures + 1;
        return None;
      }
      originReadSuccesses := originReadSuccesses + 1;
      return Some(read.at);
    }

    /** The tests a damaged entity must pass, each with its counter. */
    method CountCallback(c: Call) returns (candidate: bool)
      modifies `damageCallbacks, `skippedRecursive, `missingIdentity, `missingDesignerName, `nonWalkerVictims
      ensures candidate == IsCandidate(c)
      ensures damageCallbacks == old(damageCallbacks) + 1
      ensures forall kind: Kind :: Tally(kind) == old(Tally(kind)) + Bit(kind == KindOf(c) != Candidate)
      ensures damageCallbacks - skippedRecursive - missingIdentity - missingDesignerName - nonWalkerVictims ==
              old(damageCallbacks - skippedRecursive - missingIdentity - missingDesignerName - nonWalkerVictims) +
              Bit(candidate)
    {
      damageCallbacks := damageCallbacks + 1;
      if c.recursive {
        skippedRecursive := skippedRecursive + 1;
        return false;
      }
      if c.victim.name.None? {
        missingIdentity := missingIdentity + 1;
        return false;
      }
      var designerName := c.victim.name.value;
      if designerName == "" {
        missingDesignerName := missingDesignerName + 1;
        return false;
      }
      if !IsWalkerName(designerName) {
        nonWalkerVictims := nonWalkerVictims + 1;
        return false;
      }
      return true;
    }

    /** `maybe_apply_walker_patrol_on_damage`; `move` is what the entity is told, if anything. */
    method MaybeApplyOnDamage(c: Call) returns (move: Option<Move>)
      requires Valid()
      modifies this
      ensures Valid() && enabled == old(enabled) && stride == old(stride) && mode == old(mode)
      ensures waypointCount == old(waypointCount)
      ensures forall kind: Kind :: Tally(kind) == old(Tally(kind)) + Bit(enabled && kind == KindOf(c))
      ensures damageCallbacks == old(damageCallbacks) + (if enabled then 1 else 0)
      ensures if enabled && IsCandidate(c) && candidateWalkers % Stride() == 0
              then chosen == old(chosen) + [vectors[Next(|old(chosen)|, waypointCount)]] &&
                   move == Told(mode, chosen[|chosen| - 1], c.victim.origin)
              else chosen == old(chosen) && move == None
    {
      hide Due, Next, IsWalkerName, KindOf, Told;
      if !enabled {
        return None;
      }
      var candidate := CountCallback(c);
      if !candidate {
        return None;
      }
      candidateWalkers := candidateWalkers + 1;
      var walkerIndex := candidateWalkers;
      var stride := if this.stride == 0 then 1 else this.stride;
      OneMore(walkerIndex, stride);
      if walkerIndex % stride != 0 {
        return None;
      }
      if waypointCount == 0 {
        return None;
      }
      var vector := vectors[Next(walkerIndex / stride - 1, waypointCount)];
      move := Teleport(vector, c.victim.origin);
    }

    /** The rest of `maybe_apply_walker_patrol_on_damage`, once the waypoint is chosen. */
    method Teleport(vector: Vec3, read: OriginRead) returns (move: Option<Move>)
      modifies `chosen, `teleportAttempts, `teleportCalls, `originReadAttempts, `originReadSuccesses,
        `originReadFailures, `bodyComponentMissing, `sceneNodeMissing
      ensures chosen == old(chosen) + [vector] && teleportAttempts == old(teleportAttempts) + 1
      ensures move == Told(mode, vector, read)
      ensures teleportCalls == old(teleportCalls) + if move.Some? then 1 else 0
      ensures var tried, failed := if mode.OriginNudge? then 1 else 0, if move.None? then 1 else 0;
              && originReadAttempts == old(originReadAttempts) + tried
              && originReadFailures == old(originReadFailures) + failed
              && originReadSuccesses == old(originReadSuccesses) + tried - failed
              && bodyComponentMissing + sceneNodeMissing <= old(bodyComponentMissing + sceneNodeMissing) + failed
    {
      chosen := chosen + [vector];
      teleportAttempts := teleportAttempts + 1;
      if mode.OriginNudge? {
        var origin := ReadEntityAbsOrigin(read);
        if origin.None? {
          return None;
        }
        move := Some(SetPosition(Plus(origin.value, vector)));
      } else {
        move := Some(SetVelocity(vector));
      }
      teleportCalls := teleportCalls + 1;
    }
  }

  function Told(mode: Mode, vector: Vec3, origin: OriginRead): Option<Move> {
    if mode.Velocity? then Some(SetVelocity(vector))
    else if origin.Origin? then Some(SetPosition(Plus(origin.at, vector)))
    else None
  }

  lemma Successor(n: nat, d: nat)
    requires n > 0 && d > 0
    ensures var q, r := (n - 1) / d, (n - 1) % d;
            if r + 1 == d then n / d == q + 1 && n % d == 0 else n / d == q && n % d == r + 1
  {
    var q, r := (n - 1) / d, (n - 1) % d;
    assert n == q * d + (r + 1);
    if r + 1 == d {
      Quotient(n, d, q + 1, 0);
    } else {
      Quotient(n, d, q, r + 1);
    }
  }

  lemma OneMore(n: nat, stride: nat)
    requires n > 0 && stride > 0
    ensures n / stride == Due(n, stride) == Due(n - 1, stride) + if n % stride == 0 then 1 else 0
  {
    Successor(n, stride);
  }

  lemma AtLeast(x: int, d: nat)
    requires x >= 1
    ensures x * d >= d
  {
  }

  lemma Quotient(n: nat, d: nat, q: nat, r: nat)
    requires r < d && n == q * d + r
    ensures n / d == q && n % d == r
  {
    var x := n / d - q;
    assert x * d == r - n % d;
    if x >= 1 {
      AtLeast(x, d);
    } else if x <= -1 {
      AtLeast(-x, d);
    }
  }

  /** How many of the first `n` attempts use waypoint `w`. */
  function Uses(n: nat, count: nat, w: nat): nat
    requires count > 0
  {
    if n == 0 then 0 else Uses(n - 1, count, w) + if Next(n - 1, count) == w then 1 else 0
  }

  lemma {:induction false} UsesExactly(n: nat, count: nat, w: nat)
    requires w < count
    ensures Uses(n, count, w) == n / count + if w < n % count then 1 else 0
  {
    if n > 0 {
      UsesExactly(n - 1, count, w);
      Successor(n, count);
    } else {
      Quotient(0, count, 0, 0);
    }
  }

  /** Round robin is fair: no waypoint is ever used more than once oftener than another. */
  lemma Fair(n: nat, count: nat, v: nat, w: nat)
    requires v < count && w < count
    ensures Uses(n, count, v) <= Uses(n, count, w) + 1
  {
    UsesExactly(n, count, v);
    UsesExactly(n, count, w);
  }

  /** What call `i` tells the entity: something exactly if the call is a candidate whose number among
      the candidates is a multiple of the stride, and then the waypoint is next in the round. */
  function MoveOf(waypoints: seq<Vec3>, stride: nat, mode: Mode, calls: seq<Call>, i: nat): Option<Move>
    requires i < |calls| && |waypoints| > 0 && stride > 0
  {
    var number := HowMany(calls[..i + 1], Candidate);
    if IsCandidate(calls[i]) && number % stride == 0
    then Told(mode, waypoints[Next(Due(HowMany(calls[..i], Candidate), stride), |waypoints|)], calls[i].victim.origin)
    else None
  }

  lemma {:induction false} KindsPartition(calls: seq<Call>)
    ensures |calls| == HowMany(calls, Recursive) + HowMany(calls, WithoutIdentity) + HowMany(calls, WithoutName) +
                       HowMany(calls, NoWalker) + HowMany(calls, Candidate)
  {
    if |calls| > 0 {
      KindsPartition(calls[..|calls| - 1]);
    }
  }

  lemma HowManyNext(calls: seq<Call>, i: nat)
    requires i < |calls|
    ensures forall kind :: HowMany(calls[..i + 1], kind) == HowMany(calls[..i], kind) + Bit(kind == KindOf(calls[i]))
  {
    hide KindOf;
    assert calls[..i + 1][..i] == calls[..i];
  }

  lemma NoneYet(calls: seq<Call>)
    ensures forall kind :: HowMany(calls[..0], kind) == 0
  {
  }

  /** Any run of damage callbacks after the counters were reset: how many there were of each kind, and
      what every single one told its entity. */
  method Run(enabled: bool, stride: nat, mode: Mode, text: string, parse: string -> Option<Vec3>, calls: seq<Call>)
    returns (attempts: nat, callbacks: nat, outcomes: map<Kind, nat>, moves: seq<Option<Move>>)
    ensures var step, waypoints := if stride == 0 then 1 else stride, Waypoints(text, mode, parse);
            && |waypoints| > 0 && |moves| == |calls|
            && attempts == (if enabled then Due(HowMany(calls, Candidate), step) else 0)
            && forall i | 0 <= i < |calls| ::
                 moves[i] == if enabled then MoveOf(waypoints, step, mode, calls, i) else None
    ensures callbacks == if enabled then |calls| else 0
    ensures forall kind: Kind :: kind in outcomes && outcomes[kind] == if enabled then HowMany(calls, kind) else 0
  {
    hide Due, Next, Waypoints, KindOf, HowMany, Told;
    var p := new Patrol();
    p.Start(enabled, stride, mode, text, parse);
    ghost var waypoints := Waypoints(text, mode, parse);
    ghost var step := p.Stride();
    moves := [];
    NoneYet(calls);
    for i := 0 to |calls|
      invariant p.Valid() && p.enabled == enabled && p.mode == mode && fresh(p) && fresh(p.vectors)
      invariant p.Stride() == step && p.vectors[..p.waypointCount] == waypoints
      invariant forall kind: Kind :: p.Tally(kind) == if enabled then HowMany(calls[..i], kind) else 0
      invariant p.damageCallbacks == if enabled then i else 0
      invariant |moves| == i
      invariant forall j | 0 <= j < i :: moves[j] == if enabled then MoveOf(waypoints, step, mode, calls, j) else None
    {
      HowManyNext(calls, i);
      ghost var chosen := p.chosen;
      assert p.Tally(Candidate) == p.candidateWalkers;
      var move := p.MaybeApplyOnDamage(calls[i]);
      assert p.Tally(Candidate) == p.candidateWalkers;
      assert enabled ==> |chosen| == Due(HowMany(calls[..i], Candidate), step);
      assert enabled ==> p.candidateWalkers == HowMany(calls[..i + 1], Candidate);
      moves := moves + [move];
    }
    assert calls[..|calls|] == calls;
    attempts, callbacks := p.teleportAttempts, p.damageCallbacks;
    outcomes := map[Recursive := p.Tally(Recursive), WithoutIdentity := p.Tally(WithoutIdentity),
                    WithoutName := p.Tally(WithoutName), NoWalker := p.Tally(NoWalker),
                    Candidate := p.Tally(Candidate)];
    forall kind: Kind ensures kind in outcomes && outcomes[kind] == p.Tally(kind) {
      match kind case Recursive => case WithoutIdentity => case WithoutName => case NoWalker => case Candidate =>
    }
    DueNothing(p.Stride());
  }

  lemma DueNothing(stride: nat)
    requires stride > 0
    ensures Due(0, stride) == 0
  {
  }

  /** The split loop. */
  method ParseVectors(text: string, parse: string -> Option<Vec3>) returns (parsed: seq<Vec3>)
    ensures parsed == FirstOf(Vectors(Items(text), parse), MAX_WAYPOINTS)
    ensures |parsed| <= 8 && (|parsed| < 8 ==> parsed == Vectors(Items(text), parse))
  {
    hide Vectors, Items, Find;
    parsed := [];
    var remaining := text;
    ghost var rest := text;      // what the items still to come are made of
    while remaining != [] && |parsed| < MAX_WAYPOINTS
      invariant |parsed| <= MAX_WAYPOINTS && rest == remaining
      invariant parsed + Vectors(Items(rest), parse) == Vectors(Items(text), parse)
      decreases |remaining|
    {
      var separator := Find(remaining);
      var item := remaining[..separator];
      NextItem(remaining, separator, parse);
      rest := if separator == |remaining| then [] else remaining[separator + 1..];
      if item != [] {
        var value := parse(item);
        if value.Some? {
          parsed := parsed + [value.value];
        }
      }
      if separator == |remaining| {
        break;
      }
      remaining := remaining[separator + 1..];
    }
    if rest == [] { NoItems(parse); }
  }

  lemma NoItems(parse: string -> Option<Vec3>)
    ensures Vectors(Items([]), parse) == []
  {
  }

  // ---------------------------------------------------------------- told from the calls alone

  /** What every callback is counted as. */
  lemma KindsExactly(c: Call)
    ensures KindOf(c) == Recursive <==> c.recursive
    ensures KindOf(c) == WithoutIdentity <==> !c.recursive && c.victim.name == None
    ensures KindOf(c) == WithoutName <==> !c.recursive && c.victim.name == Some("")
    ensures KindOf(c) == Candidate <==>
            !c.recursive &&
            c.victim.name in {Some("npc_boss_tier2"), Some("alt_npc_boss_tier2"), Some("CNPC_Boss_Tier2")}
  {
  }

  /** The four waypoints that are used when none can be read: 900 or, for nudges, 500 units along each
      direction of the two axes. */
  lemma DefaultsExactly(mode: Mode, k: nat)
    requires k < 4
    ensures |Defaults(mode)| == 4
    ensures var v, d := Defaults(mode)[k], if mode == OriginNudge then 500.0 else 900.0;
            && v.z == 0.0 && v.x == (if k == 0 then d else if k == 2 then 0.0 - d else 0.0)
            && v.y == (if k == 1 then d else if k == 3 then 0.0 - d else 0.0)
  {
  }

  /** Every callback tells its entity to move exactly if it is a candidate whose number is a multiple of
      the stride. The waypoint is the one after the last used, round and round; it becomes the velocity,
      or is added to the origin if that can be read. */
  lemma MovesExactly(waypoints: seq<Vec3>, stride: nat, mode: Mode, calls: seq<Call>, i: nat)
    requires i < |calls| && |waypoints| > 0 && stride > 0
    ensures var n, c := HowMany(calls[..i + 1], Candidate), calls[i];
            var move := MoveOf(waypoints, stride, mode, calls, i);
            && (KindOf(c) != Candidate || n % stride != 0 ==> move == None)
            && (KindOf(c) == Candidate && n % stride == 0 ==>
                  && n / stride > 0
                  && var v := waypoints[(n / stride - 1) % |waypoints|];
                     && (mode == Velocity ==> move == Some(SetVelocity(v)))
                     && (mode == OriginNudge && !c.victim.origin.Origin? ==> move == None)
                     && (mode == OriginNudge && c.victim.origin.Origin? ==>
                           var at := c.victim.origin.at;
                           move == Some(SetPosition(Vec3(at.x + v.x, at.y + v.y, at.z + v.z)))))
  {
    hide KindOf, HowMany;
    HowManyNext(calls, i);
    var n := HowMany(calls[..i + 1], Candidate);
    assert n == HowMany(calls[..i], Candidate) + Bit(Candidate == KindOf(calls[i]));
    if KindOf(calls[i]) == Candidate { OneMore(n, stride); }
  }
}
