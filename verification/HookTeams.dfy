/** Team bytes survive every run: what the open detours still have to restore, restored, gives the
    initial team map, overwritten with the neutral team where the neutraliser was applied. */
module HookTeams {
  import opened Common
  import opened HookModel

  /** The neutraliser really writes. */
  predicate Overwrites(w: World) { NeutralizerOn(w) && w.neutralTeam <= 255 }

  /** The initial map with the neutral team on exactly the entities handed to the neutraliser. */
  function Overwritten(w: World, team: map<Entity, Byte>, handed: set<Entity>): map<Entity, Byte> {
    map e | e in team :: if Overwrites(w) && e in handed && Writable(w, team, e) then w.neutralTeam else team[e]
  }

  function UndoScope(w: World, team: map<Entity, Byte>, scope: FilterScope): map<Entity, Byte> {
    var team := if scope.sourceSpoofed then WriteTeam(w, team, scope.source, scope.sourceTeam) else team;
    if scope.targetSpoofed then WriteTeam(w, team, scope.target, scope.targetTeam) else team
  }

  /** What the second half of an open detour will restore. */
  function Undo(w: World, team: map<Entity, Byte>, frame: Frame): map<Entity, Byte> {
    match frame
    case DamageFrame(victim, value, spoofed) => if spoofed then WriteTeam(w, team, victim, value) else team
    case PreludeFrame(scope) => UndoScope(w, team, scope)
    case FilterFrame(scope) => UndoScope(w, team, scope)
    case _ => team
  }

  /** All open detours returning, innermost first. */
  function Unwind(w: World, team: map<Entity, Byte>, stack: Stack): map<Entity, Byte> {
    match stack
    case Idle => team
    case On(top, rest) => Unwind(w, Undo(w, team, top), rest)
  }

  ghost predicate ScopeSound(w: World, team: map<Entity, Byte>, scope: FilterScope) {
    && (scope.sourceSpoofed ==>
          Writable(w, team, scope.source) && (Overwrites(w) ==> scope.sourceTeam == w.neutralTeam))
    && (scope.targetSpoofed ==>
          Writable(w, team, scope.target) && (Overwrites(w) ==> scope.targetTeam == w.neutralTeam))
  }

  /** Whatever a frame restores can be written, and is the neutral team if there is one. */
  ghost predicate FrameSound(w: World, team: map<Entity, Byte>, frame: Frame) {
    match frame
    case DamageFrame(victim, value, spoofed) =>
      spoofed ==> Writable(w, team, victim) && (Overwrites(w) ==> value == w.neutralTeam)
    case PreludeFrame(scope) => ScopeSound(w, team, scope)
    case FilterFrame(scope) => ScopeSound(w, team, scope)
    case _ => true
  }

  ghost predicate FramesSound(w: World, team: map<Entity, Byte>, stack: Stack) {
    stack.On? ==> FrameSound(w, team, stack.top) && FramesSound(w, team, stack.rest)
  }

  ghost predicate TeamInv(w: World, init: map<Entity, Byte>, s: State) {
    && s.team.Keys == init.Keys
    && FramesSound(w, init, s.stack)
    && Unwind(w, s.team, s.stack) == Overwritten(w, init, s.seen.handed)
  }

  // ---------------------------------------------------------------- unwinding

  lemma UndoWrite(w: World, init: map<Entity, Byte>, team: map<Entity, Byte>, frame: Frame, e: Entity)
    requires Overwrites(w) && team.Keys == init.Keys && e in team && FrameSound(w, init, frame)
    ensures Undo(w, team[e := w.neutralTeam], frame) == Undo(w, team, frame)[e := w.neutralTeam]
    ensures Undo(w, team, frame).Keys == team.Keys
  {
  }

  /** Writing the neutral team now is seen unchanged after all open detours have returned. */
  lemma {:induction false} UnwindWrite(w: World, init: map<Entity, Byte>, team: map<Entity, Byte>,
                                       stack: Stack, e: Entity)
    requires Overwrites(w) && team.Keys == init.Keys && e in team && FramesSound(w, init, stack)
    ensures Unwind(w, team[e := w.neutralTeam], stack) == Unwind(w, team, stack)[e := w.neutralTeam]
  {
    if stack.On? {
      UndoWrite(w, init, team, stack.top, e);
      UnwindWrite(w, init, Undo(w, team, stack.top), stack.rest, e);
    }
  }

  // ---------------------------------------------------------------- the neutraliser

  lemma NeutralizeTeam(w: World, init: map<Entity, Byte>, s: State, e: Entity)
    requires TeamInv(w, init, s)
    ensures TeamInv(w, init, Neutralize(w, s, e))
    ensures Neutralize(w, s, e).stack == s.stack
    ensures Overwrites(w) && Writable(w, init, e) ==> Neutralize(w, s, e).team == s.team[e := w.neutralTeam]
    ensures !(Overwrites(w) && Writable(w, init, e)) ==> Neutralize(w, s, e).team == s.team
  {
    if Overwrites(w) && Writable(w, init, e) {
      UnwindWrite(w, init, s.team, s.stack, e);
      assert s.team[e] == w.neutralTeam ==> s.team[e := w.neutralTeam] == s.team;
    }
    assert Overwritten(w, init, s.seen.handed + {e}) ==
           if Overwrites(w) && Writable(w, init, e)
           then Overwritten(w, init, s.seen.handed)[e := w.neutralTeam]
           else Overwritten(w, init, s.seen.handed);
  }

  /** After the neutraliser has seen an entity, reading it gives the neutral team. */
  ghost predicate Neutral(w: World, team: map<Entity, Byte>, e: Entity) {
    Overwrites(w) && Writable(w, team, e) ==> team[e] == w.neutralTeam
  }

  lemma Neutralize2Team(w: World, init: map<Entity, Byte>, s: State, a: Entity, b: Entity)
    requires TeamInv(w, init, s)
    ensures TeamInv(w, init, Neutralize2(w, s, a, b))
    ensures Neutralize2(w, s, a, b).stack == s.stack
    ensures Neutral(w, Neutralize2(w, s, a, b).team, a) && Neutral(w, Neutralize2(w, s, a, b).team, b)
  {
    NeutralizeTeam(w, init, s, a);
    NeutralizeTeam(w, init, Neutralize(w, s, a), b);
  }

  lemma Neutralize3Team(w: World, init: map<Entity, Byte>, s: State, a: Entity, b: Entity, c: Entity)
    requires TeamInv(w, init, s)
    ensures TeamInv(w, init, Neutralize3(w, s, a, b, c))
  {
    Neutralize2Team(w, init, s, a, b);
    NeutralizeTeam(w, init, Neutralize2(w, s, a, b), c);
  }

  // ---------------------------------------------------------------- spoofs

  /** The two spoofs of a filter call are undone exactly by the scope they leave behind. */
  lemma SpoofsUndone(w: World, s: State, source: Entity, target: Entity)
    requires Neutral(w, s.team, source) && Neutral(w, s.team, target)
    ensures var (s1, scope1) := SpoofSource(w, s, Classify(w, s.team, source, target));
            var (s2, scope2) := SpoofTarget(w, s1, scope1);
            && s2.team.Keys == s.team.Keys
            && UndoScope(w, s2.team, scope2) == s.team
            && ScopeSound(w, s.team, scope2)
            && s2.stack == s.stack && s2.seen == s.seen
  {
    var scope := Classify(w, s.team, source, target);
    var (s1, scope1) := SpoofSource(w, s, scope);
    var (s2, scope2) := SpoofTarget(w, s1, scope1);
    var undone := UndoScope(w, s2.team, scope2);
    assert undone.Keys == s.team.Keys;
    forall e | e in undone ensures undone[e] == s.team[e] {
    }
    assert undone == s.team;
  }

  /** Entering a filter leaves the unwound map as if only the neutraliser had run. */
  lemma BeginFilterTeam(w: World, init: map<Entity, Byte>, s: State, source: Entity, target: Entity, unit: nat)
    requires TeamInv(w, init, s)
    ensures var (s', scope) := BeginFilter(w, s, source, target, unit);
            && s'.team.Keys == init.Keys && s'.stack == s.stack && ScopeSound(w, init, scope)
            && Unwind(w, UndoScope(w, s'.team, scope), s.stack) == Overwritten(w, init, s'.seen.handed)
  {
    if w.enabled {
      Neutralize2Team(w, init, s, source, target);
      var s1 := Neutralize2(w, s, source, target);
      var scope := Classify(w, s1.team, source, target);
      SpoofsUndone(w, s1.(filter := CountFilterCall(w, s1, scope, unit)), source, target);
    }
  }

  lemma StartFilterTeam(w: World, init: map<Entity, Byte>, s: State, scope: FilterScope)
    requires s.team.Keys == init.Keys && FramesSound(w, init, s.stack) && ScopeSound(w, init, scope)
    requires Unwind(w, UndoScope(w, s.team, scope), s.stack) == Overwritten(w, init, s.seen.handed)
    ensures TeamInv(w, init, StartFilter(w, s, scope))
    ensures TeamInv(w, init, Push(s, PreludeFrame(scope)))
  {
  }

  lemma EnterFilterTeam(w: World, init: map<Entity, Byte>, s: State, e: Event)
    requires TeamInv(w, init, s) && e.EnterFilter?
    ensures TeamInv(w, init, Enter(w, s, e))
  {
    var s0 := EnterScope(s);
    BeginFilterTeam(w, init, s0, e.source, e.target, e.unit);
    var (s1, scope) := BeginFilter(w, s0, e.source, e.target, e.unit);
    var asked := s1.(bitset := s1.bitset.(attempts := s1.bitset.attempts + 1));
    StartFilterTeam(w, init, s1, scope);
    StartFilterTeam(w, init, asked, scope);
    StartFilterTeam(w, init, asked.(bitset := asked.bitset.(failures := asked.bitset.failures + 1)), scope);
  }

  /** The victim spoof is undone exactly by the frame it leaves behind. */
  lemma FriendlyFireTeam(w: World, init: map<Entity, Byte>, s: State, e: Entity, recursive: bool)
    requires TeamInv(w, init, s) && !FriendlyFireFaults(w, s.team, e, recursive)
    requires !recursive ==> Neutral(w, s.team, e)
    ensures var (s', frame) := BeginFriendlyFire(w, s, e, recursive);
            Undo(w, s'.team, frame) == s.team && TeamInv(w, init, Push(s', frame))
  {
    var (s', frame) := BeginFriendlyFire(w, s, e, recursive);
    assert frame.spoofed ==> s'.team == s.team[e := OpposingTeam(s.team[e])] && frame.team == s.team[e];
    assert Undo(w, s'.team, frame) == s.team;
  }

  lemma EnterDamageTeam(w: World, init: map<Entity, Byte>, s: State, e: Event)
    requires TeamInv(w, init, s) && e.EnterDamage? && !Faults(w, s, e)
    ensures TeamInv(w, init, Enter(w, s, e))
  {
    var recursive, s0 := s.depth != 0, EnterScope(s);
    NeutralizeTeam(w, init, s0, e.victim);
    var s1 := RecordDamage(w, s0, e, recursive);
    assert TeamInv(w, init, s1);
    FriendlyFireTeam(w, init, s1, e.victim, recursive);
  }

  lemma PushPlainTeam(w: World, init: map<Entity, Byte>, s: State, frame: Frame)
    requires TeamInv(w, init, s)
    requires frame.IoFrame? || frame.CallerFrame? || frame.SecondaryFrame? || frame.ClassifierFrame?
    ensures TeamInv(w, init, Push(s, frame))
  {
  }

  lemma EnterTeam(w: World, init: map<Entity, Byte>, s: State, e: Event)
    requires TeamInv(w, init, s) && !e.Leave? && !Faults(w, s, e)
    ensures TeamInv(w, init, Enter(w, s, e))
  {
    var s0 := EnterScope(s);
    match e
    case EnterDamage(_, _, _, _, _) => EnterDamageTeam(w, init, s, e);
    case EnterFilter(_, _, _, _) => EnterFilterTeam(w, init, s, e);
    case EnterIo(self, activator, caller) =>
      Neutralize3Team(w, init, s0, self, activator, caller);
      PushPlainTeam(w, init, if s.depth != 0 then s0 else Neutralize3(w, s0, self, activator, caller), IoFrame);
    case EnterCaller(source, target) => PushPlainTeam(w, init, s0, CallerFrame(source, target, s.depth != 0));
    case EnterSecondary(source, attacker, target) =>
      PushPlainTeam(w, init, s0, SecondaryFrame(source, attacker, target, s.depth != 0));
    case EnterClassifier(target, out) => PushPlainTeam(w, init, s, ClassifierFrame(target, out));
  }

  // ---------------------------------------------------------------- returning

  /** Popping a frame whose restores have been done. */
  lemma PopTeam(w: World, init: map<Entity, Byte>, s: State, s': State)
    requires TeamInv(w, init, s) && s.stack.On?
    requires s'.stack == s.stack.rest && s'.seen.handed == s.seen.handed
    requires s'.team == Undo(w, s.team, s.stack.top)
    ensures TeamInv(w, init, s')
  {
  }

  lemma EndRestoringTeam(w: World, init: map<Entity, Byte>, s: State, e: Event)
    requires TeamInv(w, init, s) && s.stack.On? && e.Leave?
    requires s.stack.top.FilterFrame? || s.stack.top.DamageFrame?
    ensures TeamInv(w, init, Finish(w, s.(stack := s.stack.rest), s.stack.top, e))
  {
    assert FrameSound(w, init, s.stack.top);
    PopTeam(w, init, s, Finish(w, s.(stack := s.stack.rest), s.stack.top, e));
  }

  lemma EndPreludeTeam(w: World, init: map<Entity, Byte>, s: State, e: Event)
    requires TeamInv(w, init, s) && s.stack.On? && e.Leave? && s.stack.top.PreludeFrame?
    ensures TeamInv(w, init, Finish(w, s.(stack := s.stack.rest), s.stack.top, e))
  {
    assert FrameSound(w, init, s.stack.top);
    StartFilterTeam(w, init, FinishBitset(s.(stack := s.stack.rest), e.bit), s.stack.top.scope);
  }

  lemma EndRecordingTeam(w: World, init: map<Entity, Byte>, s: State, e: Event)
    requires TeamInv(w, init, s) && s.stack.On? && e.Leave?
    requires s.stack.top.CallerFrame? || s.stack.top.SecondaryFrame? || s.stack.top.ClassifierFrame? ||
             s.stack.top.IoFrame?
    ensures TeamInv(w, init, Finish(w, s.(stack := s.stack.rest), s.stack.top, e))
  {
    var popped := s.(stack := s.stack.rest);
    PopTeam(w, init, s, popped);
    match s.stack.top
    case CallerFrame(source, target, _) => Neutralize2Team(w, init, popped, source, target);
    case SecondaryFrame(source, attacker, target, _) => Neutralize3Team(w, init, popped, source, attacker, target);
    case ClassifierFrame(target, _) => NeutralizeTeam(w, init, popped, target);
    case IoFrame =>
  }

  lemma ReturnTeam(w: World, init: map<Entity, Byte>, s: State, e: Event)
    requires TeamInv(w, init, s) && e.Leave? && s.stack.On?
    ensures TeamInv(w, init, Return(w, s, e))
  {
    match s.stack.top
    case DamageFrame(_, _, _) => EndRestoringTeam(w, init, s, e);
    case FilterFrame(_) => EndRestoringTeam(w, init, s, e);
    case PreludeFrame(_) => EndPreludeTeam(w, init, s, e);
    case _ => EndRecordingTeam(w, init, s, e);
  }

  lemma StepTeam(w: World, init: map<Entity, Byte>, s: State, e: Event)
    requires TeamInv(w, init, s) && !Faults(w, s, e)
    ensures TeamInv(w, init, Step(w, s, e))
  {
    if !e.Leave? {
      EnterTeam(w, init, s, e);
    } else if s.stack.On? {
      ReturnTeam(w, init, s, e);
    }
  }

  lemma InitTeam(w: World, setup: Setup, init: map<Entity, Byte>)
    ensures TeamInv(w, init, Init(setup, init))
  {
    assert Overwritten(w, init, {}) == init;
  }
}
