/** When the handshake holds: exactly which states no schedule of the calls under way can lead astray,
    exactly which calls and missed kills leave such a state, and that one call at a time never does. */
module HandshakeSafety {
  import opened Options
  import opened BoardState
  import opened Handshake
  import FreshName

  // ---- What a call still does to the panes -----------------------------------------------------

  /** Some write of the call lowers the flag. */
  predicate Lowers(c: Call) {
    c.Editing? ==> !c.local.spawning
  }

  /** The call may still spawn a pane. */
  predicate SpawnsMore(c: Call) {
    match c
    case Sweeping(project) => project.Some?
    case Fetching(_, _) => true
    case Opening(_, todo, _, _) => todo != []
    case Calling(_, _, _) => true
    case Awaiting(_, todo, bulk, _) => bulk && |todo| > 1
    case Recording(_, todo) => todo != []
    case Finishing(_) => false
    case Editing(_, _) => false
  }

  /** The board the call writes last records the pane, or leaves the flag up, or the pane is killed
      first. */
  predicate Spares(c: Call, pane: string) {
    match c
    case Sweeping(_) => true
    case Fetching(local, victims) => pane in local.paneToNode || pane in victims
    case Opening(local, _, _, victims) => pane in local.paneToNode || pane in victims
    case Awaiting(local, _, _, awaited) => pane in local.paneToNode || pane == awaited
    case Editing(local, _) => pane in local.paneToNode || local.spawning
    case _ => pane in c.local.paneToNode
  }

  /** The stored board announces a spawn under way. */
  predicate Announced(s: State) {
    s.store.Some? && s.store.value.spawning
  }

  /** A read now would not turn the pane away, and no call under way will make one do so. */
  ghost predicate Covered(s: State, pane: string) {
    && (s.store.Some? && !s.store.value.spawning ==> pane in s.store.value.paneToNode)
    && forall id :: id in s.calls ==> Spares(s.calls[id], pane)
  }

  ghost predicate AllCovered(s: State) {
    forall p :: IsPolling(s, p) ==> Covered(s, p)
  }

  /** While one call may still spawn, no other lowers the flag. */
  ghost predicate NoRivals(s: State) {
    forall a, b :: a in s.calls && b in s.calls && a != b && SpawnsMore(s.calls[a]) ==> !Lowers(s.calls[b])
  }

  /** A call about to spawn stands announced in the store. */
  ghost predicate CallsAnnounced(s: State) {
    forall id :: id in s.calls && s.calls[id].Calling? ==> Announced(s)
  }

  ghost predicate Protected(s: State) {
    Intact(s) && AllCovered(s) && NoRivals(s) && CallsAnnounced(s)
  }

  // ---- Choices and continuations ---------------------------------------------------------------

  /** A kill that leaves a polling pane alive. */
  predicate Misses(s: State, step: Step) {
    match step
    case Swept(_, killed) => exists p :: p in s.panes && s.panes[p].Polling? && p !in killed
    case Killed(_, pane, gone) => !gone && IsPolling(s, pane)
    case _ => false
  }

  /** The step begins a call, or misses a polling pane; everything else is the calls under way and the
      panes going on. */
  ghost predicate Chooses(s: State, step: Step) {
    (MayBegin(step) && Begins(s, step).Some?) || Misses(s, step)
  }

  ghost predicate Quiet(s: State, steps: seq<Step>)
    requires Legal(s, steps)
    decreases |steps|
  {
    steps == [] || (!Chooses(s, steps[0]) && Quiet(Apply(s, steps[0]), steps[1..]))
  }

  /** Some continuation of the calls under way leads a pane astray. */
  ghost predicate CanStray(s: State) {
    exists steps :: StraysBy(s, steps)
  }

  ghost predicate StraysBy(s: State, steps: seq<Step>) {
    Legal(s, steps) && Quiet(s, steps) && !Intact(Run(s, steps))
  }

  // ---- Protected states cannot stray -----------------------------------------------------------

  /** A call moves on without becoming more dangerous. */
  ghost predicate Eases(c: Call, d: Call) {
    && (forall p :: Spares(c, p) ==> Spares(d, p))
    && (SpawnsMore(d) ==> SpawnsMore(c))
    && (Lowers(d) ==> Lowers(c))
  }

  lemma MoveProtected(s: State, t: State, id: nat)
    requires Protected(s) && Intact(t) && id in s.calls && OthersStay(s, t, id)
    requires id in t.calls ==> Eases(s.calls[id], t.calls[id])
    requires forall p :: IsPolling(t, p) ==> IsPolling(s, p)
    requires t.store == s.store && (id in t.calls && t.calls[id].Calling? ==> Announced(t))
    ensures Protected(t)
  {
    forall p | IsPolling(t, p)
      ensures Covered(t, p)
    {
      assert Covered(s, p);
    }
  }

  lemma WriteEases(s: State, id: nat)
    requires id in s.calls && CanWrite(s.calls[id]) && CallGrounded(s, s.calls[id])
    ensures id in Written(s, id).calls ==> Eases(s.calls[id], Written(s, id).calls[id])
  {
  }

  lemma WriteCovers(s: State, id: nat, pane: string)
    requires id in s.calls && CanWrite(s.calls[id]) && CallGrounded(s, s.calls[id])
    requires Covered(s, pane)
    ensures Covered(Written(s, id), pane)
  {
    WriteEases(s, id);
    assert Spares(s.calls[id], pane);
  }

  /** A write that lowers the flag is the last of its call, and nobody is about to spawn. */
  lemma WriteAnnounces(s: State, id: nat)
    requires Grounded(s) && Protected(s) && id in s.calls && CanWrite(s.calls[id])
    ensures CallsAnnounced(Written(s, id))
  {
    assert CallGrounded(s, s.calls[id]);
    var t := Written(s, id);
    forall k | k in t.calls && t.calls[k].Calling?
      ensures Announced(t)
    {
      if k != id {
        assert SpawnsMore(s.calls[k]) && !Lowers(s.calls[id]);
      }
    }
  }

  lemma WriteProtected(s: State, id: nat)
    requires Grounded(s) && Protected(s) && id in s.calls && CanWrite(s.calls[id])
    ensures Protected(Written(s, id))
  {
    assert CallGrounded(s, s.calls[id]);
    var t := Written(s, id);
    WriteEases(s, id);
    WriteAnnounces(s, id);
    forall p | IsPolling(t, p)
      ensures Covered(t, p)
    {
      assert IsPolling(s, p);
      WriteCovers(s, id, p);
    }
  }

  lemma SpawnCallProtected(s: State, id: nat, pane: string)
    requires Protected(s) && Enabled(s, SpawnCall(id, pane))
    ensures Protected(AfterSpawnCall(s, id, pane))
  {
    var t := AfterSpawnCall(s, id, pane);
    forall p | IsPolling(t, p)
      ensures Covered(t, p)
    {
      if p != pane {
        assert Covered(s, p);
      }
    }
  }

  lemma SweepProtected(s: State, id: nat, killed: set<string>)
    requires Protected(s) && Enabled(s, Swept(id, killed)) && !Misses(s, Swept(id, killed))
    ensures Protected(AfterSweep(s, id, killed))
  {
    var t := AfterSweep(s, id, killed);
    assert forall p :: !IsPolling(t, p);
  }

  lemma KillProtected(s: State, id: nat, pane: string, gone: bool)
    requires Protected(s) && Enabled(s, Killed(id, pane, gone)) && !Misses(s, Killed(id, pane, gone))
    ensures Protected(AfterKill(s, id, pane, gone))
  {
    var t := AfterKill(s, id, pane, gone);
    forall p | IsPolling(t, p)
      ensures Covered(t, p)
    {
      assert Covered(s, p) && p != pane;
    }
  }

  lemma ReadProtected(s: State, pane: string)
    requires Protected(s) && IsPolling(s, pane)
    ensures Protected(Read(s, pane))
  {
    assert Covered(s, pane);
    var t := Read(s, pane);
    forall p | IsPolling(t, p)
      ensures Covered(t, p)
    {
      assert Covered(s, p);
    }
  }

  lemma RemovedProtected(s: State, step: Step)
    requires Protected(s) && Enabled(s, step) && MayBegin(step) && Begins(s, step).None?
    ensures Protected(Begun(s, step))
  {
    var t := Begun(s, step);
    forall p | IsPolling(t, p)
      ensures Covered(t, p)
    {
      assert Covered(s, p);
    }
  }

  lemma FetchProtected(s: State, id: nat, nodes: Option<seq<PaneEntry>>)
    requires Protected(s) && id in s.calls && s.calls[id].Fetching?
    ensures Protected(AfterFetch(s, id, nodes))
  {
    MoveProtected(s, AfterFetch(s, id, nodes), id);
  }

  lemma ReturnProtected(s: State, id: nat)
    requires Protected(s) && id in s.calls && s.calls[id].Awaiting? && s.calls[id].todo != []
    ensures Protected(Returned(s, id))
  {
    MoveProtected(s, Returned(s, id), id);
  }

  lemma NoPaneProtected(s: State, id: nat)
    requires Protected(s) && id in s.calls && s.calls[id].Calling? && s.calls[id].todo != []
    ensures Protected(AfterNoPane(s, id))
  {
    MoveProtected(s, AfterNoPane(s, id), id);
  }

  lemma UnreadProtected(s: State)
    requires Protected(s)
    ensures Protected(s.(suppressed := true))
  {
    assert forall p :: IsPolling(s, p) ==> Covered(s.(suppressed := true), p);
  }

  /** A reload loses the calls and what they still had to write; it leaves the store alone. */
  lemma RestartProtected(s: State)
    requires Protected(s)
    ensures Protected(s.(calls := map[], suppressed := false))
  {
    var t := s.(calls := map[], suppressed := false);
    forall p | IsPolling(t, p)
      ensures Covered(t, p)
    {
      assert Covered(s, p);
    }
  }

  /** Whatever is not a choice keeps a state protected. */
  lemma QuietStepProtected(s: State, step: Step)
    requires Grounded(s) && Protected(s) && Enabled(s, step) && !Chooses(s, step)
    ensures Protected(Apply(s, step))
  {
    match step
    case Restart => RestartProtected(s);
    case UnreadClick => UnreadProtected(s);
    case Swept(id, killed) => SweepProtected(s, id, killed);
    case Fetched(id, nodes) => FetchProtected(s, id, nodes);
    case Killed(id, pane, gone) => KillProtected(s, id, pane, gone);
    case Write(id) => WriteProtected(s, id);
    case SpawnCall(id, pane) => SpawnCallProtected(s, id, pane);
    case SpawnReturn(id) => ReturnProtected(s, id);
    case SpawnNoPane(id) => NoPaneProtected(s, id);
    case SpawnThrows(id) => MoveProtected(s, Without(s, id).(suppressed := false), id);
    case PaneReads(pane) => ReadProtected(s, pane);
    case PaneReadFails(_) =>
    case _ => RemovedProtected(s, step);
  }

  lemma {:induction false} QuietRunProtected(s: State, steps: seq<Step>)
    requires Grounded(s) && Protected(s) && Legal(s, steps) && Quiet(s, steps)
    ensures Protected(Run(s, steps))
    decreases |steps|
  {
    if steps != [] {
      StepGrounded(s, steps[0]);
      QuietStepProtected(s, steps[0]);
      QuietRunProtected(Apply(s, steps[0]), steps[1..]);
    }
  }

  // ---- Unprotected states can stray ------------------------------------------------------------

  lemma StrayLater(s: State, step: Step)
    requires Enabled(s, step) && !Chooses(s, step) && CanStray(Apply(s, step))
    ensures CanStray(s)
  {
    var steps :| StraysBy(Apply(s, step), steps);
    RunCons(s, step, steps);
    assert ([step] + steps)[1..] == steps;
    assert StraysBy(s, [step] + steps);
  }

  lemma StrayNow(s: State, pane: string)
    requires Intact(s) && IsPolling(s, pane)
    requires s.store.Some? && !s.store.value.spawning && pane !in s.store.value.paneToNode
    ensures CanStray(s)
  {
    var t := Read(s, pane);
    assert pane in t.panes && (t.panes[pane].TookRecovery? || t.panes[pane].GaveUp?);
    assert !Intact(Run(t, []));
    RunCons(s, PaneReads(pane), []);
    assert Quiet(s, [PaneReads(pane)] + []) by {
      assert ([PaneReads(pane)] + [])[1..] == [];
    }
    assert StraysBy(s, [PaneReads(pane)] + []);
  }

  /** How far a call is from its last write. */
  function Rank(c: Call): nat {
    match c
    case Sweeping(_) => 7
    case Fetching(_, _) => 6
    case Opening(_, _, _, _) => 5
    case Awaiting(_, _, _, _) => 4
    case Recording(_, _) => 3
    case Calling(_, _, _) => 2
    case Finishing(_) => 1
    case Editing(_, _) => 1
  }

  function Todo(c: Call): nat {
    match c
    case Opening(_, todo, _, _) => |todo|
    case Calling(_, todo, _) => |todo|
    case Awaiting(_, todo, _, _) => |todo|
    case Recording(_, todo) => |todo|
    case _ => 0
  }

  function Victims(c: Call): set<string> {
    if c.Opening? then c.victims else {}
  }

  /** The call is nearer to its last write. */
  ghost predicate Nearer(c: Call, d: Call) {
    || Todo(d) < Todo(c)
    || (Todo(d) == Todo(c) && (Rank(d) < Rank(c) || (Rank(d) == Rank(c) && Victims(d) < Victims(c))))
  }

  /** A call that has only its last write left. */
  predicate AtLastWrite(c: Call) {
    c.Finishing? || c.Editing?
  }

  /** The call goes on towards a last write that leaves a polling pane out. */
  ghost predicate StillLeavesOut(s: State, t: State, id: nat, pane: string)
    requires id in s.calls
  {
    Intact(t) && IsPolling(t, pane) && id in t.calls && !Spares(t.calls[id], pane) && Nearer(s.calls[id], t.calls[id])
  }

  lemma HurryWriting(s: State, id: nat, pane: string)
    requires Intact(s) && IsPolling(s, pane) && id in s.calls && CallGrounded(s, s.calls[id])
    requires !Spares(s.calls[id], pane) && CanWrite(s.calls[id]) && !AtLastWrite(s.calls[id])
    ensures StillLeavesOut(s, Written(s, id), id, pane)
  {
  }

  /** The next step of a call that leaves a polling pane out, with the host giving it nothing. */
  lemma Hurry(s: State, id: nat, pane: string) returns (step: Step)
    requires Intact(s) && IsPolling(s, pane) && id in s.calls && CallGrounded(s, s.calls[id])
    requires !Spares(s.calls[id], pane) && !AtLastWrite(s.calls[id])
    ensures Enabled(s, step) && !Chooses(s, step) && StillLeavesOut(s, Apply(s, step), id, pane)
  {
    if CanWrite(s.calls[id]) {
      HurryWriting(s, id, pane);
      step := Write(id);
      return;
    }
    match s.calls[id]
    case Fetching(_, _) => step := Fetched(id, Some([]));
    case Opening(_, _, _, victims) =>
      var v :| v in victims;
      step := Killed(id, v, true);
    case Calling(_, _, _) => step := SpawnNoPane(id);
    case Awaiting(_, _, _, _) => step := SpawnReturn(id);
  }

  /** A call whose last write leaves a polling pane out can be hurried there, and the pane reads. */
  lemma {:induction false} LeftOutStrays(s: State, id: nat, pane: string)
    requires Grounded(s) && Intact(s) && IsPolling(s, pane) && id in s.calls && !Spares(s.calls[id], pane)
    ensures CanStray(s)
    decreases Todo(s.calls[id]), Rank(s.calls[id]), Victims(s.calls[id])
  {
    assert CallGrounded(s, s.calls[id]);
    if AtLastWrite(s.calls[id]) {
      StrayNow(Written(s, id), pane);
      StrayLater(s, Write(id));
    } else {
      var step := Hurry(s, id, pane);
      StepGrounded(s, step);
      LeftOutStrays(Apply(s, step), id, pane);
      StrayLater(s, step);
    }
  }

  /** There is always a pane id that has not been used. */
  lemma UnusedPane(s: State) returns (pane: string)
    ensures pane !in s.panes
  {
    if forall i: nat :: 1 <= i <= |s.panes| + 1 ==> FreshName.Candidate("pane", i) in s.panes.Keys {
      FreshName.Pigeonhole("pane", s.panes.Keys, |s.panes| + 1);
    }
    var i: nat :| 1 <= i <= |s.panes| + 1 && FreshName.Candidate("pane", i) !in s.panes.Keys;
    pane := FreshName.Candidate("pane", i);
  }

  lemma UnannouncedStrays(s: State, id: nat)
    requires Grounded(s) && Intact(s) && id in s.calls && s.calls[id].Calling? && !Announced(s)
    ensures CanStray(s)
  {
    assert CallGrounded(s, s.calls[id]);
    var pane := UnusedPane(s);
    StrayNow(AfterSpawnCall(s, id, pane), pane);
    StrayLater(s, SpawnCall(id, pane));
  }

  /** No call spares a pane that does not exist yet. */
  lemma NewPaneNotSpared(s: State, c: Call, pane: string)
    requires CallGrounded(s, c) && pane !in s.panes && Lowers(c) && !c.Sweeping?
    ensures !Spares(c, pane)
  {
  }

  /** The call is nearer to its next spawn. */
  ghost predicate Approaches(c: Call, d: Call) {
    SpawnsMore(d) && (Rank(d) < Rank(c) || (Rank(d) == Rank(c) && Victims(d) < Victims(c)))
  }

  /** The next step of a call that may still spawn, as far as it waits for the host. */
  lemma ApproachWaiting(s: State, id: nat) returns (step: Step)
    requires Intact(s) && id in s.calls && SpawnsMore(s.calls[id])
    requires s.calls[id].Sweeping? || s.calls[id].Fetching? || (s.calls[id].Opening? && s.calls[id].victims != {})
    ensures Enabled(s, step) && !Chooses(s, step) && (step.Swept? || step.Fetched? || step.Killed?) && step.id == id
    ensures Intact(Apply(s, step)) && id in Apply(s, step).calls && Approaches(s.calls[id], Apply(s, step).calls[id])
  {
    match s.calls[id]
    case Sweeping(_) => step := Swept(id, s.panes.Keys);
    case Fetching(_, _) => step := Fetched(id, Some([PaneEntry("", "", false, None)]));
    case Opening(_, _, _, victims) =>
      var v :| v in victims;
      step := Killed(id, v, true);
  }

  /** The same when it writes or has its pane. */
  lemma ApproachWriting(s: State, id: nat)
    requires Intact(s) && id in s.calls && SpawnsMore(s.calls[id]) && CallGrounded(s, s.calls[id])
    requires CanWrite(s.calls[id]) || s.calls[id].Awaiting?
    ensures
      var t := if CanWrite(s.calls[id]) then Written(s, id) else Returned(s, id);
      Intact(t) && id in t.calls && Approaches(s.calls[id], t.calls[id])
  {
  }

  lemma Approach(s: State, id: nat, rival: nat) returns (step: Step)
    requires Intact(s) && id in s.calls && rival in s.calls && id != rival && CallGrounded(s, s.calls[id])
    requires SpawnsMore(s.calls[id]) && !s.calls[id].Calling?
    ensures Enabled(s, step) && !Chooses(s, step)
    ensures
      var t := Apply(s, step);
      && Intact(t) && rival in t.calls && t.calls[rival] == s.calls[rival]
      && id in t.calls && Approaches(s.calls[id], t.calls[id])
  {
    var c := s.calls[id];
    if CanWrite(c) || c.Awaiting? {
      ApproachWriting(s, id);
      step := if c.Awaiting? then SpawnReturn(id) else Write(id);
    } else {
      step := ApproachWaiting(s, id);
    }
  }

  lemma SpawnPastRival(s: State, id: nat, rival: nat)
    requires Grounded(s) && Intact(s) && id in s.calls && rival in s.calls && id != rival
    requires s.calls[id].Calling? && Lowers(s.calls[rival]) && !s.calls[rival].Sweeping?
    ensures CanStray(s)
  {
    assert CallGrounded(s, s.calls[id]) && CallGrounded(s, s.calls[rival]);
    var pane := UnusedPane(s);
    NewPaneNotSpared(s, s.calls[rival], pane);
    SpawnCallGrounded(s, id, pane);
    LeftOutStrays(AfterSpawnCall(s, id, pane), rival, pane);
    StrayLater(s, SpawnCall(id, pane));
  }

  /** A call that may still spawn beside one that lowers the flag: a pane spawned by the first is left
      out by the second. */
  lemma {:induction false} RivalsStray(s: State, id: nat, rival: nat)
    requires Grounded(s) && Intact(s) && id in s.calls && rival in s.calls && id != rival
    requires SpawnsMore(s.calls[id]) && Lowers(s.calls[rival])
    ensures CanStray(s)
    decreases s.calls[rival].Sweeping?, Rank(s.calls[id]), Victims(s.calls[id])
  {
    assert CallGrounded(s, s.calls[id]);
    if s.calls[rival].Sweeping? {
      SweepGrounded(s, rival, s.panes.Keys);
      RivalsStray(AfterSweep(s, rival, s.panes.Keys), id, rival);
      StrayLater(s, Swept(rival, s.panes.Keys));
    } else if s.calls[id].Calling? {
      SpawnPastRival(s, id, rival);
    } else {
      var step := Approach(s, id, rival);
      StepGrounded(s, step);
      RivalsStray(Apply(s, step), id, rival);
      StrayLater(s, step);
    }
  }

  /** From a state that can arise, no continuation of the calls under way leads a pane astray exactly
      when the state is protected. */
  lemma CannotStrayIff(s: State)
    requires Grounded(s)
    ensures !CanStray(s) <==> Protected(s)
  {
    if Protected(s) {
      forall steps | Legal(s, steps) && Quiet(s, steps)
        ensures Intact(Run(s, steps))
      {
        QuietRunProtected(s, steps);
      }
    } else if !Intact(s) {
      assert StraysBy(s, []);
    } else if !CallsAnnounced(s) {
      var id :| id in s.calls && s.calls[id].Calling? && !Announced(s);
      UnannouncedStrays(s, id);
    } else if !NoRivals(s) {
      var id, rival :| id in s.calls && rival in s.calls && id != rival
                       && SpawnsMore(s.calls[id]) && Lowers(s.calls[rival]);
      RivalsStray(s, id, rival);
    } else {
      var p :| IsPolling(s, p) && !Covered(s, p);
      UncoveredStrays(s, p);
    }
  }

  lemma UncoveredStrays(s: State, pane: string)
    requires Grounded(s) && Intact(s) && IsPolling(s, pane) && !Covered(s, pane)
    ensures CanStray(s)
  {
    if s.store.Some? && !s.store.value.spawning && pane !in s.store.value.paneToNode {
      StrayNow(s, pane);
    } else {
      var id :| id in s.calls && !Spares(s.calls[id], pane);
      LeftOutStrays(s, id, pane);
    }
  }

  // ---- Which choices leave a protected state protected -----------------------------------------

  /** What can be checked before a call begins: it spares every polling pane, and it and the calls under
      way are not rivals. */
  ghost predicate Welcome(s: State, c: Call) {
    && (forall p :: IsPolling(s, p) ==> Spares(c, p))
    && (SpawnsMore(c) ==> forall id :: id in s.calls ==> !Lowers(s.calls[id]))
    && (Lowers(c) ==> forall id :: id in s.calls ==> !SpawnsMore(s.calls[id]))
  }

  /** A choice that can be made: a call that is welcome, a kill that misses no polling pane. */
  ghost predicate Sound(s: State, step: Step)
    requires Enabled(s, step)
  {
    && !Misses(s, step)
    && (MayBegin(step) && Begins(s, step).Some? ==> Welcome(Prepared(s, step), Begins(s, step).value))
  }

  lemma PreparedProtected(s: State, step: Step)
    requires Protected(s) && Enabled(s, step) && MayBegin(step)
    ensures Protected(Prepared(s, step))
  {
    var t := Prepared(s, step);
    forall p | IsPolling(t, p)
      ensures Covered(t, p)
    {
      assert Covered(s, p);
    }
  }

  lemma BeginProtectedIff(s: State, id: nat, c: Call)
    requires Protected(s) && id !in s.calls && !c.Calling?
    ensures Protected(With(s, id, c)) <==> Welcome(s, c)
  {
    var t := With(s, id, c);
    if Welcome(s, c) {
      forall p | IsPolling(t, p)
        ensures Covered(t, p)
      {
        assert Covered(s, p);
      }
    } else if p :| IsPolling(s, p) && !Spares(c, p) {
      assert IsPolling(t, p) && id in t.calls && !Covered(t, p);
    } else {
      var k :| k in s.calls && ((SpawnsMore(c) && Lowers(s.calls[k])) || (Lowers(c) && SpawnsMore(s.calls[k])));
      assert k in t.calls && t.calls[k] == s.calls[k] && t.calls[id] == c;
    }
  }

  /** A missed polling pane is left out by the call that meant to kill it. */
  lemma MissUnprotects(s: State, step: Step)
    requires Grounded(s) && Enabled(s, step) && Misses(s, step)
    ensures !Protected(Apply(s, step))
  {
    var t := Apply(s, step);
    assert CallGrounded(s, s.calls[step.id]);
    match step
    case Swept(id, killed) =>
      var p :| p in s.panes && s.panes[p].Polling? && p !in killed;
      assert IsPolling(t, p) && !Spares(t.calls[id], p);
    case Killed(id, pane, _) =>
      assert IsPolling(t, pane) && !Spares(t.calls[id], pane);
  }

  /** A step from a protected state leaves one exactly when it is sound. */
  lemma StepProtectedIff(s: State, step: Step)
    requires Grounded(s) && Protected(s) && Enabled(s, step)
    ensures Protected(Apply(s, step)) <==> Sound(s, step)
  {
    if Misses(s, step) {
      MissUnprotects(s, step);
    } else if MayBegin(step) && Begins(s, step).Some? {
      PreparedProtected(s, step);
      BeginProtectedIff(Prepared(s, step), step.id, Begins(s, step).value);
    } else {
      QuietStepProtected(s, step);
    }
  }

  /** In no state of the run can the calls under way lead a pane astray. */
  ghost predicate NeverCanStray(s: State, steps: seq<Step>)
    requires Legal(s, steps)
    decreases |steps|
  {
    !CanStray(s) && (steps == [] || NeverCanStray(Apply(s, steps[0]), steps[1..]))
  }

  ghost predicate AllSound(s: State, steps: seq<Step>)
    requires Legal(s, steps)
    decreases |steps|
  {
    steps == [] || (Sound(s, steps[0]) && AllSound(Apply(s, steps[0]), steps[1..]))
  }

  lemma {:induction false} RunProtectedIff(s: State, steps: seq<Step>)
    requires Grounded(s) && Protected(s) && Legal(s, steps)
    ensures NeverCanStray(s, steps) <==> AllSound(s, steps)
    ensures AllSound(s, steps) ==> Protected(Run(s, steps))
    decreases |steps|
  {
    CannotStrayIff(s);
    if steps != [] {
      var t := Apply(s, steps[0]);
      StepGrounded(s, steps[0]);
      StepProtectedIff(s, steps[0]);
      CannotStrayIff(t);
      if Protected(t) {
        RunProtectedIff(t, steps[1..]);
      } else {
        assert CanStray(t) && !NeverCanStray(t, steps[1..]);
      }
    }
  }

  /** Over every run from the start: the calls under way can never lead a pane astray exactly when every
      call was welcome when it began and no kill missed a polling pane. */
  lemma EveryRunSafeIff(steps: seq<Step>)
    requires Legal(INITIAL, steps)
    ensures NeverCanStray(INITIAL, steps) <==> AllSound(INITIAL, steps)
  {
    RunProtectedIff(INITIAL, steps);
  }

  /** In such a run a spawned pane is polling, gone, or resolved to exactly the entry it was spawned for;
      and whenever the flag is down, the next successful read of a polling pane resolves it. */
  lemma EveryPaneResolves(steps: seq<Step>, pane: string)
    requires Legal(INITIAL, steps) && AllSound(INITIAL, steps) && pane in Run(INITIAL, steps).panes
    ensures
      var s := Run(INITIAL, steps);
      && !s.panes[pane].TookRecovery? && !s.panes[pane].GaveUp?
      && (s.panes[pane].Resolved? ==> pane in s.intended && s.panes[pane].entry == s.intended[pane])
      && (s.panes[pane].Polling? && s.store.Some? && !s.store.value.spawning ==>
            pane in s.intended && Read(s, pane).panes[pane] == Resolved(s.intended[pane]))
  {
    RunProtectedIff(INITIAL, steps);
    RunGrounded(INITIAL, steps);
    var s := Run(INITIAL, steps);
    if IsPolling(s, pane) {
      assert Covered(s, pane);
    }
  }

  // ---- One call at a time ----------------------------------------------------------------------

  /** No call begins during another or is lost in a reload, no polling pane outlives a kill meant for it,
      and the node of a polling pane is deleted only once the pane is gone. */
  ghost predicate InTurn(s: State, step: Step)
    requires Enabled(s, step)
  {
    && !Misses(s, step)
    && (step.Restart? || (MayBegin(step) && Begins(s, step).Some?) ==> s.calls == map[])
    && (step.Delete? && step.deletion.OpenPane? ==> !IsPolling(s, step.deletion.pane))
  }

  predicate InStore(s: State, pane: string) {
    s.store.Some? && pane in s.store.value.paneToNode
  }

  /** Where the entry of a polling pane is while the only call stands here. */
  predicate HeldBy(s: State, c: Call, pane: string) {
    match c
    case Fetching(_, _) => InStore(s, pane)
    case Calling(local, _, _) => s.store == Some(local) && pane in local.paneToNode
    case Awaiting(local, _, _, awaited) => pane in local.paneToNode || pane == awaited
    case Recording(local, _) => pane in local.paneToNode
    case Finishing(local) => pane in local.paneToNode
    case Editing(local, _) => pane in local.paneToNode
    case _ => true
  }

  ghost predicate Held(s: State, pane: string) {
    && (s.calls == map[] ==> InStore(s, pane))
    && forall id :: id in s.calls ==> HeldBy(s, s.calls[id], pane)
  }

  ghost predicate Orderly(s: State) {
    && (forall a, b :: a in s.calls && b in s.calls ==> a == b)
    && forall p :: IsPolling(s, p) ==> Held(s, p)
  }

  /** Begun while nothing else is under way, a call spares every polling pane. */
  lemma LoneBeginSpares(s: State, step: Step, pane: string)
    requires Enabled(s, step) && InTurn(s, step) && MayBegin(step) && Begins(s, step).Some?
    requires IsPolling(Prepared(s, step), pane) && InStore(s, pane)
    ensures Spares(Begins(s, step).value, pane)
    ensures HeldBy(Prepared(s, step), Begins(s, step).value, pane)
  {
  }

  lemma LoneBeginOrderly(s: State, step: Step)
    requires Orderly(s) && Enabled(s, step) && InTurn(s, step) && MayBegin(step) && Begins(s, step).Some?
    ensures Sound(s, step) && Orderly(Begun(s, step))
  {
    var u, t := Prepared(s, step), Begun(s, step);
    forall p | IsPolling(u, p)
      ensures Spares(Begins(s, step).value, p) && Held(t, p)
    {
      assert Held(s, p);
      LoneBeginSpares(s, step, p);
    }
  }

  /** Steps that move no call hold what was held. */
  lemma SameCallsHeld(s: State, t: State, pane: string)
    requires Held(s, pane) && t.calls == s.calls && t.store == s.store
    ensures Held(t, pane)
  {
    forall id | id in t.calls
      ensures HeldBy(t, t.calls[id], pane)
    {
      assert HeldBy(s, s.calls[id], pane);
    }
  }

  /** The steps of a call under way. */
  predicate Moves(step: Step) {
    step.Swept? || step.Fetched? || step.Killed? || step.Write?
    || step.SpawnCall? || step.SpawnReturn? || step.SpawnNoPane? || step.SpawnThrows?
  }

  lemma WriteHeld(s: State, id: nat, pane: string)
    requires id in s.calls && CanWrite(s.calls[id]) && CallGrounded(s, s.calls[id])
    requires s.calls.Keys == {id} && HeldBy(s, s.calls[id], pane) && Spares(s.calls[id], pane)
    ensures Held(Written(s, id), pane)
  {
  }

  /** A pane is still held after a step of the only call. */
  lemma StillHeld(s: State, step: Step, pane: string)
    requires Grounded(s) && Enabled(s, step) && !Misses(s, step) && Moves(step)
    requires s.calls.Keys == {step.id} && Held(s, pane) && Covered(s, pane)
    requires IsPolling(s, pane) && IsPolling(Apply(s, step), pane)
    ensures Held(Apply(s, step), pane)
  {
    assert CallGrounded(s, s.calls[step.id]) && HeldBy(s, s.calls[step.id], pane) && Spares(s.calls[step.id], pane);
    if step.Write? {
      WriteHeld(s, step.id, pane);
    }
  }

  /** The only pane that starts to poll is the one just spawned, and its call awaits it. */
  lemma NewlyPolling(s: State, step: Step, pane: string)
    requires Enabled(s, step) && Moves(step) && IsPolling(Apply(s, step), pane) && !IsPolling(s, pane)
    requires s.calls.Keys == {step.id}
    ensures Held(Apply(s, step), pane)
  {
    assert step.SpawnCall? && pane == step.pane;
    assert step.id in Apply(s, step).calls;
  }

  lemma MoveOrderly(s: State, step: Step)
    requires Grounded(s) && Protected(s) && Orderly(s) && Enabled(s, step) && !Misses(s, step) && Moves(step)
    ensures Orderly(Apply(s, step))
  {
    var t := Apply(s, step);
    assert s.calls.Keys == {step.id} && t.calls.Keys <= s.calls.Keys;
    forall p | IsPolling(t, p)
      ensures Held(t, p)
    {
      if IsPolling(s, p) {
        assert Held(s, p) && Covered(s, p);
        StillHeld(s, step, p);
      } else {
        NewlyPolling(s, step, p);
      }
    }
  }

  lemma InTurnStep(s: State, step: Step)
    requires Grounded(s) && Protected(s) && Orderly(s) && Enabled(s, step) && InTurn(s, step)
    ensures Sound(s, step) && Orderly(Apply(s, step))
  {
    if MayBegin(step) && Begins(s, step).Some? {
      LoneBeginOrderly(s, step);
    } else if Moves(step) {
      MoveOrderly(s, step);
    } else {
      var t := Apply(s, step);
      forall p | IsPolling(t, p)
        ensures Held(t, p)
      {
        SameCallsHeld(s, t, p);
      }
    }
  }

  ghost predicate AllInTurn(s: State, steps: seq<Step>)
    requires Legal(s, steps)
    decreases |steps|
  {
    steps == [] || (InTurn(s, steps[0]) && AllInTurn(Apply(s, steps[0]), steps[1..]))
  }

  lemma {:induction false} InTurnRun(s: State, steps: seq<Step>)
    requires Grounded(s) && Protected(s) && Orderly(s) && Legal(s, steps) && AllInTurn(s, steps)
    ensures AllSound(s, steps)
    decreases |steps|
  {
    if steps != [] {
      StepGrounded(s, steps[0]);
      InTurnStep(s, steps[0]);
      StepProtectedIff(s, steps[0]);
      InTurnRun(Apply(s, steps[0]), steps[1..]);
    }
  }

  /** One call at a time, with kills that work, is always sound: with `EveryPaneResolves`, in every such
      interleaving no spawned pane goes astray. */
  lemma OneCallAtATime(steps: seq<Step>)
    requires Legal(INITIAL, steps) && AllInTurn(INITIAL, steps)
    ensures AllSound(INITIAL, steps)
  {
    InTurnRun(INITIAL, steps);
  }

  // ---- How it fails ----------------------------------------------------------------------------

  /** A click on a second closed node while a call that will lower the flag is under way: some
      continuation of the two leads a pane astray. */
  lemma OverlappingRespawnStrays(s: State, id: nat, node: string, entry: PaneEntry, other: nat)
    requires Grounded(s) && Protected(s) && Enabled(s, RespawnClosed(id, node, entry))
    requires other in s.calls && Lowers(s.calls[other])
    ensures CanStray(Apply(s, RespawnClosed(id, node, entry)))
  {
    var step := RespawnClosed(id, node, entry);
    StepGrounded(s, step);
    StepProtectedIff(s, step);
    CannotStrayIff(Apply(s, step));
  }

  /** A polling pane that outlives a kill of a sync: some continuation of the sync leads it astray. */
  lemma SurvivorStrays(s: State, id: nat, pane: string)
    requires Grounded(s) && Protected(s) && Enabled(s, Killed(id, pane, false)) && IsPolling(s, pane)
    ensures CanStray(Apply(s, Killed(id, pane, false)))
  {
    var step := Killed(id, pane, false);
    StepGrounded(s, step);
    StepProtectedIff(s, step);
    CannotStrayIff(Apply(s, step));
  }

  lemma RunSnoc(s: State, steps: seq<Step>, step: Step)
    requires Legal(s, steps) && Enabled(Run(s, steps), step)
    ensures Legal(s, steps + [step]) && Run(s, steps + [step]) == Apply(Run(s, steps), step)
    decreases |steps|
  {
    if steps != [] {
      assert (steps + [step])[1..] == steps[1..] + [step];
      RunSnoc(Apply(s, steps[0]), steps[1..], step);
    } else {
      assert [] + [step] == [step] && [step][1..] == [];
    }
  }

  /** Two clicks on closed rows while nothing is under way and no pane polls: the first alone is safe, the
      second, before the first is done, is not. */
  lemma TwoClicksStray(s: State, first: PaneEntry, second: PaneEntry)
    requires Grounded(s) && Protected(s) && s.calls == map[] && s.store.Some?
    requires forall p :: !IsPolling(s, p)
    ensures
      var t := Begun(s, RespawnClosed(2, first.nodeId, first));
      && Enabled(s, RespawnClosed(2, first.nodeId, first)) && Enabled(t, RespawnClosed(3, second.nodeId, second))
      && !CanStray(t) && CanStray(Begun(t, RespawnClosed(3, second.nodeId, second)))
  {
    var click := RespawnClosed(2, first.nodeId, first);
    var t := Begun(s, click);
    StepGrounded(s, click);
    StepProtectedIff(s, click);
    forall p
      ensures !IsPolling(Prepared(s, click), p)
    {
      assert !IsPolling(s, p);
    }
    CannotStrayIff(t);
    OverlappingRespawnStrays(t, 3, second.nodeId, second, 2);
  }

  // ---- A run that gets there -------------------------------------------------------------------

  /** A project with one node while it is being opened. */
  function OneNode(project: string, node: PaneEntry): Board {
    Board(Some(project), map[], {node.nodeId}, map[], true)
  }

  function Loop(project: string, node: PaneEntry): State {
    var b := OneNode(project, node);
    State(Some(b), map[0 := Calling(b, [node], true)], true, map[], map[])
  }

  function Spawned(project: string, node: PaneEntry, pane: string): State {
    var b := OneNode(project, node);
    var local := b.(paneToNode := map[pane := node]);
    State(Some(b), map[0 := Recording(local, [])], true, map[pane := Polling], map[pane := node])
  }

  function Opened(project: string, node: PaneEntry, pane: string): State {
    var b := OneNode(project, node).(paneToNode := map[pane := node], spawning := false);
    State(Some(b), map[], false, map[pane := Polling], map[pane := node])
  }

  function ClosedAgain(project: string, node: PaneEntry, pane: string): State {
    var closed := node.(closedPaneId := Some(pane));
    var b := Board(Some(project), map[], {node.nodeId}, map[node.nodeId := closed], false);
    State(Some(b), map[], false, map[pane := Gone], map[pane := node])
  }

  /** Before the engine's board is there. */
  function Asking(project: string): State {
    State(None, map[0 := Fetching(STOPPED.(projectId := Some(project), spawning := true), {})], true, map[], map[])
  }

  lemma OpenToAsking(project: string) returns (steps: seq<Step>)
    ensures Legal(INITIAL, steps) && Run(INITIAL, steps) == Asking(project)
  {
    RunSnoc(INITIAL, [], OpenProject(0, project));
    steps := [] + [OpenProject(0, project)];
    RunSnoc(INITIAL, steps, Swept(0, {}));
    steps := steps + [Swept(0, {})];
  }

  lemma AskingToLoop(project: string, node: PaneEntry) returns (steps: seq<Step>)
    ensures Legal(INITIAL, steps) && Run(INITIAL, steps) == Loop(project, node)
  {
    assert NodeIds([node]) == {node.nodeId};
    steps := OpenToAsking(project);
    RunSnoc(INITIAL, steps, Fetched(0, Some([node])));
    steps := steps + [Fetched(0, Some([node]))];
    RunSnoc(INITIAL, steps, Write(0));
    steps := steps + [Write(0)];
  }

  lemma LoopToSpawned(project: string, node: PaneEntry, pane: string) returns (steps: seq<Step>)
    ensures Legal(INITIAL, steps) && Run(INITIAL, steps) == Spawned(project, node, pane)
  {
    steps := AskingToLoop(project, node);
    RunSnoc(INITIAL, steps, SpawnCall(0, pane));
    steps := steps + [SpawnCall(0, pane)];
    RunSnoc(INITIAL, steps, SpawnReturn(0));
    steps := steps + [SpawnReturn(0)];
    assert [node][1..] == [];
  }

  lemma SpawnedToOpened(project: string, node: PaneEntry, pane: string) returns (steps: seq<Step>)
    ensures Legal(INITIAL, steps) && Run(INITIAL, steps) == Opened(project, node, pane)
  {
    steps := LoopToSpawned(project, node, pane);
    RunSnoc(INITIAL, steps, Write(0));
    steps := steps + [Write(0)];
    RunSnoc(INITIAL, steps, Write(0));
    steps := steps + [Write(0)];
  }

  lemma OpenedToClosed(project: string, node: PaneEntry, pane: string) returns (steps: seq<Step>)
    ensures Legal(INITIAL, steps) && Run(INITIAL, steps) == ClosedAgain(project, node, pane)
  {
    steps := SpawnedToOpened(project, node, pane);
    RunSnoc(INITIAL, steps, PaneRemoved(pane, true, 1));
    steps := steps + [PaneRemoved(pane, true, 1)];
    RunSnoc(INITIAL, steps, Write(1));
    steps := steps + [Write(1)];
  }

  /** From the start: a project with one node is opened, its pane closed, and the row of the closed node
      double-clicked. After the first click nothing can go wrong; after the second it can. */
  lemma DoubleClickStrays(project: string, node: PaneEntry, pane: string) returns (steps: seq<Step>)
    ensures
      var closed := node.(closedPaneId := Some(pane));
      var one := steps + [RespawnClosed(2, node.nodeId, closed)];
      var two := one + [RespawnClosed(3, node.nodeId, closed)];
      && Legal(INITIAL, steps) && Run(INITIAL, steps) == ClosedAgain(project, node, pane)
      && Legal(INITIAL, one) && !CanStray(Run(INITIAL, one))
      && Legal(INITIAL, two) && CanStray(Run(INITIAL, two))
  {
    steps := OpenedToClosed(project, node, pane);
    var s, closed := ClosedAgain(project, node, pane), node.(closedPaneId := Some(pane));
    var one, two := RespawnClosed(2, node.nodeId, closed), RespawnClosed(3, node.nodeId, closed);
    RunGrounded(INITIAL, steps);
    TwoClicksStray(s, closed, closed);
    RunSnoc(INITIAL, steps, one);
    RunSnoc(INITIAL, steps + [one], two);
  }
}
