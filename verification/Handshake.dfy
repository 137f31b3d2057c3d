/** The handshake between the explorer, which spawns panes and records what each one shows, and the
    panes, which poll the one stored board for their entry. Every read is one snapshot and every write
    one overwrite. Any number of the explorer's calls may be under way at once, its kills may miss, and
    spawned panes run at any moment in between. Panes stay within their deadline, writes succeed, a
    failed spawn creates no pane, and no other panel writes; a run is followed up to the first pane that
    goes astray. */
module Handshake {
  import opened Options
  import opened BoardState
  import SharedBoard

  // ---- The pane's side -------------------------------------------------------------------------

  datatype Look = Wait | Found(entry: PaneEntry) | Recover | GiveUp

  /** What a pane does with one read of the store; nothing is read when the store is empty or the read
      fails. */
  function LookUp(read: Option<Board>, pane: string): Look {
    match read
    case None => Wait
    case Some(b) =>
      if pane in b.paneToNode then Found(b.paneToNode[pane])
      else if !b.spawning && b.closedNodes != map[] && b.projectId.Some? then Recover
      else if !b.spawning then GiveUp
      else Wait
  }

  /** The recovery that `RecoverFromClosed` carries out is open to the pane, with closed node `node`. */
  ghost predicate CanRecover(b: Board, pane: string, node: string) {
    SharedBoard.Enabled(SharedBoard.Desk(b, map[], false), SharedBoard.RecoverClosed(pane, node))
  }

  ghost predicate Recoverable(b: Board, pane: string) {
    exists node :: CanRecover(b, pane, node)
  }

  /** What one read of a board means: the pane's own entry is found exactly when it is recorded; a pane
      recovers exactly when there is a closed node it may take over; it gives up exactly when nobody is
      spawning and there is neither. */
  lemma LookUpMeans(b: Board, pane: string)
    ensures
      var look := LookUp(Some(b), pane);
      && (look.Found? <==> pane in b.paneToNode)
      && (look.Found? ==> look.entry == b.paneToNode[pane])
      && (look.Recover? <==> Recoverable(b, pane))
      && (look.GiveUp? <==> !b.spawning && pane !in b.paneToNode && !Recoverable(b, pane))
      && (look.Wait? <==> b.spawning && pane !in b.paneToNode)
  {
    if LookUp(Some(b), pane).Recover? {
      var node :| node in b.closedNodes;
      assert CanRecover(b, pane, node);
    }
  }

  /** The polling loop of `waitForBoardEntry` over the snapshots it reads before its deadline: it ends
      with the first one that is not a reason to wait, and says what to do with it. */
  method WaitForBoardEntry(pane: string, snapshots: seq<Option<Board>>) returns (look: Look, attempts: nat)
    ensures attempts <= |snapshots|
    ensures forall i :: 0 <= i < attempts - 1 ==> LookUp(snapshots[i], pane).Wait?
    ensures look.Wait? ==>
              attempts == |snapshots| && forall i :: 0 <= i < |snapshots| ==> LookUp(snapshots[i], pane).Wait?
    ensures !look.Wait? ==>
              attempts > 0 && snapshots[attempts - 1].Some? && look == LookUp(snapshots[attempts - 1], pane)
    ensures look.Found? ==>
              var b := snapshots[attempts - 1].value; pane in b.paneToNode && look.entry == b.paneToNode[pane]
    ensures look.Recover? ==> Recoverable(snapshots[attempts - 1].value, pane)
    ensures look.GiveUp? ==>
              var b := snapshots[attempts - 1].value; !b.spawning && pane !in b.paneToNode && !Recoverable(b, pane)
  {
    attempts := 0;
    while attempts < |snapshots|
      invariant attempts <= |snapshots|
      invariant forall i :: 0 <= i < attempts ==> LookUp(snapshots[i], pane).Wait?
    {
      var snapshot := snapshots[attempts];
      attempts := attempts + 1;
      if snapshot.None? {
        continue;
      }
      var board := snapshot.value;
      LookUpMeans(board, pane);
      if pane in board.paneToNode {
        return Found(board.paneToNode[pane]), attempts;
      }
      if !board.spawning && board.closedNodes != map[] && board.projectId.Some? {
        return Recover, attempts;
      }
      if !board.spawning {
        return GiveUp, attempts;
      }
    }
    look := Wait;
  }

  /** The pane takes its own entry from `b` and writes nothing, or takes over a closed node of `b` and
      overwrites the store with that. */
  ghost predicate Takes(b: Board, pane: string, entry: PaneEntry, before: Option<Board>, after: Option<Board>) {
    || (pane in b.paneToNode && entry == b.paneToNode[pane] && after == before)
    || exists node :: CanRecover(b, pane, node) && after == Some(SharedBoard.Recovered(b, pane, node))
                      && entry == SharedBoard.Recovered(b, pane, node).paneToNode[pane]
  }

  /** `waitForBoardEntry` to its end. A recovery writes back the snapshot that was read, whatever the
      store holds by then. */
  method ResolveEntry(pane: SharedBoard.NodePane, snapshots: seq<Option<Board>>) returns (entry: Option<PaneEntry>)
    modifies pane.store
    ensures entry.None? ==>
              && pane.store.stored == old(pane.store.stored)
              && forall i :: 0 <= i < |snapshots| && !LookUp(snapshots[i], pane.paneId).Wait? ==>
                               exists k :: 0 <= k <= i && LookUp(snapshots[k], pane.paneId).GiveUp?
    ensures entry.Some? ==>
              exists i :: 0 <= i < |snapshots| && snapshots[i].Some? &&
                Takes(snapshots[i].value, pane.paneId, entry.value, old(pane.store.stored), pane.store.stored)
  {
    var look, attempts := WaitForBoardEntry(pane.paneId, snapshots);
    match look
    case Found(own) => return Some(own);
    case Recover =>
      var board := snapshots[attempts - 1].value;
      pane.store.stored := Some(board);
      var node :| node in board.closedNodes;
      assert CanRecover(board, pane.paneId, node);
      var taken := pane.RecoverFromClosed(node);
      return Some(taken);
    case _ => return None;
  }

  // ---- The explorer's side ---------------------------------------------------------------------

  /** Where one call of the explorer stands. `local` is the board it holds and will write; `todo` the
      entries still to be given panes; `victims` the panes still to be killed before the first write;
      `bulk` tells opening or syncing from respawning one closed node, which writes only once after its
      spawn. `Sweeping` waits for all panes to be killed, to open a project or, without one, to stop;
      `Fetching` waits for the engine's board; `Editing` is a handler that has read the board and will
      write it back changed, `ends` saying whether removals are noticed again afterwards. */
  datatype Call =
    | Sweeping(project: Option<string>)
    | Fetching(local: Board, victims: set<string>)
    | Opening(local: Board, todo: seq<PaneEntry>, bulk: bool, victims: set<string>)
    | Calling(local: Board, todo: seq<PaneEntry>, bulk: bool)
    | Awaiting(local: Board, todo: seq<PaneEntry>, bulk: bool, pane: string)
    | Recording(local: Board, todo: seq<PaneEntry>)
    | Finishing(local: Board)
    | Editing(local: Board, ends: bool)

  datatype Phase = Polling | Resolved(entry: PaneEntry) | TookRecovery | GaveUp | Gone

  /** `intended` is the entry each pane was spawned for; `suppressed` the flag all calls share that has
      pane removals ignored. */
  datatype State = State(
    store: Option<Board>,
    calls: map<nat, Call>,
    suppressed: bool,
    panes: map<string, Phase>,
    intended: map<string, PaneEntry>)

  const INITIAL := State(None, map[], false, map[], map[])

  const STOPPED := Board(None, map[], {}, map[], false)

  /** What deleting a closed node, or a node on canvas, takes out of the board. */
  datatype Deletion = ClosedNode(node: string) | OpenPane(pane: string)

  /** Two choices of the host are parameters: which panes a kill really removes, and what a spawn
      answers. `seen` tells whether the explorer can read the board; `UnreadClick` is a click that finds
      no board or no project; `Restart` reloads the explorer, whose calls under way are lost. */
  datatype Step =
    | Restart
    | OpenProject(id: nat, project: string)
    | StopProject(id: nat)
    | SyncFromWheel(id: nat)
    | RespawnClosed(id: nat, node: string, entry: PaneEntry)
    | Delete(id: nat, deletion: Deletion)
    | PaneRemoved(pane: string, seen: bool, id: nat)
    | UnreadClick
    | Swept(id: nat, killed: set<string>)
    | Fetched(id: nat, nodes: Option<seq<PaneEntry>>)
    | Killed(id: nat, pane: string, gone: bool)
    | Write(id: nat)
    | SpawnCall(id: nat, pane: string)
    | SpawnReturn(id: nat)
    | SpawnNoPane(id: nat)
    | SpawnThrows(id: nat)
    | PaneReads(pane: string)
    | PaneReadFails(pane: string)

  /** No pane has recovered a closed node or given up, which is how it comes to be taken for one the
      user made. */
  ghost predicate Intact(s: State) {
    forall p :: p in s.panes ==> !s.panes[p].TookRecovery? && !s.panes[p].GaveUp?
  }

  predicate CanWrite(c: Call) {
    (c.Opening? && c.victims == {}) || c.Recording? || c.Finishing? || c.Editing?
  }

  predicate IsPolling(s: State, pane: string) {
    pane in s.panes && s.panes[pane].Polling?
  }

  ghost predicate Enabled(s: State, step: Step) {
    && Intact(s)
    && match step
       case OpenProject(id, _) => id !in s.calls
       case StopProject(id) => id !in s.calls
       case SyncFromWheel(id) => id !in s.calls && s.store.Some? && s.store.value.projectId.Some?
       case RespawnClosed(id, _, _) => id !in s.calls && s.store.Some?
       case Delete(id, _) => id !in s.calls && s.store.Some?
       case PaneRemoved(pane, _, id) => pane in s.panes && id !in s.calls
       case Restart => true
       case UnreadClick => true
       case Swept(id, _) => id in s.calls && s.calls[id].Sweeping?
       case Fetched(id, _) => id in s.calls && s.calls[id].Fetching?
       case Killed(id, pane, _) => id in s.calls && s.calls[id].Opening? && pane in s.calls[id].victims
       case Write(id) => id in s.calls && CanWrite(s.calls[id])
       case SpawnCall(id, pane) => id in s.calls && s.calls[id].Calling? && s.calls[id].todo != [] && pane !in s.panes
       case SpawnReturn(id) => id in s.calls && s.calls[id].Awaiting? && s.calls[id].todo != []
       case SpawnNoPane(id) => id in s.calls && s.calls[id].Calling? && s.calls[id].todo != []
       case SpawnThrows(id) => id in s.calls && s.calls[id].Calling? && s.calls[id].todo != []
       case PaneReads(pane) => IsPolling(s, pane)
       case PaneReadFails(pane) => IsPolling(s, pane)
  }

  // ---- Effects ---------------------------------------------------------------------------------

  function NodeIds(nodes: seq<PaneEntry>): set<string> {
    set e | e in nodes :: e.nodeId
  }

  function AllGone(panes: map<string, Phase>, killed: set<string>): map<string, Phase> {
    map p | p in panes :: if p in killed then Gone else panes[p]
  }

  function With(s: State, id: nat, c: Call): State {
    s.(calls := s.calls[id := c])
  }

  /** The call has returned. */
  function Without(s: State, id: nat): State {
    s.(calls := s.calls - {id})
  }

  /** The loop over the nodes: the next spawn, or the final write with the flag lowered. */
  function Continue(local: Board, todo: seq<PaneEntry>, bulk: bool): Call {
    if todo != [] then Calling(local, todo, bulk) else Finishing(local.(spawning := false))
  }

  function AfterWrite(s: State, id: nat): State
    requires id in s.calls && CanWrite(s.calls[id])
  {
    match s.calls[id]
    case Opening(local, todo, bulk, _) => With(s, id, Continue(local, todo, bulk))
    case Recording(_, todo) => With(s, id, Continue(s.calls[id].local, todo, true))
    case Finishing(_) => Without(s, id).(suppressed := false)
    case Editing(_, ends) => if ends then Without(s, id).(suppressed := false) else Without(s, id)
  }

  function Written(s: State, id: nat): State
    requires id in s.calls && CanWrite(s.calls[id])
  {
    AfterWrite(s, id).(store := Some(s.calls[id].local))
  }

  function Returned(s: State, id: nat): State
    requires id in s.calls && s.calls[id].Awaiting? && s.calls[id].todo != []
  {
    var c := s.calls[id];
    var local := c.local.(paneToNode := c.local.paneToNode[c.pane := c.todo[0]]);
    With(s, id, if c.bulk then Recording(local, c.todo[1..]) else Finishing(local.(spawning := false)))
  }

  function Read(s: State, pane: string): State
    requires pane in s.panes
  {
    match LookUp(s.store, pane)
    case Wait => s
    case Found(entry) => s.(panes := s.panes[pane := Resolved(entry)])
    case Recover => s.(panes := s.panes[pane := TookRecovery])
    case GiveUp => s.(panes := s.panes[pane := GaveUp])
  }

  function Deleted(b: Board, deletion: Deletion): Board {
    match deletion
    case ClosedNode(node) => b.(closedNodes := b.closedNodes - {node}, nodeIds := b.nodeIds - {node})
    case OpenPane(pane) => b.(paneToNode := b.paneToNode - {pane})
  }

  /** Whether the removal of a pane starts a handler that will write. */
  predicate Files(s: State, pane: string, seen: bool) {
    seen && !s.suppressed && s.store.Some? && s.store.value.projectId.Some? && pane in s.store.value.paneToNode
  }

  /** The call a step begins, if it begins one. */
  function Begins(s: State, step: Step): Option<Call> {
    match step
    case OpenProject(_, project) => Some(Sweeping(Some(project)))
    case StopProject(_) => Some(Sweeping(None))
    case SyncFromWheel(_) =>
      if s.store.None? then None
      else
        var b := s.store.value;
        Some(Fetching(b.(paneToNode := map[], closedNodes := map[], spawning := true), b.paneToNode.Keys))
    case RespawnClosed(_, node, entry) =>
      if s.store.None? then None
      else
        var b := s.store.value;
        Some(Opening(b.(closedNodes := b.closedNodes - {node}, spawning := true),
                     [entry.(closedPaneId := None)], false, {}))
    case Delete(_, deletion) =>
      if s.store.None? then None else Some(Editing(Deleted(s.store.value, deletion), false))
    case PaneRemoved(pane, seen, _) =>
      if Files(s, pane, seen) then Some(Editing(SharedBoard.Closed(s.store.value, pane), false)) else None
    case _ => None
  }

  /** The state in which a call begins: a removed pane is gone, and opening, stopping, syncing and
      respawning suppress removals. */
  function Prepared(s: State, step: Step): State {
    match step
    case PaneRemoved(pane, _, _) => s.(panes := AllGone(s.panes, {pane}))
    case Delete(_, _) => s
    case _ => s.(suppressed := true)
  }

  predicate MayBegin(step: Step) {
    step.OpenProject? || step.StopProject? || step.SyncFromWheel? || step.RespawnClosed? || step.Delete?
    || step.PaneRemoved?
  }

  function Begun(s: State, step: Step): State
    requires MayBegin(step)
  {
    var c := Begins(s, step);
    if c.Some? then With(Prepared(s, step), step.id, c.value) else Prepared(s, step)
  }

  function AfterSweep(s: State, id: nat, killed: set<string>): State
    requires id in s.calls && s.calls[id].Sweeping?
  {
    var project := s.calls[id].project;
    var c := if project.None? then Editing(STOPPED, true)
             else Fetching(STOPPED.(projectId := project, spawning := true), {});
    With(s, id, c).(panes := AllGone(s.panes, killed))
  }

  function AfterFetch(s: State, id: nat, nodes: Option<seq<PaneEntry>>): State
    requires id in s.calls && s.calls[id].Fetching?
  {
    var c := s.calls[id];
    if nodes.None? then Without(s, id).(suppressed := false)
    else With(s, id, Opening(c.local.(nodeIds := NodeIds(nodes.value)), nodes.value, true, c.victims))
  }

  function AfterKill(s: State, id: nat, pane: string, gone: bool): State
    requires id in s.calls && s.calls[id].Opening?
  {
    var c := s.calls[id];
    With(s, id, c.(victims := c.victims - {pane})).(panes := AllGone(s.panes, if gone then {pane} else {}))
  }

  function AfterSpawnCall(s: State, id: nat, pane: string): State
    requires id in s.calls && s.calls[id].Calling? && s.calls[id].todo != []
  {
    var c := s.calls[id];
    With(s, id, Awaiting(c.local, c.todo, c.bulk, pane))
      .(panes := s.panes[pane := Polling], intended := s.intended[pane := c.todo[0]])
  }

  function AfterNoPane(s: State, id: nat): State
    requires id in s.calls && s.calls[id].Calling? && s.calls[id].todo != []
  {
    var c := s.calls[id];
    With(s, id, Continue(c.local, c.todo[1..], c.bulk))
  }

  function Apply(s: State, step: Step): State
    requires Enabled(s, step)
  {
    match step
    case Restart => s.(calls := map[], suppressed := false)
    case UnreadClick => s.(suppressed := true)
    case Swept(id, killed) => AfterSweep(s, id, killed)
    case Fetched(id, nodes) => AfterFetch(s, id, nodes)
    case Killed(id, pane, gone) => AfterKill(s, id, pane, gone)
    case Write(id) => Written(s, id)
    case SpawnCall(id, pane) => AfterSpawnCall(s, id, pane)
    case SpawnReturn(id) => Returned(s, id)
    case SpawnNoPane(id) => AfterNoPane(s, id)
    case SpawnThrows(id) => Without(s, id).(suppressed := false)
    case PaneReads(pane) => Read(s, pane)
    case PaneReadFails(pane) => s
    case _ => Begun(s, step)
  }

  ghost predicate Legal(s: State, steps: seq<Step>)
    decreases |steps|
  {
    steps == [] || (Enabled(s, steps[0]) && Legal(Apply(s, steps[0]), steps[1..]))
  }

  function Run(s: State, steps: seq<Step>): State
    requires Legal(s, steps)
    decreases |steps|
  {
    if steps == [] then s else Run(Apply(s, steps[0]), steps[1..])
  }

  lemma RunCons(s: State, step: Step, more: seq<Step>)
    requires Enabled(s, step) && Legal(Apply(s, step), more)
    ensures Legal(s, [step] + more) && Run(s, [step] + more) == Run(Apply(s, step), more)
  {
  }

  // ---- Whatever overlaps, a pane that resolves gets its own entry ------------------------------

  /** A board that records panes records each for the entry it was spawned for. */
  ghost predicate Faithful(s: State, b: Board) {
    forall p :: p in b.paneToNode ==> p in s.panes && p in s.intended && b.paneToNode[p] == s.intended[p]
  }

  /** The panes to be killed exist and are not recorded again. */
  ghost predicate Replaced(s: State, local: Board, victims: set<string>) {
    victims <= s.panes.Keys && victims !! local.paneToNode.Keys
  }

  ghost predicate CallGrounded(s: State, c: Call) {
    match c
    case Sweeping(_) => true
    case Fetching(local, victims) => Faithful(s, local) && local.spawning && Replaced(s, local, victims)
    case Opening(local, _, _, victims) => Faithful(s, local) && local.spawning && Replaced(s, local, victims)
    case Calling(local, todo, _) => Faithful(s, local) && local.spawning && todo != [] && s.store.Some?
    case Awaiting(local, todo, _, pane) =>
      && Faithful(s, local) && local.spawning && todo != [] && s.store.Some?
      && pane in s.panes && pane in s.intended && s.intended[pane] == todo[0]
    case Recording(local, _) => Faithful(s, local) && local.spawning && s.store.Some?
    case Finishing(local) => Faithful(s, local) && !local.spawning
    case Editing(local, _) => Faithful(s, local)
  }

  /** A resolved pane shows the entry it was spawned for. */
  ghost predicate EntriesOwn(s: State) {
    forall p :: p in s.panes && s.panes[p].Resolved? ==> p in s.intended && s.panes[p].entry == s.intended[p]
  }

  /** Holds in every run, overlaps and missed kills included. */
  ghost predicate Grounded(s: State) {
    && (s.store.Some? ==> Faithful(s, s.store.value))
    && (forall id :: id in s.calls ==> CallGrounded(s, s.calls[id]))
    && EntriesOwn(s)
  }

  /** Panes come and go but are never forgotten, nor is what they were spawned for. */
  ghost predicate Grows(s: State, t: State) {
    && s.panes.Keys <= t.panes.Keys
    && (forall p :: p in s.intended && p in s.panes ==> p in t.intended && t.intended[p] == s.intended[p])
    && (s.store.Some? ==> t.store.Some?)
  }

  lemma CallGrows(s: State, t: State, c: Call)
    requires CallGrounded(s, c) && Grows(s, t)
    ensures CallGrounded(t, c)
  {
  }

  /** All calls but one are where they were. */
  ghost predicate OthersStay(s: State, t: State, id: nat) {
    forall k :: k in t.calls && k != id ==> k in s.calls && t.calls[k] == s.calls[k]
  }

  /** One call moves on. */
  lemma MoveGrounded(s: State, t: State, id: nat)
    requires Grounded(s) && Grows(s, t) && EntriesOwn(t) && OthersStay(s, t, id)
    requires t.store.Some? ==> Faithful(t, t.store.value)
    requires id in t.calls ==> CallGrounded(t, t.calls[id])
    ensures Grounded(t)
  {
    forall k | k in t.calls
      ensures CallGrounded(t, t.calls[k])
    {
      if k != id {
        CallGrows(s, t, s.calls[k]);
      }
    }
  }

  lemma BeginsGrounded(s: State, step: Step)
    requires Grounded(s) && Enabled(s, step) && MayBegin(step) && Begins(s, step).Some?
    ensures CallGrounded(Prepared(s, step), Begins(s, step).value)
  {
  }

  lemma BeginGrounded(s: State, step: Step)
    requires Grounded(s) && Enabled(s, step) && MayBegin(step)
    ensures Grounded(Begun(s, step))
  {
    var t := Begun(s, step);
    assert Grows(s, Prepared(s, step)) && Grows(s, t);
    if Begins(s, step).Some? {
      BeginsGrounded(s, step);
      CallGrows(Prepared(s, step), t, Begins(s, step).value);
    }
    MoveGrounded(s, t, step.id);
  }

  lemma SweepGrounded(s: State, id: nat, killed: set<string>)
    requires Grounded(s) && id in s.calls && s.calls[id].Sweeping?
    ensures Grounded(AfterSweep(s, id, killed))
  {
    MoveGrounded(s, AfterSweep(s, id, killed), id);
  }

  lemma FetchGrounded(s: State, id: nat, nodes: Option<seq<PaneEntry>>)
    requires Grounded(s) && id in s.calls && s.calls[id].Fetching?
    ensures Grounded(AfterFetch(s, id, nodes))
  {
    assert CallGrounded(s, s.calls[id]);
    MoveGrounded(s, AfterFetch(s, id, nodes), id);
  }

  lemma KillGrounded(s: State, id: nat, pane: string, gone: bool)
    requires Grounded(s) && id in s.calls && s.calls[id].Opening?
    ensures Grounded(AfterKill(s, id, pane, gone))
  {
    assert CallGrounded(s, s.calls[id]);
    MoveGrounded(s, AfterKill(s, id, pane, gone), id);
  }

  /** What a call holds is fit to be stored, and the call is sound where it goes next. */
  lemma WrittenCall(s: State, id: nat)
    requires id in s.calls && CanWrite(s.calls[id]) && CallGrounded(s, s.calls[id])
    ensures
      var t := Written(s, id);
      && Faithful(t, s.calls[id].local)
      && (id in t.calls ==> CallGrounded(t, t.calls[id]))
  {
  }

  lemma WriteGrounded(s: State, id: nat)
    requires Grounded(s) && id in s.calls && CanWrite(s.calls[id])
    ensures Grounded(Written(s, id))
  {
    WrittenCall(s, id);
    MoveGrounded(s, Written(s, id), id);
  }

  lemma SpawnCallGrounded(s: State, id: nat, pane: string)
    requires Grounded(s) && id in s.calls && s.calls[id].Calling? && s.calls[id].todo != [] && pane !in s.panes
    ensures Grounded(AfterSpawnCall(s, id, pane))
  {
    assert CallGrounded(s, s.calls[id]);
    MoveGrounded(s, AfterSpawnCall(s, id, pane), id);
  }

  lemma ReturnGrounded(s: State, id: nat)
    requires Grounded(s) && id in s.calls && s.calls[id].Awaiting? && s.calls[id].todo != []
    ensures Grounded(Returned(s, id))
  {
    assert CallGrounded(s, s.calls[id]);
    MoveGrounded(s, Returned(s, id), id);
  }

  lemma NoPaneGrounded(s: State, id: nat)
    requires Grounded(s) && id in s.calls && s.calls[id].Calling? && s.calls[id].todo != []
    ensures Grounded(AfterNoPane(s, id))
  {
    assert CallGrounded(s, s.calls[id]);
    MoveGrounded(s, AfterNoPane(s, id), id);
  }

  lemma EndGrounded(s: State, id: nat)
    requires Grounded(s)
    ensures Grounded(Without(s, id).(suppressed := false))
  {
    MoveGrounded(s, Without(s, id).(suppressed := false), id);
  }

  lemma ReadGrounded(s: State, pane: string)
    requires Grounded(s) && Enabled(s, PaneReads(pane))
    ensures Grounded(Read(s, pane))
  {
    forall k | k in s.calls
      ensures CallGrounded(Read(s, pane), s.calls[k])
    {
      CallGrows(s, Read(s, pane), s.calls[k]);
    }
  }

  lemma StepGrounded(s: State, step: Step)
    requires Grounded(s) && Enabled(s, step)
    ensures Grounded(Apply(s, step))
  {
    match step
    case Restart => MoveGrounded(s, Apply(s, step), 0);
    case UnreadClick => MoveGrounded(s, Apply(s, step), 0);
    case Swept(id, killed) => SweepGrounded(s, id, killed);
    case Fetched(id, nodes) => FetchGrounded(s, id, nodes);
    case Killed(id, pane, gone) => KillGrounded(s, id, pane, gone);
    case Write(id) => WriteGrounded(s, id);
    case SpawnCall(id, pane) => SpawnCallGrounded(s, id, pane);
    case SpawnReturn(id) => ReturnGrounded(s, id);
    case SpawnNoPane(id) => NoPaneGrounded(s, id);
    case SpawnThrows(id) => EndGrounded(s, id);
    case PaneReads(pane) => ReadGrounded(s, pane);
    case PaneReadFails(_) =>
    case _ => BeginGrounded(s, step);
  }

  lemma {:induction false} RunGrounded(s: State, steps: seq<Step>)
    requires Grounded(s) && Legal(s, steps)
    ensures Grounded(Run(s, steps))
    decreases |steps|
  {
    if steps != [] {
      StepGrounded(s, steps[0]);
      RunGrounded(Apply(s, steps[0]), steps[1..]);
    }
  }

  /** In every interleaving, overlapping calls and missed kills included, a pane that resolves resolves
      to exactly the entry it was spawned for. */
  lemma ResolvesToItsEntry(steps: seq<Step>, pane: string)
    requires Legal(INITIAL, steps)
    requires var s := Run(INITIAL, steps); pane in s.panes && s.panes[pane].Resolved?
    ensures var s := Run(INITIAL, steps); pane in s.intended && s.panes[pane].entry == s.intended[pane]
  {
    RunGrounded(INITIAL, steps);
  }

  // ---- The spawning loop as a program ----------------------------------------------------------

  /** The panes recorded for `nodes`, given the host's answers: an answer without a pane id skips the
      node. */
  function WithPanes(
    panes: map<string, PaneEntry>, nodes: seq<PaneEntry>, spawns: seq<SharedBoard.Spawn>): map<string, PaneEntry>
    requires |nodes| <= |spawns|
    decreases |nodes|
  {
    if nodes == [] then panes
    else
      var last := |nodes| - 1;
      var before := WithPanes(panes, nodes[..last], spawns);
      if spawns[last].Spawned? then before[spawns[last].pane := nodes[last]] else before
  }

  lemma WithPanesNext(panes: map<string, PaneEntry>, nodes: seq<PaneEntry>, spawns: seq<SharedBoard.Spawn>, i: nat)
    requires i < |nodes| <= |spawns|
    ensures WithPanes(panes, nodes[..i + 1], spawns) ==
            if spawns[i].Spawned? then WithPanes(panes, nodes[..i], spawns)[spawns[i].pane := nodes[i]]
            else WithPanes(panes, nodes[..i], spawns)
  {
    assert nodes[..i + 1][..i] == nodes[..i];
  }

  /** The spawn at `i` names a pane, and no later one names it again. */
  ghost predicate LastSpawned(nodes: seq<PaneEntry>, spawns: seq<SharedBoard.Spawn>, i: nat)
    requires |nodes| <= |spawns|
  {
    i < |nodes| && spawns[i].Spawned? && forall j :: i < j < |nodes| ==> spawns[j] != spawns[i]
  }

  /** Each pane the host names is recorded for the node it was spawned for, */
  lemma {:induction false} RecordedForItsNode(
    panes: map<string, PaneEntry>, nodes: seq<PaneEntry>, spawns: seq<SharedBoard.Spawn>, i: nat)
    requires |nodes| <= |spawns| && LastSpawned(nodes, spawns, i)
    ensures
      var t := WithPanes(panes, nodes, spawns);
      spawns[i].pane in t && t[spawns[i].pane] == nodes[i]
    decreases |nodes|
  {
    var last := |nodes| - 1;
    if i < last {
      RecordedForItsNode(panes, nodes[..last], spawns, i);
    }
  }

  /** and the records of other panes stay as they were. */
  lemma {:induction false} OtherRecordsStay(
    panes: map<string, PaneEntry>, nodes: seq<PaneEntry>, spawns: seq<SharedBoard.Spawn>, p: string)
    requires |nodes| <= |spawns| && forall i :: 0 <= i < |nodes| ==> spawns[i] != SharedBoard.Spawned(p)
    ensures
      var t := WithPanes(panes, nodes, spawns);
      (p in t <==> p in panes) && (p in panes ==> t[p] == panes[p])
    decreases |nodes|
  {
    if nodes != [] {
      OtherRecordsStay(panes, nodes[..|nodes| - 1], spawns, p);
    }
  }

  /** `spawnNodePanes`: records pane after pane in the store and lowers the flag at the end; a spawn
      that throws leaves the flag up and every pane recorded so far in the store. */
  method SpawnNodePanes(
    store: SharedBoard.BoardStore, board: Board, nodes: seq<PaneEntry>, spawns: seq<SharedBoard.Spawn>)
    returns (thrown: Option<nat>)
    requires store.stored == Some(board) && board.spawning && |nodes| <= |spawns|
    modifies store
    ensures thrown.None? ==>
              && (forall i :: 0 <= i < |nodes| ==> !spawns[i].Throws?)
              && store.stored
                 == Some(board.(paneToNode := WithPanes(board.paneToNode, nodes, spawns), spawning := false))
    ensures thrown.Some? ==>
              && thrown.value < |nodes| && spawns[thrown.value].Throws?
              && store.stored == Some(board.(paneToNode := WithPanes(board.paneToNode, nodes[..thrown.value], spawns)))
  {
    var local := board;
    for i := 0 to |nodes|
      invariant forall k :: 0 <= k < i ==> !spawns[k].Throws?
      invariant local == board.(paneToNode := WithPanes(board.paneToNode, nodes[..i], spawns))
      invariant store.stored == Some(local)
    {
      WithPanesNext(board.paneToNode, nodes, spawns, i);
      if spawns[i].Throws? {
        return Some(i);
      }
      if spawns[i].NoPane? {
        continue;
      }
      local := local.(paneToNode := local.paneToNode[spawns[i].pane := nodes[i]]);
      store.stored := Some(local);
    }
    assert nodes[..|nodes|] == nodes;
    local := local.(spawning := false);
    store.stored := Some(local);
    thrown := None;
  }

  function RecordedOn(
    panes: map<string, PaneEntry>, node: PaneEntry, spawn: SharedBoard.Spawn): map<string, PaneEntry>
  {
    if spawn.Spawned? then panes[spawn.pane := node] else panes
  }

  lemma {:induction false} WithPanesFront(
    panes: map<string, PaneEntry>, nodes: seq<PaneEntry>, spawns: seq<SharedBoard.Spawn>)
    requires 0 < |nodes| == |spawns|
    ensures WithPanes(panes, nodes, spawns)
         == WithPanes(RecordedOn(panes, nodes[0], spawns[0]), nodes[1..], spawns[1..])
    decreases |nodes|
  {
    var last := |nodes| - 1;
    if last > 0 {
      WithPanesFront(panes, nodes[..last], spawns[..last]);
      WithPanesPrefix(panes, nodes[..last], spawns, last);
      assert nodes[..last][1..] == nodes[1..][..last - 1] && spawns[..last][1..] == spawns[1..][..last - 1];
      WithPanesPrefix(RecordedOn(panes, nodes[0], spawns[0]), nodes[1..][..last - 1], spawns[1..], last - 1);
    } else {
      assert nodes[..last] == [] && nodes[1..] == [];
    }
  }

  /** Answers beyond the nodes do not matter. */
  lemma {:induction false} WithPanesPrefix(
    panes: map<string, PaneEntry>, nodes: seq<PaneEntry>, spawns: seq<SharedBoard.Spawn>, n: nat)
    requires |nodes| <= n <= |spawns|
    ensures WithPanes(panes, nodes, spawns) == WithPanes(panes, nodes, spawns[..n])
    decreases |nodes|
  {
    if nodes != [] {
      WithPanesPrefix(panes, nodes[..|nodes| - 1], spawns, n);
    }
  }

  /** The explorer's own steps for a list of nodes, with nothing else in between. */
  function BulkSteps(id: nat, nodes: seq<PaneEntry>, spawns: seq<SharedBoard.Spawn>): seq<Step>
    requires |nodes| == |spawns|
    decreases |nodes|
  {
    if nodes == [] then [Write(id)] + []
    else
      var more := BulkSteps(id, nodes[1..], spawns[1..]);
      if spawns[0].Spawned? then [SpawnCall(id, spawns[0].pane)] + ([SpawnReturn(id)] + ([Write(id)] + more))
      else [SpawnNoPane(id)] + more
  }

  /** Where the loop stands before its next spawn: everything recorded so far is in the store. */
  ghost predicate AtLoop(s: State, id: nat, nodes: seq<PaneEntry>) {
    && Intact(s) && id in s.calls && s.store.Some? && s.store.value.spawning
    && s.calls[id] == Continue(s.store.value, nodes, true)
  }

  /** One round of the loop for a spawn that names a pane. */
  lemma SpawnRound(s: State, id: nat, nodes: seq<PaneEntry>, pane: string, more: seq<Step>)
    requires AtLoop(s, id, nodes) && nodes != [] && pane !in s.panes
    requires Legal(Round(s, id, nodes, pane), more)
    ensures
      var t, steps := Round(s, id, nodes, pane), [SpawnCall(id, pane)] + ([SpawnReturn(id)] + ([Write(id)] + more));
      && AtLoop(t, id, nodes[1..])
      && Legal(s, steps) && Run(s, steps) == Run(t, more)
  {
    var s1 := AfterSpawnCall(s, id, pane);
    var s2 := Returned(s1, id);
    RunCons(s2, Write(id), more);
    RunCons(s1, SpawnReturn(id), [Write(id)] + more);
    RunCons(s, SpawnCall(id, pane), [SpawnReturn(id)] + ([Write(id)] + more));
  }

  function Round(s: State, id: nat, nodes: seq<PaneEntry>, pane: string): State
    requires AtLoop(s, id, nodes) && nodes != []
  {
    Written(Returned(AfterSpawnCall(s, id, pane), id), id)
  }

  /** The steps of one call, left alone, do what the program does: they store the same panes, lower the
      flag and return. */
  lemma {:induction false} StepsDoTheLoop(s: State, id: nat, nodes: seq<PaneEntry>, spawns: seq<SharedBoard.Spawn>)
    requires AtLoop(s, id, nodes) && |nodes| == |spawns|
    requires forall i :: 0 <= i < |spawns| ==> !spawns[i].Throws?
    requires forall i :: 0 <= i < |spawns| && spawns[i].Spawned? ==> spawns[i].pane !in s.panes
    requires forall i, j :: 0 <= i < j < |spawns| && spawns[i].Spawned? && spawns[j].Spawned? ==>
                              spawns[i].pane != spawns[j].pane
    ensures Legal(s, BulkSteps(id, nodes, spawns))
    ensures
      var t := Run(s, BulkSteps(id, nodes, spawns));
      var board := s.store.value;
      && id !in t.calls
      && t.store == Some(board.(paneToNode := WithPanes(board.paneToNode, nodes, spawns), spawning := false))
    decreases |nodes|
  {
    if nodes == [] {
      RunCons(s, Write(id), []);
    } else {
      var more := BulkSteps(id, nodes[1..], spawns[1..]);
      WithPanesFront(s.store.value.paneToNode, nodes, spawns);
      if spawns[0].Spawned? {
        StepsDoTheLoop(Round(s, id, nodes, spawns[0].pane), id, nodes[1..], spawns[1..]);
        SpawnRound(s, id, nodes, spawns[0].pane, more);
      } else {
        StepsDoTheLoop(AfterNoPane(s, id), id, nodes[1..], spawns[1..]);
        RunCons(s, SpawnNoPane(id), more);
      }
    }
  }

  // ---- A call left alone -----------------------------------------------------------------------

  /** The board on which the atomic handlers of `SharedBoard` work. */
  function DeskOf(s: State): SharedBoard.Desk
    requires s.store.Some?
  {
    SharedBoard.Desk(s.store.value, map[], s.suppressed)
  }

  lemma WriteLast(s: State, id: nat)
    requires Intact(s) && id in s.calls && CanWrite(s.calls[id])
    ensures Legal(s, [Write(id)] + []) && Run(s, [Write(id)] + []) == Written(s, id)
  {
    RunCons(s, Write(id), []);
  }

  /** What follows each answer of the host to the one spawn of a respawn. */
  function AnswerSteps(id: nat, spawn: SharedBoard.Spawn): seq<Step> {
    match spawn
    case Spawned(pane) => [SpawnCall(id, pane)] + ([SpawnReturn(id)] + ([Write(id)] + []))
    case NoPane => [SpawnNoPane(id)] + ([Write(id)] + [])
    case Throws => [SpawnThrows(id)] + []
  }

  /** What the answer leaves in the store. */
  function AnswerStored(s: State, local: Board, entry: PaneEntry, spawn: SharedBoard.Spawn): Option<Board> {
    match spawn
    case Spawned(pane) => Some(local.(paneToNode := local.paneToNode[pane := entry], spawning := false))
    case NoPane => Some(local.(spawning := false))
    case Throws => s.store
  }

  lemma PaneAnswerAlone(s: State, id: nat, local: Board, entry: PaneEntry, pane: string)
    requires Intact(s) && id in s.calls && s.calls[id] == Calling(local, [entry], false) && pane !in s.panes
    ensures
      var spawn := SharedBoard.Spawned(pane);
      && Legal(s, AnswerSteps(id, spawn))
      && var t := Run(s, AnswerSteps(id, spawn));
         t.store == AnswerStored(s, local, entry, spawn) && t.calls == s.calls - {id} && !t.suppressed
  {
    var t := AfterSpawnCall(s, id, pane);
    WriteLast(Returned(t, id), id);
    RunCons(t, SpawnReturn(id), [Write(id)] + []);
    RunCons(s, SpawnCall(id, pane), [SpawnReturn(id)] + ([Write(id)] + []));
  }

  lemma AnswerAlone(s: State, id: nat, local: Board, entry: PaneEntry, spawn: SharedBoard.Spawn)
    requires Intact(s) && id in s.calls && s.calls[id] == Calling(local, [entry], false)
    requires spawn.Spawned? ==> spawn.pane !in s.panes
    ensures Legal(s, AnswerSteps(id, spawn))
    ensures
      var t := Run(s, AnswerSteps(id, spawn));
      t.store == AnswerStored(s, local, entry, spawn) && t.calls == s.calls - {id} && !t.suppressed
  {
    match spawn
    case Spawned(pane) => PaneAnswerAlone(s, id, local, entry, pane);
    case NoPane =>
      WriteLast(AfterNoPane(s, id), id);
      RunCons(s, SpawnNoPane(id), [Write(id)] + []);
    case Throws => RunCons(s, SpawnThrows(id), []);
  }

  /** After a reload of the explorer none of its calls goes on, what is stored and the panes are as they
      were, and every recorded pane that is removed is filed. */
  lemma ReloadEndsCalls(s: State, step: Step, pane: string)
    requires Intact(s)
    ensures
      var t := Apply(s, Restart);
      && (Enabled(t, step) ==>
            MayBegin(step) || step.Restart? || step.UnreadClick? || step.PaneReads? || step.PaneReadFails?)
      && t.store == s.store && t.panes == s.panes
      && (s.store.Some? && s.store.value.projectId.Some? ==>
            (Files(t, pane, true) <==> pane in s.store.value.paneToNode))
  {
  }

  /** After a click that found no board no removal is filed. */
  lemma UnreadClickMutes(s: State, pane: string, seen: bool)
    requires Intact(s)
    ensures !Files(Apply(s, UnreadClick), pane, seen)
  {
  }

  /** Left alone, a click on a closed node leaves what the handler leaves when taken as a whole. */
  lemma RespawnAlone(s: State, id: nat, node: string, entry: PaneEntry, spawn: SharedBoard.Spawn)
    requires Intact(s) && s.store.Some? && id !in s.calls && (spawn.Spawned? ==> spawn.pane !in s.panes)
    ensures
      var steps := [RespawnClosed(id, node, entry)] + ([Write(id)] + AnswerSteps(id, spawn));
      && Legal(s, steps)
      && var t := Run(s, steps);
         && t.store == Some(SharedBoard.Respawned(s.store.value, node, entry, spawn))
         && t.calls == s.calls && !t.suppressed
  {
    var b, restored := s.store.value, entry.(closedPaneId := None);
    var begun := Begun(s, RespawnClosed(id, node, entry));
    AnswerAlone(Written(begun, id), id, b.(closedNodes := b.closedNodes - {node}, spawning := true), restored, spawn);
    RunCons(begun, Write(id), AnswerSteps(id, spawn));
    RunCons(s, RespawnClosed(id, node, entry), [Write(id)] + AnswerSteps(id, spawn));
  }

  /** The same for a pane that is closed, */
  lemma CloseAlone(s: State, id: nat, pane: string, seen: bool)
    requires Intact(s) && s.store.Some? && id !in s.calls && pane in s.panes
    ensures
      var removed := PaneRemoved(pane, seen, id);
      var steps := [removed] + if Files(s, pane, seen) then [Write(id)] + [] else [];
      && Legal(s, steps)
      && var t := Run(s, steps);
         && t.store == Some(SharedBoard.Apply(DeskOf(s), SharedBoard.ClosePane(pane, seen)).board)
         && t.calls == s.calls && t.panes == s.panes[pane := Gone]
  {
    var s1 := Begun(s, PaneRemoved(pane, seen, id));
    if Files(s, pane, seen) {
      WriteLast(s1, id);
      RunCons(s, PaneRemoved(pane, seen, id), [Write(id)] + []);
    } else {
      RunCons(s, PaneRemoved(pane, seen, id), []);
    }
  }

  /** for a node that is deleted, closed or on canvas, */
  lemma DeleteAlone(s: State, id: nat, deletion: Deletion)
    requires Intact(s) && s.store.Some? && id !in s.calls
    ensures
      var steps := [Delete(id, deletion)] + ([Write(id)] + []);
      var whole := match deletion
                   case ClosedNode(node) => SharedBoard.DeleteClosed(node)
                   case OpenPane(pane) => SharedBoard.DeleteOpen(pane);
      && Legal(s, steps)
      && var t := Run(s, steps);
         t.store == Some(SharedBoard.Apply(DeskOf(s), whole).board) && t.calls == s.calls
  {
    WriteLast(Begun(s, Delete(id, deletion)), id);
    RunCons(s, Delete(id, deletion), [Write(id)] + []);
  }

  /** and for a project that is stopped, whatever panes the kills remove. */
  lemma StopAlone(s: State, id: nat, killed: set<string>)
    requires Intact(s) && s.store.Some? && id !in s.calls
    ensures
      var steps := [StopProject(id)] + ([Swept(id, killed)] + ([Write(id)] + []));
      && Legal(s, steps)
      && var t := Run(s, steps);
         && t.store == Some(SharedBoard.Apply(DeskOf(s), SharedBoard.StopProject).board)
         && t.calls == s.calls && !t.suppressed
  {
    var begun := Begun(s, StopProject(id));
    SweptAlone(begun, id, killed);
    RunCons(s, StopProject(id), [Swept(id, killed)] + ([Write(id)] + []));
  }

  lemma SweptAlone(s: State, id: nat, killed: set<string>)
    requires Intact(s) && id in s.calls && s.calls[id] == Sweeping(None)
    ensures
      var steps := [Swept(id, killed)] + ([Write(id)] + []);
      && Legal(s, steps)
      && var t := Run(s, steps); t.store == Some(STOPPED) && t.calls == s.calls - {id} && !t.suppressed
  {
    WriteLast(AfterSweep(s, id, killed), id);
    RunCons(s, Swept(id, killed), [Write(id)] + []);
  }

  /** New panes, each named once. */
  ghost predicate NewPanes(s: State, spawns: seq<SharedBoard.Spawn>) {
    && (forall i :: 0 <= i < |spawns| ==> !spawns[i].Throws?)
    && (forall i :: 0 <= i < |spawns| && spawns[i].Spawned? ==> spawns[i].pane !in s.panes)
    && (forall i, j :: 0 <= i < j < |spawns| && spawns[i].Spawned? ==> spawns[i] != spawns[j])
  }

  /** From the engine's board to the end of the loop. */
  lemma FetchedAlone(s: State, id: nat, nodes: seq<PaneEntry>, spawns: seq<SharedBoard.Spawn>)
    requires Intact(s) && id in s.calls && |nodes| == |spawns| && NewPanes(s, spawns)
    requires s.calls[id].Opening? && s.calls[id].todo == nodes && s.calls[id].bulk && s.calls[id].victims == {}
    requires s.calls[id].local.spawning
    ensures
      var steps, b := [Write(id)] + BulkSteps(id, nodes, spawns), s.calls[id].local;
      && Legal(s, steps)
      && id !in Run(s, steps).calls
      && Run(s, steps).store == Some(b.(paneToNode := WithPanes(b.paneToNode, nodes, spawns), spawning := false))
  {
    StepsDoTheLoop(Written(s, id), id, nodes, spawns);
    RunCons(s, Write(id), BulkSteps(id, nodes, spawns));
  }

  /** Opening a project, left alone, stores its board with a pane for each node that got one. */
  lemma OpenAlone(s: State, id: nat, project: string, killed: set<string>,
                  nodes: seq<PaneEntry>, spawns: seq<SharedBoard.Spawn>)
    requires Intact(s) && s.store.Some? && id !in s.calls && |nodes| == |spawns| && NewPanes(s, spawns)
    ensures
      var more := [Fetched(id, Some(nodes))] + ([Write(id)] + BulkSteps(id, nodes, spawns));
      var steps := [OpenProject(id, project)] + ([Swept(id, killed)] + more);
      && Legal(s, steps)
      && Run(s, steps).store
         == Some(Board(Some(project), WithPanes(map[], nodes, spawns), NodeIds(nodes), map[], false))
  {
    var s1 := Begun(s, OpenProject(id, project));
    var s2 := AfterSweep(s1, id, killed);
    var s3 := AfterFetch(s2, id, Some(nodes));
    FetchedAlone(s3, id, nodes, spawns);
    var more := [Write(id)] + BulkSteps(id, nodes, spawns);
    RunCons(s2, Fetched(id, Some(nodes)), more);
    RunCons(s1, Swept(id, killed), [Fetched(id, Some(nodes))] + more);
    RunCons(s, OpenProject(id, project), [Swept(id, killed)] + ([Fetched(id, Some(nodes))] + more));
  }

  /** The kills of a sync, each removing its pane or not, and what follows them. */
  function KillsThen(id: nat, kills: seq<(string, bool)>, more: seq<Step>): seq<Step>
    decreases |kills|
  {
    if kills == [] then more else [Killed(id, kills[0].0, kills[0].1)] + KillsThen(id, kills[1..], more)
  }

  /** Each pane to be killed once. */
  predicate Enumerates(kills: seq<(string, bool)>, victims: set<string>)
    decreases |kills|
  {
    if kills == [] then victims == {}
    else kills[0].0 in victims && Enumerates(kills[1..], victims - {kills[0].0})
  }

  lemma {:induction false} KillsAlone(
    s: State, id: nat, kills: seq<(string, bool)>, nodes: seq<PaneEntry>, spawns: seq<SharedBoard.Spawn>)
    requires Intact(s) && id in s.calls && |nodes| == |spawns| && NewPanes(s, spawns)
    requires s.calls[id].Opening? && s.calls[id].todo == nodes && s.calls[id].bulk && s.calls[id].local.spawning
    requires Enumerates(kills, s.calls[id].victims)
    ensures
      var steps, b := KillsThen(id, kills, [Write(id)] + BulkSteps(id, nodes, spawns)), s.calls[id].local;
      && Legal(s, steps)
      && Run(s, steps).store == Some(b.(paneToNode := WithPanes(b.paneToNode, nodes, spawns), spawning := false))
    decreases |kills|
  {
    var more := [Write(id)] + BulkSteps(id, nodes, spawns);
    if kills == [] {
      FetchedAlone(s, id, nodes, spawns);
    } else {
      var (pane, gone) := kills[0];
      var t := AfterKill(s, id, pane, gone);
      KillsAlone(t, id, kills[1..], nodes, spawns);
      RunCons(s, Killed(id, pane, gone), KillsThen(id, kills[1..], more));
    }
  }

  /** A sync, left alone, keeps the project, forgets the closed nodes and records a pane for each node of
      the engine's board that got one. */
  lemma SyncAlone(s: State, id: nat, kills: seq<(string, bool)>,
                  nodes: seq<PaneEntry>, spawns: seq<SharedBoard.Spawn>)
    requires Intact(s) && s.store.Some? && s.store.value.projectId.Some? && id !in s.calls
    requires |nodes| == |spawns| && NewPanes(s, spawns) && Enumerates(kills, s.store.value.paneToNode.Keys)
    ensures
      var more := KillsThen(id, kills, [Write(id)] + BulkSteps(id, nodes, spawns));
      var steps := [SyncFromWheel(id)] + ([Fetched(id, Some(nodes))] + more);
      && Legal(s, steps)
      && Run(s, steps).store
         == Some(Board(s.store.value.projectId, WithPanes(map[], nodes, spawns), NodeIds(nodes), map[], false))
  {
    var s1 := Begun(s, SyncFromWheel(id));
    var s2 := AfterFetch(s1, id, Some(nodes));
    KillsAlone(s2, id, kills, nodes, spawns);
    var more := KillsThen(id, kills, [Write(id)] + BulkSteps(id, nodes, spawns));
    RunCons(s1, Fetched(id, Some(nodes)), more);
    RunCons(s, SyncFromWheel(id), [Fetched(id, Some(nodes))] + more);
  }

  /** With spawns that all name a pane, each another one, exactly the fetched nodes are on canvas. */
  lemma WholeBoardShown(b: Board, nodes: seq<PaneEntry>, spawns: seq<SharedBoard.Spawn>)
    requires |nodes| == |spawns| && b.paneToNode == WithPanes(map[], nodes, spawns)
    requires forall i :: 0 <= i < |spawns| ==> spawns[i].Spawned?
    requires forall i, j :: 0 <= i < j < |spawns| ==> spawns[i] != spawns[j]
    ensures SharedBoard.OnCanvas(b) == NodeIds(nodes)
  {
    forall e | e in nodes
      ensures e.nodeId in SharedBoard.OnCanvas(b)
    {
      var i :| 0 <= i < |nodes| && nodes[i] == e;
      RecordedForItsNode(map[], nodes, spawns, i);
      assert b.paneToNode[spawns[i].pane] == e;
    }
    forall p | p in b.paneToNode
      ensures b.paneToNode[p] in nodes
    {
      if forall i :: 0 <= i < |nodes| ==> spawns[i] != SharedBoard.Spawned(p) {
        OtherRecordsStay(map[], nodes, spawns, p);
      } else {
        var i :| 0 <= i < |nodes| && spawns[i] == SharedBoard.Spawned(p);
        RecordedForItsNode(map[], nodes, spawns, i);
      }
    }
  }
}
