/** The handlers that move nodes between the canvas and the list of closed nodes, each run without
    interruption, and what they conserve. */
module SharedBoard {
  import opened Options
  import opened BoardState

  /** What `canvas.spawn` may answer: a pane id never used before, an answer without one, or an error. */
  datatype Spawn = Spawned(pane: string) | NoPane | Throws

  /** `listed` is the closed part of the node list on screen: it holds the entries of the board last
      rendered, which a click hands back later. `suppressed` is the explorer's `suppressPaneRemoved`. */
  datatype Desk = Desk(board: Board, listed: map<string, PaneEntry>, suppressed: bool)

  /** `seen` tells whether the explorer's own read of the store succeeds. `UnreadClick` is a click on a
      closed node, or on "sync", that finds no board or no project; `FetchFails` one on "open" or "sync" that
      cannot get the board from the engine. `Restart` reloads the explorer. */
  datatype Step =
    | ClosePane(pane: string, seen: bool)
    | UnreadClick
    | FetchFails
    | Restart
    | RespawnClosed(node: string, spawn: Spawn)
    | RecoverClosed(pane: string, node: string)
    | MigrateEntry(from: string, to: string)
    | Refresh
    | OpenBoard(project: string, spawned: map<string, PaneEntry>, nodes: set<string>)
    | AutoCreate(pane: string, entry: PaneEntry)
    | DeleteClosed(node: string)
    | DeleteOpen(pane: string)
    | DropStale(panes: set<string>)
    | StopProject

  // ---- Effects on the board --------------------------------------------------------------------

  function Closed(b: Board, pane: string): Board {
    if b.projectId.None? || pane !in b.paneToNode then b
    else
      var entry := b.paneToNode[pane].(closedPaneId := Some(pane));
      b.(closedNodes := b.closedNodes[entry.nodeId := entry], paneToNode := b.paneToNode - {pane})
  }

  function Respawned(b: Board, node: string, entry: PaneEntry, spawn: Spawn): Board {
    var cleared := b.(closedNodes := b.closedNodes - {node});
    match spawn
    case Spawned(pane) =>
      cleared.(paneToNode := b.paneToNode[pane := entry.(closedPaneId := None)], spawning := false)
    case NoPane => cleared.(spawning := false)
    case Throws => cleared.(spawning := true)
  }

  /** The entry a pane takes over from the closed list; `node` is the first key of that list. */
  function Recovered(b: Board, pane: string, node: string): Board
    requires node in b.closedNodes
  {
    b.(paneToNode := b.paneToNode[pane := PaneEntry(node, b.closedNodes[node].details, false, None)],
       closedNodes := b.closedNodes - {node})
  }

  function Migrated(b: Board, from: string, to: string): Board {
    if from !in b.paneToNode then b
    else b.(paneToNode := b.paneToNode[to := b.paneToNode[from]] - {from})
  }

  function Apply(d: Desk, step: Step): Desk
    requires Enabled(d, step)
  {
    var b := d.board;
    match step
    case ClosePane(pane, seen) => if seen && !d.suppressed then d.(board := Closed(b, pane)) else d
    case UnreadClick => d.(suppressed := true)
    case FetchFails => d.(suppressed := false)
    case Restart => d.(listed := map[], suppressed := false)
    case RespawnClosed(node, spawn) => d.(board := Respawned(b, node, d.listed[node], spawn), suppressed := false)
    case RecoverClosed(pane, node) => d.(board := Recovered(b, pane, node))
    case MigrateEntry(from, to) => d.(board := Migrated(b, from, to))
    case Refresh => if b.projectId.None? then d else d.(listed := b.closedNodes)
    case OpenBoard(project, spawned, nodes) =>
      d.(board := Board(Some(project), spawned, nodes, map[], false), suppressed := false)
    case AutoCreate(pane, entry) =>
      d.(board := b.(paneToNode := b.paneToNode[pane := entry], nodeIds := b.nodeIds + {entry.nodeId}))
    case DeleteClosed(node) => d.(board := b.(closedNodes := b.closedNodes - {node}, nodeIds := b.nodeIds - {node}))
    case DeleteOpen(pane) => d.(board := b.(paneToNode := b.paneToNode - {pane}))
    case DropStale(panes) => d.(board := b.(paneToNode := b.paneToNode - panes))
    case StopProject => d.(board := Board(None, map[], {}, map[], false), suppressed := false)
  }

  /** New panes are new, the engine's node ids are new, a click is on a listed node, and a pane looks
      for a closed node only when it has no entry and nobody is spawning. */
  ghost predicate Enabled(d: Desk, step: Step) {
    match step
    case RespawnClosed(node, spawn) => node in d.listed && (spawn.Spawned? ==> spawn.pane !in d.board.paneToNode)
    case RecoverClosed(pane, node) =>
      d.board.projectId.Some? && !d.board.spawning && pane !in d.board.paneToNode && node in d.board.closedNodes
    case MigrateEntry(from, to) => from != to && to !in d.board.paneToNode
    case OpenBoard(_, spawned, _) => NodesDistinct(spawned)
    case AutoCreate(pane, entry) =>
      pane !in d.board.paneToNode && entry.nodeId !in Tracked(d.board)
    case _ => true
  }

  // ---- What is conserved -----------------------------------------------------------------------

  ghost predicate NodesDistinct(panes: map<string, PaneEntry>) {
    forall p, q :: p in panes && q in panes && p != q ==> panes[p].nodeId != panes[q].nodeId
  }

  ghost predicate KeyedByNode(nodes: map<string, PaneEntry>) {
    forall n :: n in nodes ==> nodes[n].nodeId == n
  }

  ghost function OnCanvas(b: Board): set<string> {
    set p | p in b.paneToNode :: b.paneToNode[p].nodeId
  }

  /** The nodes the board knows: on canvas or closed. */
  ghost function Tracked(b: Board): set<string> {
    OnCanvas(b) + b.closedNodes.Keys
  }

  /** No node on two panes, none both open and closed, and closed nodes filed under their own id. */
  ghost predicate Sound(b: Board) {
    NodesDistinct(b.paneToNode) && KeyedByNode(b.closedNodes) && OnCanvas(b) !! b.closedNodes.Keys
  }

  ghost predicate DeskSound(d: Desk) {
    Sound(d.board) && KeyedByNode(d.listed)
  }

  lemma CloseConserves(b: Board, pane: string)
    requires Sound(b)
    ensures Sound(Closed(b, pane)) && Tracked(Closed(b, pane)) == Tracked(b)
  {
    if b.projectId.Some? && pane in b.paneToNode {
      var c, node := Closed(b, pane), b.paneToNode[pane].nodeId;
      assert OnCanvas(c) == OnCanvas(b) - {node} by {
        forall n | n in OnCanvas(b) - {node}
          ensures n in OnCanvas(c)
        {
          var p :| p in b.paneToNode && b.paneToNode[p].nodeId == n;
          assert p in c.paneToNode && c.paneToNode[p].nodeId == n;
        }
      }
      assert node in OnCanvas(b);
    }
  }

  lemma OnCanvasAdded(panes: map<string, PaneEntry>, pane: string, entry: PaneEntry, b: Board, c: Board)
    requires b.paneToNode == panes && c.paneToNode == panes[pane := entry] && pane !in panes
    ensures OnCanvas(c) == OnCanvas(b) + {entry.nodeId}
    ensures NodesDistinct(panes) ==> (NodesDistinct(c.paneToNode) <==> entry.nodeId !in OnCanvas(b))
  {
    assert c.paneToNode[pane] == entry;
    forall n | n in OnCanvas(b)
      ensures n in OnCanvas(c)
    {
      var p :| p in panes && panes[p].nodeId == n;
      assert p in c.paneToNode && c.paneToNode[p].nodeId == n;
    }
    if entry.nodeId in OnCanvas(b) {
      var p :| p in panes && panes[p].nodeId == entry.nodeId;
      assert p != pane && c.paneToNode[p].nodeId == c.paneToNode[pane].nodeId;
    }
  }

  /** A click on a listed node, answered by a new pane, keeps the board sound and the tracked nodes the
      same exactly when the node is still closed. */
  lemma RespawnIff(b: Board, node: string, entry: PaneEntry, pane: string)
    requires Sound(b) && entry.nodeId == node && pane !in b.paneToNode
    ensures
      var c := Respawned(b, node, entry, Spawned(pane));
      Sound(c) && Tracked(c) == Tracked(b) <==> node in b.closedNodes
  {
    var c := Respawned(b, node, entry, Spawned(pane));
    OnCanvasAdded(b.paneToNode, pane, entry.(closedPaneId := None), b, c);
    if node !in b.closedNodes && node !in OnCanvas(b) {
      assert node in Tracked(c) && node !in Tracked(b);
    }
  }

  /** Without a new pane the node is gone from both lists: nothing is lost exactly when it had not been
      closed at all. */
  lemma FailedRespawnLosesIff(b: Board, node: string, entry: PaneEntry, spawn: Spawn)
    requires Sound(b) && !spawn.Spawned?
    ensures
      var c := Respawned(b, node, entry, spawn);
      Sound(c) && (Tracked(c) == Tracked(b) <==> node !in b.closedNodes)
  {
  }

  lemma RecoverConserves(b: Board, pane: string, node: string)
    requires Sound(b) && pane !in b.paneToNode && node in b.closedNodes
    ensures Sound(Recovered(b, pane, node)) && Tracked(Recovered(b, pane, node)) == Tracked(b)
  {
    var entry := PaneEntry(node, b.closedNodes[node].details, false, None);
    OnCanvasAdded(b.paneToNode, pane, entry, b, Recovered(b, pane, node));
  }

  lemma MigrateConserves(b: Board, from: string, to: string)
    requires Sound(b) && from != to && to !in b.paneToNode
    ensures Sound(Migrated(b, from, to)) && Tracked(Migrated(b, from, to)) == Tracked(b)
  {
    if from in b.paneToNode {
      var c := Migrated(b, from, to);
      forall n
        ensures n in OnCanvas(b) <==> n in OnCanvas(c)
      {
        if n in OnCanvas(b) {
          var p :| p in b.paneToNode && b.paneToNode[p].nodeId == n;
          var q := if p == from then to else p;
          assert q in c.paneToNode && c.paneToNode[q].nodeId == n;
        }
        if n in OnCanvas(c) {
          var q :| q in c.paneToNode && c.paneToNode[q].nodeId == n;
          var p := if q == to then from else q;
          assert p in b.paneToNode && b.paneToNode[p].nodeId == n;
        }
      }
    }
  }

  /** The steps that only move nodes about. */
  predicate Moves(step: Step) {
    step.ClosePane? || step.UnreadClick? || step.FetchFails? || step.Restart? || step.RespawnClosed?
    || step.RecoverClosed? || step.MigrateEntry? || step.Refresh?
  }

  /** A click gets a pane exactly when its node is still closed. */
  ghost predicate Timely(d: Desk, step: Step) {
    step.RespawnClosed? ==> (step.spawn.Spawned? <==> step.node in d.board.closedNodes)
  }

  ghost predicate Conserves(d: Desk, step: Step)
    requires Enabled(d, step)
  {
    DeskSound(Apply(d, step)) && (Moves(step) ==> Tracked(Apply(d, step).board) == Tracked(d.board))
  }

  lemma OtherStepsSound(d: Desk, step: Step)
    requires DeskSound(d) && Enabled(d, step) && !Moves(step)
    ensures Conserves(d, step)
  {
  }

  lemma StepConservesIff(d: Desk, step: Step)
    requires DeskSound(d) && Enabled(d, step)
    ensures Conserves(d, step) <==> Timely(d, step)
  {
    match step
    case ClosePane(pane, _) => CloseConserves(d.board, pane);
    case UnreadClick =>
    case FetchFails =>
    case Restart =>
    case RespawnClosed(node, spawn) =>
      if spawn.Spawned? {
        RespawnIff(d.board, node, d.listed[node], spawn.pane);
      } else {
        FailedRespawnLosesIff(d.board, node, d.listed[node], spawn);
      }
    case RecoverClosed(pane, node) => RecoverConserves(d.board, pane, node);
    case MigrateEntry(from, to) => MigrateConserves(d.board, from, to);
    case Refresh =>
    case _ => OtherStepsSound(d, step);
  }

  // ---- What moving about amounts to ------------------------------------------------------------

  /** Closing a pane and reopening its node on another one moves the entry there: the node, its details
      and whether it is uncommitted are kept. */
  lemma CloseThenReopen(b: Board, from: string, to: string)
    requires b.projectId.Some? && from in b.paneToNode && to !in b.paneToNode && from != to
    requires b.paneToNode[from].nodeId !in b.closedNodes
    ensures
      var c, node, open := Closed(b, from), b.paneToNode[from].nodeId, b.paneToNode[from].(closedPaneId := None);
      && node in c.closedNodes && c.closedNodes[node] == open.(closedPaneId := Some(from))
      && Respawned(c, node, c.closedNodes[node], Spawned(to))
         == Migrated(b.(paneToNode := b.paneToNode[from := open], spawning := false), from, to)
  {
    CloseThenMove(b, from, to, b.paneToNode[from].(closedPaneId := None));
  }

  /** A pane that recovers the closed node does the same, except that the entry counts as committed and
      the flag stays as it was. */
  lemma CloseThenRecover(b: Board, from: string, to: string)
    requires b.projectId.Some? && from in b.paneToNode && to !in b.paneToNode && from != to
    requires b.paneToNode[from].nodeId !in b.closedNodes
    ensures
      var node, open := b.paneToNode[from].nodeId, b.paneToNode[from].(closedPaneId := None, uncommitted := false);
      Recovered(Closed(b, from), to, node) == Migrated(b.(paneToNode := b.paneToNode[from := open]), from, to)
  {
    CloseThenMove(b, from, to, b.paneToNode[from].(closedPaneId := None, uncommitted := false));
  }

  lemma CloseThenMove(b: Board, from: string, to: string, open: PaneEntry)
    requires b.projectId.Some? && from in b.paneToNode && to !in b.paneToNode && from != to
    requires b.paneToNode[from].nodeId !in b.closedNodes
    ensures
      var c := Closed(b, from);
      && c.closedNodes - {b.paneToNode[from].nodeId} == b.closedNodes
      && c.paneToNode[to := open] == b.paneToNode[from := open][to := open] - {from}
  {
  }

  /** Migrating back undoes a migration. */
  lemma MigrateBack(b: Board, from: string, to: string)
    requires from in b.paneToNode && to !in b.paneToNode && from != to
    ensures Migrated(Migrated(b, from, to), to, from) == b
    ensures Migrated(b, from, to).paneToNode[to] == b.paneToNode[from]
  {
    assert (b.paneToNode[to := b.paneToNode[from]] - {from})[from := b.paneToNode[from]] - {to} == b.paneToNode;
  }

  /** What the other steps do to the tracked nodes. */
  ghost function TrackedAfter(d: Desk, step: Step): set<string> {
    var b := d.board;
    match step
    case OpenBoard(_, spawned, _) => set p | p in spawned :: spawned[p].nodeId
    case AutoCreate(_, entry) => Tracked(b) + {entry.nodeId}
    case DeleteClosed(node) => Tracked(b) - ({node} - OnCanvas(b))
    case DeleteOpen(pane) => Tracked(b) - (set p | p in b.paneToNode && p == pane :: b.paneToNode[p].nodeId)
    case DropStale(panes) => Tracked(b) - (set p | p in b.paneToNode && p in panes :: b.paneToNode[p].nodeId)
    case StopProject => {}
    case _ => Tracked(b)
  }

  /** Which nodes the board has on record, whether or not they are tracked: deleting a closed node takes it
      off, deleting one on canvas does not. */
  function OnRecordAfter(d: Desk, step: Step): set<string> {
    match step
    case OpenBoard(_, _, nodes) => nodes
    case AutoCreate(_, entry) => d.board.nodeIds + {entry.nodeId}
    case DeleteClosed(node) => d.board.nodeIds - {node}
    case StopProject => {}
    case _ => d.board.nodeIds
  }

  /** No step but opening and stopping changes the project, and moving a node about changes no record. */
  lemma RecordKept(d: Desk, step: Step)
    requires Enabled(d, step)
    ensures
      var c := Apply(d, step).board;
      && c.nodeIds == OnRecordAfter(d, step) && (Moves(step) ==> c.nodeIds == d.board.nodeIds)
      && (c.projectId == d.board.projectId || step.OpenBoard? || step.StopProject?)
      && (step.OpenBoard? ==> c.projectId == Some(step.project)) && (step.StopProject? ==> c.projectId.None?)
  {
  }

  /** The steps that do not move nodes bring and lose exactly the nodes they name. */
  lemma OtherStepsTrack(d: Desk, step: Step)
    requires DeskSound(d) && Enabled(d, step) && !Moves(step)
    ensures Tracked(Apply(d, step).board) == TrackedAfter(d, step)
  {
    var b, c := d.board, Apply(d, step).board;
    match step
    case AutoCreate(pane, entry) => OnCanvasAdded(b.paneToNode, pane, entry, b, c);
    case DeleteOpen(pane) => DroppedTracked(b, {pane});
    case DropStale(panes) => DroppedTracked(b, panes);
    case _ =>
  }

  lemma DroppedTracked(b: Board, panes: set<string>)
    requires Sound(b)
    ensures Tracked(b.(paneToNode := b.paneToNode - panes))
         == Tracked(b) - (set p | p in b.paneToNode && p in panes :: b.paneToNode[p].nodeId)
  {
    var c := b.(paneToNode := b.paneToNode - panes);
    var dropped := set p | p in b.paneToNode && p in panes :: b.paneToNode[p].nodeId;
    forall n | n in OnCanvas(b) - dropped
      ensures n in OnCanvas(c)
    {
      var p :| p in b.paneToNode && b.paneToNode[p].nodeId == n;
      assert p in c.paneToNode && c.paneToNode[p].nodeId == n;
    }
  }

  // ---- Runs ------------------------------------------------------------------------------------

  ghost predicate Legal(d: Desk, steps: seq<Step>)
    decreases |steps|
  {
    steps == [] || (Enabled(d, steps[0]) && Legal(Apply(d, steps[0]), steps[1..]))
  }

  ghost predicate AlwaysConserves(d: Desk, steps: seq<Step>)
    requires Legal(d, steps)
    decreases |steps|
  {
    steps == [] || (Conserves(d, steps[0]) && AlwaysConserves(Apply(d, steps[0]), steps[1..]))
  }

  ghost predicate AlwaysTimely(d: Desk, steps: seq<Step>)
    requires Legal(d, steps)
    decreases |steps|
  {
    steps == [] || (Timely(d, steps[0]) && AlwaysTimely(Apply(d, steps[0]), steps[1..]))
  }

  /** Over a whole run, every board on the way is sound and every move keeps the tracked nodes exactly
      when every click is timely. */
  lemma {:induction false} RunConservesIff(d: Desk, steps: seq<Step>)
    requires DeskSound(d) && Legal(d, steps)
    ensures AlwaysConserves(d, steps) <==> AlwaysTimely(d, steps)
    decreases |steps|
  {
    if steps != [] {
      StepConservesIff(d, steps[0]);
      if Conserves(d, steps[0]) {
        RunConservesIff(Apply(d, steps[0]), steps[1..]);
      }
    }
  }

  const EMPTY_DESK := Desk(Board(None, map[], {}, map[], false), map[], false)

  /** The same from the beginning: every board reachable by timely clicks is sound. */
  lemma EveryRunConservesIff(steps: seq<Step>)
    requires Legal(EMPTY_DESK, steps)
    ensures AlwaysConserves(EMPTY_DESK, steps) <==> AlwaysTimely(EMPTY_DESK, steps)
  {
    RunConservesIff(EMPTY_DESK, steps);
  }

  /** How a click comes too late: a pane recovers the closed node, the list on screen still shows it,
      and the click puts it on a second pane. */
  lemma StaleClickDoubles(d: Desk, node: string, recovering: string, pane: string)
    requires DeskSound(d) && d.board.projectId.Some? && !d.board.spawning
    requires node in d.board.closedNodes && d.listed == d.board.closedNodes
    requires recovering !in d.board.paneToNode && pane !in d.board.paneToNode && recovering != pane
    ensures
      var steps := [RecoverClosed(recovering, node), RespawnClosed(node, Spawned(pane))];
      Legal(d, steps) && !Sound(Apply(Apply(d, steps[0]), steps[1]).board)
  {
    var steps := [RecoverClosed(recovering, node), RespawnClosed(node, Spawned(pane))];
    var e := Apply(d, steps[0]);
    RecoverConserves(d.board, recovering, node);
    assert steps[1..] == [steps[1]] && steps[1..][1..] == [];
    assert Enabled(e, steps[1]) && Legal(Apply(e, steps[1]), []);
    var f := Apply(e, steps[1]).board;
    assert f.paneToNode[recovering].nodeId == f.paneToNode[pane].nodeId;
  }

  // ---- Closes that are not noticed -------------------------------------------------------------

  /** Closing a recorded pane files its node as closed exactly when removals are not suppressed and the
      board could be read; otherwise the board goes on recording a pane that is gone. */
  lemma CloseFiledIff(d: Desk, pane: string, seen: bool)
    requires DeskSound(d) && d.board.projectId.Some? && pane in d.board.paneToNode
    ensures
      var c, node := Apply(d, ClosePane(pane, seen)).board, d.board.paneToNode[pane].nodeId;
      node in c.closedNodes && node !in OnCanvas(c) <==> seen && !d.suppressed
  {
  }

  function Run(d: Desk, steps: seq<Step>): Desk
    requires Legal(d, steps)
    decreases |steps|
  {
    if steps == [] then d else Run(Apply(d, steps[0]), steps[1..])
  }

  /** The actions that end with removals noticed again. */
  predicate Unmutes(step: Step) {
    step.RespawnClosed? || step.FetchFails? || step.Restart? || step.OpenBoard? || step.StopProject?
  }

  /** After a click that found no board, no close is filed until the next action of the explorer that
      ends with removals noticed again: the closed nodes never grow. */
  lemma {:induction false} MutedRun(d: Desk, steps: seq<Step>)
    requires d.suppressed && Legal(d, steps)
    requires forall i :: 0 <= i < |steps| ==> !Unmutes(steps[i])
    ensures Run(d, steps).suppressed
    ensures Run(d, steps).board.closedNodes.Keys <= d.board.closedNodes.Keys
    decreases |steps|
  {
    if steps != [] {
      assert !Unmutes(steps[0]);
      MutedRun(Apply(d, steps[0]), steps[1..]);
    }
  }

  /** A click found no board, and no action since has ended with removals noticed. */
  ghost predicate MutedBy(steps: seq<Step>, i: nat) {
    i < |steps| && steps[i].UnreadClick? && forall j :: i < j < |steps| ==> !Unmutes(steps[j])
  }

  ghost predicate NeverUnmuted(steps: seq<Step>) {
    forall j :: 0 <= j < |steps| ==> !Unmutes(steps[j])
  }

  /** Exactly when removals are suppressed after a run. */
  lemma {:induction false} SuppressedIff(d: Desk, steps: seq<Step>)
    requires Legal(d, steps)
    ensures Run(d, steps).suppressed <==> (d.suppressed && NeverUnmuted(steps)) || exists i: nat :: MutedBy(steps, i)
    decreases |steps|
  {
    if steps != [] {
      var t, more := Apply(d, steps[0]), steps[1..];
      SuppressedIff(t, more);
      assert t.suppressed <==> steps[0].UnreadClick? || (d.suppressed && !Unmutes(steps[0]));
      assert NeverUnmuted(steps) <==> !Unmutes(steps[0]) && NeverUnmuted(more);
      assert MutedBy(steps, 0) <==> steps[0].UnreadClick? && NeverUnmuted(more);
      forall i: nat
        ensures MutedBy(steps, i + 1) <==> MutedBy(more, i)
      {
      }
      if exists i: nat :: MutedBy(steps, i) {
        var i: nat :| MutedBy(steps, i);
        assert i > 0 ==> MutedBy(more, i - 1);
      }
      if exists i: nat :: MutedBy(more, i) {
        var i: nat :| MutedBy(more, i);
        assert MutedBy(steps, i + 1);
      }
    }
  }

  /** On a list just rendered, exactly the closed nodes can be clicked, and such a click is timely when it
      gets a pane. */
  lemma FreshListTimely(d: Desk, node: string, pane: string)
    requires d.board.projectId.Some? && pane !in d.board.paneToNode
    ensures
      var t, click := Apply(d, Refresh), RespawnClosed(node, Spawned(pane));
      && t.board == d.board
      && (Enabled(t, click) <==> node in d.board.closedNodes)
      && (Enabled(t, click) ==> Timely(t, click) && t.listed[node] == d.board.closedNodes[node])
  {
  }

  // ---- The handlers ----------------------------------------------------------------------------

  /** The one stored value the explorer and the panes read and overwrite. */
  class BoardStore {
    var stored: Option<Board>

    constructor ()
      ensures stored == None
    {
      stored := None;
    }
  }

  class Explorer {
    const store: BoardStore
    var suppressPaneRemoved: bool

    constructor (store: BoardStore)
      ensures this.store == store && !suppressPaneRemoved
    {
      this.store := store;
      suppressPaneRemoved := false;
    }

    method HandlePaneRemoved(paneId: string)
      modifies store
      ensures store.stored ==
              if !suppressPaneRemoved && old(store.stored).Some? then Some(Closed(old(store.stored).value, paneId))
              else old(store.stored)
    {
      if suppressPaneRemoved || store.stored.None? {
        return;
      }
      var board := store.stored.value;
      if board.projectId.None? || paneId !in board.paneToNode {
        return;
      }
      var entry := board.paneToNode[paneId];
      entry := entry.(closedPaneId := Some(paneId));
      board := board.(closedNodes := board.closedNodes[entry.nodeId := entry]);
      board := board.(paneToNode := board.paneToNode - {paneId});
      store.stored := Some(board);
    }

    /** The spawn is the host's answer; the two writes of the board surround it. Without a board the
        handler returns with pane removals still suppressed. */
    method RespawnClosedNode(nodeId: string, entry: PaneEntry, spawn: Spawn)
      modifies this, store
      ensures suppressPaneRemoved <==> old(store.stored).None?
      ensures store.stored ==
              if old(store.stored).Some? then Some(Respawned(old(store.stored).value, nodeId, entry, spawn)) else None
    {
      suppressPaneRemoved := true;
      if store.stored.None? {
        return;
      }
      var board := store.stored.value;
      var restored := entry.(closedPaneId := None);
      board := board.(closedNodes := board.closedNodes - {nodeId});
      board := board.(spawning := true);
      store.stored := Some(board);
      if spawn.Throws? {
        suppressPaneRemoved := false;
        return;
      }
      if spawn.Spawned? {
        board := board.(paneToNode := board.paneToNode[spawn.pane := restored]);
      }
      board := board.(spawning := false);
      store.stored := Some(board);
      suppressPaneRemoved := false;
    }
  }

  class NodePane {
    const store: BoardStore
    const paneId: string

    constructor (store: BoardStore, paneId: string)
      ensures this.store == store && this.paneId == paneId
    {
      this.store := store;
      this.paneId := paneId;
    }

    /** The recovery branch of `waitForBoardEntry`: `closedNodeId` is the first key of the closed list. */
    method RecoverFromClosed(closedNodeId: string) returns (entry: PaneEntry)
      requires store.stored.Some?
      requires var b := store.stored.value;
        b.projectId.Some? && !b.spawning && paneId !in b.paneToNode && closedNodeId in b.closedNodes
      modifies store
      ensures store.stored == Some(Recovered(old(store.stored).value, paneId, closedNodeId))
      ensures entry == store.stored.value.paneToNode[paneId]
    {
      var board := store.stored.value;
      entry := PaneEntry(closedNodeId, board.closedNodes[closedNodeId].details, false, None);
      board := board.(paneToNode := board.paneToNode[paneId := entry]);
      board := board.(closedNodes := board.closedNodes - {closedNodeId});
      store.stored := Some(board);
    }

    method MigrateBoardEntry(newPaneId: string)
      requires newPaneId != paneId
      modifies store
      ensures store.stored ==
              if old(store.stored).Some? then Some(Migrated(old(store.stored).value, paneId, newPaneId)) else None
    {
      if store.stored.None? || paneId !in store.stored.value.paneToNode {
        return;
      }
      var board := store.stored.value;
      board := board.(paneToNode := board.paneToNode[newPaneId := board.paneToNode[paneId]]);
      board := board.(paneToNode := board.paneToNode - {paneId});
      store.stored := Some(board);
    }
  }
}
