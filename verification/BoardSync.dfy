/** `BoardSync` with its handlers taken one at a time: what each does to the two maps, how the
    incremental handler agrees with the full one, and when the maps stay inverses. The host's answers to
    the spawns are parameters, one per node. */
module BoardSync {
  import opened NodeTypes
  import opened Options
  import opened PaneMaps

  datatype Wire = Wire(from: string, to: string, kind: WireType)

  datatype Saved = Saved(projectId: Option<string>, maps: Maps, topology: Option<string>)

  /** The fields of the object, and what the host has in storage for it. */
  datatype Memory = Memory(
    projectId: Option<string>,
    maps: Maps,
    nodesById: map<string, Node>,
    wires: seq<Wire>,
    topology: Option<string>,
    stored: Option<Saved>)

  const NEW := Memory(None, NO_MAPS, map[], [], None, None)

  // ---- Handlers --------------------------------------------------------------------------------

  function Ids(nodes: seq<Node>): set<string> {
    set n | n in nodes :: n.id
  }

  function Known(byId: map<string, Node>, nodes: seq<Node>): map<string, Node>
    decreases |nodes|
  {
    if nodes == [] then byId else Known(byId[nodes[0].id := nodes[0]], nodes[1..])
  }

  /** Every node gets a pane, one it already has notwithstanding. */
  function SpawnedAll(m: Maps, nodes: seq<Node>, answers: seq<Option<string>>): Maps
    requires |nodes| == |answers|
    decreases |nodes|
  {
    if nodes == [] then m else SpawnedAll(Linked(m, nodes[0], answers[0]), nodes[1..], answers[1..])
  }

  /** Every node without a pane gets one. */
  function Filled(m: Maps, nodes: seq<Node>, answers: seq<Option<string>>): Maps
    requires |nodes| == |answers|
    decreases |nodes|
  {
    if nodes == [] then m
    else Filled(if nodes[0].id in m.nodeToPane then m else Linked(m, nodes[0], answers[0]), nodes[1..], answers[1..])
  }

  /** The nodes for which `Filled` asks the host for a pane. */
  function Asked(m: Maps, nodes: seq<Node>, answers: seq<Option<string>>): seq<string>
    requires |nodes| == |answers|
    decreases |nodes|
  {
    if nodes == [] then []
    else if nodes[0].id in m.nodeToPane then Asked(m, nodes[1..], answers[1..])
    else [nodes[0].id] + Asked(Linked(m, nodes[0], answers[0]), nodes[1..], answers[1..])
  }

  /** The nodes whose spawn throws. */
  function Failed(nodes: seq<Node>, answers: seq<Option<string>>): (r: seq<string>)
    requires |nodes| == |answers|
    ensures |r| <= |nodes|
    ensures forall i :: 0 <= i < |nodes| && answers[i].None? ==> nodes[i].id in r
    ensures forall x :: x in r ==> exists i :: 0 <= i < |nodes| && answers[i].None? && nodes[i].id == x
    decreases |nodes|
  {
    if nodes == [] then []
    else
      var last := |nodes| - 1;
      Failed(nodes[..last], answers[..last]) + (if answers[last].None? then [nodes[last].id] else [])
  }

  /** `persists` is false when the host refuses, which is swallowed. */
  function Stored(m: Memory, persists: bool): Memory {
    if persists then m.(stored := Some(Saved(m.projectId, m.maps, m.topology))) else m
  }

  /** Nothing is asked for without wires, and a spawn that throws leaves the old note's pane id. */
  function Noted(m: Memory, note: Option<string>): Memory {
    if m.wires == [] || note.None? then m
    else m.(topology := if note.value == "" then None else note)
  }

  function BoardSpawned(
    m: Memory, nodes: seq<Node>, wires: seq<Wire>, answers: seq<Option<string>>, note: Option<string>,
    persists: bool): Memory
    requires |nodes| == |answers|
  {
    var n := m.(wires := wires, nodesById := Known(map[], nodes), maps := SpawnedAll(m.maps, nodes, answers));
    Stored(Noted(n, note), persists)
  }

  function Changed(m: Maps, added: seq<Node>, removed: seq<string>, answers: seq<Option<string>>): Maps
    requires |added| == |answers|
  {
    TakenOff(SpawnedAll(m, added, answers), set n | n in removed)
  }

  /** A removed node that has no pane stays in `nodesById`. */
  function BoardChanged(
    m: Memory, added: seq<Node>, removed: seq<string>, wires: Option<seq<Wire>>, answers: seq<Option<string>>,
    persists: bool): Memory
    requires |added| == |answers|
  {
    var spawned := SpawnedAll(m.maps, added, answers);
    var gone := set n | n in removed;
    Stored(m.(maps := TakenOff(spawned, gone),
              nodesById := Known(m.nodesById, added) - (spawned.nodeToPane.Keys * gone),
              wires := if wires.Some? then wires.value else m.wires), persists)
  }

  /** The mapped nodes that are not on the board. */
  function Gone(m: Maps, nodes: seq<Node>): set<string> {
    m.nodeToPane.Keys - Ids(nodes)
  }

  function Reconciled(m: Maps, nodes: seq<Node>, answers: seq<Option<string>>): Maps
    requires |nodes| == |answers|
  {
    Filled(TakenOff(m, Gone(m, nodes)), nodes, answers)
  }

  function BoardReconciled(
    m: Memory, nodes: seq<Node>, wires: seq<Wire>, answers: seq<Option<string>>, persists: bool): Memory
    requires |nodes| == |answers|
  {
    Stored(m.(maps := Reconciled(m.maps, nodes, answers), nodesById := Known(m.nodesById, nodes), wires := wires),
           persists)
  }

  /** Closing the topology note only forgets the note. */
  function CanvasClosed(m: Memory, pane: string): Memory {
    if m.topology == Some(pane) then m.(topology := None) else m.(maps := PaneClosed(m.maps, pane))
  }

  /** `|| null` takes the empty string for nothing. */
  function OrNull(text: Option<string>): Option<string> {
    if text == Some("") then None else text
  }

  /** Nothing loaded, or a load that throws, leaves everything as it is. */
  function Restored(m: Memory, loaded: Option<Saved>): Memory {
    if loaded.None? then m
    else m.(projectId := OrNull(loaded.value.projectId), maps := loaded.value.maps,
            topology := OrNull(loaded.value.topology))
  }

  // ---- The object ------------------------------------------------------------------------------

  class BoardSync {
    var nodeToPane: map<string, NodePaneLink>
    var paneToNode: map<string, PaneNodeLink>
    var projectId: Option<string>
    var nodesById: map<string, Node>
    var wires: seq<Wire>
    var topologyPaneId: Option<string>
    var stored: Option<Saved>

    function View(): Memory
      reads this
    {
      Memory(projectId, Maps(nodeToPane, paneToNode), nodesById, wires, topologyPaneId, stored)
    }

    constructor (stored: Option<Saved>)
      ensures View() == NEW.(stored := stored)
    {
      nodeToPane, paneToNode, projectId, nodesById, wires, topologyPaneId := map[], map[], None, map[], [], None;
      this.stored := stored;
    }

    method LinkPane(node: Node, pane: string, kind: PaneKind)
      requires kind == if node.nodeType.Agent? then Worker else Note
      modifies this`nodeToPane, this`paneToNode
      ensures View() == old(View()).(maps := Linked(old(View().maps), node, Some(pane)))
    {
      if pane == "" {
        return;
      }
      nodeToPane := nodeToPane[node.id := NodePaneLink(pane, kind)];
      paneToNode := paneToNode[pane := PaneNodeLink(node.id, node.nodeType)];
    }

    method SpawnPaneForNode(node: Node, answer: Option<string>)
      modifies this`nodeToPane, this`paneToNode
      ensures View() == old(View()).(maps := Linked(old(View().maps), node, answer))
    {
      if answer.Some? {
        if node.nodeType == Agent {
          LinkPane(node, answer.value, Worker);
        } else {
          LinkPane(node, answer.value, Note);
        }
      }
    }

    method SpawnTopologyNote(note: Option<string>)
      modifies this`topologyPaneId
      ensures View() == Noted(old(View()), note)
    {
      if |wires| == 0 || note.None? {
        return;
      }
      topologyPaneId := if note.value == "" then None else note;
    }

    method SpawnBoard(
      nodes: seq<Node>, wires: seq<Wire>, answers: seq<Option<string>>, note: Option<string>, persists: bool)
      returns (spawned: nat, failed: nat, errors: seq<string>)
      requires |nodes| == |answers|
      modifies this
      ensures View() == BoardSpawned(old(View()), nodes, wires, answers, note, persists)
      ensures errors == Failed(nodes, answers) && failed == |errors| && spawned + failed == |nodes|
    {
      this.wires := wires;
      nodesById := map[];
      for i := 0 to |nodes|
        invariant View() == old(View()).(wires := wires, nodesById := nodesById)
        invariant Known(nodesById, nodes[i..]) == Known(map[], nodes)
      {
        nodesById := nodesById[nodes[i].id := nodes[i]];
        assert nodes[i..][1..] == nodes[i + 1..];
      }
      spawned, failed, errors := 0, 0, [];
      for i := 0 to |nodes|
        invariant View() == old(View()).(wires := wires, nodesById := Known(map[], nodes), maps := View().maps)
        invariant SpawnedAll(View().maps, nodes[i..], answers[i..]) == SpawnedAll(old(View().maps), nodes, answers)
        invariant errors == Failed(nodes[..i], answers[..i]) && failed == |errors| && spawned + failed == i
      {
        SpawnPaneForNode(nodes[i], answers[i]);
        assert nodes[i..][1..] == nodes[i + 1..] && answers[i..][1..] == answers[i + 1..];
        assert nodes[..i + 1][..i] == nodes[..i] && answers[..i + 1][..i] == answers[..i];
        if answers[i].Some? {
          spawned := spawned + 1;
        } else {
          failed := failed + 1;
          errors := errors + [nodes[i].id];
        }
      }
      assert nodes[..|nodes|] == nodes && answers[..|nodes|] == answers;
      SpawnTopologyNote(note);
      PersistState(persists);
    }

    method OpenProject(project: string, nodes: seq<Node>, wires: seq<Wire>, answers: seq<Option<string>>,
                       note: Option<string>, persists: bool)
      requires |nodes| == |answers|
      modifies this
      ensures View() == BoardSpawned(old(View()).(projectId := Some(project)), nodes, wires, answers, note, persists)
    {
      projectId := Some(project);
      var _, _, _ := SpawnBoard(nodes, wires, answers, note, persists);
    }

    /** `killed` are the panes the host is told to remove. */
    method HandleBoardChanged(
      added: seq<Node>, removed: seq<string>, wires: Option<seq<Wire>>, answers: seq<Option<string>>, persists: bool)
      returns (killed: set<string>)
      requires |added| == |answers|
      modifies this
      ensures View() == BoardChanged(old(View()), added, removed, wires, answers, persists)
      ensures killed == PanesOf(SpawnedAll(old(View().maps), added, answers), set n | n in removed)
    {
      for i := 0 to |added|
        invariant View() == old(View()).(maps := View().maps, nodesById := nodesById)
        invariant SpawnedAll(View().maps, added[i..], answers[i..]) == SpawnedAll(old(View().maps), added, answers)
        invariant Known(nodesById, added[i..]) == Known(old(nodesById), added)
      {
        nodesById := nodesById[added[i].id := added[i]];
        SpawnPaneForNode(added[i], answers[i]);
        assert added[i..][1..] == added[i + 1..] && answers[i..][1..] == answers[i + 1..];
      }
      killed := TakeOffAll(removed);
      if wires.Some? {
        this.wires := wires.value;
      }
      PersistState(persists);
    }

    /** Unlinks a mapped node and has its pane killed. */
    method TakeOff(node: string) returns (pane: string)
      requires node in nodeToPane
      modifies this`nodeToPane, this`paneToNode
      ensures View() == old(View()).(maps := TakenOff(old(View().maps), {node}))
      ensures {pane} == PanesOf(old(View().maps), {node})
    {
      pane := nodeToPane[node].pane;
      assert PanesOf(View().maps, {node}) == {pane};
      paneToNode := paneToNode - {pane};
      nodeToPane := nodeToPane - {node};
    }

    /** The removal loop of `handleBoardChanged`. */
    method TakeOffAll(removed: seq<string>) returns (killed: set<string>)
      modifies this`nodeToPane, this`paneToNode, this`nodesById
      ensures
        var gone := set n | n in removed;
        && View() == old(View()).(maps := TakenOff(old(View().maps), gone),
                                  nodesById := old(nodesById) - (old(nodeToPane).Keys * gone))
        && killed == PanesOf(old(View().maps), gone)
    {
      killed := {};
      ghost var done: set<string> := {};
      assert TakenOff(View().maps, {}) == View().maps;
      for i := 0 to |removed|
        invariant done == set n | n in removed[..i]
        invariant View().maps == TakenOff(old(View().maps), done)
        invariant nodesById == old(nodesById) - (old(nodeToPane).Keys * done)
        invariant killed == PanesOf(old(View().maps), done)
      {
        var node := removed[i];
        assert removed[..i + 1] == removed[..i] + [node];
        TakenOffOneMore(old(View().maps), done, node);
        done := done + {node};
        if node !in nodeToPane {
          NothingToTakeOff(View().maps, node);
          continue;
        }
        var pane := TakeOff(node);
        killed := killed + {pane};
        nodesById := nodesById - {node};
      }
      assert removed[..|removed|] == removed;
    }

    /** `asked` are the nodes the host is asked to show, `killed` the panes it is told to remove. */
    method ReconcileBoard(nodes: seq<Node>, wires: seq<Wire>, answers: seq<Option<string>>, persists: bool)
      returns (asked: seq<string>, killed: set<string>)
      requires |nodes| == |answers|
      modifies this
      ensures View() == BoardReconciled(old(View()), nodes, wires, answers, persists)
      ensures killed == PanesOf(old(View().maps), Gone(old(View().maps), nodes))
      ensures asked == Asked(TakenOff(old(View().maps), Gone(old(View().maps), nodes)), nodes, answers)
    {
      killed := Prune(Ids(nodes));
      asked := [];
      ghost var pruned := View().maps;
      for i := 0 to |nodes|
        invariant View() == old(View()).(maps := View().maps, nodesById := nodesById)
        invariant Filled(View().maps, nodes[i..], answers[i..]) == Filled(pruned, nodes, answers)
        invariant Known(nodesById, nodes[i..]) == Known(old(nodesById), nodes)
        invariant asked + Asked(View().maps, nodes[i..], answers[i..]) == Asked(pruned, nodes, answers)
      {
        assert nodes[i..][1..] == nodes[i + 1..] && answers[i..][1..] == answers[i + 1..];
        nodesById := nodesById[nodes[i].id := nodes[i]];
        if nodes[i].id !in nodeToPane {
          asked := asked + [nodes[i].id];
          SpawnPaneForNode(nodes[i], answers[i]);
        }
      }
      this.wires := wires;
      PersistState(persists);
    }

    /** The pruning loop of `reconcileBoard`, over the mapped nodes in any order. */
    method Prune(keep: set<string>) returns (killed: set<string>)
      modifies this`nodeToPane, this`paneToNode
      ensures
        var gone := old(nodeToPane).Keys - keep;
        && View() == old(View()).(maps := TakenOff(old(View().maps), gone))
        && killed == PanesOf(old(View().maps), gone)
    {
      killed := {};
      var todo, gone: set<string> := nodeToPane.Keys, {};
      assert TakenOff(View().maps, {}) == View().maps;
      while todo != {}
        invariant gone !! todo && gone + todo <= old(nodeToPane).Keys
        invariant old(nodeToPane).Keys - keep == gone + (todo - keep)
        invariant View().maps == TakenOff(old(View().maps), gone)
        invariant killed == PanesOf(old(View().maps), gone)
        decreases todo
      {
        var node :| node in todo;
        todo := todo - {node};
        if node in keep {
          continue;
        }
        TakenOffOneMore(old(View().maps), gone, node);
        var pane := TakeOff(node);
        killed := killed + {pane};
        gone := gone + {node};
      }
    }

    method HandlePaneClose(pane: string) returns (closed: Option<PaneNodeLink>)
      modifies this
      ensures View() == CanvasClosed(old(View()), pane)
      ensures closed == if old(topologyPaneId) == Some(pane) || pane !in old(paneToNode) then None
                        else Some(old(paneToNode)[pane])
    {
      if topologyPaneId == Some(pane) {
        topologyPaneId := None;
        return None;
      }
      if pane !in paneToNode {
        return None;
      }
      var entry := paneToNode[pane];
      paneToNode := paneToNode - {pane};
      nodeToPane := nodeToPane - {entry.node};
      closed := Some(entry);
    }

    method PersistState(persists: bool)
      modifies this`stored
      ensures View() == Stored(old(View()), persists)
    {
      if !persists {
        return;
      }
      stored := Some(Saved(projectId, Maps(nodeToPane, paneToNode), topologyPaneId));
    }

    method RestoreState(loaded: Option<Saved>) returns (open: bool)
      modifies this
      ensures View() == Restored(old(View()), loaded)
      ensures open <==> loaded.Some? && projectId.Some?
    {
      if loaded.None? {
        return false;
      }
      projectId, topologyPaneId := OrNull(loaded.value.projectId), OrNull(loaded.value.topology);
      nodeToPane, paneToNode := loaded.value.maps.nodeToPane, loaded.value.maps.paneToNode;
      open := projectId.Some?;
    }
  }

  lemma NothingToTakeOff(m: Maps, node: string)
    requires node !in m.nodeToPane
    ensures TakenOff(m, {node}) == m && PanesOf(m, {node}) == {}
  {
  }

  lemma TakenOffOneMore(m: Maps, gone: set<string>, node: string)
    ensures
      var t := TakenOff(m, gone);
      && TakenOff(m, gone + {node}) == TakenOff(t, {node})
      && PanesOf(m, gone + {node}) == PanesOf(m, gone) + PanesOf(t, {node})
  {
    var t := TakenOff(m, gone);
    forall p
      ensures p in PanesOf(m, gone + {node}) <==> p in PanesOf(m, gone) || p in PanesOf(t, {node})
    {
      if p in PanesOf(m, gone + {node}) {
        var n :| n in m.nodeToPane && n in gone + {node} && m.nodeToPane[n].pane == p;
      }
    }
  }
}
