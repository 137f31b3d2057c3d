/** The board state the explorer and the panes share, and the peer sets drawn from its wires. */
module BoardState {
  import opened Options

  /** `details` stands for the node's type, name, configuration and wire summaries, which are copied
      around but never looked into. */
  datatype PaneEntry = PaneEntry(nodeId: string, details: string, uncommitted: bool, closedPaneId: Option<string>)

  datatype Board = Board(
    projectId: Option<string>,
    paneToNode: map<string, PaneEntry>,
    nodeIds: set<string>,
    closedNodes: map<string, PaneEntry>,
    spawning: bool)

  // ---- Peers -----------------------------------------------------------------------------------

  datatype Shown = Shown(pane: string, node: string)
  datatype Wire = Wire(from: string, to: string)

  /** `paneByNodeId[node]` after the first loop: of several panes showing a node, the last. */
  function PaneOf(entries: seq<Shown>, node: string): Option<string> {
    if entries == [] then None
    else if entries[|entries| - 1].node == node then Some(entries[|entries| - 1].pane)
    else PaneOf(entries[..|entries| - 1], node)
  }

  /** Of the panes that show a node, the one at `i` is the last. */
  ghost predicate LastShowing(entries: seq<Shown>, i: nat) {
    i < |entries| && forall j :: i < j < |entries| ==> entries[j].node != entries[i].node
  }

  lemma {:induction false} PaneOfIsLast(entries: seq<Shown>, i: nat)
    requires LastShowing(entries, i)
    ensures PaneOf(entries, entries[i].node) == Some(entries[i].pane)
  {
    var last := |entries| - 1;
    if i < last {
      PaneOfIsLast(entries[..last], i);
    }
  }

  /** A wire whose two ends are on canvas links panes `p` and `q`. */
  ghost predicate Links(entries: seq<Shown>, w: Wire, p: string, q: string) {
    p != "" && q != "" && PaneOf(entries, w.from) == Some(p) && PaneOf(entries, w.to) == Some(q)
  }

  ghost predicate Peers(entries: seq<Shown>, wires: seq<Wire>, p: string, q: string) {
    exists w :: w in wires && (Links(entries, w, p, q) || Links(entries, w, q, p))
  }

  ghost predicate IsPane(entries: seq<Shown>, p: string) {
    exists i :: 0 <= i < |entries| && entries[i].pane == p
  }

  lemma {:induction false} PaneOfIsPane(entries: seq<Shown>, node: string)
    requires PaneOf(entries, node).Some?
    ensures IsPane(entries, PaneOf(entries, node).value)
  {
    var last := |entries| - 1;
    if entries[last].node != node {
      PaneOfIsPane(entries[..last], node);
      var i :| 0 <= i < last && entries[i].pane == PaneOf(entries, node).value;
    }
  }

  /** `associatePanesByWires`: the peers of every pane on canvas. */
  method AssociatePanes(entries: seq<Shown>, wires: seq<Wire>) returns (peers: map<string, set<string>>)
    ensures forall p :: p in peers <==> IsPane(entries, p)
    ensures forall p, q :: p in peers ==> (q in peers[p] <==> Peers(entries, wires, p, q))
  {
    var paneByNodeId: map<string, string> := map[];
    peers := map[];
    for i := 0 to |entries|
      invariant forall n :: n in paneByNodeId <==> PaneOf(entries[..i], n).Some?
      invariant forall n :: n in paneByNodeId ==> PaneOf(entries[..i], n) == Some(paneByNodeId[n])
      invariant forall p :: p in peers <==> exists k :: 0 <= k < i && entries[k].pane == p
      invariant forall p :: p in peers ==> peers[p] == {}
    {
      assert entries[..i + 1][..i] == entries[..i];
      paneByNodeId := paneByNodeId[entries[i].node := entries[i].pane];
      peers := peers[entries[i].pane := {}];
    }
    assert entries[..|entries|] == entries;
    for i := 0 to |wires|
      invariant forall p :: p in peers <==> IsPane(entries, p)
      invariant forall p, q :: p in peers ==> (q in peers[p] <==> Peers(entries, wires[..i], p, q))
    {
      var w := wires[i];
      assert wires[..i + 1] == wires[..i] + [w];
      if w.from in paneByNodeId && w.to in paneByNodeId {
        var fromPane, toPane := paneByNodeId[w.from], paneByNodeId[w.to];
        if fromPane != "" && toPane != "" {
          PaneOfIsPane(entries, w.from);
          PaneOfIsPane(entries, w.to);
          peers := peers[fromPane := peers[fromPane] + {toPane}];
          peers := peers[toPane := peers[toPane] + {fromPane}];
        }
      }
      PeersSnoc(entries, wires[..i], w);
    }
    assert wires[..|wires|] == wires;
  }

  /** One more wire adds the pair it links, both ways round. */
  lemma PeersSnoc(entries: seq<Shown>, wires: seq<Wire>, w: Wire)
    ensures forall p, q :: Peers(entries, wires + [w], p, q) <==>
                           Peers(entries, wires, p, q) || Links(entries, w, p, q) || Links(entries, w, q, p)
  {
  }

  /** Peers are symmetric, and neither the order nor the repetition of wires matters. */
  lemma PeersSymmetric(entries: seq<Shown>, wires: seq<Wire>, others: seq<Wire>, p: string, q: string)
    requires forall w :: w in wires <==> w in others
    ensures Peers(entries, wires, p, q) == Peers(entries, others, q, p)
  {
  }

  /** No node is shown on two panes. */
  ghost predicate OnePaneEach(entries: seq<Shown>) {
    forall a, b :: a in entries && b in entries && a.node == b.node ==> a.pane == b.pane
  }

  lemma {:induction false} PaneOfShown(entries: seq<Shown>, node: string)
    ensures PaneOf(entries, node).Some? ==> Shown(PaneOf(entries, node).value, node) in entries
    ensures PaneOf(entries, node).None? ==> forall s :: s in entries ==> s.node != node
  {
    if entries != [] {
      var front, last := entries[..|entries| - 1], entries[|entries| - 1];
      PaneOfShown(front, node);
      assert entries == front + [last];
    }
  }

  /** While every node is on one pane, the peers are exactly the pairs of panes whose nodes some wire
      joins, whatever the order of the panes. */
  lemma PeersAreWiredPairs(entries: seq<Shown>, wires: seq<Wire>, p: string, q: string)
    requires OnePaneEach(entries) && p != "" && q != ""
    ensures Peers(entries, wires, p, q) <==>
            exists w :: w in wires &&
              ((Shown(p, w.from) in entries && Shown(q, w.to) in entries) ||
               (Shown(q, w.from) in entries && Shown(p, w.to) in entries))
  {
    forall w | w in wires
      ensures Links(entries, w, p, q) <==> Shown(p, w.from) in entries && Shown(q, w.to) in entries
      ensures Links(entries, w, q, p) <==> Shown(q, w.from) in entries && Shown(p, w.to) in entries
    {
      PaneOfShown(entries, w.from);
      PaneOfShown(entries, w.to);
    }
  }
}
