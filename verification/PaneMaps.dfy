/** The two maps of `BoardSync`, from nodes to panes and from panes to nodes, and the few ways in which
    its handlers change them. */
module PaneMaps {
  import opened NodeTypes
  import opened Options

  datatype PaneKind = Worker | Note
  datatype NodePaneLink = NodePaneLink(pane: string, kind: PaneKind)
  datatype PaneNodeLink = PaneNodeLink(node: string, nodeType: NodeType)

  datatype Maps = Maps(nodeToPane: map<string, NodePaneLink>, paneToNode: map<string, PaneNodeLink>)

  const NO_MAPS := Maps(map[], map[])

  datatype Node = Node(id: string, nodeType: NodeType, details: string)

  // ---- Changes ---------------------------------------------------------------------------------

  /** The host's answer to a spawn: none when it throws, the empty string when it names no pane. */
  predicate Gives(answer: Option<string>) {
    answer.Some? && answer.value != ""
  }

  /** `linkPane` after a spawn: an answer without a pane id, or a failed spawn, links nothing. */
  function Linked(m: Maps, node: Node, answer: Option<string>): Maps {
    if !Gives(answer) then m
    else
      var kind := if node.nodeType.Agent? then Worker else Note;
      Maps(m.nodeToPane[node.id := NodePaneLink(answer.value, kind)],
           m.paneToNode[answer.value := PaneNodeLink(node.id, node.nodeType)])
  }

  /** The nodes of `gone` taken off, each with the pane it is mapped to. */
  function TakenOff(m: Maps, gone: set<string>): Maps {
    Maps(m.nodeToPane - gone, m.paneToNode - PanesOf(m, gone))
  }

  /** The panes the nodes of `gone` are mapped to, which `kill` is called on. */
  function PanesOf(m: Maps, gone: set<string>): set<string> {
    set n | n in m.nodeToPane && n in gone :: m.nodeToPane[n].pane
  }

  /** A pane closed on the canvas, with the node it shows. */
  function PaneClosed(m: Maps, pane: string): Maps {
    if pane !in m.paneToNode then m
    else Maps(m.nodeToPane - {m.paneToNode[pane].node}, m.paneToNode - {pane})
  }

  // ---- What they keep --------------------------------------------------------------------------

  /** A mapped node's pane shows that node, and is a worker exactly when the node is an agent. */
  ghost predicate Consistent(m: Maps) {
    forall n :: n in m.nodeToPane ==>
      var link := m.nodeToPane[n];
      && link.pane in m.paneToNode
      && m.paneToNode[link.pane].node == n
      && (link.kind.Worker? <==> m.paneToNode[link.pane].nodeType.Agent?)
  }

  /** The two maps are inverses. */
  ghost predicate Inverse(m: Maps) {
    && Consistent(m)
    && forall p :: p in m.paneToNode ==> Answered(m, p)
  }

  /** The node a pane shows is mapped to that pane. */
  ghost predicate Answered(m: Maps, pane: string)
    requires pane in m.paneToNode
  {
    m.paneToNode[pane].node in m.nodeToPane && m.nodeToPane[m.paneToNode[pane].node].pane == pane
  }

  predicate FreshAnswer(m: Maps, answer: Option<string>) {
    Gives(answer) ==> answer.value !in m.paneToNode
  }

  lemma LinkConsistent(m: Maps, node: Node, answer: Option<string>)
    requires Consistent(m) && FreshAnswer(m, answer)
    ensures Consistent(Linked(m, node, answer))
  {
  }

  /** Linking keeps the maps inverse exactly when the node had no pane yet, or gets none now. */
  lemma LinkInverseIff(m: Maps, node: Node, answer: Option<string>)
    requires Inverse(m) && FreshAnswer(m, answer)
    ensures Inverse(Linked(m, node, answer)) <==> node.id !in m.nodeToPane || !Gives(answer)
  {
    var t := Linked(m, node, answer);
    LinkConsistent(m, node, answer);
    if t != m {
      if node.id in m.nodeToPane {
        var stale := m.nodeToPane[node.id].pane;
        assert stale in t.paneToNode && !Answered(t, stale);
      } else {
        forall p | p in t.paneToNode
          ensures Answered(t, p)
        {
          if p != answer.value {
            assert p in m.paneToNode && Answered(m, p);
          }
        }
      }
    }
  }

  lemma TakeOffConsistent(m: Maps, gone: set<string>)
    requires Consistent(m)
    ensures Consistent(TakenOff(m, gone))
    ensures Inverse(m) ==> Inverse(TakenOff(m, gone))
  {
  }

  lemma CloseConsistent(m: Maps, pane: string)
    requires Consistent(m)
    ensures Consistent(PaneClosed(m, pane))
    ensures Inverse(m) ==> Inverse(PaneClosed(m, pane))
  {
  }
}
