/** What the handlers of `BoardSync` promise together: the incremental one agrees with the full one,
    the full one is idempotent, and the maps stay inverses exactly as long as only unmapped nodes are
    spawned. */
module BoardSyncLaws {
  import opened Options
  import opened PaneMaps
  import opened BoardSync

  // ---- Which nodes are mapped ------------------------------------------------------------------

  /** The nodes that are given a pane. */
  function Placed(nodes: seq<Node>, answers: seq<Option<string>>): set<string>
    requires |nodes| == |answers|
  {
    set i | 0 <= i < |nodes| && Gives(answers[i]) :: nodes[i].id
  }

  lemma PlacedNext(nodes: seq<Node>, answers: seq<Option<string>>)
    requires |nodes| == |answers| > 0
    ensures Placed(nodes, answers) == Placed(nodes[1..], answers[1..]) + if Gives(answers[0]) then {nodes[0].id} else {}
  {
  }

  lemma {:induction false} SpawnedKeys(m: Maps, nodes: seq<Node>, answers: seq<Option<string>>)
    requires |nodes| == |answers|
    ensures SpawnedAll(m, nodes, answers).nodeToPane.Keys == m.nodeToPane.Keys + Placed(nodes, answers)
    decreases |nodes|
  {
    if nodes != [] {
      PlacedNext(nodes, answers);
      SpawnedKeys(Linked(m, nodes[0], answers[0]), nodes[1..], answers[1..]);
    }
  }

  lemma {:induction false} FilledKeys(m: Maps, nodes: seq<Node>, answers: seq<Option<string>>)
    requires |nodes| == |answers|
    ensures Filled(m, nodes, answers).nodeToPane.Keys == m.nodeToPane.Keys + Placed(nodes, answers)
    ensures forall n :: n in m.nodeToPane ==> Filled(m, nodes, answers).nodeToPane[n] == m.nodeToPane[n]
    decreases |nodes|
  {
    if nodes != [] {
      PlacedNext(nodes, answers);
      var t := if nodes[0].id in m.nodeToPane then m else Linked(m, nodes[0], answers[0]);
      FilledKeys(t, nodes[1..], answers[1..]);
      var f := Filled(t, nodes[1..], answers[1..]);
      forall n | n in m.nodeToPane
        ensures f.nodeToPane[n] == m.nodeToPane[n]
      {
        assert n in t.nodeToPane;
      }
    }
  }

  /** `handleBoardChanged` maps what was mapped and what it placed, less what it removed. */
  lemma ChangedKeys(m: Maps, added: seq<Node>, removed: seq<string>, answers: seq<Option<string>>)
    requires |added| == |answers|
    ensures Changed(m, added, removed, answers).nodeToPane.Keys
         == m.nodeToPane.Keys + Placed(added, answers) - set n | n in removed
  {
    SpawnedKeys(m, added, answers);
  }

  /** `reconcileBoard` maps the survivors, on the panes they had, and what it placed: the whole board
      and nothing else, exactly when no node without a pane was left without one. */
  lemma ReconciledKeys(m: Maps, nodes: seq<Node>, answers: seq<Option<string>>)
    requires |nodes| == |answers|
    ensures
      var t := Reconciled(m, nodes, answers);
      && t.nodeToPane.Keys == m.nodeToPane.Keys * Ids(nodes) + Placed(nodes, answers)
      && (forall n :: n in m.nodeToPane && n in Ids(nodes) ==> t.nodeToPane[n] == m.nodeToPane[n])
      && (t.nodeToPane.Keys == Ids(nodes) <==> Ids(nodes) - m.nodeToPane.Keys <= Placed(nodes, answers))
  {
    FilledKeys(TakenOff(m, Gone(m, nodes)), nodes, answers);
    forall x | x in Placed(nodes, answers)
      ensures x in Ids(nodes)
    {
      var i :| 0 <= i < |nodes| && nodes[i].id == x;
      assert nodes[i] in nodes;
    }
  }

  // ---- A second reconcile ----------------------------------------------------------------------

  lemma {:induction false} AskedAre(m: Maps, nodes: seq<Node>, answers: seq<Option<string>>, x: string)
    requires |nodes| == |answers|
    ensures x in Asked(m, nodes, answers) <==> x in Ids(nodes) && x !in m.nodeToPane
    decreases |nodes|
  {
    if nodes != [] {
      var t := if nodes[0].id in m.nodeToPane then m else Linked(m, nodes[0], answers[0]);
      AskedAre(t, nodes[1..], answers[1..], x);
      assert nodes == [nodes[0]] + nodes[1..];
      assert Ids(nodes) == {nodes[0].id} + Ids(nodes[1..]);
    }
  }

  lemma {:induction false} FilledSettled(m: Maps, nodes: seq<Node>, answers: seq<Option<string>>)
    requires |nodes| == |answers| && Ids(nodes) <= m.nodeToPane.Keys
    ensures Filled(m, nodes, answers) == m && Asked(m, nodes, answers) == []
    decreases |nodes|
  {
    if nodes != [] {
      assert nodes == [nodes[0]] + nodes[1..];
      assert nodes[0].id in Ids(nodes) && Ids(nodes[1..]) <= Ids(nodes);
      FilledSettled(m, nodes[1..], answers[1..]);
    }
  }

  /** Reconciling the same board again kills nothing and, exactly when every node without a pane was
      given one the first time, asks for nothing and changes nothing. */
  lemma SecondReconcileQuietIff(m: Maps, nodes: seq<Node>, first: seq<Option<string>>, second: seq<Option<string>>)
    requires |nodes| == |first| == |second|
    ensures
      var t := Reconciled(m, nodes, first);
      && Gone(t, nodes) == {} && PanesOf(t, Gone(t, nodes)) == {}
      && (Asked(TakenOff(t, Gone(t, nodes)), nodes, second) == []
          <==> Ids(nodes) - m.nodeToPane.Keys <= Placed(nodes, first))
      && (Ids(nodes) - m.nodeToPane.Keys <= Placed(nodes, first) ==> Reconciled(t, nodes, second) == t)
  {
    var t := Reconciled(m, nodes, first);
    ReconciledKeys(m, nodes, first);
    assert TakenOff(t, {}) == t;
    if t.nodeToPane.Keys == Ids(nodes) {
      FilledSettled(t, nodes, second);
    } else {
      var x :| x in Ids(nodes) && x !in t.nodeToPane;
      AskedAre(t, nodes, second, x);
    }
  }

  // ---- Incremental refines full ----------------------------------------------------------------

  function With(used: set<string>, answer: Option<string>): set<string> {
    if Gives(answer) then used + {answer.value} else used
  }

  /** Each answer names a pane never used before. */
  predicate Fresh(used: set<string>, answers: seq<Option<string>>)
    decreases |answers|
  {
    answers == [] ||
    ((Gives(answers[0]) ==> answers[0].value !in used) && Fresh(With(used, answers[0]), answers[1..]))
  }

  function Used(used: set<string>, answers: seq<Option<string>>): set<string>
    decreases |answers|
  {
    if answers == [] then used else Used(With(used, answers[0]), answers[1..])
  }

  /** No node is given a pane while it has one. */
  predicate OnlyUnmapped(mapped: set<string>, nodes: seq<Node>, answers: seq<Option<string>>)
    requires |nodes| == |answers|
    decreases |nodes|
  {
    nodes == [] ||
    (if Gives(answers[0]) then nodes[0].id !in mapped && OnlyUnmapped(mapped + {nodes[0].id}, nodes[1..], answers[1..])
     else OnlyUnmapped(mapped, nodes[1..], answers[1..]))
  }

  ghost predicate Below(m: Maps, used: set<string>) {
    m.paneToNode.Keys <= used
  }

  lemma LinkedKeys(m: Maps, node: Node, answer: Option<string>)
    ensures Linked(m, node, answer).nodeToPane.Keys == m.nodeToPane.Keys + if Gives(answer) then {node.id} else {}
  {
  }

  lemma LinkedPanes(m: Maps, gone: set<string>, node: Node, answer: Option<string>)
    requires node.id !in gone
    ensures PanesOf(Linked(m, node, answer), gone) == PanesOf(m, gone)
  {
  }

  /** Spawning a node and taking others off can be done in either order. */
  lemma LinkTakenOff(m: Maps, gone: set<string>, node: Node, answer: Option<string>)
    requires Consistent(m) && FreshAnswer(m, answer) && node.id !in gone
    ensures Linked(TakenOff(m, gone), node, answer) == TakenOff(Linked(m, node, answer), gone)
  {
    LinkedPanes(m, gone, node, answer);
    if Gives(answer) {
      assert answer.value !in PanesOf(m, gone);
    }
  }

  lemma {:induction false} FilledAfterTakenOff(
    m: Maps, used: set<string>, gone: set<string>, added: seq<Node>, answers: seq<Option<string>>)
    requires |added| == |answers| && Consistent(m) && Below(m, used) && Fresh(used, answers)
    requires OnlyUnmapped(m.nodeToPane.Keys, added, answers) && Ids(added) !! gone
    ensures Filled(TakenOff(m, gone), added, answers) == TakenOff(SpawnedAll(m, added, answers), gone)
    decreases |added|
  {
    if added != [] {
      assert added == [added[0]] + added[1..];
      assert added[0].id in Ids(added) && Ids(added[1..]) <= Ids(added);
      LinkTakenOff(m, gone, added[0], answers[0]);
      LinkedKeys(m, added[0], answers[0]);
      LinkConsistent(m, added[0], answers[0]);
      FilledAfterTakenOff(Linked(m, added[0], answers[0]),
                          With(used, answers[0]), gone, added[1..], answers[1..]);
    }
  }

  /** The nodes without a pane that are given one, each with its pane. */
  function Given(mapped: set<string>, nodes: seq<Node>, answers: seq<Option<string>>): set<(Node, string)>
    requires |nodes| == |answers|
    decreases |nodes|
  {
    if nodes == [] then {}
    else
      Given(mapped, nodes[1..], answers[1..])
      + if Gives(answers[0]) && nodes[0].id !in mapped then {(nodes[0], answers[0].value)} else {}
  }

  /** No node without a pane is given more than one. */
  predicate GivenOnce(mapped: set<string>, nodes: seq<Node>, answers: seq<Option<string>>)
    requires |nodes| == |answers|
    decreases |nodes|
  {
    nodes == [] ||
    ((Gives(answers[0]) && nodes[0].id !in mapped ==>
        forall i :: 1 <= i < |nodes| && Gives(answers[i]) ==> nodes[i].id != nodes[0].id)
     && GivenOnce(mapped, nodes[1..], answers[1..]))
  }

  /** `t` is `m` with the given nodes linked. */
  ghost predicate Extends(m: Maps, t: Maps, given: set<(Node, string)>) {
    && (forall x :: x in t.nodeToPane <==> x in m.nodeToPane || exists g :: g in given && g.0.id == x)
    && (forall x :: x in m.nodeToPane ==> t.nodeToPane[x] == m.nodeToPane[x])
    && (forall p :: p in t.paneToNode <==> p in m.paneToNode || exists g :: g in given && g.1 == p)
    && (forall p :: p in m.paneToNode ==> t.paneToNode[p] == m.paneToNode[p])
    && forall g :: g in given ==> LinksAs(t, g)
  }

  ghost predicate LinksAs(t: Maps, g: (Node, string)) {
    && g.0.id in t.nodeToPane && t.nodeToPane[g.0.id] == NodePaneLink(g.1, if g.0.nodeType.Agent? then Worker else Note)
    && g.1 in t.paneToNode && t.paneToNode[g.1] == PaneNodeLink(g.0.id, g.0.nodeType)
  }

  lemma ExtendedNode(m: Maps, t: Maps, u: Maps, given: set<(Node, string)>, x: string)
    requires Extends(m, t, given) && Extends(m, u, given)
    ensures x in t.nodeToPane <==> x in u.nodeToPane
    ensures x in t.nodeToPane ==> t.nodeToPane[x] == u.nodeToPane[x]
  {
    if x in t.nodeToPane && x !in m.nodeToPane {
      var g :| g in given && g.0.id == x;
      assert LinksAs(t, g) && LinksAs(u, g);
    }
  }

  lemma ExtendedPane(m: Maps, t: Maps, u: Maps, given: set<(Node, string)>, p: string)
    requires Extends(m, t, given) && Extends(m, u, given)
    ensures p in t.paneToNode <==> p in u.paneToNode
    ensures p in t.paneToNode ==> t.paneToNode[p] == u.paneToNode[p]
  {
    if p in t.paneToNode && p !in m.paneToNode {
      var g :| g in given && g.1 == p;
      assert LinksAs(t, g) && LinksAs(u, g);
    }
  }

  lemma ExtensionUnique(m: Maps, t: Maps, u: Maps, given: set<(Node, string)>)
    requires Extends(m, t, given) && Extends(m, u, given)
    ensures t == u
  {
    assert t.nodeToPane == u.nodeToPane by {
      forall x
        ensures x in t.nodeToPane <==> x in u.nodeToPane
        ensures x in t.nodeToPane ==> t.nodeToPane[x] == u.nodeToPane[x]
      {
        ExtendedNode(m, t, u, given, x);
      }
    }
    assert t.paneToNode == u.paneToNode by {
      forall p
        ensures p in t.paneToNode <==> p in u.paneToNode
        ensures p in t.paneToNode ==> t.paneToNode[p] == u.paneToNode[p]
      {
        ExtendedPane(m, t, u, given, p);
      }
    }
  }

  /** Linking the first node does not touch what the others are given. */
  lemma {:induction false} GivenAfterLink(
    mapped: set<string>, id: string, nodes: seq<Node>, answers: seq<Option<string>>)
    requires |nodes| == |answers|
    requires forall i :: 0 <= i < |nodes| && Gives(answers[i]) ==> nodes[i].id != id
    ensures Given(mapped + {id}, nodes, answers) == Given(mapped, nodes, answers)
    ensures GivenOnce(mapped, nodes, answers) ==> GivenOnce(mapped + {id}, nodes, answers)
    decreases |nodes|
  {
    if nodes != [] {
      GivenAfterLink(mapped, id, nodes[1..], answers[1..]);
    }
  }

  lemma {:induction false} GivenFresh(
    mapped: set<string>, used: set<string>, nodes: seq<Node>, answers: seq<Option<string>>)
    requires |nodes| == |answers| && Fresh(used, answers)
    ensures forall g :: g in Given(mapped, nodes, answers) ==> g.1 !in used
    decreases |nodes|
  {
    if nodes != [] {
      GivenFresh(mapped, With(used, answers[0]), nodes[1..], answers[1..]);
    }
  }

  lemma {:induction false} FilledExtends(m: Maps, used: set<string>, nodes: seq<Node>, answers: seq<Option<string>>)
    requires |nodes| == |answers| && Below(m, used) && Fresh(used, answers)
    requires GivenOnce(m.nodeToPane.Keys, nodes, answers)
    ensures Extends(m, Filled(m, nodes, answers), Given(m.nodeToPane.Keys, nodes, answers))
    decreases |nodes|
  {
    if nodes != [] {
      var mapped, rest := m.nodeToPane.Keys, Given(m.nodeToPane.Keys, nodes[1..], answers[1..]);
      var t := if nodes[0].id in mapped then m else Linked(m, nodes[0], answers[0]);
      LinkedKeys(m, nodes[0], answers[0]);
      if t.nodeToPane.Keys != mapped {
        GivenAfterLink(mapped, nodes[0].id, nodes[1..], answers[1..]);
      }
      FilledExtends(t, With(used, answers[0]), nodes[1..], answers[1..]);
      GivenFresh(mapped, With(used, answers[0]), nodes[1..], answers[1..]);
      if t != m {
        ExtendOneMore(m, t, Filled(m, nodes, answers), (nodes[0], answers[0].value), rest);
      }
    }
  }

  lemma ExtendOneMore(m: Maps, t: Maps, f: Maps, g: (Node, string), rest: set<(Node, string)>)
    requires g.1 != "" && t == Linked(m, g.0, Some(g.1)) && Extends(t, f, rest)
    requires g.0.id !in m.nodeToPane && g.1 !in m.paneToNode
    ensures Extends(m, f, rest + {g})
  {
    assert LinksAs(t, g) && LinksAs(f, g);
  }

  // ---- Both handlers reach the board -----------------------------------------------------------

  predicate AllGive(answers: seq<Option<string>>) {
    forall i :: 0 <= i < |answers| ==> Gives(answers[i])
  }

  lemma AllPlaced(nodes: seq<Node>, answers: seq<Option<string>>)
    requires |nodes| == |answers| && AllGive(answers)
    ensures Placed(nodes, answers) == Ids(nodes)
  {
    forall n | n in nodes
      ensures n.id in Placed(nodes, answers)
    {
      var i :| 0 <= i < |nodes| && nodes[i] == n;
      assert Gives(answers[i]) && nodes[i].id == n.id;
    }
    forall x | x in Placed(nodes, answers)
      ensures x in Ids(nodes)
    {
      var i :| 0 <= i < |nodes| && nodes[i].id == x;
      assert nodes[i] in nodes;
    }
  }

  lemma BothMapTheBoard(
    m: Maps, added: seq<Node>, removed: seq<string>, answers: seq<Option<string>>,
    board: seq<Node>, full: seq<Option<string>>)
    requires |added| == |answers| && |board| == |full| && AllGive(answers) && AllGive(full)
    requires Ids(board) == m.nodeToPane.Keys + Ids(added) - set n | n in removed
    ensures Changed(m, added, removed, answers).nodeToPane.Keys == Ids(board)
    ensures Reconciled(m, board, full).nodeToPane.Keys == Ids(board)
  {
    AllPlaced(added, answers);
    AllPlaced(board, full);
    ChangedKeys(m, added, removed, answers);
    ReconciledKeys(m, board, full);
  }

  /** A reconcile of the board that is mapped already has nothing to kill, to ask for or to change. */
  lemma SettledReconcile(t: Maps, board: seq<Node>, later: seq<Option<string>>)
    requires |board| == |later| && t.nodeToPane.Keys == Ids(board)
    ensures PanesOf(t, Gone(t, board)) == {}
    ensures Asked(TakenOff(t, Gone(t, board)), board, later) == []
    ensures Reconciled(t, board, later) == t
  {
    assert Gone(t, board) == {};
    assert TakenOff(t, {}) == t;
    FilledSettled(t, board, later);
  }

  /** With spawns that succeed, whatever panes they name, a delta and a reconcile of the resulting board
      map the same nodes, those on the board; and a reconcile after the delta kills, asks for and changes
      nothing. */
  lemma BothReachTheBoard(
    m: Maps, added: seq<Node>, removed: seq<string>, answers: seq<Option<string>>,
    board: seq<Node>, full: seq<Option<string>>, later: seq<Option<string>>)
    requires |added| == |answers| && |board| == |full| == |later| && AllGive(answers) && AllGive(full)
    requires Ids(board) == m.nodeToPane.Keys + Ids(added) - set n | n in removed
    ensures
      var t := Changed(m, added, removed, answers);
      && t.nodeToPane.Keys == Ids(board) == Reconciled(m, board, full).nodeToPane.Keys
      && PanesOf(t, Gone(t, board)) == {}
      && Asked(TakenOff(t, Gone(t, board)), board, later) == []
      && Reconciled(t, board, later) == t
  {
    BothMapTheBoard(m, added, removed, answers, board, full);
    SettledReconcile(Changed(m, added, removed, answers), board, later);
  }

  // ---- When the maps stay inverses -------------------------------------------------------------

  /** A pane left behind: it shows a node that is mapped elsewhere, or nowhere. */
  ghost predicate Stale(m: Maps, pane: string) {
    pane in m.paneToNode && !Answered(m, pane)
  }

  lemma {:induction false} StaleStays(
    m: Maps, used: set<string>, nodes: seq<Node>, answers: seq<Option<string>>, pane: string)
    requires |nodes| == |answers| && Consistent(m) && Below(m, used) && Fresh(used, answers) && Stale(m, pane)
    ensures Stale(SpawnedAll(m, nodes, answers), pane) && Consistent(SpawnedAll(m, nodes, answers))
    decreases |nodes|
  {
    if nodes != [] {
      LinkConsistent(m, nodes[0], answers[0]);
      StaleStays(Linked(m, nodes[0], answers[0]),
                 With(used, answers[0]), nodes[1..], answers[1..], pane);
    }
  }

  lemma {:induction false} SpawnsInverseIff(m: Maps, used: set<string>, nodes: seq<Node>, answers: seq<Option<string>>)
    requires |nodes| == |answers| && Inverse(m) && Below(m, used) && Fresh(used, answers)
    ensures
      var t := SpawnedAll(m, nodes, answers);
      && Consistent(t) && Below(t, Used(used, answers))
      && (Inverse(t) <==> OnlyUnmapped(m.nodeToPane.Keys, nodes, answers))
      && (!Inverse(t) ==> exists p :: Stale(t, p))
    decreases |nodes|
  {
    if nodes != [] {
      var t := Linked(m, nodes[0], answers[0]);
      var more := With(used, answers[0]);
      LinkInverseIff(m, nodes[0], answers[0]);
      LinkConsistent(m, nodes[0], answers[0]);
      LinkedKeys(m, nodes[0], answers[0]);
      if Gives(answers[0]) && nodes[0].id in m.nodeToPane {
        var stale := m.nodeToPane[nodes[0].id].pane;
        SpawnsBelow(t, more, nodes[1..], answers[1..]);
        StaleStays(t, more, nodes[1..], answers[1..], stale);
      } else {
        SpawnsInverseIff(t, more, nodes[1..], answers[1..]);
      }
    }
  }

  lemma {:induction false} SpawnsBelow(m: Maps, used: set<string>, nodes: seq<Node>, answers: seq<Option<string>>)
    requires |nodes| == |answers| && Below(m, used)
    ensures Below(SpawnedAll(m, nodes, answers), Used(used, answers))
    decreases |nodes|
  {
    if nodes != [] {
      SpawnsBelow(Linked(m, nodes[0], answers[0]),
                  With(used, answers[0]), nodes[1..], answers[1..]);
    }
  }

  lemma {:induction false} FilledInverse(m: Maps, used: set<string>, nodes: seq<Node>, answers: seq<Option<string>>)
    requires |nodes| == |answers| && Inverse(m) && Below(m, used) && Fresh(used, answers)
    ensures Inverse(Filled(m, nodes, answers)) && Below(Filled(m, nodes, answers), Used(used, answers))
    decreases |nodes|
  {
    if nodes != [] {
      var t := if nodes[0].id in m.nodeToPane then m else Linked(m, nodes[0], answers[0]);
      LinkInverseIff(m, nodes[0], answers[0]);
      FilledInverse(t, With(used, answers[0]), nodes[1..], answers[1..]);
    }
  }

  /** A delta keeps the maps inverses exactly when it gives no mapped node another pane. */
  lemma ChangedInverseIff(
    m: Maps, used: set<string>, added: seq<Node>, removed: seq<string>, answers: seq<Option<string>>)
    requires |added| == |answers| && Inverse(m) && Below(m, used) && Fresh(used, answers)
    ensures Inverse(Changed(m, added, removed, answers)) <==> OnlyUnmapped(m.nodeToPane.Keys, added, answers)
    ensures Consistent(Changed(m, added, removed, answers))
    ensures Below(Changed(m, added, removed, answers), Used(used, answers))
  {
    var t, gone := SpawnedAll(m, added, answers), set n | n in removed;
    SpawnsInverseIff(m, used, added, answers);
    TakeOffConsistent(t, gone);
    if !Inverse(t) {
      var p :| Stale(t, p);
      assert p !in PanesOf(t, gone);
      assert Stale(TakenOff(t, gone), p);
    }
  }

  lemma ReconciledInverse(m: Maps, used: set<string>, nodes: seq<Node>, answers: seq<Option<string>>)
    requires |nodes| == |answers| && Inverse(m) && Below(m, used) && Fresh(used, answers)
    ensures Inverse(Reconciled(m, nodes, answers)) && Below(Reconciled(m, nodes, answers), Used(used, answers))
  {
    TakeOffConsistent(m, Gone(m, nodes));
    FilledInverse(TakenOff(m, Gone(m, nodes)), used, nodes, answers);
  }

  /** The board that results from taking `gone` off a synced state and adding nodes: what is pruned is
      what was removed. */
  lemma PruneIsRemoval(m: Maps, board: seq<Node>, added: seq<Node>, gone: set<string>)
    requires Ids(board) == m.nodeToPane.Keys - gone + Ids(added) && Ids(added) !! gone
    ensures TakenOff(m, Gone(m, board)) == TakenOff(m, gone)
  {
    var prune := Gone(m, board);
    assert prune == m.nodeToPane.Keys * gone;
    assert PanesOf(m, prune) == PanesOf(m, gone);
  }

  /** A board lists each node once. */
  ghost predicate NodesOnce(nodes: seq<Node>) {
    forall i, j :: 0 <= i < j < |nodes| ==> nodes[i].id != nodes[j].id
  }

  lemma {:induction false} OnceGivenOnce(mapped: set<string>, nodes: seq<Node>, answers: seq<Option<string>>)
    requires |nodes| == |answers| && NodesOnce(nodes)
    ensures GivenOnce(mapped, nodes, answers)
    decreases |nodes|
  {
    if nodes != [] {
      OnceGivenOnce(mapped, nodes[1..], answers[1..]);
    }
  }

  lemma {:induction false} UnmappedGivenOnce(mapped: set<string>, nodes: seq<Node>, answers: seq<Option<string>>)
    requires |nodes| == |answers| && OnlyUnmapped(mapped, nodes, answers)
    ensures GivenOnce(mapped, nodes, answers)
    ensures forall i :: 0 <= i < |nodes| && Gives(answers[i]) ==> nodes[i].id !in mapped
    decreases |nodes|
  {
    if nodes != [] {
      if Gives(answers[0]) {
        UnmappedGivenOnce(mapped + {nodes[0].id}, nodes[1..], answers[1..]);
        OnlyUnmappedFewer(mapped, mapped + {nodes[0].id}, nodes[1..], answers[1..]);
      }
      UnmappedGivenOnce(mapped, nodes[1..], answers[1..]);
    }
  }

  lemma {:induction false} OnlyUnmappedFewer(
    fewer: set<string>, mapped: set<string>, nodes: seq<Node>, answers: seq<Option<string>>)
    requires |nodes| == |answers| && fewer <= mapped && OnlyUnmapped(mapped, nodes, answers)
    ensures OnlyUnmapped(fewer, nodes, answers)
    decreases |nodes|
  {
    if nodes != [] {
      if Gives(answers[0]) {
        OnlyUnmappedFewer(fewer + {nodes[0].id}, mapped + {nodes[0].id}, nodes[1..], answers[1..]);
      } else {
        OnlyUnmappedFewer(fewer, mapped, nodes[1..], answers[1..]);
      }
    }
  }

  /** Taking nodes off frees nobody who is given a pane. */
  lemma {:induction false} GivenAfterTakenOff(
    mapped: set<string>, gone: set<string>, nodes: seq<Node>, answers: seq<Option<string>>)
    requires |nodes| == |answers| && Ids(nodes) !! mapped * gone
    ensures Given(mapped - gone, nodes, answers) == Given(mapped, nodes, answers)
    decreases |nodes|
  {
    if nodes != [] {
      assert nodes == [nodes[0]] + nodes[1..];
      assert nodes[0].id in Ids(nodes) && Ids(nodes[1..]) <= Ids(nodes);
      GivenAfterTakenOff(mapped, gone, nodes[1..], answers[1..]);
    }
  }

  /** Two lists that give the same panes to the same nodes fill the maps alike, whatever their order. */
  lemma SameGivenSameFilled(
    m: Maps, used: set<string>, nodes: seq<Node>, answers: seq<Option<string>>,
    others: seq<Node>, theirs: seq<Option<string>>)
    requires |nodes| == |answers| && |others| == |theirs|
    requires Below(m, used) && Fresh(used, answers) && Fresh(used, theirs)
    requires GivenOnce(m.nodeToPane.Keys, nodes, answers) && GivenOnce(m.nodeToPane.Keys, others, theirs)
    requires Given(m.nodeToPane.Keys, nodes, answers) == Given(m.nodeToPane.Keys, others, theirs)
    ensures Filled(m, nodes, answers) == Filled(m, others, theirs)
  {
    var given := Given(m.nodeToPane.Keys, nodes, answers);
    FilledExtends(m, used, nodes, answers);
    FilledExtends(m, used, others, theirs);
    ExtensionUnique(m, Filled(m, nodes, answers), Filled(m, others, theirs), given);
  }

  /** From a synced state the incremental handler leaves exactly the maps a full reconcile of the
      resulting board leaves, in whatever order that board lists its nodes and whichever spawns fail, if
      and only if it gives no mapped node another pane. The two are compared for a host that gives the
      same new nodes the same panes. */
  lemma IncrementalIsFullIff(
    m: Maps, used: set<string>, added: seq<Node>, removed: seq<string>, answers: seq<Option<string>>,
    board: seq<Node>, full: seq<Option<string>>)
    requires |added| == |answers| && |board| == |full| && NodesOnce(board)
    requires Inverse(m) && Below(m, used) && Fresh(used, answers) && Fresh(used, full)
    requires
      var gone := set n | n in removed;
      Ids(board) == m.nodeToPane.Keys - gone + Ids(added) && Ids(added) !! gone
    requires Given(m.nodeToPane.Keys, board, full) == Given(m.nodeToPane.Keys, added, answers)
    ensures Changed(m, added, removed, answers) == Reconciled(m, board, full)
            <==> OnlyUnmapped(m.nodeToPane.Keys, added, answers)
  {
    var gone := set n | n in removed;
    ChangedInverseIff(m, used, added, removed, answers);
    ReconciledInverse(m, used, board, full);
    if OnlyUnmapped(m.nodeToPane.Keys, added, answers) {
      var keys, t := m.nodeToPane.Keys, TakenOff(m, gone);
      PruneIsRemoval(m, board, added, gone);
      FilledAfterTakenOff(m, used, gone, added, answers);
      GivenAfterTakenOff(keys, gone, board, full);
      GivenAfterTakenOff(keys, gone, added, answers);
      OnceGivenOnce(keys - gone, board, full);
      OnlyUnmappedFewer(keys - gone, keys, added, answers);
      UnmappedGivenOnce(keys - gone, added, answers);
      assert t.nodeToPane.Keys == keys - gone;
      SameGivenSameFilled(t, used, board, full, added, answers);
    }
  }

  lemma {:induction false} FreshFewer(used: set<string>, more: set<string>, answers: seq<Option<string>>)
    requires used <= more && Fresh(more, answers)
    ensures Fresh(used, answers)
    decreases |answers|
  {
    if answers != [] {
      FreshFewer(With(used, answers[0]), With(more, answers[0]), answers[1..]);
    }
  }

  // ---- What each handler leaves ----------------------------------------------------------------

  /** Of the nodes of the list with its id, the one at `i` is the last. */
  ghost predicate LastNamed(nodes: seq<Node>, i: int) {
    0 <= i < |nodes| && forall j :: i < j < |nodes| ==> nodes[j].id != nodes[i].id
  }

  /** `t` knows, by their ids, what `byId` knows and these nodes, of several with one id the last. */
  ghost predicate Knows(byId: map<string, Node>, nodes: seq<Node>, t: map<string, Node>, x: string) {
    && (x !in Ids(nodes) ==> (x in t <==> x in byId) && (x in byId ==> t[x] == byId[x]))
    && (x in Ids(nodes) ==> x in t && forall i :: LastNamed(nodes, i) && nodes[i].id == x ==> t[x] == nodes[i])
  }

  lemma {:induction false} KnownLast(byId: map<string, Node>, nodes: seq<Node>, i: int)
    requires LastNamed(nodes, i)
    ensures nodes[i].id in Known(byId, nodes) && Known(byId, nodes)[nodes[i].id] == nodes[i]
    decreases |nodes|
  {
    var next := byId[nodes[0].id := nodes[0]];
    if i > 0 {
      assert LastNamed(nodes[1..], i - 1);
      KnownLast(next, nodes[1..], i - 1);
    } else {
      KnownOthers(next, nodes[1..], nodes[0].id);
    }
  }

  lemma {:induction false} KnownOthers(byId: map<string, Node>, nodes: seq<Node>, x: string)
    ensures x in Known(byId, nodes) <==> x in byId || x in Ids(nodes)
    ensures x !in Ids(nodes) && x in byId ==> Known(byId, nodes)[x] == byId[x]
    decreases |nodes|
  {
    if nodes != [] {
      assert nodes == [nodes[0]] + nodes[1..];
      assert Ids(nodes) == {nodes[0].id} + Ids(nodes[1..]);
      KnownOthers(byId[nodes[0].id := nodes[0]], nodes[1..], x);
    }
  }

  lemma KnownKnows(byId: map<string, Node>, nodes: seq<Node>, x: string)
    ensures Knows(byId, nodes, Known(byId, nodes), x)
  {
    KnownOthers(byId, nodes, x);
    forall i | LastNamed(nodes, i) && nodes[i].id == x
      ensures Known(byId, nodes)[x] == nodes[i]
    {
      KnownLast(byId, nodes, i);
    }
  }

  /** The answer at `i` gives its node a pane, and no later one gives that node another. */
  ghost predicate LastGiven(nodes: seq<Node>, answers: seq<Option<string>>, i: nat)
    requires |nodes| == |answers|
  {
    && i < |nodes| && Gives(answers[i])
    && forall j :: i < j < |nodes| && nodes[j].id == nodes[i].id ==> !Gives(answers[j])
  }

  /** Spawning a list of nodes leaves each on the last pane it is given, */
  lemma {:induction false} SpawnedOnLast(m: Maps, nodes: seq<Node>, answers: seq<Option<string>>, i: nat)
    requires |nodes| == |answers| && LastGiven(nodes, answers, i)
    ensures
      var t := SpawnedAll(m, nodes, answers);
      && nodes[i].id in t.nodeToPane
      && t.nodeToPane[nodes[i].id]
         == NodePaneLink(answers[i].value, if nodes[i].nodeType.Agent? then Worker else Note)
    decreases |nodes|
  {
    var t := Linked(m, nodes[0], answers[0]);
    if i > 0 {
      SpawnedOnLast(t, nodes[1..], answers[1..], i - 1);
    } else {
      SpawnedElsewhere(t, nodes[1..], answers[1..], nodes[0].id);
    }
  }

  /** and the others where they were. */
  lemma {:induction false} SpawnedElsewhere(m: Maps, nodes: seq<Node>, answers: seq<Option<string>>, x: string)
    requires |nodes| == |answers| && x !in Placed(nodes, answers)
    ensures
      var t := SpawnedAll(m, nodes, answers);
      (x in t.nodeToPane <==> x in m.nodeToPane) && (x in m.nodeToPane ==> t.nodeToPane[x] == m.nodeToPane[x])
    decreases |nodes|
  {
    if nodes != [] {
      PlacedNext(nodes, answers);
      SpawnedElsewhere(Linked(m, nodes[0], answers[0]), nodes[1..], answers[1..], x);
    }
  }

  /** The spawns that throw. */
  function Thrown(answers: seq<Option<string>>): set<nat> {
    set i: nat | i < |answers| && answers[i].None?
  }

  lemma ThrownNext(answers: seq<Option<string>>)
    requires answers != []
    ensures
      var last := |answers| - 1;
      && last !in Thrown(answers[..last])
      && Thrown(answers) == Thrown(answers[..last]) + if answers[last].None? then {last} else {}
  {
  }

  /** The failures of `spawnBoard` are as many as the spawns that threw. */
  lemma {:induction false} FailedCount(nodes: seq<Node>, answers: seq<Option<string>>)
    requires |nodes| == |answers|
    ensures |Failed(nodes, answers)| == |Thrown(answers)|
    decreases |nodes|
  {
    if nodes == [] {
      assert Thrown(answers) == {};
    } else {
      var last := |nodes| - 1;
      FailedCount(nodes[..last], answers[..last]);
      ThrownNext(answers);
    }
  }

  /** `openProject` knows the nodes of the board and no others, whatever was known before; it notes the
      topology where the host names a pane for it, and keeps the old note without wires or on a throw. */
  lemma OpenedKnows(
    m: Memory, project: string, nodes: seq<Node>, wires: seq<Wire>, answers: seq<Option<string>>,
    note: Option<string>, persists: bool, x: string)
    requires |nodes| == |answers|
    ensures
      var t := BoardSpawned(m.(projectId := Some(project)), nodes, wires, answers, note, persists);
      && t.projectId == Some(project) && t.wires == wires
      && Knows(map[], nodes, t.nodesById, x)
      && (t.topology == m.topology || (wires != [] && note.Some?))
      && (wires != [] && note.Some? ==> t.topology.Some? == Gives(note) && (Gives(note) ==> t.topology == note))
  {
    KnownKnows(map[], nodes, x);
  }

  /** A delta forgets a removed node exactly when it has a pane; a removed node without one stays known.
      The wires are replaced where the delta brings any. */
  lemma ChangedKnows(
    m: Memory, added: seq<Node>, removed: seq<string>, wires: Option<seq<Wire>>, answers: seq<Option<string>>,
    persists: bool, x: string)
    requires |added| == |answers|
    ensures
      var t := BoardChanged(m, added, removed, wires, answers, persists);
      && t.projectId == m.projectId && t.topology == m.topology
      && (wires == Some(t.wires) || (wires.None? && t.wires == m.wires))
      && (if x in removed && (x in m.maps.nodeToPane || x in Placed(added, answers)) then x !in t.nodesById
          else Knows(m.nodesById, added, t.nodesById, x))
  {
    SpawnedKeys(m.maps, added, answers);
    KnownKnows(m.nodesById, added, x);
  }

  /** A reconcile forgets no node, not even one that has left the board. */
  lemma ReconciledKnows(
    m: Memory, nodes: seq<Node>, wires: seq<Wire>, answers: seq<Option<string>>, persists: bool, x: string)
    requires |nodes| == |answers|
    ensures
      var t := BoardReconciled(m, nodes, wires, answers, persists);
      && t.projectId == m.projectId && t.topology == m.topology && t.wires == wires
      && Knows(m.nodesById, nodes, t.nodesById, x)
  {
    KnownKnows(m.nodesById, nodes, x);
  }

  /** Closing a pane that is not the topology note takes off the node mapped to it and nothing else,
      exactly when it was not left behind; closing one that was takes its node off the pane it is on. */
  lemma ClosedTakesOffIff(m: Memory, pane: string)
    requires Consistent(m.maps) && m.topology != Some(pane)
    ensures
      var t := CanvasClosed(m, pane);
      && t == m.(maps := t.maps) && t.maps.paneToNode == m.maps.paneToNode - {pane}
      && (t.maps.nodeToPane == (map n | n in m.maps.nodeToPane && m.maps.nodeToPane[n].pane != pane
                                    :: m.maps.nodeToPane[n])
          <==> !Stale(m.maps, pane) || m.maps.paneToNode[pane].node !in m.maps.nodeToPane)
  {
    var t := CanvasClosed(m, pane);
    if Stale(m.maps, pane) && m.maps.paneToNode[pane].node in m.maps.nodeToPane {
      var n := m.maps.paneToNode[pane].node;
      assert m.maps.nodeToPane[n].pane != pane && n !in t.maps.nodeToPane;
    }
  }

  lemma ClosedNote(m: Memory, pane: string)
    requires m.topology == Some(pane)
    ensures CanvasClosed(m, pane).topology.None? && CanvasClosed(m, pane) == m.(topology := None)
  {
  }

  // ---- Runs of whole handlers ------------------------------------------------------------------

  /** One handler from its first line to its last. `Restore` loads what was stored last; `Restart` begins a
      new session, with a new object over the storage of the old one. */
  datatype Event =
    | OpenProject(project: string, nodes: seq<Node>, wires: seq<Wire>, answers: seq<Option<string>>,
                  note: Option<string>, persists: bool)
    | BoardChange(added: seq<Node>, removed: seq<string>, newWires: Option<seq<Wire>>, answers: seq<Option<string>>,
                  persists: bool)
    | Reconcile(nodes: seq<Node>, wires: seq<Wire>, answers: seq<Option<string>>, persists: bool)
    | PaneClose(pane: string)
    | Restore
    | Restart

  /** The object and every pane id the canvas has ever given out. */
  datatype World = World(memory: Memory, used: set<string>)

  const EMPTY := World(NEW, {})

  predicate Enabled(w: World, e: Event) {
    match e
    case OpenProject(_, nodes, _, answers, note, _) =>
      |nodes| == |answers| && Fresh(w.used, answers) && (Gives(note) ==> note.value !in Used(w.used, answers))
    case BoardChange(added, _, _, answers, _) => |added| == |answers| && Fresh(w.used, answers)
    case Reconcile(nodes, _, answers, _) => |nodes| == |answers| && Fresh(w.used, answers)
    case PaneClose(_) => true
    case Restore => true
    case Restart => true
  }

  function Apply(w: World, e: Event): World
    requires Enabled(w, e)
  {
    var m := w.memory;
    match e
    case OpenProject(project, nodes, wires, answers, note, persists) =>
      World(BoardSpawned(m.(projectId := Some(project)), nodes, wires, answers, note, persists),
            With(Used(w.used, answers), note))
    case BoardChange(added, removed, wires, answers, persists) =>
      World(BoardChanged(m, added, removed, wires, answers, persists), Used(w.used, answers))
    case Reconcile(nodes, wires, answers, persists) =>
      World(BoardReconciled(m, nodes, wires, answers, persists), Used(w.used, answers))
    case PaneClose(pane) => w.(memory := CanvasClosed(m, pane))
    case Restore => w.(memory := Restored(m, m.stored))
    case Restart => w.(memory := NEW.(stored := m.stored))
  }

  predicate Persists(e: Event) {
    (e.OpenProject? || e.BoardChange? || e.Reconcile?) && e.persists
  }

  /** What a session hands to the next: after a handler that stored, a new object that restores has the
      same maps and the same note, and the same project unless that has the empty id. */
  lemma HandedOver(w: World, e: Event)
    requires Enabled(w, e) && Persists(e)
    ensures
      var t := Apply(w, e).memory;
      var u := Apply(Apply(Apply(w, e), Restart), Restore).memory;
      && u.maps == t.maps
      && (u.topology == t.topology <==> t.topology != Some(""))
      && (u.projectId == t.projectId <==> t.projectId != Some(""))
  {
  }

  predicate Legal(w: World, events: seq<Event>)
    decreases |events|
  {
    events == [] || (Enabled(w, events[0]) && Legal(Apply(w, events[0]), events[1..]))
  }

  /** No handler gives a node a pane while it has one. */
  predicate SpawnsOnlyUnmapped(w: World, e: Event)
    requires Enabled(w, e)
  {
    match e
    case OpenProject(_, nodes, _, answers, _, _) => OnlyUnmapped(w.memory.maps.nodeToPane.Keys, nodes, answers)
    case BoardChange(added, _, _, answers, _) => OnlyUnmapped(w.memory.maps.nodeToPane.Keys, added, answers)
    case _ => true
  }

  predicate AllSpawnOnlyUnmapped(w: World, events: seq<Event>)
    requires Legal(w, events)
    decreases |events|
  {
    events == [] || (SpawnsOnlyUnmapped(w, events[0]) && AllSpawnOnlyUnmapped(Apply(w, events[0]), events[1..]))
  }

  /** The maps are inverses in every state of the run, the first and the last included. */
  ghost predicate AlwaysInverse(w: World, events: seq<Event>)
    requires Legal(w, events)
    decreases |events|
  {
    Inverse(w.memory.maps) && (events == [] || AlwaysInverse(Apply(w, events[0]), events[1..]))
  }

  /** Inverse in memory and in storage, on panes the canvas has given out. */
  ghost predicate Sound(w: World) {
    && Inverse(w.memory.maps) && Below(w.memory.maps, w.used)
    && (w.memory.stored.Some? ==> Inverse(w.memory.stored.value.maps) && Below(w.memory.stored.value.maps, w.used))
  }

  lemma {:induction false} UsedGrows(used: set<string>, answers: seq<Option<string>>)
    ensures used <= Used(used, answers)
    decreases |answers|
  {
    if answers != [] {
      UsedGrows(With(used, answers[0]), answers[1..]);
    }
  }

  lemma EventSoundIff(w: World, e: Event)
    requires Sound(w) && Enabled(w, e)
    ensures Inverse(Apply(w, e).memory.maps) <==> SpawnsOnlyUnmapped(w, e)
    ensures Inverse(Apply(w, e).memory.maps) ==> Sound(Apply(w, e))
  {
    var m := w.memory.maps;
    match e
    case OpenProject(_, nodes, _, answers, _, _) =>
      UsedGrows(w.used, answers);
      SpawnsInverseIff(m, w.used, nodes, answers);
    case BoardChange(added, removed, _, answers, _) =>
      UsedGrows(w.used, answers);
      ChangedInverseIff(m, w.used, added, removed, answers);
    case Reconcile(nodes, _, answers, _) =>
      UsedGrows(w.used, answers);
      ReconciledInverse(m, w.used, nodes, answers);
    case PaneClose(pane) => CloseConsistent(m, pane);
    case Restore =>
    case Restart =>
  }

  lemma {:induction false} RunInverseIff(w: World, events: seq<Event>)
    requires Sound(w) && Legal(w, events)
    ensures AlwaysInverse(w, events) <==> AllSpawnOnlyUnmapped(w, events)
    decreases |events|
  {
    if events != [] {
      EventSoundIff(w, events[0]);
      if SpawnsOnlyUnmapped(w, events[0]) {
        RunInverseIff(Apply(w, events[0]), events[1..]);
      } else {
        assert !AlwaysInverse(Apply(w, events[0]), events[1..]);
      }
    }
  }

  /** In runs of whole handlers over any number of sessions, from a new object and empty storage, the
      maps are inverses in every state exactly when no project is opened and no delta applied over nodes
      that already have a pane. */
  lemma EveryRunInverseIff(events: seq<Event>)
    requires Legal(EMPTY, events)
    ensures AlwaysInverse(EMPTY, events) <==> AllSpawnOnlyUnmapped(EMPTY, events)
  {
    RunInverseIff(EMPTY, events);
  }
}
