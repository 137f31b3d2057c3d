/** `BoardSync` with its handlers running at once: any number of calls under way, each giving way at
    every `await`, with closing panes and loads from storage in between. */
module BoardSyncRuns {
  import opened Options
  import opened PaneMaps
  import opened BoardSync
  import Laws = BoardSyncLaws

  // ---- Calls under way -------------------------------------------------------------------------

  /** What a call has left to do. `todo` begins with the node whose pane it waits for, if it waits. */
  datatype Rest =
    | Spawning(todo: seq<Node>)
    | Noting
    | Changing(todo: seq<Node>, removed: seq<string>, newWires: Option<seq<Wire>>)
    | Filling(todo: seq<Node>, boardWires: seq<Wire>)
    | Loading

  /** A call waits for the host, or has its answer and is about to go on. */
  datatype Call = Call(rest: Rest, waiting: bool)

  /** `used` are the pane ids the canvas has given out, `saves` everything ever stored. */
  datatype State = State(memory: Memory, used: set<string>, calls: map<nat, Call>, saves: set<Saved>)

  const INITIAL := State(NEW, {}, map[], {})

  function Finished(s: State, memory: Memory, id: nat, persists: bool): State {
    var m := Stored(memory, persists);
    s.(memory := m, calls := s.calls - {id}, saves := if persists then s.saves + {m.stored.value} else s.saves)
  }

  function Waiting(s: State, memory: Memory, id: nat, rest: Rest): State {
    s.(memory := memory, calls := s.calls[id := Call(rest, true)])
  }

  /** The loop of `reconcileBoard` up to its next node without a pane: the node, what follows it, and
      the nodes noted on the way. */
  function Skipped(m: Memory, todo: seq<Node>): (r: (Memory, seq<Node>))
    ensures r.0 == m.(nodesById := r.0.nodesById)
    ensures r.1 != [] ==> r.1[0].id !in m.maps.nodeToPane
    decreases |todo|
  {
    if todo == [] then (m, [])
    else
      var noted := m.(nodesById := m.nodesById[todo[0].id := todo[0]]);
      if todo[0].id in m.maps.nodeToPane then Skipped(noted, todo[1..]) else (noted, todo)
  }

  /** A call goes on until it next waits or ends; `persists` matters when it ends. */
  function GoOn(s: State, id: nat, rest: Rest, persists: bool): State {
    var m := s.memory;
    match rest
    case Spawning(todo) =>
      if todo != [] then Waiting(s, m, id, rest)
      else s.(calls := s.calls[id := Call(Noting, m.wires != [])])
    case Noting => Finished(s, m, id, persists)
    case Changing(todo, removed, wires) =>
      if todo != [] then Waiting(s, m.(nodesById := m.nodesById[todo[0].id := todo[0]]), id, rest)
      else Finished(s, BoardChanged(m, [], removed, wires, [], false), id, persists)
    case Filling(todo, wires) =>
      var (noted, left) := Skipped(m, todo);
      if left != [] then Waiting(s, noted, id, Filling(left, wires))
      else Finished(s, noted.(wires := wires), id, persists)
    case Loading => s.(calls := s.calls - {id})
  }

  // ---- Steps -----------------------------------------------------------------------------------

  /** `Restart` begins a new session: a new object over the storage of the old one. */
  datatype Step =
    | Restart
    | ChooseProject(project: string)
    | CallSpawnBoard(id: nat, nodes: seq<Node>, wires: seq<Wire>, persists: bool)
    | CallBoardChanged(id: nat, nodes: seq<Node>, removed: seq<string>, newWires: Option<seq<Wire>>, persists: bool)
    | CallReconcile(id: nat, nodes: seq<Node>, wires: seq<Wire>, persists: bool)
    | CallRestore(id: nat)
    | Answer(id: nat, answer: Option<string>)
    | Loaded(id: nat, saved: Option<Saved>)
    | Continue(id: nat, persists: bool)
    | PaneClose(pane: string)

  predicate Waits(s: State, id: nat) {
    id in s.calls && s.calls[id].waiting
  }

  predicate Enabled(s: State, step: Step) {
    match step
    case Restart => true
    case ChooseProject(_) => true
    case CallSpawnBoard(id, _, _, _) => id !in s.calls
    case CallBoardChanged(id, _, _, _, _) => id !in s.calls
    case CallReconcile(id, _, _, _) => id !in s.calls
    case CallRestore(id) => id !in s.calls
    case Answer(id, answer) => Waits(s, id) && !s.calls[id].rest.Loading? && (Gives(answer) ==> answer.value !in s.used)
    case Loaded(id, saved) => Waits(s, id) && s.calls[id].rest.Loading? && (saved.Some? ==> saved.value in s.saves)
    case Continue(id, _) => id in s.calls && !s.calls[id].waiting
    case PaneClose(_) => true
  }

  /** The pane of the node a call waits for is linked, or the topology note's pane noted. */
  function Landed(m: Memory, rest: Rest, answer: Option<string>): Memory {
    match rest
    case Noting => if answer.None? then m else m.(topology := if answer.value == "" then None else answer)
    case Loading => m
    case _ => if rest.todo == [] then m else m.(maps := Linked(m.maps, rest.todo[0], answer))
  }

  function AfterAnswer(rest: Rest): Rest {
    match rest
    case Spawning(todo) => if todo == [] then rest else Spawning(todo[1..])
    case Changing(todo, removed, wires) => if todo == [] then rest else Changing(todo[1..], removed, wires)
    case Filling(todo, wires) => if todo == [] then rest else Filling(todo[1..], wires)
    case _ => rest
  }

  function Apply(s: State, step: Step): State
    requires Enabled(s, step)
  {
    var m := s.memory;
    match step
    case Restart => s.(memory := NEW.(stored := m.stored), calls := map[])
    case ChooseProject(project) => s.(memory := m.(projectId := Some(project)))
    case CallSpawnBoard(id, nodes, wires, persists) =>
      GoOn(s.(memory := m.(wires := wires, nodesById := Known(map[], nodes))), id, Spawning(nodes), persists)
    case CallBoardChanged(id, added, removed, wires, persists) =>
      GoOn(s, id, Changing(added, removed, wires), persists)
    case CallReconcile(id, nodes, wires, persists) =>
      GoOn(s.(memory := m.(maps := TakenOff(m.maps, Gone(m.maps, nodes)))), id, Filling(nodes, wires), persists)
    case CallRestore(id) => Waiting(s, m, id, Loading)
    case Answer(id, answer) =>
      var rest := s.calls[id].rest;
      s.(memory := Landed(m, rest, answer),
         used := Laws.With(s.used, answer),
         calls := s.calls[id := Call(AfterAnswer(rest), false)])
    case Loaded(id, saved) => s.(memory := Restored(m, saved), calls := s.calls[id := Call(Loading, false)])
    case Continue(id, persists) => GoOn(s, id, s.calls[id].rest, persists)
    case PaneClose(pane) => s.(memory := CanvasClosed(m, pane))
  }

  predicate Legal(s: State, steps: seq<Step>)
    decreases |steps|
  {
    steps == [] || (Enabled(s, steps[0]) && Legal(Apply(s, steps[0]), steps[1..]))
  }

  function Run(s: State, steps: seq<Step>): State
    requires Legal(s, steps)
    decreases |steps|
  {
    if steps == [] then s else Run(Apply(s, steps[0]), steps[1..])
  }

  // ---- What every interleaving keeps -----------------------------------------------------------

  /** Consistent maps over panes the canvas has given out, none of them the topology note. */
  ghost predicate SoundMaps(maps: Maps, topology: Option<string>, used: set<string>) {
    && Consistent(maps)
    && maps.paneToNode.Keys <= used
    && (topology.Some? ==> topology.value in used && topology.value !in maps.paneToNode)
  }

  ghost predicate Safe(s: State) {
    && SoundMaps(s.memory.maps, s.memory.topology, s.used)
    && forall saved :: saved in s.saves ==> SoundMaps(saved.maps, saved.topology, s.used)
  }

  lemma GoOnSafe(s: State, id: nat, rest: Rest, persists: bool)
    requires Safe(s)
    ensures Safe(GoOn(s, id, rest, persists))
  {
  }

  lemma AnswerSafe(s: State, id: nat, answer: Option<string>)
    requires Safe(s) && Enabled(s, Answer(id, answer))
    ensures Safe(Apply(s, Answer(id, answer)))
  {
  }

  lemma StepSafe(s: State, step: Step)
    requires Safe(s) && Enabled(s, step)
    ensures Safe(Apply(s, step))
  {
    var m := s.memory;
    match step
    case Restart =>
    case ChooseProject(_) =>
    case CallSpawnBoard(id, nodes, wires, persists) =>
      GoOnSafe(s.(memory := m.(wires := wires, nodesById := Known(map[], nodes))), id, Spawning(nodes), persists);
    case CallBoardChanged(id, added, removed, wires, persists) =>
      GoOnSafe(s, id, Changing(added, removed, wires), persists);
    case CallReconcile(id, nodes, wires, persists) =>
      TakeOffConsistent(m.maps, Gone(m.maps, nodes));
      GoOnSafe(s.(memory := m.(maps := TakenOff(m.maps, Gone(m.maps, nodes)))), id, Filling(nodes, wires), persists);
    case CallRestore(_) =>
    case Answer(id, answer) => AnswerSafe(s, id, answer);
    case Loaded(_, _) =>
    case Continue(id, persists) => GoOnSafe(s, id, s.calls[id].rest, persists);
    case PaneClose(pane) => CloseConsistent(m.maps, pane);
  }

  lemma {:induction false} RunSafe(s: State, steps: seq<Step>)
    requires Safe(s) && Legal(s, steps)
    ensures Safe(Run(s, steps))
    decreases |steps|
  {
    if steps != [] {
      StepSafe(s, steps[0]);
      RunSafe(Apply(s, steps[0]), steps[1..]);
    }
  }

  /** Wherever the calls under way stand, every mapped node's pane shows that node, no two nodes share
      a pane, a link is a worker exactly when the node its pane shows is an agent, and the topology note
      is nobody's pane. */
  lemma EveryAwaitPoint(steps: seq<Step>, a: string, b: string)
    requires Legal(INITIAL, steps)
    requires a in Run(INITIAL, steps).memory.maps.nodeToPane && b in Run(INITIAL, steps).memory.maps.nodeToPane
    ensures
      var m := Run(INITIAL, steps).memory;
      var (link, other) := (m.maps.nodeToPane[a], m.maps.nodeToPane[b]);
      && link.pane in m.maps.paneToNode && m.maps.paneToNode[link.pane].node == a
      && (link.kind.Worker? <==> m.maps.paneToNode[link.pane].nodeType.Agent?)
      && (link.pane == other.pane ==> a == b)
      && m.topology != Some(link.pane)
  {
    RunSafe(INITIAL, steps);
  }

  // ---- When the maps stay inverses -------------------------------------------------------------

  /** Not a pane landing on a node that has been given one since the call asked for it. */
  predicate LandsOnUnmapped(s: State, step: Step)
    requires Enabled(s, step)
  {
    step.Answer? && Gives(step.answer) && !s.calls[step.id].rest.Noting? && s.calls[step.id].rest.todo != [] ==>
      s.calls[step.id].rest.todo[0].id !in s.memory.maps.nodeToPane
  }

  predicate AllLandOnUnmapped(s: State, steps: seq<Step>)
    requires Legal(s, steps)
    decreases |steps|
  {
    steps == [] || (LandsOnUnmapped(s, steps[0]) && AllLandOnUnmapped(Apply(s, steps[0]), steps[1..]))
  }

  ghost predicate AlwaysInverse(s: State, steps: seq<Step>)
    requires Legal(s, steps)
    decreases |steps|
  {
    Inverse(s.memory.maps) && (steps == [] || AlwaysInverse(Apply(s, steps[0]), steps[1..]))
  }

  ghost predicate SavesInverse(s: State) {
    forall saved :: saved in s.saves ==> Inverse(saved.maps)
  }

  lemma GoOnInverse(s: State, id: nat, rest: Rest, persists: bool)
    requires Safe(s) && Inverse(s.memory.maps) && SavesInverse(s)
    ensures Inverse(GoOn(s, id, rest, persists).memory.maps) && SavesInverse(GoOn(s, id, rest, persists))
  {
    if rest.Changing? && rest.todo == [] {
      TakeOffConsistent(s.memory.maps, set n | n in rest.removed);
    }
  }

  lemma StepInverseIff(s: State, step: Step)
    requires Safe(s) && Inverse(s.memory.maps) && SavesInverse(s) && Enabled(s, step)
    ensures Inverse(Apply(s, step).memory.maps) <==> LandsOnUnmapped(s, step)
    ensures SavesInverse(Apply(s, step))
  {
    var m := s.memory;
    match step
    case Restart =>
    case ChooseProject(_) =>
    case CallSpawnBoard(id, nodes, wires, persists) =>
      GoOnInverse(s.(memory := m.(wires := wires, nodesById := Known(map[], nodes))), id, Spawning(nodes), persists);
    case CallBoardChanged(id, added, removed, wires, persists) =>
      GoOnInverse(s, id, Changing(added, removed, wires), persists);
    case CallReconcile(id, nodes, wires, persists) =>
      TakeOffConsistent(m.maps, Gone(m.maps, nodes));
      GoOnInverse(s.(memory := m.(maps := TakenOff(m.maps, Gone(m.maps, nodes)))), id, Filling(nodes, wires), persists);
    case CallRestore(_) =>
    case Answer(id, answer) =>
      var rest := s.calls[id].rest;
      if !rest.Noting? && rest.todo != [] {
        LinkInverseIff(m.maps, rest.todo[0], answer);
      }
    case Loaded(_, _) =>
    case Continue(id, persists) => GoOnInverse(s, id, s.calls[id].rest, persists);
    case PaneClose(pane) => CloseConsistent(m.maps, pane);
  }

  lemma {:induction false} RunInverseIff(s: State, steps: seq<Step>)
    requires Safe(s) && Inverse(s.memory.maps) && SavesInverse(s) && Legal(s, steps)
    ensures AlwaysInverse(s, steps) <==> AllLandOnUnmapped(s, steps)
    decreases |steps|
  {
    if steps != [] {
      StepSafe(s, steps[0]);
      StepInverseIff(s, steps[0]);
      if LandsOnUnmapped(s, steps[0]) {
        RunInverseIff(Apply(s, steps[0]), steps[1..]);
      }
    }
  }

  /** Over every interleaving, through any number of sessions, the maps are inverses at every await
      exactly when each pane lands on a node that is still without one. */
  lemma EveryInterleavingInverseIff(steps: seq<Step>)
    requires Legal(INITIAL, steps)
    ensures AlwaysInverse(INITIAL, steps) <==> AllLandOnUnmapped(INITIAL, steps)
  {
    RunInverseIff(INITIAL, steps);
  }

  lemma RunCons(s: State, step: Step, more: seq<Step>)
    requires Enabled(s, step) && Legal(Apply(s, step), more)
    ensures Legal(s, [step] + more) && Run(s, [step] + more) == Run(Apply(s, step), more)
  {
  }

  /** It can fail with nothing but reconciles: two of the same board that overlap both ask for a pane,
      and the first to land is left behind, showing a node that is mapped elsewhere. */
  lemma OverlapLeavesAPane(node: Node, p: string, q: string)
    requires p != "" && q != "" && p != q
    ensures
      var landings := [Answer(0, Some(p))] + ([Answer(1, Some(q))] + []);
      var steps := [CallReconcile(0, [node], [], true)] + ([CallReconcile(1, [node], [], true)] + landings);
      && Legal(INITIAL, steps)
      && Laws.Stale(Run(INITIAL, steps).memory.maps, p)
  {
    assert TakenOff(NO_MAPS, Gone(NO_MAPS, [node])) == NO_MAPS;
    var s1 := Apply(INITIAL, CallReconcile(0, [node], [], true));
    var s2 := Apply(s1, CallReconcile(1, [node], [], true));
    var s3 := Apply(s2, Answer(0, Some(p)));
    RunCons(s3, Answer(1, Some(q)), []);
    RunCons(s2, Answer(0, Some(p)), [Answer(1, Some(q))] + []);
    var landings := [Answer(0, Some(p))] + ([Answer(1, Some(q))] + []);
    RunCons(s1, CallReconcile(1, [node], [], true), landings);
    RunCons(INITIAL, CallReconcile(0, [node], [], true), [CallReconcile(1, [node], [], true)] + landings);
  }

  // ---- From one session to the next ------------------------------------------------------------

  /** The step ends a call that stores, and the host takes what it is given. */
  predicate Persists(s: State, step: Step)
    requires Enabled(s, step)
  {
    match step
    case CallBoardChanged(id, _, _, _, persists) => persists && id !in Apply(s, step).calls
    case CallReconcile(id, _, _, persists) => persists && id !in Apply(s, step).calls
    case Continue(id, persists) => persists && !s.calls[id].rest.Loading? && id !in Apply(s, step).calls
    case _ => false
  }

  /** The memory as the last call that stored left it, `last` if none has. */
  function LastPersisted(s: State, steps: seq<Step>, last: Option<Memory>): Option<Memory>
    requires Legal(s, steps)
    decreases |steps|
  {
    if steps == [] then last
    else
      var t := Apply(s, steps[0]);
      LastPersisted(t, steps[1..], if Persists(s, steps[0]) then Some(t.memory) else last)
  }

  /** The host holds the project, the maps and the note of `last`, and no note is without a name. */
  ghost predicate Holds(s: State, last: Option<Memory>) {
    && s.memory.topology != Some("")
    && match last
       case None => s.memory.stored.None?
       case Some(m) =>
         && m.topology != Some("")
         && s.memory.stored == Some(Saved(m.projectId, m.maps, m.topology))
         && s.memory.stored.value in s.saves
  }

  lemma GoOnHolds(s: State, id: nat, rest: Rest, persists: bool, last: Option<Memory>)
    requires Holds(s, last)
    ensures
      var t := GoOn(s, id, rest, persists);
      Holds(t, if persists && !rest.Loading? && id !in t.calls then Some(t.memory) else last)
  {
  }

  lemma StepHolds(s: State, step: Step, last: Option<Memory>)
    requires Enabled(s, step) && Holds(s, last)
    ensures Holds(Apply(s, step), if Persists(s, step) then Some(Apply(s, step).memory) else last)
  {
    var m := s.memory;
    match step
    case CallSpawnBoard(id, nodes, wires, persists) =>
      var begun := m.(wires := wires, nodesById := Known(map[], nodes));
      GoOnHolds(s.(memory := begun), id, Spawning(nodes), persists, last);
    case CallBoardChanged(id, added, removed, wires, persists) =>
      GoOnHolds(s, id, Changing(added, removed, wires), persists, last);
    case CallReconcile(id, nodes, wires, persists) =>
      var pruned := m.(maps := TakenOff(m.maps, Gone(m.maps, nodes)));
      GoOnHolds(s.(memory := pruned), id, Filling(nodes, wires), persists, last);
    case Continue(id, persists) => GoOnHolds(s, id, s.calls[id].rest, persists, last);
    case _ =>
  }

  lemma {:induction false} RunHolds(s: State, steps: seq<Step>, last: Option<Memory>)
    requires Legal(s, steps) && Holds(s, last)
    ensures Holds(Run(s, steps), LastPersisted(s, steps, last))
    decreases |steps|
  {
    if steps != [] {
      var t := Apply(s, steps[0]);
      StepHolds(s, steps[0], last);
      RunHolds(t, steps[1..], if Persists(s, steps[0]) then Some(t.memory) else last);
    }
  }

  /** Whatever ran before, a new session that loads what the host holds has the maps and the topology
      note of the moment the last call stored them; and its project, exactly unless that has the empty
      id, which loading takes for none. */
  lemma NextSessionTakesOver(steps: seq<Step>, id: nat)
    requires Legal(INITIAL, steps) && LastPersisted(INITIAL, steps, None).Some?
    ensures
      var s, m := Run(INITIAL, steps), LastPersisted(INITIAL, steps, None).value;
      var session := [Restart] + ([CallRestore(id)] + ([Loaded(id, s.memory.stored)] + []));
      && Legal(s, session)
      && var t := Run(s, session).memory;
         && t.maps == m.maps && t.topology == m.topology
         && (t.projectId == m.projectId <==> m.projectId != Some(""))
  {
    RunHolds(INITIAL, steps, None);
    var s := Run(INITIAL, steps);
    var begun := Apply(s, Restart);
    var asking := Apply(begun, CallRestore(id));
    var loaded := Loaded(id, s.memory.stored);
    RunCons(asking, loaded, []);
    RunCons(begun, CallRestore(id), [loaded] + []);
    RunCons(s, Restart, [CallRestore(id)] + ([loaded] + []));
  }

  // ---- A call left alone -----------------------------------------------------------------------

  /** The host answers each question of one call in turn, and nothing else happens. */
  function Alone(id: nat, answers: seq<Option<string>>, persists: bool): seq<Step>
    decreases |answers|
  {
    if answers == [] then []
    else [Answer(id, answers[0])] + ([Continue(id, persists)] + Alone(id, answers[1..], persists))
  }

  /** The answers `reconcileBoard` asks for among those aligned with its nodes. */
  function Heard(m: Maps, nodes: seq<Node>, answers: seq<Option<string>>): seq<Option<string>>
    requires |nodes| == |answers|
    decreases |nodes|
  {
    if nodes == [] then []
    else if nodes[0].id in m.nodeToPane then Heard(m, nodes[1..], answers[1..])
    else [answers[0]] + Heard(Linked(m, nodes[0], answers[0]), nodes[1..], answers[1..])
  }

  lemma AloneStep(s: State, id: nat, rest: Rest, answer: Option<string>, more: seq<Step>, persists: bool)
    requires id in s.calls && s.calls[id] == Call(rest, true) && !rest.Loading?
    requires Gives(answer) ==> answer.value !in s.used
    requires Legal(GoOn(Apply(s, Answer(id, answer)), id, AfterAnswer(rest), persists), more)
    ensures
      var steps := [Answer(id, answer)] + ([Continue(id, persists)] + more);
      && Legal(s, steps)
      && Run(s, steps) == Run(GoOn(Apply(s, Answer(id, answer)), id, AfterAnswer(rest), persists), more)
  {
  }

  lemma {:induction false} FillingAlone(
    s: State, id: nat, nodes: seq<Node>, wires: seq<Wire>, answers: seq<Option<string>>, persists: bool)
    requires |nodes| == |answers| && Laws.Fresh(s.used, answers)
    ensures
      var m := s.memory;
      var start := GoOn(s, id, Filling(nodes, wires), persists);
      var steps := Alone(id, Heard(m.maps, nodes, answers), persists);
      && Legal(start, steps)
      && Run(start, steps).memory
         == Stored(m.(maps := Filled(m.maps, nodes, answers), nodesById := Known(m.nodesById, nodes), wires := wires),
                   persists)
      && id !in Run(start, steps).calls
    decreases |nodes|
  {
    var m := s.memory;
    if nodes != [] {
      var noted := m.(nodesById := m.nodesById[nodes[0].id := nodes[0]]);
      if nodes[0].id in m.maps.nodeToPane {
        Laws.FreshFewer(s.used, Laws.With(s.used, answers[0]), answers[1..]);
        FillingAlone(s.(memory := noted), id, nodes[1..], wires, answers[1..], persists);
        assert GoOn(s, id, Filling(nodes, wires), persists)
            == GoOn(s.(memory := noted), id, Filling(nodes[1..], wires), persists);
      } else {
        var start := GoOn(s, id, Filling(nodes, wires), persists);
        var landed := Apply(start, Answer(id, answers[0]));
        FillingAlone(landed, id, nodes[1..], wires, answers[1..], persists);
        var more := Heard(Linked(m.maps, nodes[0], answers[0]), nodes[1..], answers[1..]);
        AloneStep(start, id, Filling(nodes, wires), answers[0], Alone(id, more, persists), persists);
        assert ([answers[0]] + more)[1..] == more;
      }
    }
  }

  lemma {:induction false} ChangingAlone(
    s: State, id: nat, added: seq<Node>, removed: seq<string>, wires: Option<seq<Wire>>, answers: seq<Option<string>>,
    persists: bool)
    requires |added| == |answers| && Laws.Fresh(s.used, answers)
    ensures
      var start := GoOn(s, id, Changing(added, removed, wires), persists);
      && Legal(start, Alone(id, answers, persists))
      && Run(start, Alone(id, answers, persists)).memory
         == BoardChanged(s.memory, added, removed, wires, answers, persists)
      && id !in Run(start, Alone(id, answers, persists)).calls
    decreases |added|
  {
    var m := s.memory;
    if added != [] {
      var start := GoOn(s, id, Changing(added, removed, wires), persists);
      var landed := Apply(start, Answer(id, answers[0]));
      ChangingAlone(landed, id, added[1..], removed, wires, answers[1..], persists);
      AloneStep(start, id, Changing(added, removed, wires), answers[0], Alone(id, answers[1..], persists), persists);
    }
  }

  /** One answer per node, and one for the topology note if there are wires. */
  function AloneWithNote(
    id: nat, wires: seq<Wire>, answers: seq<Option<string>>, note: Option<string>, persists: bool): seq<Step>
    decreases |answers|
  {
    if answers != [] then
      [Answer(id, answers[0])] + ([Continue(id, persists)] + AloneWithNote(id, wires, answers[1..], note, persists))
    else if wires == [] then [Continue(id, persists)] + []
    else [Answer(id, note)] + ([Continue(id, persists)] + [])
  }

  lemma {:induction false} SpawningAlone(
    s: State, id: nat, nodes: seq<Node>, answers: seq<Option<string>>, note: Option<string>, persists: bool)
    requires |nodes| == |answers| && Laws.Fresh(s.used, answers)
    requires Gives(note) ==> note.value !in Laws.Used(s.used, answers)
    ensures
      var m := s.memory;
      var start := GoOn(s, id, Spawning(nodes), persists);
      var steps := AloneWithNote(id, m.wires, answers, note, persists);
      && Legal(start, steps)
      && Run(start, steps).memory == Stored(Noted(m.(maps := SpawnedAll(m.maps, nodes, answers)), note), persists)
      && id !in Run(start, steps).calls
    decreases |nodes|
  {
    var m := s.memory;
    var start := GoOn(s, id, Spawning(nodes), persists);
    if nodes != [] {
      var landed := Apply(start, Answer(id, answers[0]));
      SpawningAlone(landed, id, nodes[1..], answers[1..], note, persists);
      AloneStep(start, id, Spawning(nodes), answers[0],
                AloneWithNote(id, m.wires, answers[1..], note, persists), persists);
    } else if m.wires == [] {
      RunCons(start, Continue(id, persists), []);
    } else {
      AloneStep(start, id, Noting, note, [], persists);
    }
  }

  /** Left alone, a call of `spawnBoard` leaves what the handler leaves when taken as a whole. */
  lemma SpawnBoardAlone(
    s: State, id: nat, nodes: seq<Node>, wires: seq<Wire>, answers: seq<Option<string>>, note: Option<string>,
    persists: bool)
    requires id !in s.calls && |nodes| == |answers| && Laws.Fresh(s.used, answers)
    requires Gives(note) ==> note.value !in Laws.Used(s.used, answers)
    ensures
      var start := Apply(s, CallSpawnBoard(id, nodes, wires, persists));
      var steps := AloneWithNote(id, wires, answers, note, persists);
      Legal(start, steps) && Run(start, steps).memory == BoardSpawned(s.memory, nodes, wires, answers, note, persists)
  {
    var begun := s.(memory := s.memory.(wires := wires, nodesById := Known(map[], nodes)));
    SpawningAlone(begun, id, nodes, answers, note, persists);
  }

  /** The same for `handleBoardChanged`. */
  lemma BoardChangedAlone(
    s: State, id: nat, added: seq<Node>, removed: seq<string>, wires: Option<seq<Wire>>, answers: seq<Option<string>>,
    persists: bool)
    requires id !in s.calls && |added| == |answers| && Laws.Fresh(s.used, answers)
    ensures
      var start, steps := Apply(s, CallBoardChanged(id, added, removed, wires, persists)), Alone(id, answers, persists);
      && Legal(start, steps)
      && Run(start, steps).memory == BoardChanged(s.memory, added, removed, wires, answers, persists)
  {
    ChangingAlone(s, id, added, removed, wires, answers, persists);
  }

  /** The same for `reconcileBoard`. */
  lemma ReconcileAlone(
    s: State, id: nat, nodes: seq<Node>, wires: seq<Wire>, answers: seq<Option<string>>, persists: bool)
    requires id !in s.calls && |nodes| == |answers| && Laws.Fresh(s.used, answers)
    ensures
      var start := Apply(s, CallReconcile(id, nodes, wires, persists));
      var steps := Alone(id, Heard(TakenOff(s.memory.maps, Gone(s.memory.maps, nodes)), nodes, answers), persists);
      Legal(start, steps) && Run(start, steps).memory == BoardReconciled(s.memory, nodes, wires, answers, persists)
  {
    var m := s.memory;
    FillingAlone(s.(memory := m.(maps := TakenOff(m.maps, Gone(m.maps, nodes)))), id, nodes, wires, answers, persists);
  }
}
