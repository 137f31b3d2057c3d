/** The mock engine's board: the node, wire and vault-key routes over one project, and what every
    sequence of requests keeps. Which wires the matrix allows is a parameter. */
module MockBoard {
  import opened NodeTypes
  import opened Options

  datatype Wire = Wire(to: string, kind: WireType)

  type Matrix = (NodeType, NodeType, WireType) -> bool

  /** `busy` stands for an agent that is running or starting, `keys` for `config.keys`. */
  datatype Node = Node(id: string, name: string, kind: NodeType, busy: bool, keys: seq<string>, wires: seq<Wire>)

  /** `vaults` holds the key names written into each vault, in the order they were first written. */
  datatype Board = Board(nodes: seq<Node>, vaults: map<string, seq<string>>)

  const EMPTY_BOARD := Board([], map[])

  // ---- Lists of nodes and wires ----------------------------------------------------------------

  /** `record.nodes.find(n => n.id === id)`, as an index. */
  function Find(nodes: seq<Node>, id: string): (r: Option<nat>)
    ensures r.Some? ==> r.value < |nodes| && nodes[r.value].id == id
    ensures r.None? <==> forall n :: n in nodes ==> n.id != id
  {
    if nodes == [] then None
    else if nodes[0].id == id then Some(0)
    else
      match Find(nodes[1..], id)
      case None => None
      case Some(i) => Some(i + 1)
  }

  /** The vault of a given name, as an index. */
  function FindVault(nodes: seq<Node>, name: string): (r: Option<nat>)
    ensures r.Some? ==> r.value < |nodes| && nodes[r.value].kind.Vault? && nodes[r.value].name == name
    ensures r.None? <==> forall n :: n in nodes ==> !(n.kind.Vault? && n.name == name)
  {
    if nodes == [] then None
    else if nodes[0].kind.Vault? && nodes[0].name == name then Some(0)
    else
      match FindVault(nodes[1..], name)
      case None => None
      case Some(i) => Some(i + 1)
  }

  predicate NameTaken(nodes: seq<Node>, name: string, except: Option<string>) {
    exists n :: n in nodes && n.name == name && except != Some(n.id)
  }

  function WithoutNode(nodes: seq<Node>, id: string): (r: seq<Node>)
    ensures forall n :: n in r <==> n in nodes && n.id != id
  {
    if nodes == [] then []
    else if nodes[0].id == id then WithoutNode(nodes[1..], id)
    else [nodes[0]] + WithoutNode(nodes[1..], id)
  }

  /** `wires.filter(w => !(w.to === to && w.type === kind))`, or all kinds when none is given. */
  function WithoutWires(wires: seq<Wire>, to: string, kind: Option<WireType>): (r: seq<Wire>)
    ensures forall w :: w in r <==> w in wires && !(w.to == to && (kind.None? || kind.value == w.kind))
  {
    if wires == [] then []
    else if wires[0].to == to && (kind.None? || kind.value == wires[0].kind) then WithoutWires(wires[1..], to, kind)
    else [wires[0]] + WithoutWires(wires[1..], to, kind)
  }

  function Unwired(nodes: seq<Node>, to: string): (r: seq<Node>)
    ensures |r| == |nodes|
    ensures forall i :: 0 <= i < |nodes| ==> r[i] == nodes[i].(wires := WithoutWires(nodes[i].wires, to, None))
  {
    seq(|nodes|, i requires 0 <= i < |nodes| => nodes[i].(wires := WithoutWires(nodes[i].wires, to, None)))
  }

  // ---- Vault keys ------------------------------------------------------------------------------

  function Written(b: Board, id: string): seq<string> {
    if id in b.vaults then b.vaults[id] else []
  }

  /** `keys.add(key)` on a set that keeps insertion order. */
  function WithKey(keys: seq<string>, key: string): (r: seq<string>)
    ensures forall k :: k in r <==> k in keys || k == key
  {
    if key in keys then keys else keys + [key]
  }

  function KeysOf(b: Board, vault: Node): seq<string> {
    Written(b, vault.id) + if vault.kind.Vault? then vault.keys else []
  }

  function KeySet(keys: seq<string>): set<string> {
    set k | k in keys
  }

  /** `keys.find(k => incoming.has(k))`. */
  function FirstCommon(keys: seq<string>, incoming: set<string>): (r: Option<string>)
    ensures r.None? <==> KeySet(keys) !! incoming
    ensures r.Some? ==> r.value in incoming
    ensures r.Some? ==>
              exists i :: 0 <= i < |keys| && keys[i] == r.value && forall k :: 0 <= k < i ==> keys[k] !in incoming
  {
    if keys == [] then None
    else
      assert keys == [keys[0]] + keys[1..];
      if keys[0] in incoming then Some(keys[0]) else FirstCommon(keys[1..], incoming)
  }

  /** The vault a wire reads, if it reads one: `record.nodes.find` decides which node is meant. */
  function VaultRead(b: Board, w: Wire): Option<Node> {
    match Find(b.nodes, w.to)
    case None => None
    case Some(i) => if w.kind.Read? && b.nodes[i].kind.Vault? then Some(b.nodes[i]) else None
  }

  /** The clash `assertNoAmbiguousCredential` sees on one wire the agent has. */
  function ClashOn(b: Board, w: Wire, to: Node): Option<string> {
    var other := VaultRead(b, w);
    if other.None? then None else FirstCommon(KeysOf(b, other.value), KeySet(KeysOf(b, to)))
  }

  /** Whether `assertNoAmbiguousCredential` refuses: on some wire of the agent the first common key has
      a name. The empty name counts as no clash. */
  predicate Ambiguous(b: Board, from: Node, to: Node, kind: WireType) {
    && kind.Read? && from.kind.Agent? && to.kind.Vault?
    && exists w :: w in from.wires && ClashOn(b, w, to).Some? && ClashOn(b, w, to).value != ""
  }

  // ---- Requests --------------------------------------------------------------------------------

  datatype Request =
    | PostNode(kind: NodeType, name: string, config: Option<seq<string>>, newId: string)
    | PatchNode(id: string, rename: Option<string>, setKeys: Option<seq<string>>)
    | DeleteNode(id: string)
    | PostWire(from: string, to: string, wire: WireType)
    | DeleteWire(from: string, to: string, wire: WireType)
    | PutVaultKey(id: string, key: string, value: string)
    | SaveToVault(id: string, key: string)
    | SetBusy(id: string, busy: bool)

  datatype Reply = Done | Refused(status: nat)

  ghost predicate Enabled(b: Board, r: Request) {
    r.PostNode? ==> r.newId !in b.vaults && forall n :: n in b.nodes ==> n.id != r.newId
  }

  /** The status a request is refused with, if it is. */
  function Answer(allowed: Matrix, b: Board, r: Request): Reply {
    match r
    case PostNode(_, name, config, _) =>
      if NameTaken(b.nodes, name, None) then Refused(409) else if config.None? then Refused(422) else Done
    case PatchNode(id, rename, _) =>
      (match Find(b.nodes, id)
       case None => Refused(404)
       case Some(i) =>
         if rename.None? || rename.value == "" || rename.value == b.nodes[i].name then Done
         else if b.nodes[i].kind.Agent? && b.nodes[i].busy then Refused(409)
         else if NameTaken(b.nodes, rename.value, Some(id)) then Refused(409)
         else Done)
    case DeleteNode(id) => if Find(b.nodes, id).None? then Refused(404) else Done
    case PostWire(from, to, wire) =>
      (match (Find(b.nodes, from), Find(b.nodes, to))
       case (Some(i), Some(j)) =>
         if from == to || !allowed(b.nodes[i].kind, b.nodes[j].kind, wire) then Refused(400)
         else if Wire(to, wire) in b.nodes[i].wires then Refused(409)
         else if Ambiguous(b, b.nodes[i], b.nodes[j], wire) then Refused(400)
         else Done
       case _ => Refused(404))
    case DeleteWire(from, to, _) =>
      if Find(b.nodes, from).None? || Find(b.nodes, to).None? then Refused(404) else Done
    case PutVaultKey(id, _, value) =>
      (match Find(b.nodes, id)
       case None => Refused(404)
       case Some(i) => if !b.nodes[i].kind.Vault? then Refused(404) else if value == "" then Refused(400) else Done)
    case SaveToVault(id, _) =>
      (match Find(b.nodes, id)
       case None => Refused(400)
       case Some(i) => if b.nodes[i].kind.Vault? then Done else Refused(400))
    case SetBusy(id, _) => if Find(b.nodes, id).None? then Refused(404) else Done
  }

  function WithNode(b: Board, i: nat, n: Node): Board
    requires i < |b.nodes|
  {
    b.(nodes := b.nodes[i := n])
  }

  /** What an accepted request does. */
  function Effect(b: Board, r: Request): Board
    requires r.PatchNode? || r.PutVaultKey? || r.SaveToVault? || r.SetBusy? ==> Find(b.nodes, r.id).Some?
    requires r.PostWire? || r.DeleteWire? ==> Find(b.nodes, r.from).Some?
    requires r.PostNode? ==> r.config.Some?
  {
    match r
    case PostNode(kind, name, config, newId) =>
      b.(nodes := b.nodes + [Node(newId, name, kind, false, config.value, [])])
    case PatchNode(id, rename, setKeys) =>
      var i := Find(b.nodes, id).value;
      var name := if rename.Some? && rename.value != "" then rename.value else b.nodes[i].name;
      var keys := if setKeys.Some? then setKeys.value else b.nodes[i].keys;
      WithNode(b, i, b.nodes[i].(name := name, keys := keys))
    case DeleteNode(id) => b.(nodes := Unwired(WithoutNode(b.nodes, id), id))
    case PostWire(from, to, wire) =>
      var i := Find(b.nodes, from).value;
      WithNode(b, i, b.nodes[i].(wires := b.nodes[i].wires + [Wire(to, wire)]))
    case DeleteWire(from, to, wire) =>
      var i := Find(b.nodes, from).value;
      WithNode(b, i, b.nodes[i].(wires := WithoutWires(b.nodes[i].wires, to, Some(wire))))
    case PutVaultKey(id, key, _) =>
      var i := Find(b.nodes, id).value;
      var keys := WithKey(Written(b, id), key);
      WithNode(b.(vaults := b.vaults[id := keys]), i, b.nodes[i].(keys := keys))
    case SaveToVault(id, key) => b.(vaults := b.vaults[id := WithKey(Written(b, id), key)])
    case SetBusy(id, busy) =>
      var i := Find(b.nodes, id).value;
      WithNode(b, i, b.nodes[i].(busy := busy))
  }

  function Apply(allowed: Matrix, b: Board, r: Request): Board {
    if Answer(allowed, b, r).Done? then Effect(b, r) else b
  }

  ghost predicate Legal(allowed: Matrix, b: Board, rs: seq<Request>)
    decreases |rs|
  {
    rs == [] || (Enabled(b, rs[0]) && Legal(allowed, Apply(allowed, b, rs[0]), rs[1..]))
  }

  function Run(allowed: Matrix, b: Board, rs: seq<Request>): Board
    decreases |rs|
  {
    if rs == [] then b else Run(allowed, Apply(allowed, b, rs[0]), rs[1..])
  }

  // ---- The record ------------------------------------------------------------------------------

  class ProjectRecord {
    const allowed: Matrix
    var nodes: seq<Node>
    var vaults: map<string, seq<string>>

    function View(): Board
      reads this
    {
      Board(nodes, vaults)
    }

    /** `createProject`: an empty board. */
    constructor (allowed: Matrix)
      ensures View() == EMPTY_BOARD && this.allowed == allowed
    {
      this.allowed := allowed;
      nodes, vaults := [], map[];
    }

    method CreateNode(kind: NodeType, name: string, config: Option<seq<string>>, newId: string) returns (r: Reply)
      modifies this
      ensures View() == Apply(allowed, old(View()), PostNode(kind, name, config, newId))
      ensures r == Answer(allowed, old(View()), PostNode(kind, name, config, newId))
    {
      if exists n :: n in nodes && n.name == name {
        return Refused(409);
      }
      if config.None? {
        return Refused(422);
      }
      nodes := nodes + [Node(newId, name, kind, false, config.value, [])];
      return Done;
    }

    method UpdateNode(id: string, rename: Option<string>, setKeys: Option<seq<string>>) returns (r: Reply)
      modifies this
      ensures View() == Apply(allowed, old(View()), PatchNode(id, rename, setKeys))
      ensures r == Answer(allowed, old(View()), PatchNode(id, rename, setKeys))
    {
      var found := Find(nodes, id);
      if found.None? {
        return Refused(404);
      }
      var i, node := found.value, nodes[found.value];
      if rename.Some? && rename.value != "" && rename.value != node.name {
        if node.kind.Agent? && node.busy {
          return Refused(409);
        }
        if exists n :: n in nodes && n.name == rename.value && n.id != node.id {
          return Refused(409);
        }
        node := node.(name := rename.value);
      }
      if setKeys.Some? {
        node := node.(keys := setKeys.value);
      }
      nodes := nodes[i := node];
      return Done;
    }

    method RemoveNode(id: string) returns (r: Reply)
      modifies this
      ensures View() == Apply(allowed, old(View()), DeleteNode(id))
      ensures r == Answer(allowed, old(View()), DeleteNode(id))
    {
      if Find(nodes, id).None? {
        return Refused(404);
      }
      nodes := WithoutNode(nodes, id);
      ghost var rest := nodes;
      for i := 0 to |nodes|
        invariant |nodes| == |rest| && vaults == old(vaults)
        invariant forall k :: 0 <= k < i ==> nodes[k] == Unwired(rest, id)[k]
        invariant forall k :: i <= k < |nodes| ==> nodes[k] == rest[k]
      {
        nodes := nodes[i := nodes[i].(wires := WithoutWires(nodes[i].wires, id, None))];
      }
      assert nodes == Unwired(rest, id);
      return Done;
    }

    method CreateWire(from: string, to: string, wire: WireType) returns (r: Reply)
      modifies this
      ensures View() == Apply(allowed, old(View()), PostWire(from, to, wire))
      ensures r == Answer(allowed, old(View()), PostWire(from, to, wire))
    {
      var i, j := Find(nodes, from), Find(nodes, to);
      if i.None? || j.None? {
        return Refused(404);
      }
      if from == to || !allowed(nodes[i.value].kind, nodes[j.value].kind, wire) {
        return Refused(400);
      }
      if Wire(to, wire) in nodes[i.value].wires {
        return Refused(409);
      }
      var clash := AmbiguousCredential(nodes[i.value], nodes[j.value], wire);
      if clash {
        return Refused(400);
      }
      nodes := nodes[i.value := nodes[i.value].(wires := nodes[i.value].wires + [Wire(to, wire)])];
      return Done;
    }

    /** The loop of `assertNoAmbiguousCredential`. */
    method AmbiguousCredential(from: Node, to: Node, kind: WireType) returns (clash: bool)
      ensures clash <==> Ambiguous(View(), from, to, kind)
    {
      if !kind.Read? || !from.kind.Agent? || !to.kind.Vault? {
        return false;
      }
      var incoming := KeySet(KeysOf(View(), to));
      for k := 0 to |from.wires|
        invariant forall w :: w in from.wires[..k] ==>
                                ClashOn(View(), w, to).None? || ClashOn(View(), w, to).value == ""
      {
        var wire := from.wires[k];
        assert from.wires[..k + 1] == from.wires[..k] + [wire];
        if !wire.kind.Read? {
          continue;
        }
        var other := Find(nodes, wire.to);
        if other.None? || !nodes[other.value].kind.Vault? {
          continue;
        }
        var common := FirstCommon(KeysOf(View(), nodes[other.value]), incoming);
        if common.Some? && common.value != "" {
          assert ClashOn(View(), wire, to) == common;
          return true;
        }
      }
      assert from.wires[..|from.wires|] == from.wires;
      return false;
    }

    method RemoveWire(from: string, to: string, wire: WireType) returns (r: Reply)
      modifies this
      ensures View() == Apply(allowed, old(View()), DeleteWire(from, to, wire))
      ensures r == Answer(allowed, old(View()), DeleteWire(from, to, wire))
    {
      var i := Find(nodes, from);
      if i.None? || Find(nodes, to).None? {
        return Refused(404);
      }
      nodes := nodes[i.value := nodes[i.value].(wires := WithoutWires(nodes[i.value].wires, to, Some(wire)))];
      return Done;
    }

    method PutKey(id: string, key: string, value: string) returns (r: Reply)
      modifies this
      ensures View() == Apply(allowed, old(View()), PutVaultKey(id, key, value))
      ensures r == Answer(allowed, old(View()), PutVaultKey(id, key, value))
    {
      var i := Find(nodes, id);
      if i.None? || !nodes[i.value].kind.Vault? {
        return Refused(404);
      }
      if value == "" {
        return Refused(400);
      }
      var keys := if id in vaults then vaults[id] else [];
      keys := WithKey(keys, key);
      vaults := vaults[id := keys];
      nodes := nodes[i.value := nodes[i.value].(keys := keys)];
      return Done;
    }

    /** The `save_to_vault` part of a completed sign-in: the vault is named, and keeps its declared
        keys. */
    method SaveCredential(vaultName: string, key: string) returns (r: Reply)
      requires Distinct(nodes)
      modifies this
      ensures r == if old(FindVault(nodes, vaultName)).None? then Refused(400) else Done
      ensures View() == if r.Done?
                        then Apply(allowed, old(View()),
                                   SaveToVault(old(nodes[FindVault(nodes, vaultName).value].id), key))
                        else old(View())
    {
      var found := FindVault(nodes, vaultName);
      if found.None? {
        return Refused(400);
      }
      var id := nodes[found.value].id;
      FindMember(nodes, found.value);
      var keys := if id in vaults then vaults[id] else [];
      vaults := vaults[id := WithKey(keys, key)];
      return Done;
    }

    /** `setAgentState`, as far as renaming looks at it. */
    method SetAgentState(id: string, busy: bool)
      modifies this
      ensures View() == Apply(allowed, old(View()), SetBusy(id, busy))
    {
      var i := Find(nodes, id);
      if i.Some? {
        nodes := nodes[i.value := nodes[i.value].(busy := busy)];
      }
    }
  }

  // ---- Board integrity -------------------------------------------------------------------------

  ghost predicate Distinct(nodes: seq<Node>) {
    forall i, j :: 0 <= i < j < |nodes| ==> nodes[i].id != nodes[j].id && nodes[i].name != nodes[j].name
  }

  ghost predicate NoRepeats(wires: seq<Wire>) {
    forall i, j :: 0 <= i < j < |wires| ==> wires[i] != wires[j]
  }

  /** The wire ends at another node that is on the board, and the matrix allows it. */
  ghost predicate WireSound(allowed: Matrix, nodes: seq<Node>, n: Node, w: Wire) {
    exists m :: m in nodes && m.id == w.to && m.id != n.id && allowed(n.kind, m.kind, w.kind)
  }

  ghost predicate NodeSound(allowed: Matrix, nodes: seq<Node>, n: Node) {
    NoRepeats(n.wires) && forall w :: w in n.wires ==> WireSound(allowed, nodes, n, w)
  }

  ghost predicate Integrity(allowed: Matrix, b: Board) {
    Distinct(b.nodes) && forall n :: n in b.nodes ==> NodeSound(allowed, b.nodes, n)
  }

  /** Every node of `before` still stands, with its id and kind, in `after`. */
  ghost predicate Kept(before: seq<Node>, after: seq<Node>) {
    forall m :: m in before ==> exists m' :: m' in after && m'.id == m.id && m'.kind == m.kind
  }

  lemma SoundAfter(allowed: Matrix, before: seq<Node>, after: seq<Node>, n: Node, n': Node)
    requires NodeSound(allowed, before, n) && Kept(before, after)
    requires n'.id == n.id && n'.kind == n.kind && n'.wires == n.wires
    ensures NodeSound(allowed, after, n')
  {
  }

  lemma KeptBySwap(nodes: seq<Node>, i: nat, n: Node)
    requires i < |nodes| && n.id == nodes[i].id && n.kind == nodes[i].kind
    ensures Kept(nodes, nodes[i := n])
  {
    var after := nodes[i := n];
    forall m | m in nodes
      ensures exists m' :: m' in after && m'.id == m.id && m'.kind == m.kind
    {
      var k :| 0 <= k < |nodes| && nodes[k] == m;
      assert after[k] in after;
    }
  }

  /** Replacing one node by one with the same id and kind, a free name and sound wires. */
  lemma SwapIntegrity(allowed: Matrix, b: Board, i: nat, n: Node)
    requires Integrity(allowed, b) && i < |b.nodes|
    requires n.id == b.nodes[i].id && n.kind == b.nodes[i].kind
    requires n.name == b.nodes[i].name || !NameTaken(b.nodes, n.name, Some(n.id))
    requires NodeSound(allowed, b.nodes, n)
    ensures Integrity(allowed, WithNode(b, i, n))
  {
    var after := b.nodes[i := n];
    KeptBySwap(b.nodes, i, n);
    assert Distinct(after) by {
      forall k | 0 <= k < |after| && k != i
        ensures after[k].name != n.name
      {
        assert b.nodes[k] in b.nodes && b.nodes[k].id != n.id;
      }
    }
    forall m | m in after
      ensures NodeSound(allowed, after, m)
    {
      SoundAfter(allowed, b.nodes, after, m, m);
    }
  }

  lemma PostNodeIntegrity(allowed: Matrix, b: Board, n: Node)
    requires Integrity(allowed, b) && n.wires == []
    requires !NameTaken(b.nodes, n.name, None) && forall m :: m in b.nodes ==> m.id != n.id
    ensures Integrity(allowed, b.(nodes := b.nodes + [n]))
  {
  }

  lemma {:induction false} WithoutWiresNoRepeats(wires: seq<Wire>, to: string, kind: Option<WireType>)
    requires NoRepeats(wires)
    ensures NoRepeats(WithoutWires(wires, to, kind))
  {
    if wires != [] {
      assert NoRepeats(wires[1..]);
      WithoutWiresNoRepeats(wires[1..], to, kind);
      assert wires[0] !in wires[1..];
    }
  }

  lemma {:induction false} WithoutNodeDistinct(nodes: seq<Node>, id: string)
    requires Distinct(nodes)
    ensures Distinct(WithoutNode(nodes, id))
  {
    if nodes != [] {
      assert Distinct(nodes[1..]);
      WithoutNodeDistinct(nodes[1..], id);
      var rest := WithoutNode(nodes[1..], id);
      forall k | 0 <= k < |rest|
        ensures rest[k].id != nodes[0].id && rest[k].name != nodes[0].name
      {
        assert rest[k] in nodes[1..];
      }
    }
  }

  /** A node that survives a deletion keeps sound wires: those to the deleted node are gone. */
  lemma SurvivorSound(allowed: Matrix, b: Board, id: string, i: nat)
    requires Integrity(allowed, b) && i < |WithoutNode(b.nodes, id)|
    ensures
      var after := Unwired(WithoutNode(b.nodes, id), id);
      NodeSound(allowed, after, after[i])
  {
    var rest := WithoutNode(b.nodes, id);
    var after := Unwired(rest, id);
    var before := rest[i];
    assert before in rest;
    WithoutWiresNoRepeats(before.wires, id, None);
    forall w | w in after[i].wires
      ensures WireSound(allowed, after, after[i], w)
    {
      assert WireSound(allowed, b.nodes, before, w);
      var m :| m in b.nodes && m.id == w.to && m.id != before.id && allowed(before.kind, m.kind, w.kind);
      assert m in rest;
      var k :| 0 <= k < |rest| && rest[k] == m;
      assert after[k] in after;
    }
  }

  lemma DeleteNodeIntegrity(allowed: Matrix, b: Board, id: string)
    requires Integrity(allowed, b)
    ensures Integrity(allowed, b.(nodes := Unwired(WithoutNode(b.nodes, id), id)))
  {
    var after := Unwired(WithoutNode(b.nodes, id), id);
    WithoutNodeDistinct(b.nodes, id);
    forall n | n in after
      ensures NodeSound(allowed, after, n)
    {
      var i :| 0 <= i < |after| && after[i] == n;
      SurvivorSound(allowed, b, id, i);
    }
  }

  lemma PostWireIntegrity(allowed: Matrix, b: Board, r: Request)
    requires Integrity(allowed, b) && r.PostWire? && Answer(allowed, b, r).Done?
    ensures Integrity(allowed, Effect(b, r))
  {
    var i, j := Find(b.nodes, r.from).value, Find(b.nodes, r.to).value;
    var n := b.nodes[i];
    var n' := n.(wires := n.wires + [Wire(r.to, r.wire)]);
    forall w | w in n'.wires
      ensures WireSound(allowed, b.nodes, n', w)
    {
      if w in n.wires {
        assert WireSound(allowed, b.nodes, n, w);
        var m :| m in b.nodes && m.id == w.to && m.id != n.id && allowed(n.kind, m.kind, w.kind);
      } else {
        assert b.nodes[j] in b.nodes;
      }
    }
    SwapIntegrity(allowed, b, i, n');
  }

  lemma DeleteWireIntegrity(allowed: Matrix, b: Board, r: Request)
    requires Integrity(allowed, b) && r.DeleteWire? && Answer(allowed, b, r).Done?
    ensures Integrity(allowed, Effect(b, r))
  {
    var i := Find(b.nodes, r.from).value;
    var n := b.nodes[i];
    var n' := n.(wires := WithoutWires(n.wires, r.to, Some(r.wire)));
    WithoutWiresNoRepeats(n.wires, r.to, Some(r.wire));
    forall w | w in n'.wires
      ensures WireSound(allowed, b.nodes, n', w)
    {
      assert WireSound(allowed, b.nodes, n, w);
      var m :| m in b.nodes && m.id == w.to && m.id != n.id && allowed(n.kind, m.kind, w.kind);
    }
    SwapIntegrity(allowed, b, i, n');
  }

  predicate Relabels(r: Request) {
    r.PatchNode? || r.PutVaultKey? || r.SaveToVault? || r.SetBusy?
  }

  /** Requests that touch a node's name, keys or state but not its wires. */
  lemma RelabelShape(allowed: Matrix, b: Board, r: Request)
    requires Relabels(r) && Answer(allowed, b, r).Done?
    ensures
      var i, c := Find(b.nodes, r.id).value, Effect(b, r);
      && c.nodes == b.nodes[i := c.nodes[i]]
      && c.nodes[i].id == r.id && c.nodes[i].kind == b.nodes[i].kind && c.nodes[i].wires == b.nodes[i].wires
      && (c.nodes[i].name == b.nodes[i].name || !NameTaken(b.nodes, c.nodes[i].name, Some(r.id)))
  {
  }

  lemma RelabelIntegrity(allowed: Matrix, b: Board, r: Request)
    requires Integrity(allowed, b) && Relabels(r) && Answer(allowed, b, r).Done?
    ensures Integrity(allowed, Effect(b, r))
  {
    var i, c := Find(b.nodes, r.id).value, Effect(b, r);
    RelabelShape(allowed, b, r);
    assert NodeSound(allowed, b.nodes, b.nodes[i]);
    assert NodeSound(allowed, b.nodes, c.nodes[i]) by {
      assert Kept(b.nodes, b.nodes);
      SoundAfter(allowed, b.nodes, b.nodes, b.nodes[i], c.nodes[i]);
    }
    SwapIntegrity(allowed, b, i, c.nodes[i]);
  }

  lemma StepIntegrity(allowed: Matrix, b: Board, r: Request)
    requires Integrity(allowed, b) && Enabled(b, r)
    ensures Integrity(allowed, Apply(allowed, b, r))
  {
    if Answer(allowed, b, r).Done? {
      match r
      case PostNode(kind, name, config, newId) =>
        PostNodeIntegrity(allowed, b, Node(newId, name, kind, false, config.value, []));
      case DeleteNode(id) => DeleteNodeIntegrity(allowed, b, id);
      case PostWire(_, _, _) => PostWireIntegrity(allowed, b, r);
      case DeleteWire(_, _, _) => DeleteWireIntegrity(allowed, b, r);
      case _ => RelabelIntegrity(allowed, b, r);
    }
  }

  lemma {:induction false} RunIntegrity(allowed: Matrix, b: Board, rs: seq<Request>)
    requires Integrity(allowed, b) && Legal(allowed, b, rs)
    ensures Integrity(allowed, Run(allowed, b, rs))
    decreases |rs|
  {
    if rs != [] {
      StepIntegrity(allowed, b, rs[0]);
      RunIntegrity(allowed, Apply(allowed, b, rs[0]), rs[1..]);
    }
  }

  /** From an empty project, every sequence of requests keeps the board sound. */
  lemma EveryBoardSound(allowed: Matrix, rs: seq<Request>)
    requires Legal(allowed, EMPTY_BOARD, rs)
    ensures Integrity(allowed, Run(allowed, EMPTY_BOARD, rs))
  {
    RunIntegrity(allowed, EMPTY_BOARD, rs);
  }

  // ---- One vault per account -------------------------------------------------------------------

  /** The keys behind an id, if it is a vault on the board. */
  function VaultKeys(b: Board, id: string): Option<set<string>> {
    match Find(b.nodes, id)
    case None => None
    case Some(i) => if b.nodes[i].kind.Vault? then Some(KeySet(KeysOf(b, b.nodes[i]))) else None
  }

  predicate Apart(a: Option<set<string>>, c: Option<set<string>>) {
    a.Some? && c.Some? ==> a.value !! c.value
  }

  /** The wire lists of the agents on the board. */
  ghost function AgentWires(b: Board): set<seq<Wire>> {
    set n | n in b.nodes && n.kind.Agent? :: n.wires
  }

  /** Two different wires over which one agent reads. */
  ghost predicate ReadsBoth(b: Board, wires: seq<Wire>, v: Wire, w: Wire) {
    wires in AgentWires(b) && v in wires && w in wires && v != w && v.kind.Read? && w.kind.Read?
  }

  /** No agent reads two vaults that share a key. */
  ghost predicate NoClash(b: Board) {
    forall ws, v, w :: ReadsBoth(b, ws, v, w) ==> Apart(VaultKeys(b, v.to), VaultKeys(b, w.to))
  }

  /** The keys a request brings into the vault it names. */
  function KeysAdded(r: Request): set<string> {
    match r
    case PutVaultKey(_, key, _) => {key}
    case SaveToVault(_, key) => {key}
    case PatchNode(_, _, setKeys) => if setKeys.Some? then KeySet(setKeys.value) else {}
    case _ => {}
  }

  /** Whoever reads vault `id` reads no other vault that holds one of these keys. */
  ghost predicate FreeAt(b: Board, id: string, added: set<string>) {
    forall ws, v, w :: ReadsBoth(b, ws, v, w) && v.to == id ==> Apart(Some(added), VaultKeys(b, w.to))
  }

  /** What can be checked before a request. Keys brought into a vault: nobody who reads it reads another
      one that already holds such a key. A new read wire of an agent: it shares no key of empty name
      with a vault the agent reads. */
  ghost predicate KeysFree(b: Board, r: Request) {
    && ((r.PutVaultKey? || r.SaveToVault? || r.PatchNode?) && VaultKeys(b, r.id).Some? ==>
          FreeAt(b, r.id, KeysAdded(r)))
    && (r.PostWire? && r.wire.Read? ==> NamedKeysOnly(b, r.from, r.to))
  }

  /** No vault the agent reads and the vault `to` both hold a key of empty name first among those they
      share. */
  ghost predicate NamedKeysOnly(b: Board, from: string, to: string) {
    match (Find(b.nodes, from), Find(b.nodes, to))
    case (Some(i), Some(j)) =>
      b.nodes[i].kind.Agent? && b.nodes[j].kind.Vault? ==>
        forall w :: w in b.nodes[i].wires ==> ClashOn(b, w, b.nodes[j]) != Some("")
    case _ => true
  }

  lemma {:induction false} FindSameIds(a: seq<Node>, c: seq<Node>, id: string)
    requires |a| == |c| && forall i :: 0 <= i < |a| ==> a[i].id == c[i].id
    ensures Find(a, id) == Find(c, id)
  {
    if a != [] && a[0].id != id {
      FindSameIds(a[1..], c[1..], id);
    }
  }

  lemma SameAgentWires(b: Board, c: Board)
    requires |b.nodes| == |c.nodes|
    requires forall k :: 0 <= k < |b.nodes| ==>
                           c.nodes[k].kind == b.nodes[k].kind && c.nodes[k].wires == b.nodes[k].wires
    ensures AgentWires(b) == AgentWires(c)
  {
  }

  /** After the keys of one vault changed, one pair of read wires. */
  lemma TouchedApart(b: Board, c: Board, id: string, added: set<string>, ws: seq<Wire>, v: Wire, w: Wire)
    requires NoClash(b) && FreeAt(b, id, added) && ReadsBoth(b, ws, v, w)
    requires forall x :: x != id ==> VaultKeys(c, x) == VaultKeys(b, x)
    requires VaultKeys(b, id).Some? && VaultKeys(c, id).Some?
    requires VaultKeys(c, id).value <= VaultKeys(b, id).value + added
    ensures Apart(VaultKeys(c, v.to), VaultKeys(c, w.to))
  {
    assert Apart(VaultKeys(b, v.to), VaultKeys(b, w.to));
    if v.to == id {
      assert w.to != id;
      assert Apart(Some(added), VaultKeys(b, w.to));
    } else if w.to == id {
      assert ReadsBoth(b, ws, w, v);
      assert Apart(Some(added), VaultKeys(b, v.to));
    }
  }

  /** Changing the keys of one vault: nobody clashes afterwards exactly when the new keys were free. */
  lemma TouchIff(b: Board, c: Board, id: string, added: set<string>)
    requires NoClash(b) && AgentWires(b) == AgentWires(c)
    requires forall x :: x != id ==> VaultKeys(c, x) == VaultKeys(b, x)
    requires VaultKeys(b, id).Some? && VaultKeys(c, id).Some?
    requires added <= VaultKeys(c, id).value <= VaultKeys(b, id).value + added
    ensures NoClash(c) <==> FreeAt(b, id, added)
  {
    if FreeAt(b, id, added) {
      forall ws, v, w | ReadsBoth(c, ws, v, w)
        ensures Apart(VaultKeys(c, v.to), VaultKeys(c, w.to))
      {
        TouchedApart(b, c, id, added, ws, v, w);
      }
    } else {
      var ws, v, w :| ReadsBoth(b, ws, v, w) && v.to == id && !Apart(Some(added), VaultKeys(b, w.to));
      assert ReadsBoth(c, ws, v, w) && w.to != id;
      assert !Apart(VaultKeys(c, v.to), VaultKeys(c, w.to));
    }
  }

  /** Nothing about keys or agents changes. */
  lemma UntouchedKeepsNoClash(b: Board, c: Board)
    requires NoClash(b) && AgentWires(c) <= AgentWires(b)
    requires forall x :: VaultKeys(c, x) == VaultKeys(b, x)
    ensures NoClash(c)
  {
    forall ws, v, w | ReadsBoth(c, ws, v, w)
      ensures Apart(VaultKeys(c, v.to), VaultKeys(c, w.to))
    {
      assert ReadsBoth(b, ws, v, w);
    }
  }

  lemma RelabelFind(allowed: Matrix, b: Board, r: Request)
    requires Relabels(r) && Answer(allowed, b, r).Done?
    ensures AgentWires(Effect(b, r)) == AgentWires(b)
    ensures forall x :: Find(Effect(b, r).nodes, x) == Find(b.nodes, x)
  {
    var c := Effect(b, r);
    RelabelShape(allowed, b, r);
    SameAgentWires(b, c);
    forall x
      ensures Find(c.nodes, x) == Find(b.nodes, x)
    {
      FindSameIds(b.nodes, c.nodes, x);
    }
  }

  lemma RelabelVaultKeys(allowed: Matrix, b: Board, r: Request, x: string)
    requires Relabels(r) && Answer(allowed, b, r).Done?
    requires Find(Effect(b, r).nodes, x) == Find(b.nodes, x)
    ensures x != r.id ==> VaultKeys(Effect(b, r), x) == VaultKeys(b, x)
    ensures VaultKeys(Effect(b, r), x).Some? <==> VaultKeys(b, x).Some?
  {
    RelabelShape(allowed, b, r);
    var c := Effect(b, r);
    if Find(b.nodes, x).Some? && x != r.id {
      var j := Find(b.nodes, x).value;
      assert c.nodes[j] == b.nodes[j];
      assert Written(c, x) == Written(b, x);
    }
  }

  /** The vault named by a request ends up with the keys it brings and at most the keys it had. */
  lemma RelabelledKeys(allowed: Matrix, b: Board, r: Request)
    requires Relabels(r) && Answer(allowed, b, r).Done? && VaultKeys(b, r.id).Some?
    requires Find(Effect(b, r).nodes, r.id) == Find(b.nodes, r.id)
    ensures VaultKeys(Effect(b, r), r.id).Some?
    ensures KeysAdded(r) <= VaultKeys(Effect(b, r), r.id).value <= VaultKeys(b, r.id).value + KeysAdded(r)
  {
  }

  /** Requests on one node that keep its wires. */
  lemma RelabelNoClashIff(allowed: Matrix, b: Board, r: Request)
    requires NoClash(b) && Relabels(r) && Answer(allowed, b, r).Done?
    ensures NoClash(Effect(b, r)) <==> KeysFree(b, r)
  {
    RelabelFind(allowed, b, r);
    forall x
      ensures x != r.id ==> VaultKeys(Effect(b, r), x) == VaultKeys(b, x)
      ensures VaultKeys(Effect(b, r), x).Some? <==> VaultKeys(b, x).Some?
    {
      RelabelVaultKeys(allowed, b, r, x);
    }
    if VaultKeys(b, r.id).Some? {
      RelabelledKeys(allowed, b, r);
      TouchIff(b, Effect(b, r), r.id, KeysAdded(r));
    } else {
      UntouchedKeepsNoClash(b, Effect(b, r));
    }
  }

  /** A new node leaves the keys behind every other id as they were. */
  lemma PostedVaultKeys(b: Board, r: Request, x: string)
    requires r.PostNode? && r.config.Some? && x != r.newId
    ensures VaultKeys(Effect(b, r), x) == VaultKeys(b, x)
  {
    FindAppended(b.nodes, Effect(b, r).nodes[|b.nodes|], x);
  }

  /** The wires of a node on a sound board end at nodes on it. */
  lemma WireEndsOnBoard(allowed: Matrix, b: Board, n: Node, w: Wire)
    requires Integrity(allowed, b) && n in b.nodes && w in n.wires
    ensures exists m :: m in b.nodes && m.id == w.to
  {
  }

  lemma PostNodeNoClash(allowed: Matrix, b: Board, r: Request)
    requires Integrity(allowed, b) && NoClash(b) && Enabled(b, r) && r.PostNode?
    requires Answer(allowed, b, r).Done?
    ensures NoClash(Effect(b, r))
  {
    var c := Effect(b, r);
    forall ws, v, w | ReadsBoth(c, ws, v, w)
      ensures Apart(VaultKeys(c, v.to), VaultKeys(c, w.to))
    {
      var n :| n in c.nodes && n.kind.Agent? && n.wires == ws;
      assert n in b.nodes;
      WireEndsOnBoard(allowed, b, n, v);
      WireEndsOnBoard(allowed, b, n, w);
      PostedVaultKeys(b, r, v.to);
      PostedVaultKeys(b, r, w.to);
      assert ReadsBoth(b, ws, v, w);
    }
  }

  lemma {:induction false} FindAppended(nodes: seq<Node>, n: Node, id: string)
    requires n.id != id
    ensures Find(nodes + [n], id) == Find(nodes, id)
  {
    if nodes != [] {
      assert (nodes + [n])[1..] == nodes[1..] + [n];
      if nodes[0].id != id {
        FindAppended(nodes[1..], n, id);
      }
    }
  }

  lemma FindMember(nodes: seq<Node>, i: nat)
    requires Distinct(nodes) && i < |nodes|
    ensures Find(nodes, nodes[i].id) == Some(i)
  {
  }

  lemma DeleteNodeNoClash(allowed: Matrix, b: Board, r: Request)
    requires Integrity(allowed, b) && NoClash(b) && r.DeleteNode?
    requires Answer(allowed, b, r).Done?
    ensures NoClash(Effect(b, r))
  {
    var c := Effect(b, r);
    var rest := WithoutNode(b.nodes, r.id);
    WithoutNodeDistinct(b.nodes, r.id);
    forall ws, v, w | ReadsBoth(c, ws, v, w)
      ensures Apart(VaultKeys(c, v.to), VaultKeys(c, w.to))
    {
      var k :| 0 <= k < |rest| && c.nodes[k].kind.Agent? && c.nodes[k].wires == ws;
      assert rest[k] in b.nodes;
      assert ReadsBoth(b, rest[k].wires, v, w);
      DeletedVaultKeys(b, c, r.id, v.to);
      DeletedVaultKeys(b, c, r.id, w.to);
    }
  }

  /** A vault still on the board after a deletion is the one that was there before. */
  lemma DeletedVaultKeys(b: Board, c: Board, id: string, x: string)
    requires Distinct(b.nodes) && c == b.(nodes := Unwired(WithoutNode(b.nodes, id), id))
    ensures VaultKeys(c, x).Some? ==> VaultKeys(c, x) == VaultKeys(b, x)
  {
    if VaultKeys(c, x).Some? {
      var rest := WithoutNode(b.nodes, id);
      var k := Find(c.nodes, x).value;
      assert rest[k] in b.nodes;
      var i :| 0 <= i < |b.nodes| && b.nodes[i] == rest[k];
      FindMember(b.nodes, i);
    }
  }

  /** On an accepted read wire of an agent, a vault it already reads shares a key with the new one
      exactly when the first they share has the empty name. */
  lemma AcceptedWireApartIff(allowed: Matrix, b: Board, r: Request, w: Wire)
    requires r.PostWire? && Answer(allowed, b, r).Done?
    requires
      var n := b.nodes[Find(b.nodes, r.from).value];
      n.kind.Agent? && w in n.wires && w.kind.Read? && r.wire.Read?
    ensures
      var to := b.nodes[Find(b.nodes, r.to).value];
      Apart(VaultKeys(b, w.to), VaultKeys(b, r.to)) <==> !to.kind.Vault? || ClashOn(b, w, to) != Some("")
  {
    var to := b.nodes[Find(b.nodes, r.to).value];
    if to.kind.Vault? {
      assert ClashOn(b, w, to).Some? ==> ClashOn(b, w, to).value == "";
    }
  }

  lemma PostWireNoClashIff(allowed: Matrix, b: Board, r: Request)
    requires Integrity(allowed, b) && NoClash(b) && r.PostWire?
    requires Answer(allowed, b, r).Done?
    ensures NoClash(Effect(b, r)) <==> KeysFree(b, r)
  {
    var c, i := Effect(b, r), Find(b.nodes, r.from).value;
    var before, added := b.nodes[i].wires, Wire(r.to, r.wire);
    SwapVaultKeys(b, i, c.nodes[i]);
    SwapAgentWires(b, i, before + [added]);
    if KeysFree(b, r) {
      forall ws, v, w | ReadsBoth(c, ws, v, w)
        ensures Apart(VaultKeys(c, v.to), VaultKeys(c, w.to))
      {
        if ws in AgentWires(b) {
          assert ReadsBoth(b, ws, v, w);
        } else if v in before && w in before {
          assert ReadsBoth(b, before, v, w);
        } else {
          AcceptedWireApartIff(allowed, b, r, if v in before then v else w);
        }
      }
    } else {
      var to := b.nodes[Find(b.nodes, r.to).value];
      var w :| w in before && ClashOn(b, w, to) == Some("");
      assert w.kind.Read?;
      AcceptedWireApartIff(allowed, b, r, w);
      assert c.nodes[i] in c.nodes;
      assert ReadsBoth(c, before + [added], w, added);
    }
  }

  /** Giving one node other wires adds at most one wire list, and only if it is an agent. */
  lemma SwapAgentWires(b: Board, i: nat, wires: seq<Wire>)
    requires i < |b.nodes|
    ensures
      var c := WithNode(b, i, b.nodes[i].(wires := wires));
      forall ws :: ws in AgentWires(c) ==>
        ws in AgentWires(b) || (ws == wires && b.nodes[i].kind.Agent? && b.nodes[i].wires in AgentWires(b))
  {
  }

  /** Replacing a node by one with other wires leaves every vault's keys as they were. */
  lemma SwapVaultKeys(b: Board, i: nat, n: Node)
    requires i < |b.nodes| && n == b.nodes[i].(wires := n.wires)
    ensures forall x :: VaultKeys(WithNode(b, i, n), x) == VaultKeys(b, x)
  {
    forall x
      ensures VaultKeys(WithNode(b, i, n), x) == VaultKeys(b, x)
    {
      FindSameIds(b.nodes, b.nodes[i := n], x);
    }
  }

  lemma DeleteWireNoClash(allowed: Matrix, b: Board, r: Request)
    requires Integrity(allowed, b) && NoClash(b) && r.DeleteWire?
    requires Answer(allowed, b, r).Done?
    ensures NoClash(Effect(b, r))
  {
    var c, i := Effect(b, r), Find(b.nodes, r.from).value;
    var before := b.nodes[i].wires;
    SwapVaultKeys(b, i, c.nodes[i]);
    SwapAgentWires(b, i, c.nodes[i].wires);
    forall ws, v, w | ReadsBoth(c, ws, v, w)
      ensures Apart(VaultKeys(c, v.to), VaultKeys(c, w.to))
    {
      assert ReadsBoth(b, if ws in AgentWires(b) then ws else before, v, w);
    }
  }

  /** One accepted request leaves no agent reading two vaults with a common key exactly when the keys
      it brings, or brings together, are free; all others always do. */
  lemma StepNoClashIff(allowed: Matrix, b: Board, r: Request)
    requires Integrity(allowed, b) && NoClash(b) && Enabled(b, r)
    requires Answer(allowed, b, r).Done?
    ensures NoClash(Apply(allowed, b, r)) <==> KeysFree(b, r)
  {
    match r
    case PostNode(_, _, _, _) => PostNodeNoClash(allowed, b, r);
    case DeleteNode(_) => DeleteNodeNoClash(allowed, b, r);
    case PostWire(_, _, _) => PostWireNoClashIff(allowed, b, r);
    case DeleteWire(_, _, _) => DeleteWireNoClash(allowed, b, r);
    case _ => RelabelNoClashIff(allowed, b, r);
  }

  ghost predicate AlwaysNoClash(allowed: Matrix, b: Board, rs: seq<Request>)
    decreases |rs|
  {
    NoClash(b) && (rs == [] || AlwaysNoClash(allowed, Apply(allowed, b, rs[0]), rs[1..]))
  }

  /** For every accepted request of the run the keys are free at that moment. */
  ghost predicate AlwaysKeysFree(allowed: Matrix, b: Board, rs: seq<Request>)
    decreases |rs|
  {
    rs == [] ||
    ((Answer(allowed, b, rs[0]).Done? ==> KeysFree(b, rs[0]))
     && AlwaysKeysFree(allowed, Apply(allowed, b, rs[0]), rs[1..]))
  }

  lemma {:induction false} RunNoClashIff(allowed: Matrix, b: Board, rs: seq<Request>)
    requires Integrity(allowed, b) && NoClash(b) && Legal(allowed, b, rs)
    ensures AlwaysNoClash(allowed, b, rs) <==> AlwaysKeysFree(allowed, b, rs)
    decreases |rs|
  {
    if rs != [] {
      var c := Apply(allowed, b, rs[0]);
      StepIntegrity(allowed, b, rs[0]);
      if Answer(allowed, b, rs[0]).Done? {
        StepNoClashIff(allowed, b, rs[0]);
      }
      if NoClash(c) {
        RunNoClashIff(allowed, c, rs[1..]);
      }
    }
  }

  /** From an empty project: no agent ever reads two vaults sharing a key exactly when every key write
      finds its keys free, which the routes that write keys do not check, and no new read wire joins
      vaults whose first common key has the empty name, which the wire route lets pass. */
  lemma EveryRunNoClashIff(allowed: Matrix, rs: seq<Request>)
    requires Legal(allowed, EMPTY_BOARD, rs)
    ensures AlwaysNoClash(allowed, EMPTY_BOARD, rs) <==> AlwaysKeysFree(allowed, EMPTY_BOARD, rs)
  {
    RunNoClashIff(allowed, EMPTY_BOARD, rs);
  }

  /** One agent with the wires `read`, and two vaults with the given keys. */
  function TwoVaults(ids: Three, read: seq<Wire>, first: seq<string>, second: seq<string>): Board {
    Board([Node(ids.a, ids.a, Agent, false, [], read),
           Node(ids.v, ids.v, Vault, false, first, []),
           Node(ids.w, ids.w, Vault, false, second, [])], map[])
  }

  datatype Three = Three(a: string, v: string, w: string)

  ghost predicate Different(ids: Three) {
    ids.a != ids.v && ids.a != ids.w && ids.v != ids.w
  }

  lemma TwoVaultsFound(ids: Three, read: seq<Wire>, first: seq<string>, second: seq<string>)
    requires Different(ids)
    ensures
      var b := TwoVaults(ids, read, first, second);
      && Distinct(b.nodes)
      && Find(b.nodes, ids.a) == Some(0) && Find(b.nodes, ids.v) == Some(1) && Find(b.nodes, ids.w) == Some(2)
  {
    var b := TwoVaults(ids, read, first, second);
    FindMember(b.nodes, 0);
    FindMember(b.nodes, 1);
    FindMember(b.nodes, 2);
  }

  lemma TwoVaultsKeys(ids: Three, read: seq<Wire>, first: seq<string>, second: seq<string>)
    requires Different(ids)
    ensures
      var b := TwoVaults(ids, read, first, second);
      && KeysOf(b, b.nodes[1]) == first && KeysOf(b, b.nodes[2]) == second
      && AgentWires(b) == {read}
  {
  }

  lemma TwoVaultsSound(allowed: Matrix, ids: Three, read: seq<Wire>, first: seq<string>, second: seq<string>)
    requires allowed(Agent, Vault, Read) && Different(ids) && NoRepeats(read)
    requires forall w :: w in read ==> w == Wire(ids.v, Read) || w == Wire(ids.w, Read)
    ensures Integrity(allowed, TwoVaults(ids, read, first, second))
  {
  }

  /** The two vaults clash for nobody as long as the agent reads only one of them or they share no key. */
  lemma TwoVaultsApart(ids: Three, read: seq<Wire>, first: seq<string>, second: seq<string>)
    requires Different(ids)
    requires forall w :: w in read ==> w == Wire(ids.v, Read) || w == Wire(ids.w, Read)
    requires Wire(ids.w, Read) in read ==> KeySet(first) !! KeySet(second)
    ensures NoClash(TwoVaults(ids, read, first, second))
  {
    var b := TwoVaults(ids, read, first, second);
    TwoVaultsFound(ids, read, first, second);
    TwoVaultsKeys(ids, read, first, second);
    forall ws, v, w | ReadsBoth(b, ws, v, w)
      ensures Apart(VaultKeys(b, v.to), VaultKeys(b, w.to))
    {
      assert ws == read;
      assert {VaultKeys(b, v.to), VaultKeys(b, w.to)} == {Some(KeySet(first)), Some(KeySet(second))};
    }
  }

  /** An agent reads two vaults, and a key of one is written into the other: the write is accepted and
      the credential ambiguous. */
  lemma KeyWriteClashes(allowed: Matrix, b: Board, read: seq<Wire>, v: Wire, w: Wire, key: string, value: string)
    requires Integrity(allowed, b) && NoClash(b) && ReadsBoth(b, read, v, w)
    requires VaultKeys(b, v.to).Some? && VaultKeys(b, w.to).Some? && key in VaultKeys(b, w.to).value && value != ""
    ensures Answer(allowed, b, PutVaultKey(v.to, key, value)).Done?
    ensures !NoClash(Apply(allowed, b, PutVaultKey(v.to, key, value)))
  {
    RelabelNoClashIff(allowed, b, PutVaultKey(v.to, key, value));
    assert key in KeysAdded(PutVaultKey(v.to, key, value));
  }

  lemma TwoVaultsRead(ids: Three, first: seq<string>, second: seq<string>)
    requires Different(ids)
    ensures
      var read := [Wire(ids.v, Read), Wire(ids.w, Read)];
      var b := TwoVaults(ids, read, first, second);
      && ReadsBoth(b, read, read[0], read[1])
      && VaultKeys(b, ids.v) == Some(KeySet(first)) && VaultKeys(b, ids.w) == Some(KeySet(second))
  {
    var read := [Wire(ids.v, Read), Wire(ids.w, Read)];
    TwoVaultsFound(ids, read, first, second);
    TwoVaultsKeys(ids, read, first, second);
  }

  lemma KeyWriteCanClash(allowed: Matrix, ids: Three, key: string, value: string)
    requires allowed(Agent, Vault, Read) && Different(ids) && value != ""
    ensures
      var b := TwoVaults(ids, [Wire(ids.v, Read), Wire(ids.w, Read)], [], [key]);
      && Integrity(allowed, b) && NoClash(b)
      && Answer(allowed, b, PutVaultKey(ids.v, key, value)).Done?
      && !NoClash(Apply(allowed, b, PutVaultKey(ids.v, key, value)))
  {
    var v, w := Wire(ids.v, Read), Wire(ids.w, Read);
    var b := TwoVaults(ids, [v, w], [], [key]);
    TwoVaultsSound(allowed, ids, [v, w], [], [key]);
    TwoVaultsApart(ids, [v, w], [], [key]);
    TwoVaultsRead(ids, [], [key]);
    KeyWriteClashes(allowed, b, [v, w], v, w, key, value);
  }

  /** A new wire whose vault shares a key of empty name, and no other, with one the agent reads. */
  lemma EmptyNameUnseen(allowed: Matrix, b: Board, r: Request, v: Wire)
    requires Integrity(allowed, b) && NoClash(b) && r.PostWire? && r.wire.Read? && r.from != r.to
    requires Find(b.nodes, r.from).Some? && Find(b.nodes, r.to).Some?
    requires
      var from, to := b.nodes[Find(b.nodes, r.from).value], b.nodes[Find(b.nodes, r.to).value];
      && from.kind.Agent? && to.kind.Vault? && allowed(Agent, Vault, Read)
      && from.wires == [v] && v != Wire(r.to, Read) && ClashOn(b, v, to) == Some("")
    ensures Answer(allowed, b, r).Done? && !NoClash(Apply(allowed, b, r))
  {
    PostWireNoClashIff(allowed, b, r);
    assert v in b.nodes[Find(b.nodes, r.from).value].wires;
  }

  /** A shared key of empty name slips through the check: the wire is accepted, and the agent reads the
      key from both vaults. */
  lemma EmptyNameSlipsThrough(allowed: Matrix, ids: Three)
    requires allowed(Agent, Vault, Read) && Different(ids)
    ensures
      var b, r := TwoVaults(ids, [Wire(ids.v, Read)], [""], [""]), PostWire(ids.a, ids.w, Read);
      && Integrity(allowed, b) && NoClash(b)
      && Answer(allowed, b, r).Done? && !NoClash(Apply(allowed, b, r))
  {
    var v := Wire(ids.v, Read);
    var b := TwoVaults(ids, [v], [""], [""]);
    TwoVaultsSound(allowed, ids, [v], [""], [""]);
    TwoVaultsApart(ids, [v], [""], [""]);
    assert Find(b.nodes, ids.a) == Some(0) && Find(b.nodes, ids.w) == Some(2)
           && ClashOn(b, v, b.nodes[2]) == Some("") by {
      TwoVaultsFound(ids, [v], [""], [""]);
      TwoVaultsKeys(ids, [v], [""], [""]);
    }
    EmptyNameUnseen(allowed, b, PostWire(ids.a, ids.w, Read), v);
  }
}
