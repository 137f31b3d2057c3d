/** What the node, wire and vault-key routes of the mock engine accept, refuse and do, said of the board
    before and after: by what the invariants of `MockBoard` demand, and by looking nodes up. */
module MockRoutes {
  import opened NodeTypes
  import opened Options
  import opened MockBoard

  // ---- Looking up ------------------------------------------------------------------------------

  predicate OnBoard(b: Board, id: string) {
    exists n :: n in b.nodes && n.id == id
  }

  function At(nodes: seq<Node>, id: string): Option<Node> {
    match Find(nodes, id)
    case None => None
    case Some(i) => Some(nodes[i])
  }

  /** Looking up finds the node with that id, there being only one. */
  lemma AtIff(nodes: seq<Node>, id: string, n: Node)
    requires Distinct(nodes)
    ensures At(nodes, id) == Some(n) <==> n in nodes && n.id == id
  {
    if n in nodes && n.id == id {
      var i :| 0 <= i < |nodes| && nodes[i] == n;
      FindMember(nodes, i);
    }
  }

  // ---- What is refused -------------------------------------------------------------------------

  /** The rename asks for another name, and not for the empty one, which counts as none. */
  predicate Renames(n: Node, rename: Option<string>) {
    rename.Some? && rename.value != "" && rename.value != n.name
  }

  ghost predicate IsVault(b: Board, id: string) {
    exists n :: n in b.nodes && n.id == id && n.kind.Vault?
  }

  /** What the two ends of a wire to be added have to be, for it to be looked at any further. */
  ghost predicate Joinable(allowed: Matrix, b: Board, r: Request)
    requires r.PostWire?
  {
    r.from != r.to &&
    exists n, m :: n in b.nodes && m in b.nodes && n.id == r.from && m.id == r.to && allowed(n.kind, m.kind, r.wire)
  }

  ghost predicate Wired(b: Board, from: string, w: Wire) {
    exists n :: n in b.nodes && n.id == from && w in n.wires
  }

  /** How the node routes reply, case by case. */
  lemma NodeReplies(allowed: Matrix, b: Board, r: Request)
    requires Distinct(b.nodes)
    ensures
      var reply := Answer(allowed, b, r);
      match r
      case PostNode(_, name, config, _) =>
        && (reply == Refused(409) <==> exists n :: n in b.nodes && n.name == name)
        && (reply == Refused(422) <==> config.None? && forall n :: n in b.nodes ==> n.name != name)
        && (reply == Done || reply == Refused(409) || reply == Refused(422))
      case PatchNode(id, rename, _) =>
        && (reply == Refused(404) <==> !OnBoard(b, id))
        && (reply == Refused(409) <==>
              exists n :: n in b.nodes && n.id == id && Renames(n, rename) &&
                ((n.kind.Agent? && n.busy) || exists m :: m in b.nodes && m.name == rename.value))
        && (reply == Done || reply == Refused(404) || reply == Refused(409))
      case DeleteNode(id) => reply == if OnBoard(b, id) then Done else Refused(404)
      case SetBusy(id, _) => reply == if OnBoard(b, id) then Done else Refused(404)
      case _ => true
  {
  }

  /** How the wire routes reply; a wire that is neither missing an end nor there already is refused with
      status 400 when its ends must not be joined or a credential would be ambiguous. */
  lemma WireReplies(allowed: Matrix, b: Board, r: Request)
    requires Distinct(b.nodes)
    ensures
      var reply := Answer(allowed, b, r);
      match r
      case PostWire(from, to, wire) =>
        && (reply == Refused(404) <==> !OnBoard(b, from) || !OnBoard(b, to))
        && (reply == Refused(409) <==> Joinable(allowed, b, r) && Wired(b, from, Wire(to, wire)))
        && (reply == Done || reply == Refused(404) || reply == Refused(409) || reply == Refused(400))
        && (reply == Done ==> Joinable(allowed, b, r))
      case DeleteWire(from, to, _) => reply == if OnBoard(b, from) && OnBoard(b, to) then Done else Refused(404)
      case _ => true
  {
  }

  /** How the two ways of writing a key reply. */
  lemma KeyReplies(allowed: Matrix, b: Board, r: Request)
    requires Distinct(b.nodes)
    ensures
      var reply := Answer(allowed, b, r);
      match r
      case PutVaultKey(id, _, value) =>
        reply == if !IsVault(b, id) then Refused(404) else if value == "" then Refused(400) else Done
      case SaveToVault(id, _) => reply == if IsVault(b, id) then Done else Refused(400)
      case _ => true
  {
  }

  // ---- What is accepted ------------------------------------------------------------------------

  lemma TakenBreaks(allowed: Matrix, b: Board, c: Board, i: nat, j: nat)
    requires i < j < |c.nodes| && (c.nodes[i].name == c.nodes[j].name || c.nodes[i].id == c.nodes[j].id)
    ensures !Integrity(allowed, c)
  {
  }

  /** A node is accepted exactly when it comes with a config and the board with it is sound. */
  lemma PostNodeAcceptedIff(allowed: Matrix, b: Board, r: Request)
    requires Integrity(allowed, b) && Enabled(b, r) && r.PostNode? && r.config.Some?
    ensures Answer(allowed, b, r).Done? <==> Integrity(allowed, Effect(b, r))
  {
    StepIntegrity(allowed, b, r);
    if NameTaken(b.nodes, r.name, None) {
      var i :| 0 <= i < |b.nodes| && b.nodes[i].name == r.name;
      TakenBreaks(allowed, b, Effect(b, r), i, |b.nodes|);
    }
  }

  /** A patch is accepted exactly when it does not rename a busy agent and the board after it is sound. */
  lemma PatchNodeAcceptedIff(allowed: Matrix, b: Board, r: Request, n: Node)
    requires Integrity(allowed, b) && r.PatchNode? && n in b.nodes && n.id == r.id
    ensures
      Answer(allowed, b, r).Done?
      <==> !(Renames(n, r.rename) && n.kind.Agent? && n.busy) && Integrity(allowed, Effect(b, r))
  {
    StepIntegrity(allowed, b, r);
    AtIff(b.nodes, r.id, n);
    if Renames(n, r.rename) && NameTaken(b.nodes, r.rename.value, Some(r.id)) {
      var i := Find(b.nodes, r.id).value;
      var j :| 0 <= j < |b.nodes| && b.nodes[j].name == r.rename.value && b.nodes[j].id != r.id;
      TakenBreaks(allowed, b, Effect(b, r), if i < j then i else j, if i < j then j else i);
    }
  }

  /** The new wire is the last of its node. */
  lemma NewWireLast(b: Board, r: Request)
    requires r.PostWire? && Find(b.nodes, r.from).Some?
    ensures
      var n, c := b.nodes[Find(b.nodes, r.from).value], Effect(b, r);
      var n' := n.(wires := n.wires + [Wire(r.to, r.wire)]);
      n' in c.nodes && n'.wires[|n.wires|] == Wire(r.to, r.wire)
  {
    var i := Find(b.nodes, r.from).value;
    assert Effect(b, r).nodes[i] in Effect(b, r).nodes;
  }

  lemma LastIsNew(wires: seq<Wire>, w: Wire)
    requires NoRepeats(wires + [w])
    ensures w !in wires
  {
    forall k | 0 <= k < |wires|
      ensures wires[k] != w
    {
      assert (wires + [w])[k] != (wires + [w])[|wires|];
    }
  }

  /** If the board with the wire is sound, then the wire ends at another node, is allowed and is new. */
  lemma SoundWireIsNew(allowed: Matrix, b: Board, r: Request)
    requires Integrity(allowed, b) && r.PostWire? && Find(b.nodes, r.from).Some?
    requires Integrity(allowed, Effect(b, r))
    ensures r.from != r.to && Find(b.nodes, r.to).Some?
    ensures
      var n, m := b.nodes[Find(b.nodes, r.from).value], b.nodes[Find(b.nodes, r.to).value];
      allowed(n.kind, m.kind, r.wire) && Wire(r.to, r.wire) !in n.wires
  {
    var i, c, w := Find(b.nodes, r.from).value, Effect(b, r), Wire(r.to, r.wire);
    var n' := b.nodes[i].(wires := b.nodes[i].wires + [w]);
    NewWireLast(b, r);
    assert NodeSound(allowed, c.nodes, n') && w in n'.wires;
    LastIsNew(b.nodes[i].wires, w);
    assert WireSound(allowed, c.nodes, n', w);
    var m :| m in c.nodes && m.id == w.to && m.id != n'.id && allowed(n'.kind, m.kind, w.kind);
    assert m in b.nodes;
    AtIff(b.nodes, r.to, m);
  }

  /** A wire the credential check refuses makes the credential ambiguous. */
  lemma AmbiguousClashes(b: Board, r: Request)
    requires r.PostWire? && Find(b.nodes, r.from).Some? && Find(b.nodes, r.to).Some?
    requires
      var n, m := b.nodes[Find(b.nodes, r.from).value], b.nodes[Find(b.nodes, r.to).value];
      Wire(r.to, r.wire) !in n.wires && Ambiguous(b, n, m, r.wire)
    ensures !NoClash(Effect(b, r))
  {
    var i, c := Find(b.nodes, r.from).value, Effect(b, r);
    var n, m := b.nodes[i], b.nodes[Find(b.nodes, r.to).value];
    var w :| w in n.wires && ClashOn(b, w, m).Some? && ClashOn(b, w, m).value != "";
    NewWireLast(b, r);
    SwapVaultKeys(b, i, c.nodes[i]);
    var after := n.wires + [Wire(r.to, r.wire)];
    assert ReadsBoth(c, after, w, Wire(r.to, r.wire));
    assert !Apart(VaultKeys(c, w.to), VaultKeys(c, r.to));
  }

  /** From a sound board, a wire is accepted exactly when the board with it is sound and no agent reads
      two vaults sharing a key, unless that key has the empty name. */
  lemma PostWireAcceptedIff(allowed: Matrix, b: Board, r: Request)
    requires Integrity(allowed, b) && NoClash(b) && r.PostWire? && OnBoard(b, r.from) && KeysFree(b, r)
    ensures Answer(allowed, b, r).Done? <==> Integrity(allowed, Effect(b, r)) && NoClash(Effect(b, r))
  {
    if Answer(allowed, b, r).Done? {
      StepIntegrity(allowed, b, r);
      PostWireNoClashIff(allowed, b, r);
    } else if Answer(allowed, b, r) == Refused(400) && Joinable(allowed, b, r) {
      var n, m :| n in b.nodes && m in b.nodes && n.id == r.from && m.id == r.to && allowed(n.kind, m.kind, r.wire);
      AtIff(b.nodes, r.from, n);
      AtIff(b.nodes, r.to, m);
      AmbiguousClashes(b, r);
    } else if Integrity(allowed, Effect(b, r)) {
      SoundWireIsNew(allowed, b, r);
      assert false;
    }
  }

  // ---- What is done ----------------------------------------------------------------------------

  /** All other nodes, and what was written into them, are as they were. */
  ghost predicate OthersSame(b: Board, c: Board, id: string) {
    forall x :: x != id ==> At(c.nodes, x) == At(b.nodes, x) && Written(c, x) == Written(b, x)
  }

  /** One node has become another one and nothing was written. */
  ghost predicate Became(b: Board, c: Board, id: string, n: Node) {
    At(c.nodes, id) == Some(n) && c.vaults == b.vaults && OthersSame(b, c, id)
  }

  /** The keys of a vault have `key` among them, the last if it is new. */
  predicate Gained(before: seq<string>, after: seq<string>, key: string) {
    if key in before then after == before else after == before + [key]
  }

  /** The wires of `before` less the dropped ones. */
  ghost predicate Dropped(before: Node, after: Node, dropped: set<Wire>) {
    after == before.(wires := after.wires) && forall w :: w in after.wires <==> w in before.wires && w !in dropped
  }

  /** Every wire that ends at `to`. */
  ghost function WiresTo(to: string): set<Wire> {
    {Wire(to, Read), Wire(to, Write), Wire(to, Send)}
  }

  lemma SwapBecame(b: Board, i: nat, n: Node)
    requires i < |b.nodes| && Find(b.nodes, n.id) == Some(i)
    ensures Became(b, WithNode(b, i, n), n.id, n)
  {
    var c := WithNode(b, i, n);
    forall x
      ensures Find(c.nodes, x) == Find(b.nodes, x)
    {
      FindSameIds(b.nodes, c.nodes, x);
    }
  }

  /** A posted node is found under its new id, with the config it came with, no wires and nothing written. */
  lemma PostNodeDoes(b: Board, r: Request)
    requires Enabled(b, r) && r.PostNode? && r.config.Some?
    ensures Became(b, Effect(b, r), r.newId, Node(r.newId, r.name, r.kind, false, r.config.value, []))
  {
    var n := Node(r.newId, r.name, r.kind, false, r.config.value, []);
    forall x | x != r.newId
      ensures At(b.nodes + [n], x) == At(b.nodes, x)
    {
      FindAppended(b.nodes, n, x);
    }
    FindLast(b.nodes, n);
  }

  lemma {:induction false} FindLast(nodes: seq<Node>, n: Node)
    requires forall m :: m in nodes ==> m.id != n.id
    ensures Find(nodes + [n], n.id) == Some(|nodes|)
  {
    if nodes != [] {
      assert (nodes + [n])[1..] == nodes[1..] + [n];
      FindLast(nodes[1..], n);
    }
  }

  /** A patch gives the node its new name and keys, where it brings any. */
  lemma PatchNodeDoes(b: Board, r: Request, n: Node)
    requires Distinct(b.nodes) && r.PatchNode? && n in b.nodes && n.id == r.id
    ensures
      var name := if Renames(n, r.rename) then r.rename.value else n.name;
      var keys := if r.setKeys.Some? then r.setKeys.value else n.keys;
      Became(b, Effect(b, r), r.id, n.(name := name, keys := keys))
  {
    AtIff(b.nodes, r.id, n);
    var i := Find(b.nodes, r.id).value;
    SwapBecame(b, i, Effect(b, r).nodes[i]);
  }

  lemma SetBusyDoes(b: Board, r: Request, n: Node)
    requires Distinct(b.nodes) && r.SetBusy? && n in b.nodes && n.id == r.id
    ensures Became(b, Effect(b, r), r.id, n.(busy := r.busy))
  {
    AtIff(b.nodes, r.id, n);
    var i := Find(b.nodes, r.id).value;
    SwapBecame(b, i, Effect(b, r).nodes[i]);
  }

  /** A wire is added after the others. */
  lemma PostWireDoes(b: Board, r: Request, n: Node)
    requires Distinct(b.nodes) && r.PostWire? && n in b.nodes && n.id == r.from
    ensures Became(b, Effect(b, r), r.from, n.(wires := n.wires + [Wire(r.to, r.wire)]))
  {
    AtIff(b.nodes, r.from, n);
    var i := Find(b.nodes, r.from).value;
    SwapBecame(b, i, Effect(b, r).nodes[i]);
  }

  /** Exactly that wire is taken off. */
  lemma DeleteWireDoes(b: Board, r: Request, n: Node)
    requires Distinct(b.nodes) && r.DeleteWire? && n in b.nodes && n.id == r.from
    ensures
      exists n' :: Became(b, Effect(b, r), r.from, n') && Dropped(n, n', {Wire(r.to, r.wire)})
  {
    AtIff(b.nodes, r.from, n);
    var i := Find(b.nodes, r.from).value;
    var n' := Effect(b, r).nodes[i];
    SwapBecame(b, i, n');
    assert Dropped(n, n', {Wire(r.to, r.wire)});
  }

  lemma UnwiredDropped(n: Node, to: string)
    ensures Dropped(n, n.(wires := WithoutWires(n.wires, to, None)), WiresTo(to))
  {
    forall w: Wire
      ensures w in WiresTo(to) <==> w.to == to
    {
      assert w == Wire(w.to, w.kind) && (w.kind == Read || w.kind == Write || w.kind == Send);
    }
  }

  lemma DeletedGone(b: Board, r: Request)
    requires r.DeleteNode?
    ensures !OnBoard(Effect(b, r), r.id)
  {
    var rest := WithoutNode(b.nodes, r.id);
    forall k | 0 <= k < |rest|
      ensures rest[k].id != r.id
    {
      assert rest[k] in rest;
    }
  }

  /** The node is gone, and every other one has lost exactly its wires to it. */
  lemma DeleteNodeDoes(b: Board, r: Request, n: Node)
    requires Distinct(b.nodes) && r.DeleteNode? && n in b.nodes
    ensures
      var c := Effect(b, r);
      && !OnBoard(c, r.id) && c.vaults == b.vaults
      && (n.id != r.id ==> At(c.nodes, n.id).Some? && Dropped(n, At(c.nodes, n.id).value, WiresTo(r.id)))
  {
    DeletedGone(b, r);
    var c, rest := Effect(b, r), WithoutNode(b.nodes, r.id);
    if n.id != r.id {
      var k :| 0 <= k < |rest| && rest[k] == n;
      WithoutNodeDistinct(b.nodes, r.id);
      FindMember(rest, k);
      FindSameIds(rest, c.nodes, n.id);
      UnwiredDropped(n, r.id);
    }
  }

  /** A written key is in the vault, and the vault declares what has been written into it. */
  lemma PutVaultKeyDoes(b: Board, r: Request, n: Node)
    requires Distinct(b.nodes) && r.PutVaultKey? && n in b.nodes && n.id == r.id
    ensures
      var c := Effect(b, r);
      && Gained(Written(b, r.id), Written(c, r.id), r.key)
      && At(c.nodes, r.id) == Some(n.(keys := Written(c, r.id)))
      && OthersSame(b, c, r.id)
  {
    AtIff(b.nodes, r.id, n);
    var i, c := Find(b.nodes, r.id).value, Effect(b, r);
    SwapBecame(b.(vaults := c.vaults), i, c.nodes[i]);
  }

  /** A credential is in the vault; the nodes are as they were, what the vault declares included. */
  lemma SaveToVaultDoes(b: Board, r: Request)
    requires r.SaveToVault? && OnBoard(b, r.id)
    ensures
      var c := Effect(b, r);
      Gained(Written(b, r.id), Written(c, r.id), r.key) && c.nodes == b.nodes && OthersSame(b, c, r.id)
  {
  }

  // ---- The filters keep the order --------------------------------------------------------------

  lemma {:induction false} WithoutWiresConcat(front: seq<Wire>, back: seq<Wire>, to: string, kind: Option<WireType>)
    ensures WithoutWires(front + back, to, kind) == WithoutWires(front, to, kind) + WithoutWires(back, to, kind)
  {
    if front == [] {
      assert front + back == back;
    } else {
      assert (front + back)[1..] == front[1..] + back;
      WithoutWiresConcat(front[1..], back, to, kind);
    }
  }

  lemma {:induction false} WithoutNodeConcat(front: seq<Node>, back: seq<Node>, id: string)
    ensures WithoutNode(front + back, id) == WithoutNode(front, id) + WithoutNode(back, id)
  {
    if front == [] {
      assert front + back == back;
    } else {
      assert (front + back)[1..] == front[1..] + back;
      WithoutNodeConcat(front[1..], back, id);
    }
  }
}
