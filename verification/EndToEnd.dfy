// From the directory to a working circuit: the paths the directory selects are paths the client
// can build, and the circuits built on them deliver.
module EndToEnd {
  import opened Bytes
  import opened Cell
  import opened Crypto
  import opened Directory
  import opened Ntor
  import Backward
  import EP = ExtendPayload
  import Forward
  import ForwardDelivery
  import ReadyCircuit
  import T = Telescope
  import R = Registry

  // How the client writes a socket address into an EXTEND cell.
  type Printer = Address -> seq<byte>

  function NodeOf(show: Printer, d: Descriptor): T.Node {
    T.Node(show(d.address), d.publicKey, d.fingerprint)
  }

  function NodesOf(show: Printer, path: seq<Descriptor>): (r: seq<T.Node>)
    ensures |r| == |path|
  {
    seq(|path|, i requires 0 <= i < |path| => NodeOf(show, path[i]))
  }

  function RoleOf(t: NodeType): T.Role {
    match t
    case EntryNode => T.EntryRole
    case MiddleNode => T.MiddleRole
    case ExitNode => T.ExitRole
  }

  // Printing is faithful: different addresses show differently, as short zero-free text.
  ghost predicate Faithful(env: T.Env, show: Printer) {
    && (forall a, b :: show(a) == show(b) ==> a == b)
    && forall a :: && EP.ZeroFree(show(a)) && env.isText(show(a)) && env.isSocketAddress(show(a))
                   && |show(a)| <= 64
  }

  // The relay described is there: it listens at its address with its certificate, in its role,
  // under its key.
  ghost predicate Honest(env: T.Env, show: Printer, d: Descriptor) {
    var n := NodeOf(show, d);
    && env.isText(d.fingerprint) && |d.fingerprint| <= 64
    && T.Listens(env, n)
    && T.RelayAt(env, n).role == RoleOf(d.nodeType)
    && env.primitives.publicKey(T.RelayAt(env, n).secret) == d.publicKey
  }

  // Where both ends agree the compared HMAC inputs are equal, so they cannot collide.
  lemma {:induction false} AgreementDistinguishes(env: T.Env, node: T.Node, r: T.Relay, x: Bytes32, y: Bytes32)
    requires T.Agrees(env, node, r, x, y)
    ensures T.Distinguishes(env, node, r, x, y)
  {
  }

  lemma {:induction false} PathNodeFits(nodes: R.Table, allowSameIp: bool, count: nat, path: seq<Descriptor>,
                                        env: T.Env, show: Printer, i: nat)
    requires R.PathIn(nodes, allowSameIp, count, path) && i < count
    requires Faithful(env, show) && forall id :: id in nodes ==> Honest(env, show, nodes[id].descriptor)
    ensures var n := NodesOf(show, path)[i];
            && T.Printable(env, n) && T.Listens(env, n)
            && n.publicKey == env.primitives.publicKey(T.RelayAt(env, n).secret)
            && |n.address| + 34 + |n.fingerprint| <= MAX_PAYLOAD
            && (i + 1 < count ==> T.RelayAt(env, n).role != T.ExitRole)
  {
    assert R.RightNode(nodes, count, path, i);
    assert Honest(env, show, nodes[path[i].nodeId].descriptor);
  }

  // The directory never puts one address into a path twice.
  lemma {:induction false} PathAddressesDiffer(nodes: R.Table, allowSameIp: bool, count: nat, path: seq<Descriptor>,
                                               env: T.Env, show: Printer, i: nat, j: nat)
    requires R.Consistent(nodes) && R.PathIn(nodes, allowSameIp, count, path) && Faithful(env, show)
    requires i < j < count
    ensures NodesOf(show, path)[i].address != NodesOf(show, path)[j].address
  {
    assert R.RightNode(nodes, count, path, i) && R.RightNode(nodes, count, path, j);
    assert path[i].nodeId != path[j].nodeId;
  }

  // With honest relays, every path selected from the table builds.
  lemma {:induction false} SelectedPathBuilds(nodes: R.Table, allowSameIp: bool, count: nat, path: seq<Descriptor>,
                                              env: T.Env, show: Printer, circuitId: u32, draws: T.Draws)
    requires R.Consistent(nodes) && R.PathIn(nodes, allowSameIp, count, path)
    requires Faithful(env, show) && forall id :: id in nodes ==> Honest(env, show, nodes[id].descriptor)
    requires Commutes(env.primitives)
    ensures T.Sound(env, NodesOf(show, path), draws)
    ensures T.Build(env, circuitId, NodesOf(show, path), draws).Ok?
  {
    hide R.PathIn, R.Consistent, NodesOf, T.Printable, T.Agrees, T.Distinguishes, T.Build;
    var p := NodesOf(show, path);
    PathLength(nodes, allowSameIp, count, path);
    forall i | 0 <= i < count
      ensures T.Printable(env, p[i]) && T.Listens(env, p[i])
      ensures p[i].publicKey == env.primitives.publicKey(T.RelayAt(env, p[i]).secret)
      ensures |p[i].address| + 34 + |p[i].fingerprint| <= MAX_PAYLOAD
      ensures i + 1 < count ==> T.RelayAt(env, p[i]).role != T.ExitRole
    {
      PathNodeFits(nodes, allowSameIp, count, path, env, show, i);
    }
    T.HonestPathWorks(env, p, draws);
    forall i | 0 <= i < count
      ensures T.Distinguishes(env, p[i], T.RelayAt(env, p[i]), draws.client(i), draws.relay(i))
    {
      assert T.HopWorks(env, p, draws, i);
      AgreementDistinguishes(env, p[i], T.RelayAt(env, p[i]), draws.client(i), draws.relay(i));
    }
    forall i, j | 0 <= i < j < count
      ensures p[i].address != p[j].address
    {
      PathAddressesDiffer(nodes, allowSameIp, count, path, env, show, i, j);
    }
    T.ReadyExactly(env, circuitId, p, draws);
  }

  lemma {:induction false} PathLength(nodes: R.Table, allowSameIp: bool, count: nat, path: seq<Descriptor>)
    requires R.PathIn(nodes, allowSameIp, count, path)
    ensures |path| == count >= 3
  {
  }

  // And what is sent on that circuit arrives: selection, build and delivery in one statement.
  lemma {:induction false} SelectedPathDelivers(nodes: R.Table, allowSameIp: bool, count: nat, path: seq<Descriptor>,
                                                env: T.Env, show: Printer, circuitId: u32, draws: T.Draws, tag: TagFn,
                                                down: seq<Forward.Step>, up: seq<Backward.Step>)
    requires R.Consistent(nodes) && R.PathIn(nodes, allowSameIp, count, path)
    requires Faithful(env, show) && forall id :: id in nodes ==> Honest(env, show, nodes[id].descriptor)
    requires Commutes(env.primitives)
    ensures var built := T.Build(env, circuitId, NodesOf(show, path), draws);
            && built.Ok? && |built.value.forward| >= 3 && |built.value.backward| >= 3
            && var f := Forward.Run(ReadyCircuit.ForwardNet(circuitId, tag, env.isText, built.value), down);
               var b := Backward.Run(ReadyCircuit.BackwardNet(circuitId, tag, built.value), up);
               && (ForwardDelivery.AllFit(f.log) && ForwardDelivery.AllText(env.isText, f.log) ==>
                     f.exit.reading && f.exit.delivered <= f.log)
               && (!b.overtaken ==> b.client.status != Backward.Rejected && b.client.received <= b.log)
  {
    hide R.PathIn, R.Consistent, NodesOf, Faithful, Honest, Commutes, T.Build, T.Sound, Forward.Run, Backward.Run;
    SelectedPathBuilds(nodes, allowSameIp, count, path, env, show, circuitId, draws);
    ReadyCircuit.BuiltCircuitDelivers(env, circuitId, NodesOf(show, path), draws, tag, down, up);
  }
}
