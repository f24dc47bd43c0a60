// The directory's table of relays (services/discovery/src/core/registry.rs:69-393).
module Registry {
  import opened Wrappers
  import opened Sequences
  import opened Clock
  import opened Directory
  import P = PathSelection

  datatype Metrics = Metrics(activeCircuits: nat, bytesRelayed: nat)

  // Times are ticks of a monotonic clock.
  datatype Entry = Entry(descriptor: Descriptor, registeredAt: nat, lastHeartbeat: nat, metrics: Option<Metrics>)

  datatype RegistryError = NodeNotFound | NoPath(error: P.PathError)

  type Table = map<string, Entry>

  // Every key is the id of its descriptor, and no two relays share an address.
  ghost predicate Consistent(nodes: Table) {
    && (forall id :: id in nodes ==> nodes[id].descriptor.nodeId == id)
    && (forall a, b :: a in nodes && b in nodes && a != b ==>
          nodes[a].descriptor.address != nodes[b].descriptor.address)
  }

  // ----- the operations on the table -----

  // A new registration drives out whoever else has its address.
  function AfterRegister(nodes: Table, d: Descriptor, now: nat): Table {
    var kept := map id | id in nodes && (id == d.nodeId || nodes[id].descriptor.address != d.address) :: nodes[id];
    if d.nodeId in kept then kept[d.nodeId := kept[d.nodeId].(descriptor := d, lastHeartbeat := now)]
    else kept[d.nodeId := Entry(d, now, now, None)]
  }

  predicate Stale(e: Entry, now: nat, timeout: nat) {
    Elapsed(now, e.lastHeartbeat) > timeout
  }

  function AfterCleanup(nodes: Table, now: nat, timeout: nat): Table {
    map id | id in nodes && !Stale(nodes[id], now, timeout) :: nodes[id]
  }

  datatype Operation =
    | Register(descriptor: Descriptor)
    | Heartbeat(id: string, metrics: Option<Metrics>)
    | Remove(id: string)
    | Cleanup(timeout: nat)

  function After(nodes: Table, op: Operation, now: nat): Table {
    match op
    case Register(d) => AfterRegister(nodes, d, now)
    case Heartbeat(id, metrics) =>
      if id !in nodes then nodes
      else
        var e := nodes[id].(lastHeartbeat := now);
        nodes[id := if metrics.Some? then e.(metrics := metrics) else e]
    case Remove(id) => nodes - {id}
    case Cleanup(timeout) => AfterCleanup(nodes, now, timeout)
  }

  // A run: operations in order, each with the time it happens at.
  function Run(ops: seq<(Operation, nat)>): Table {
    if ops == [] then map[] else After(Run(Init(ops)), Last(ops).0, Last(ops).1)
  }

  lemma {:induction false} RegisterIsConsistent(nodes: Table, d: Descriptor, now: nat)
    requires Consistent(nodes)
    ensures Consistent(AfterRegister(nodes, d, now))
  {
  }

  lemma {:induction false} RunIsConsistent(ops: seq<(Operation, nat)>)
    ensures Consistent(Run(ops))
  {
    hide AfterRegister;
    if ops != [] {
      RunIsConsistent(Init(ops));
      match Last(ops).0
      case Register(d) => RegisterIsConsistent(Run(Init(ops)), d, Last(ops).1);
      case _ =>
    }
  }

  // One entry per relay: the same relay registering again keeps its place and the time of its
  // first registration; another relay keeps its entry unless it had the address.
  lemma {:induction false} RegisterKeepsTheRest(nodes: Table, d: Descriptor, now: nat, id: string)
    ensures id in AfterRegister(nodes, d, now) <==>
              id == d.nodeId || (id in nodes && nodes[id].descriptor.address != d.address)
    ensures id != d.nodeId && id in AfterRegister(nodes, d, now) ==> AfterRegister(nodes, d, now)[id] == nodes[id]
    ensures AfterRegister(nodes, d, now)[d.nodeId] ==
              if d.nodeId in nodes then
                Entry(d, nodes[d.nodeId].registeredAt, now, nodes[d.nodeId].metrics)
              else Entry(d, now, now, None)
  {
  }

  predicate Registers(op: Operation, id: string) {
    op.Register? && op.descriptor.nodeId == id
  }

  // In every run registered_at is the time of the first registration since the node was last
  // absent, and the descriptor is that of its latest registration.
  lemma {:induction false} EntryTellsItsHistory(ops: seq<(Operation, nat)>, id: string) returns (first: nat, last: nat)
    requires id in Run(ops)
    ensures first <= last < |ops|
    ensures Registers(ops[first].0, id) && Run(ops)[id].registeredAt == ops[first].1
    ensures id !in Run(ops[..first]) && forall j :: first < j <= |ops| ==> id in Run(ops[..j])
    ensures ops[last].0 == Register(Run(ops)[id].descriptor)
    ensures forall j :: last < j < |ops| ==> !Registers(ops[j].0, id)
  {
    hide After, Run;
    NothingRegistered(ops);
    var n := |ops| - 1;
    assert ops[..n] == Init(ops) && ops[..n + 1] == ops;
    EntryAfter(ops, id);
    if id in Run(Init(ops)) {
      first, last := EntryTellsItsHistory(Init(ops), id);
      assert Init(ops)[..first] == ops[..first];
      forall j | first < j <= n
        ensures id in Run(ops[..j])
      {
        assert Init(ops)[..j] == ops[..j];
      }
      if Registers(ops[n].0, id) {
        last := n;
      }
    } else {
      first, last := n, n;
    }
  }

  lemma {:induction false} NothingRegistered(ops: seq<(Operation, nat)>)
    ensures ops == [] ==> Run(ops) == map[]
  {
  }

  lemma {:induction false} EntryAfter(ops: seq<(Operation, nat)>, id: string)
    requires ops != [] && id in Run(ops)
    ensures var before, op, now := Run(Init(ops)), Last(ops).0, Last(ops).1;
            if id in before then
              && Run(ops)[id].registeredAt == before[id].registeredAt
              && (if Registers(op, id) then Run(ops)[id].descriptor == op.descriptor
                  else Run(ops)[id].descriptor == before[id].descriptor)
            else
              Registers(op, id) && Run(ops)[id].registeredAt == now && Run(ops)[id].descriptor == op.descriptor
  {
  }

  // In a run whose clock does not go back, no entry is older than its registration, and right
  // after a cleanup none is older than the timeout.
  ghost predicate Ordered(ops: seq<(Operation, nat)>) {
    forall i, j :: 0 <= i < j < |ops| ==> ops[i].1 <= ops[j].1
  }

  lemma {:induction false} TimesInOrder(ops: seq<(Operation, nat)>, id: string)
    requires Ordered(ops) && id in Run(ops)
    ensures ops != []
    ensures Run(ops)[id].registeredAt <= Run(ops)[id].lastHeartbeat <= Last(ops).1
    ensures Last(ops).0.Cleanup? ==> Last(ops).1 <= Run(ops)[id].lastHeartbeat + Last(ops).0.timeout
  {
    var before := Run(Init(ops));
    if id in before {
      TimesInOrder(Init(ops), id);
      assert Last(Init(ops)).1 <= Last(ops).1;
    }
  }

  // ----- the registry -----

  datatype Stats = Stats(total: nat, entries: nat, middles: nat, exits: nat,
                         oldestAge: Option<nat>, newestAge: Option<nat>)

  ghost function OfType(nodes: Table, t: NodeType): set<string> {
    set id | id in nodes && nodes[id].descriptor.nodeType == t
  }

  // A listing of the nodes of one type among `seen`, in some order.
  ghost predicate ListsOf(nodes: Table, t: NodeType, seen: set<string>, listing: seq<Descriptor>) {
    && DistinctIds(listing)
    && |listing| == |OfType(nodes, t) * seen|
    && forall d :: d in listing <==>
         d.nodeId in seen && d.nodeId in nodes && nodes[d.nodeId].descriptor == d && d.nodeType == t
  }

  ghost predicate Lists(nodes: Table, t: NodeType, listing: seq<Descriptor>) {
    ListsOf(nodes, t, nodes.Keys, listing)
  }

  lemma {:induction false} ListsOneMore(nodes: Table, t: NodeType, seen: set<string>, listing: seq<Descriptor>,
          id: string)
    requires Consistent(nodes) && ListsOf(nodes, t, seen, listing) && id in nodes && id !in seen
    ensures nodes[id].descriptor.nodeType == t ==> ListsOf(nodes, t, seen + {id}, listing + [nodes[id].descriptor])
    ensures nodes[id].descriptor.nodeType != t ==> ListsOf(nodes, t, seen + {id}, listing)
  {
    CountOne(nodes, seen, id, t);
    forall d | d in listing
      ensures d.nodeId != id
    {
    }
  }

  lemma {:induction false} CountOne(nodes: Table, seen: set<string>, id: string, t: NodeType)
    requires id in nodes && id !in seen
    ensures |OfType(nodes, t) * (seen + {id})| ==
            |OfType(nodes, t) * seen| + (if nodes[id].descriptor.nodeType == t then 1 else 0)
  {
    if nodes[id].descriptor.nodeType == t {
      assert OfType(nodes, t) * (seen + {id}) == OfType(nodes, t) * seen + {id};
    } else {
      assert OfType(nodes, t) * (seen + {id}) == OfType(nodes, t) * seen;
    }
  }

  lemma {:induction false} ListingSize(nodes: Table, t: NodeType, listing: seq<Descriptor>)
    requires Lists(nodes, t, listing)
    ensures |listing| == |OfType(nodes, t)|
    ensures listing == [] <==> OfType(nodes, t) == {}
  {
    assert OfType(nodes, t) * nodes.Keys == OfType(nodes, t);
  }

  class NodeRegistry {
    const allowSameIp: bool
    var nodes: Table

    ghost predicate Valid()
      reads this
    {
      Consistent(nodes)
    }

    constructor (allowSameIp: bool)
      ensures Valid() && nodes == map[] && this.allowSameIp == allowSameIp
    {
      this.allowSameIp, nodes := allowSameIp, map[];
    }

    method RegisterNode(d: Descriptor, now: nat)
      requires Valid()
      modifies this
      ensures Valid() && nodes == AfterRegister(old(nodes), d, now)
    {
      RegisterIsConsistent(nodes, d, now);
      nodes := map id | id in nodes && (id == d.nodeId || nodes[id].descriptor.address != d.address) :: nodes[id];
      if d.nodeId !in nodes {
        nodes := nodes[d.nodeId := Entry(d, now, now, None)];
      } else {
        nodes := nodes[d.nodeId := nodes[d.nodeId].(descriptor := d, lastHeartbeat := now)];
      }
    }

    method UpdateHeartbeat(id: string, metrics: Option<Metrics>, now: nat) returns (r: Result<(), RegistryError>)
      requires Valid()
      modifies this
      ensures Valid() && nodes == After(old(nodes), Heartbeat(id, metrics), now)
      ensures r == if id in old(nodes) then Ok(()) else Err(NodeNotFound)
    {
      if id !in nodes {
        return Err(NodeNotFound);
      }
      nodes := nodes[id := nodes[id].(lastHeartbeat := now)];
      if metrics.Some? {
        nodes := nodes[id := nodes[id].(metrics := metrics)];
      }
      r := Ok(());
    }

    method RemoveNode(id: string) returns (r: Result<(), RegistryError>)
      requires Valid()
      modifies this
      ensures Valid() && nodes == old(nodes) - {id}
      ensures r == if id in old(nodes) then Ok(()) else Err(NodeNotFound)
    {
      r := if id in nodes then Ok(()) else Err(NodeNotFound);
      nodes := nodes - {id};
    }

    method CleanupStaleNodes(now: nat, timeout: nat) returns (removed: nat)
      requires Valid()
      modifies this
      ensures Valid() && nodes == AfterCleanup(old(nodes), now, timeout)
      ensures removed == |set id | id in old(nodes) && Stale(old(nodes)[id], now, timeout)|
    {
      var before := |nodes|;
      ghost var stale := set id | id in nodes && Stale(nodes[id], now, timeout);
      ghost var was := nodes.Keys;
      nodes := map id | id in nodes && !Stale(nodes[id], now, timeout) :: nodes[id];
      assert nodes.Keys == was - stale;
      removed := before - |nodes|;
    }

    // The values of a hash map come in any order.
    method GetNodesByType(t: NodeType) returns (listing: seq<Descriptor>)
      requires Valid()
      ensures Lists(nodes, t, listing)
    {
      hide ListsOf, Consistent;
      listing := [];
      var left := nodes.Keys;
      ghost var seen: set<string> := {};
      NothingListed(nodes, t);
      while left != {}
        invariant left <= nodes.Keys && seen == nodes.Keys - left
        invariant ListsOf(nodes, t, seen, listing)
        decreases left
      {
        var id :| id in left;
        ListsOneMore(nodes, t, seen, listing, id);
        left, seen := left - {id}, seen + {id};
        if nodes[id].descriptor.nodeType == t {
          listing := listing + [nodes[id].descriptor];
        }
      }
      assert seen == nodes.Keys;
    }

    method IsReady() returns (ready: bool)
      requires Valid()
      ensures ready <==> forall t: NodeType :: OfType(nodes, t) != {}
    {
      hide ListsOf, Lists;
      var entries := GetNodesByType(EntryNode);
      var middles := GetNodesByType(MiddleNode);
      var exits := GetNodesByType(ExitNode);
      ready := entries != [] && middles != [] && exits != [];
      ListingSize(nodes, EntryNode, entries);
      ListingSize(nodes, MiddleNode, middles);
      ListingSize(nodes, ExitNode, exits);
    }

    method GetStats(now: nat) returns (s: Stats)
      requires Valid()
      ensures s.total == |nodes| == s.entries + s.middles + s.exits
      ensures s.entries == |OfType(nodes, EntryNode)| && s.middles == |OfType(nodes, MiddleNode)|
              && s.exits == |OfType(nodes, ExitNode)|
      ensures s.oldestAge.None? <==> nodes == map[]
      ensures s.newestAge.None? <==> nodes == map[]
      ensures forall id :: id in nodes ==>
                s.newestAge.value <= Elapsed(now, nodes[id].registeredAt) <= s.oldestAge.value
      ensures nodes != map[] ==>
                && (exists id :: id in nodes && Elapsed(now, nodes[id].registeredAt) == s.oldestAge.value)
                && (exists id :: id in nodes && Elapsed(now, nodes[id].registeredAt) == s.newestAge.value)
    {
      hide OfType, Counted, Extremes, Consistent;
      var entries, middles, exits := 0, 0, 0;
      var oldest, newest: Option<nat> := None, None;
      var left := nodes.Keys;
      ghost var seen: set<string> := {};
      NothingSeen(nodes);
      while left != {}
        invariant left <= nodes.Keys && seen == nodes.Keys - left
        invariant Counted(nodes, seen, entries, middles, exits)
        invariant Extremes(nodes, seen, oldest, newest)
        decreases left
      {
        var id :| id in left;
        var e := nodes[id];
        CountedOneMore(nodes, seen, entries, middles, exits, id);
        ExtremesOneMore(nodes, seen, oldest, newest, id);
        left, seen := left - {id}, seen + {id};
        match e.descriptor.nodeType {
          case EntryNode => entries := entries + 1;
          case MiddleNode => middles := middles + 1;
          case ExitNode => exits := exits + 1;
        }
        if oldest.None? || e.registeredAt < oldest.value {
          oldest := Some(e.registeredAt);
        }
        if newest.None? || e.registeredAt > newest.value {
          newest := Some(e.registeredAt);
        }
      }
      assert seen == nodes.Keys;
      CountedAll(nodes, entries, middles, exits);
      ExtremesMean(nodes, oldest, newest);
      s := Stats(|nodes|, entries, middles, exits,
                 if oldest.Some? then Some(Elapsed(now, oldest.value)) else None,
                 if newest.Some? then Some(Elapsed(now, newest.value)) else None);
    }

    // Whatever order the nodes come in, the path is a valid selection from the table.
    method GetRandomPath(count: nat, rng: P.Rng) returns (r: Result<seq<Descriptor>, RegistryError>)
      requires Valid() && P.InRange(rng)
      requires forall t: NodeType, listing :: Lists(nodes, t, listing) ==> P.BandwidthFits(listing)
      ensures r.Ok? ==> PathIn(nodes, allowSameIp, count, r.value)
      ensures (allowSameIp && Untagged(nodes)) ==>
                (r.Ok? <==> count >= 3 && OfType(nodes, EntryNode) != {} && OfType(nodes, ExitNode) != {}
                            && |OfType(nodes, MiddleNode)| >= count - 2)
    {
      hide P.Path, P.Clash, Lists, ListsOf, OfType, P.ValidPath, P.BandwidthFits;
      var entries := GetNodesByType(EntryNode);
      var middles := GetNodesByType(MiddleNode);
      var exits := GetNodesByType(ExitNode);
      var path := P.GetRandomPath(allowSameIp, entries, middles, exits, count, rng);
      if path.Err? {
        r := Err(NoPath(path.error));
      } else {
        PathOfTable(nodes, allowSameIp, entries, middles, exits, count, rng);
        r := Ok(path.value);
      }
      EnoughInTable(nodes, allowSameIp, entries, middles, exits, count, rng);
    }
  }

  // How many of `seen` are of each type.
  ghost predicate Counted(nodes: Table, seen: set<string>, entries: nat, middles: nat, exits: nat) {
    && entries == |OfType(nodes, EntryNode) * seen|
    && middles == |OfType(nodes, MiddleNode) * seen|
    && exits == |OfType(nodes, ExitNode) * seen|
    && entries + middles + exits == |seen|
  }

  lemma {:induction false} CountedOneMore(nodes: Table, seen: set<string>, entries: nat, middles: nat,
          exits: nat, id: string)
    requires Counted(nodes, seen, entries, middles, exits) && id in nodes && id !in seen
    ensures match nodes[id].descriptor.nodeType
            case EntryNode => Counted(nodes, seen + {id}, entries + 1, middles, exits)
            case MiddleNode => Counted(nodes, seen + {id}, entries, middles + 1, exits)
            case ExitNode => Counted(nodes, seen + {id}, entries, middles, exits + 1)
  {
    hide OfType;
    CountOne(nodes, seen, id, EntryNode);
    CountOne(nodes, seen, id, MiddleNode);
    CountOne(nodes, seen, id, ExitNode);
  }

  lemma {:induction false} CountedAll(nodes: Table, entries: nat, middles: nat, exits: nat)
    requires Counted(nodes, nodes.Keys, entries, middles, exits)
    ensures entries == |OfType(nodes, EntryNode)| && middles == |OfType(nodes, MiddleNode)|
            && exits == |OfType(nodes, ExitNode)| && entries + middles + exits == |nodes|
  {
    assert forall t: NodeType :: OfType(nodes, t) * nodes.Keys == OfType(nodes, t);
  }

  // The oldest and newest registration among `seen`.
  ghost predicate Extremes(nodes: Table, seen: set<string>, oldest: Option<nat>, newest: Option<nat>)
    requires seen <= nodes.Keys
  {
    && (oldest.None? <==> seen == {}) && (newest.None? <==> seen == {})
    && (forall id :: id in seen ==> oldest.value <= nodes[id].registeredAt <= newest.value)
    && (oldest.Some? ==> exists id :: id in seen && nodes[id].registeredAt == oldest.value)
    && (newest.Some? ==> exists id :: id in seen && nodes[id].registeredAt == newest.value)
  }

  lemma {:induction false} ExtremesOneMore(nodes: Table, seen: set<string>, oldest: Option<nat>,
          newest: Option<nat>, id: string)
    requires seen <= nodes.Keys && id in nodes && Extremes(nodes, seen, oldest, newest)
    ensures var at := nodes[id].registeredAt;
            Extremes(nodes, seen + {id},
                     if oldest.None? || at < oldest.value then Some(at) else oldest,
                     if newest.None? || at > newest.value then Some(at) else newest)
  {
  }

  lemma {:induction false} ExtremesMean(nodes: Table, oldest: Option<nat>, newest: Option<nat>)
    requires Extremes(nodes, nodes.Keys, oldest, newest)
    ensures oldest.None? <==> nodes == map[]
    ensures newest.None? <==> nodes == map[]
    ensures forall id :: id in nodes ==> oldest.value <= nodes[id].registeredAt <= newest.value
    ensures nodes != map[] ==>
              && (exists id :: id in nodes && nodes[id].registeredAt == oldest.value)
              && (exists id :: id in nodes && nodes[id].registeredAt == newest.value)
  {
    assert nodes == map[] <==> nodes.Keys == {};
  }

  lemma {:induction false} NothingSeen(nodes: Table)
    ensures Extremes(nodes, {}, None, None)
    ensures Counted(nodes, {}, 0, 0, 0)
  {
  }

  lemma {:induction false} NothingListed(nodes: Table, t: NodeType)
    ensures ListsOf(nodes, t, {}, [])
  {
  }

  // A path selected from listings of the table is a path of the table.
  ghost predicate PathIn(nodes: Table, allowSameIp: bool, count: nat, path: seq<Descriptor>) {
    && |path| == count >= 3
    && DistinctIds(path) && P.Compatible(allowSameIp, path)
    && forall i :: 0 <= i < count ==> RightNode(nodes, count, path, i)
  }

  ghost predicate RightNode(nodes: Table, count: nat, path: seq<Descriptor>, i: nat)
    requires i < count == |path|
  {
    && path[i].nodeId in nodes && nodes[path[i].nodeId].descriptor == path[i]
    && path[i].nodeType == (if i == 0 then EntryNode else if i + 1 == count then ExitNode else MiddleNode)
  }

  lemma {:induction false} PathOfTable(nodes: Table, allowSameIp: bool, entries: seq<Descriptor>,
          middles: seq<Descriptor>,
                                       exits: seq<Descriptor>, count: nat, rng: P.Rng)
    requires Lists(nodes, EntryNode, entries) && Lists(nodes, MiddleNode, middles) && Lists(nodes, ExitNode, exits)
    requires P.InRange(rng) && P.Path(allowSameIp, entries, middles, exits, count, rng).Ok?
    ensures PathIn(nodes, allowSameIp, count, P.Path(allowSameIp, entries, middles, exits, count, rng).value)
  {
    hide P.Path, P.Clash;
    ListingsDisjoint(nodes, entries, middles, exits);
    P.ReturnedPathIsValid(allowSameIp, entries, middles, exits, count, rng);
  }

  // With same IPs allowed and no operator tags, success depends on the numbers alone.
  lemma {:induction false} EnoughInTable(nodes: Table, allowSameIp: bool, entries: seq<Descriptor>,
          middles: seq<Descriptor>,
                                         exits: seq<Descriptor>, count: nat, rng: P.Rng)
    requires Lists(nodes, EntryNode, entries) && Lists(nodes, MiddleNode, middles) && Lists(nodes, ExitNode, exits)
    requires P.InRange(rng)
    ensures (allowSameIp && Untagged(nodes)) ==>
              (P.Path(allowSameIp, entries, middles, exits, count, rng).Ok? <==>
                 count >= 3 && OfType(nodes, EntryNode) != {} && OfType(nodes, ExitNode) != {}
                 && |OfType(nodes, MiddleNode)| >= count - 2)
  {
    hide P.Path, P.Clash, OfType;
    if allowSameIp && Untagged(nodes) {
      P.UntaggedNeverClash(entries + middles + exits);
      P.SucceedsExactlyWhenEnough(allowSameIp, entries, middles, exits, count, rng);
      ListingSize(nodes, EntryNode, entries);
      ListingSize(nodes, MiddleNode, middles);
      ListingSize(nodes, ExitNode, exits);
    }
  }

  ghost predicate Untagged(nodes: Table) {
    forall id :: id in nodes ==> nodes[id].descriptor.operatorId == None
  }

  lemma {:induction false} ListingsDisjoint(nodes: Table, entries: seq<Descriptor>, middles: seq<Descriptor>,
          exits: seq<Descriptor>)
    requires Lists(nodes, EntryNode, entries) && Lists(nodes, MiddleNode, middles) && Lists(nodes, ExitNode, exits)
    ensures DistinctIds(entries + middles + exits)
  {
    var all := entries + middles + exits;
    forall i, j | 0 <= i < j < |all|
      ensures all[i].nodeId != all[j].nodeId
    {
      assert all[i] in entries || all[i] in middles || all[i] in exits;
      assert all[j] in entries || all[j] in middles || all[j] in exits;
    }
  }
}
