// Choosing the relays of a circuit (services/discovery/src/core/registry.rs:134-257): exit first,
// then entry, then each middle, with exclusion sets that grow after every pick.
module PathSelection {
  import opened Bytes
  import opened Wrappers
  import opened Sequences
  import opened WeightedSampling
  import opened Directory

  datatype PathError =
    | TooFewHops | NoEntry | NoMiddle | TooFewMiddles | NoExit
    | EntryExitShareIp | EntryExitShareOperator | MiddlesExhausted

  // The random generator: the k-th draw, below a bound.
  type Rng = (nat, nat) -> nat

  ghost predicate InRange(rng: Rng) {
    forall k: nat, bound: nat :: bound > 0 ==> rng(k, bound) < bound
  }

  // ----- conflicts -----

  predicate SharesIp(allowSameIp: bool, a: Descriptor, b: Descriptor) {
    !allowSameIp && !Loopback(a.address.ip) && a.address.ip == b.address.ip
  }

  predicate SharesOperator(a: Descriptor, b: Descriptor) {
    a.operatorId.Some? && a.operatorId == b.operatorId
  }

  predicate Clash(allowSameIp: bool, a: Descriptor, b: Descriptor) {
    SharesIp(allowSameIp, a, b) || SharesOperator(a, b)
  }

  ghost predicate Compatible(allowSameIp: bool, nodes: seq<Descriptor>) {
    forall i, j :: 0 <= i < j < |nodes| ==> !Clash(allowSameIp, nodes[i], nodes[j])
  }

  predicate Fits(allowSameIp: bool, n: Descriptor, chosen: seq<Descriptor>) {
    forall c :: c in chosen ==> !Clash(allowSameIp, n, c)
  }

  // ----- the selection as a function -----

  function Retained(allowSameIp: bool, nodes: seq<Descriptor>, chosen: seq<Descriptor>): (r: seq<Descriptor>)
    ensures forall n :: n in r <==> n in nodes && Fits(allowSameIp, n, chosen)
  {
    if nodes == [] then []
    else if Fits(allowSameIp, Last(nodes), chosen) then Retained(allowSameIp, Init(nodes), chosen) + [Last(nodes)]
    else Retained(allowSameIp, Init(nodes), chosen)
  }

  function Draw(rng: Rng, k: nat, nodes: seq<Descriptor>): (i: nat)
    requires InRange(rng) && nodes != []
    ensures i < |nodes|
  {
    Chosen(Bandwidths(nodes), rng(k, DrawBound(Bandwidths(nodes))))
  }

  function Without<T>(s: seq<T>, i: nat): seq<T>
    requires i < |s|
  {
    s[..i] + s[i + 1..]
  }

  function PickMiddles(allowSameIp: bool, available: seq<Descriptor>, chosen: seq<Descriptor>, slots: nat,
          rng: Rng, k: nat)
    : Result<seq<Descriptor>, PathError>
    requires InRange(rng)
    decreases slots
  {
    if slots == 0 then Ok([]) else
    var fit := Retained(allowSameIp, available, chosen);
    if |fit| < slots then Err(MiddlesExhausted) else
    var i := Draw(rng, k, fit);
    Prepend([fit[i]], PickMiddles(allowSameIp, Without(fit, i), chosen + [fit[i]], slots - 1, rng, k + 1))
  }

  function Path(allowSameIp: bool, entries: seq<Descriptor>, middles: seq<Descriptor>, exits: seq<Descriptor>,
                count: nat, rng: Rng): Result<seq<Descriptor>, PathError>
    requires InRange(rng)
  {
    if count < 3 then Err(TooFewHops) else
    if entries == [] then Err(NoEntry) else
    if middles == [] then Err(NoMiddle) else
    if |middles| < count - 2 then Err(TooFewMiddles) else
    if exits == [] then Err(NoExit) else
    var exit := exits[Draw(rng, 0, exits)];
    var entry := entries[Draw(rng, 1, entries)];
    if SharesIp(allowSameIp, entry, exit) then Err(EntryExitShareIp) else
    if SharesOperator(entry, exit) then Err(EntryExitShareOperator) else
    match PickMiddles(allowSameIp, middles, [exit, entry], count - 2, rng, 2)
    case Ok(picked) => Ok([entry] + picked + [exit])
    case Err(e) => Err(e)
  }

  // ----- the selection as the program runs it -----

  function ExcludedIps(allowSameIp: bool, chosen: seq<Descriptor>): set<Ip> {
    set c | c in chosen && !allowSameIp && !Loopback(c.address.ip) :: c.address.ip
  }

  function ExcludedOperators(chosen: seq<Descriptor>): set<string> {
    set c | c in chosen && c.operatorId.Some? :: c.operatorId.value
  }

  lemma {:induction false} FitsBySets(allowSameIp: bool, n: Descriptor, chosen: seq<Descriptor>)
    ensures Fits(allowSameIp, n, chosen) <==>
              (allowSameIp || Loopback(n.address.ip) || n.address.ip !in ExcludedIps(allowSameIp, chosen))
              && (n.operatorId == None || n.operatorId.value !in ExcludedOperators(chosen))
  {
  }

  method Retain(allowSameIp: bool, nodes: seq<Descriptor>, ips: set<Ip>, operators: set<string>,
          ghost chosen: seq<Descriptor>)
    returns (kept: seq<Descriptor>)
    requires ips == ExcludedIps(allowSameIp, chosen) && operators == ExcludedOperators(chosen)
    ensures kept == Retained(allowSameIp, nodes, chosen)
  {
    hide ExcludedIps, ExcludedOperators, Fits;
    kept := [];
    assert nodes[..0] == [];
    for i := 0 to |nodes|
      invariant kept == Retained(allowSameIp, nodes[..i], chosen)
    {
      var n := nodes[i];
      var ipOk := allowSameIp || Loopback(n.address.ip) || n.address.ip !in ips;
      var operatorOk := n.operatorId == None || n.operatorId.value !in operators;
      FitsBySets(allowSameIp, n, chosen);
      assert Init(nodes[..i + 1]) == nodes[..i];
      if ipOk && operatorOk {
        kept := kept + [n];
      }
    }
    assert nodes[..|nodes|] == nodes;
  }

  method Exclude(allowSameIp: bool, n: Descriptor, ips: set<Ip>, operators: set<string>, ghost chosen: seq<Descriptor>)
    returns (ips': set<Ip>, operators': set<string>)
    requires ips == ExcludedIps(allowSameIp, chosen) && operators == ExcludedOperators(chosen)
    ensures ips' == ExcludedIps(allowSameIp, chosen + [n]) && operators' == ExcludedOperators(chosen + [n])
  {
    ips', operators' := ips, operators;
    if !allowSameIp && !Loopback(n.address.ip) {
      ips' := ips' + {n.address.ip};
    }
    if n.operatorId.Some? {
      operators' := operators' + {n.operatorId.value};
    }
  }

  // The sums of bandwidths fit 64 bits.
  ghost predicate BandwidthFits(nodes: seq<Descriptor>) {
    Sum(Bandwidths(nodes)) < 0x1_0000_0000_0000_0000
  }

  method SelectNode(nodes: seq<Descriptor>, rng: Rng, k: nat) returns (i: nat)
    requires InRange(rng) && nodes != [] && BandwidthFits(nodes)
    ensures i == Draw(rng, k, nodes)
  {
    var weights := Bandwidths(nodes);
    i := SelectWeightedIndex(weights, rng(k, DrawBound(weights)));
  }

  method GetRandomPath(allowSameIp: bool, entries: seq<Descriptor>, middles: seq<Descriptor>, exits: seq<Descriptor>,
                       count: nat, rng: Rng) returns (r: Result<seq<Descriptor>, PathError>)
    requires InRange(rng)
    requires BandwidthFits(entries) && BandwidthFits(middles) && BandwidthFits(exits)
    ensures r == Path(allowSameIp, entries, middles, exits, count, rng)
  {
    hide InRange, BandwidthFits, Draw, PickMiddles;
    if count < 3 {
      return Err(TooFewHops);
    }
    if entries == [] {
      return Err(NoEntry);
    }
    if middles == [] {
      return Err(NoMiddle);
    }
    if |middles| < count - 2 {
      return Err(TooFewMiddles);
    }
    if exits == [] {
      return Err(NoExit);
    }
    var i := SelectNode(exits, rng, 0);
    var exit := exits[i];
    var ips, operators := Exclude(allowSameIp, exit, {}, {}, []);
    var j := SelectNode(entries, rng, 1);
    var entry := entries[j];
    if !allowSameIp && !Loopback(entry.address.ip) && entry.address.ip in ips {
      return Err(EntryExitShareIp);
    }
    if entry.operatorId.Some? && entry.operatorId.value in operators {
      return Err(EntryExitShareOperator);
    }
    ips, operators := Exclude(allowSameIp, entry, ips, operators, [exit]);
    assert [exit] + [entry] == [exit, entry];
    var picked := PickEachMiddle(allowSameIp, middles, ips, operators, [exit, entry], count - 2, rng);
    if picked.Err? {
      return Err(picked.error);
    }
    r := Ok([entry] + picked.value + [exit]);
  }

  // One slot after the other, the exclusion sets growing with every pick.
  method PickEachMiddle(allowSameIp: bool, middles: seq<Descriptor>, ips: set<Ip>, operators: set<string>,
                        ghost taken: seq<Descriptor>, slots: nat, rng: Rng)
    returns (r: Result<seq<Descriptor>, PathError>)
    requires InRange(rng) && BandwidthFits(middles)
    requires ips == ExcludedIps(allowSameIp, taken) && operators == ExcludedOperators(taken)
    ensures r == PickMiddles(allowSameIp, middles, taken, slots, rng, 2)
  {
    hide ExcludedIps, ExcludedOperators, Retained, Draw, Bandwidths, Without, InRange;
    var picked, available, excludedIps, excludedOperators := [], middles, ips, operators;
    ghost var chosen := taken;
    ghost var all := PickMiddles(allowSameIp, middles, taken, slots, rng, 2);
    assert all.Ok? ==> [] + all.value == all.value;
    for slot := 0 to slots
      invariant excludedIps == ExcludedIps(allowSameIp, chosen) && excludedOperators == ExcludedOperators(chosen)
      invariant BandwidthFits(available)
      invariant all == Prepend(picked, PickMiddles(allowSameIp, available, chosen, slots - slot, rng, slot + 2))
    {
      ghost var rest := PickMiddles(allowSameIp, available, chosen, slots - slot, rng, slot + 2);
      var fit := Retain(allowSameIp, available, excludedIps, excludedOperators, chosen);
      if |fit| < slots - slot {
        return Err(MiddlesExhausted);
      }
      FitsStay(allowSameIp, available, chosen);
      var k := SelectNode(fit, rng, slot + 2);
      var node := fit[k];
      available := Without(fit, k);
      WithoutFits(fit, k);
      excludedIps, excludedOperators := Exclude(allowSameIp, node, excludedIps, excludedOperators, chosen);
      chosen := chosen + [node];
      PrependTwice(picked, [node], PickMiddles(allowSameIp, available, chosen, slots - slot - 1, rng, slot + 3));
      picked := picked + [node];
    }
    assert picked + [] == picked;
    r := Ok(picked);
  }

  function Prepend(front: seq<Descriptor>, r: Result<seq<Descriptor>, PathError>): Result<seq<Descriptor>, PathError> {
    match r
    case Ok(rest) => Ok(front + rest)
    case Err(e) => Err(e)
  }

  lemma {:induction false} PrependTwice(a: seq<Descriptor>, b: seq<Descriptor>, r: Result<seq<Descriptor>, PathError>)
    ensures Prepend(a, Prepend(b, r)) == Prepend(a + b, r)
  {
    if r.Ok? {
      assert a + (b + r.value) == a + b + r.value;
    }
  }

  lemma {:induction false} FitsStay(allowSameIp: bool, nodes: seq<Descriptor>, chosen: seq<Descriptor>)
    ensures Sum(Bandwidths(Retained(allowSameIp, nodes, chosen))) <= Sum(Bandwidths(nodes))
  {
    if nodes != [] {
      FitsStay(allowSameIp, Init(nodes), chosen);
      assert Bandwidths(Init(nodes)) == Init(Bandwidths(nodes));
      var kept := Retained(allowSameIp, Init(nodes), chosen);
      assert Init(Bandwidths(kept + [Last(nodes)])) == Bandwidths(kept);
    }
  }

  lemma {:induction false} WithoutFits(nodes: seq<Descriptor>, k: nat)
    requires k < |nodes|
    ensures Sum(Bandwidths(Without(nodes, k))) <= Sum(Bandwidths(nodes))
  {
    if k == |nodes| - 1 {
      assert Without(nodes, k) == Init(nodes);
      assert Bandwidths(Init(nodes)) == Init(Bandwidths(nodes));
    } else {
      WithoutFits(Init(nodes), k);
      assert Init(Without(nodes, k)) == Without(Init(nodes), k);
      assert Bandwidths(Init(nodes)) == Init(Bandwidths(nodes));
      assert Init(Bandwidths(Without(nodes, k))) == Bandwidths(Without(Init(nodes), k));
    }
  }

  // ----- what a returned path is -----

  ghost predicate ValidPath(allowSameIp: bool, entries: seq<Descriptor>, middles: seq<Descriptor>,
                            exits: seq<Descriptor>, count: nat, path: seq<Descriptor>) {
    && |path| == count >= 3
    && path[0] in entries && path[count - 1] in exits
    && (forall i :: 0 < i < count - 1 ==> path[i] in middles)
    && DistinctIds(path)
    && Compatible(allowSameIp, path)
  }

  // n further middles that go with the ones chosen: known, all different, clashing with nothing.
  ghost predicate Completes(allowSameIp: bool, known: seq<Descriptor>, chosen: seq<Descriptor>, n: nat,
          more: seq<Descriptor>) {
    && |more| == n
    && DistinctIds(more)
    && Compatible(allowSameIp, more)
    && forall m :: m in more ==> m in known && Fits(allowSameIp, m, chosen)
  }

  lemma {:induction false} RetainedIds(allowSameIp: bool, nodes: seq<Descriptor>, chosen: seq<Descriptor>)
    requires DistinctIds(nodes)
    ensures DistinctIds(Retained(allowSameIp, nodes, chosen))
  {
    if nodes != [] {
      RetainedIds(allowSameIp, Init(nodes), chosen);
      forall m | m in Retained(allowSameIp, Init(nodes), chosen)
        ensures m.nodeId != Last(nodes).nodeId
      {
        assert m in Init(nodes);
      }
    }
  }

  lemma {:induction false} WithoutIds(nodes: seq<Descriptor>, i: nat)
    requires i < |nodes| && DistinctIds(nodes)
    ensures DistinctIds(Without(nodes, i))
    ensures forall m :: m in Without(nodes, i) <==> m in nodes && m.nodeId != nodes[i].nodeId
  {
    forall m | m in nodes && m.nodeId != nodes[i].nodeId
      ensures m in Without(nodes, i)
    {
      var j :| 0 <= j < |nodes| && nodes[j] == m;
      assert Without(nodes, i)[if j < i then j else j - 1] == m;
    }
  }

  // The middles picked complete the path.
  lemma {:induction false} PickedComplete(allowSameIp: bool, available: seq<Descriptor>, chosen: seq<Descriptor>,
                                          slots: nat, rng: Rng, k: nat)
    requires InRange(rng) && DistinctIds(available)
    requires PickMiddles(allowSameIp, available, chosen, slots, rng, k).Ok?
    ensures Completes(allowSameIp, available, chosen, slots,
                      PickMiddles(allowSameIp, available, chosen, slots, rng, k).value)
    decreases slots
  {
    hide Retained, Draw, Clash, Without;
    if slots > 0 {
      var fit := Retained(allowSameIp, available, chosen);
      var i := Draw(rng, k, fit);
      RetainedIds(allowSameIp, available, chosen);
      WithoutIds(fit, i);
      PickedComplete(allowSameIp, Without(fit, i), chosen + [fit[i]], slots - 1, rng, k + 1);
      var rest := PickMiddles(allowSameIp, Without(fit, i), chosen + [fit[i]], slots - 1, rng, k + 1).value;
      OneMorePicked(allowSameIp, fit[i], rest, chosen);
    }
  }

  lemma {:induction false} OneMorePicked(allowSameIp: bool, n: Descriptor, rest: seq<Descriptor>,
          chosen: seq<Descriptor>)
    requires DistinctIds(rest) && Compatible(allowSameIp, rest) && Fits(allowSameIp, n, chosen)
    requires forall m :: m in rest ==> m.nodeId != n.nodeId && Fits(allowSameIp, m, chosen + [n])
    ensures DistinctIds([n] + rest) && Compatible(allowSameIp, [n] + rest)
    ensures forall m :: m in [n] + rest ==> Fits(allowSameIp, m, chosen)
  {
    forall m | m in rest
      ensures Fits(allowSameIp, m, chosen) && !Clash(allowSameIp, n, m)
    {
      assert forall c :: c in chosen ==> c in chosen + [n];
      assert n in chosen + [n];
    }
  }

  // Every path returned, for all draws, has the asked length and shape, pairwise distinct nodes,
  // and no two nodes that share an operator or (unless allowed) a public IP.
  lemma {:induction false} ReturnedPathIsValid(allowSameIp: bool, entries: seq<Descriptor>, middles: seq<Descriptor>,
                                               exits: seq<Descriptor>, count: nat, rng: Rng)
    requires InRange(rng) && DistinctIds(entries + middles + exits)
    requires Path(allowSameIp, entries, middles, exits, count, rng).Ok?
    ensures ValidPath(allowSameIp, entries, middles, exits, count,
                      Path(allowSameIp, entries, middles, exits, count, rng).value)
  {
    hide PickMiddles, Draw, Clash;
    var exit, entry := exits[Draw(rng, 0, exits)], entries[Draw(rng, 1, entries)];
    PartsDistinct(entries, middles, exits, entry, exit);
    PickedComplete(allowSameIp, middles, [exit, entry], count - 2, rng, 2);
    var picked := PickMiddles(allowSameIp, middles, [exit, entry], count - 2, rng, 2).value;
    EntryFitsExit(allowSameIp, entry, exit);
    Assembled(allowSameIp, entry, picked, exit);
  }

  lemma {:induction false} EntryFitsExit(allowSameIp: bool, entry: Descriptor, exit: Descriptor)
    ensures SharesIp(allowSameIp, entry, exit) || SharesOperator(entry, exit) <==> Clash(allowSameIp, entry, exit)
  {
  }

  lemma {:induction false} PartsDistinct(entries: seq<Descriptor>, middles: seq<Descriptor>, exits: seq<Descriptor>,
                                         entry: Descriptor, exit: Descriptor)
    requires DistinctIds(entries + middles + exits) && entry in entries && exit in exits
    ensures DistinctIds(middles) && entry.nodeId != exit.nodeId
    ensures forall m :: m in middles ==> m.nodeId != entry.nodeId && m.nodeId != exit.nodeId
  {
    var all, e, x := entries + middles + exits, |entries|, |entries| + |middles|;
    var i :| 0 <= i < |entries| && entries[i] == entry;
    var j :| 0 <= j < |exits| && exits[j] == exit;
    assert all[i] == entry && all[x + j] == exit;
    forall k | 0 <= k < |middles|
      ensures middles[k] == all[e + k]
    {
    }
  }

  lemma {:induction false} Assembled(allowSameIp: bool, entry: Descriptor, picked: seq<Descriptor>, exit: Descriptor)
    requires DistinctIds(picked) && Compatible(allowSameIp, picked) && !Clash(allowSameIp, entry, exit)
    requires entry.nodeId != exit.nodeId
    requires forall m :: m in picked ==>
               m.nodeId != entry.nodeId && m.nodeId != exit.nodeId && Fits(allowSameIp, m, [exit, entry])
    ensures DistinctIds([entry] + picked + [exit]) && Compatible(allowSameIp, [entry] + picked + [exit])
  {
    hide Clash;
    forall m | m in picked
      ensures !Clash(allowSameIp, m, exit) && !Clash(allowSameIp, entry, m)
    {
      assert exit in [exit, entry] && entry in [exit, entry];
      ClashBothWays(allowSameIp, m, entry);
    }
  }

  lemma {:induction false} ClashBothWays(allowSameIp: bool, a: Descriptor, b: Descriptor)
    ensures Clash(allowSameIp, a, b) <==> Clash(allowSameIp, b, a)
  {
  }

  // ----- when it fails -----

  // The middles picked before the selection stopped.
  function PickedSoFar(allowSameIp: bool, available: seq<Descriptor>, chosen: seq<Descriptor>, slots: nat,
          rng: Rng, k: nat)
    : seq<Descriptor>
    requires InRange(rng)
    decreases slots
  {
    var fit := Retained(allowSameIp, available, chosen);
    if slots == 0 || |fit| < slots then []
    else
      var i := Draw(rng, k, fit);
      [fit[i]] + PickedSoFar(allowSameIp, Without(fit, i), chosen + [fit[i]], slots - 1, rng, k + 1)
  }

  // The list still holds every known middle that is not chosen and clashes with nothing chosen.
  ghost predicate Covers(allowSameIp: bool, known: seq<Descriptor>, chosen: seq<Descriptor>,
          available: seq<Descriptor>) {
    forall m :: m in known && Fits(allowSameIp, m, chosen) && !HasId(chosen, m.nodeId) ==> m in available
  }

  ghost predicate HasId(nodes: seq<Descriptor>, id: string) {
    exists n :: n in nodes && n.nodeId == id
  }

  lemma {:induction false} StillCovers(allowSameIp: bool, known: seq<Descriptor>, chosen: seq<Descriptor>,
                                       available: seq<Descriptor>, i: nat)
    requires Covers(allowSameIp, known, chosen, available) && DistinctIds(available)
    requires i < |Retained(allowSameIp, available, chosen)|
    ensures var fit := Retained(allowSameIp, available, chosen);
            Covers(allowSameIp, known, chosen + [fit[i]], Without(fit, i))
  {
    hide Retained, Clash, Without;
    var fit := Retained(allowSameIp, available, chosen);
    RetainedIds(allowSameIp, available, chosen);
    WithoutIds(fit, i);
    forall m | m in known && Fits(allowSameIp, m, chosen + [fit[i]]) && !HasId(chosen + [fit[i]], m.nodeId)
      ensures m in Without(fit, i)
    {
      forall c | c in chosen
        ensures c in chosen + [fit[i]]
      {
      }
      assert fit[i] in chosen + [fit[i]];
    }
  }

  // Distinct ids need distinct places.
  lemma {:induction false} NoRoom(more: seq<Descriptor>, fit: seq<Descriptor>)
    requires DistinctIds(more) && forall m :: m in more ==> m in fit
    ensures |more| <= |fit|
  {
    var a, b := set m | m in more, set m | m in fit;
    SetOfDistinct(more);
    SetOfSeq(fit);
    assert a <= b;
    SubsetIsSmaller(a, b);
  }

  lemma {:induction false} SetOfDistinct(s: seq<Descriptor>)
    requires DistinctIds(s)
    ensures |set m | m in s| == |s|
  {
    if s != [] {
      SetOfDistinct(Init(s));
      assert (set m | m in s) == (set m | m in Init(s)) + {Last(s)};
    }
  }

  lemma {:induction false} SetOfSeq(s: seq<Descriptor>)
    ensures |set m | m in s| <= |s|
  {
    if s != [] {
      SetOfSeq(Init(s));
      assert (set m | m in s) == (set m | m in Init(s)) + {Last(s)};
    }
  }

  lemma {:induction false} SubsetIsSmaller<T>(a: set<T>, b: set<T>)
    requires a <= b
    ensures |a| <= |b|
  {
    if a != {} {
      var x :| x in a;
      SubsetIsSmaller(a - {x}, b - {x});
    }
  }

  // A middle slot fails only when the choice made so far has no completion at all.
  lemma {:induction false} MiddleFailureIsFinal(allowSameIp: bool, known: seq<Descriptor>, available: seq<Descriptor>,
                                                chosen: seq<Descriptor>, slots: nat, rng: Rng, k: nat,
                                                more: seq<Descriptor>)
    requires InRange(rng) && DistinctIds(available) && Covers(allowSameIp, known, chosen, available)
    requires PickMiddles(allowSameIp, available, chosen, slots, rng, k).Err?
    ensures var picked := PickedSoFar(allowSameIp, available, chosen, slots, rng, k);
            && |picked| < slots
            && !(Completes(allowSameIp, known, chosen + picked, slots - |picked|, more)
                 && forall m :: m in more ==> !HasId(chosen + picked, m.nodeId))
    decreases slots
  {
    hide Retained, Draw, Clash, Without, HasId, Fits;
    var fit := Retained(allowSameIp, available, chosen);
    if |fit| < slots {
      assert chosen + [] == chosen;
      if Completes(allowSameIp, known, chosen, slots, more) && forall m :: m in more ==> !HasId(chosen, m.nodeId) {
        NoRoom(more, fit);
        assert false;
      }
    } else {
      var i := Draw(rng, k, fit);
      RetainedIds(allowSameIp, available, chosen);
      WithoutIds(fit, i);
      StillCovers(allowSameIp, known, chosen, available, i);
      MiddleFailureIsFinal(allowSameIp, known, Without(fit, i), chosen + [fit[i]], slots - 1, rng, k + 1, more);
      var rest := PickedSoFar(allowSameIp, Without(fit, i), chosen + [fit[i]], slots - 1, rng, k + 1);
      assert chosen + [fit[i]] + rest == chosen + ([fit[i]] + rest);
    }
  }

  predicate Enough(entries: seq<Descriptor>, middles: seq<Descriptor>, exits: seq<Descriptor>, count: nat) {
    count >= 3 && entries != [] && exits != [] && |middles| >= count - 2
  }

  // The path agrees with everything drawn before the selection gave up.
  ghost predicate Extends(allowSameIp: bool, entries: seq<Descriptor>, middles: seq<Descriptor>, exits: seq<Descriptor>,
                          count: nat, rng: Rng, path: seq<Descriptor>)
    requires InRange(rng)
  {
    Enough(entries, middles, exits, count) ==>
      var exit, entry := exits[Draw(rng, 0, exits)], entries[Draw(rng, 1, entries)];
      var picked := PickedSoFar(allowSameIp, middles, [exit, entry], count - 2, rng, 2);
      |path| == count && path[0] == entry && path[count - 1] == exit
      && (!Clash(allowSameIp, entry, exit) ==> picked <= path[1..count - 1])
  }

  // Failure is sound: no valid path extends the draws that were made.
  lemma {:induction false} FailureIsFinal(allowSameIp: bool, entries: seq<Descriptor>, middles: seq<Descriptor>,
                                          exits: seq<Descriptor>, count: nat, rng: Rng, path: seq<Descriptor>)
    requires InRange(rng) && DistinctIds(entries + middles + exits)
    requires Path(allowSameIp, entries, middles, exits, count, rng).Err?
    requires Extends(allowSameIp, entries, middles, exits, count, rng, path)
    ensures !ValidPath(allowSameIp, entries, middles, exits, count, path)
  {
    hide Clash, Draw, PickMiddles, PickedSoFar, SharesIp, SharesOperator;
    if ValidPath(allowSameIp, entries, middles, exits, count, path) {
      MiddlesOfPath(allowSameIp, entries, middles, exits, count, path, 0);
      NoRoom(path[1..count - 1], middles);
      var exit, entry := exits[Draw(rng, 0, exits)], entries[Draw(rng, 1, entries)];
      EntryFitsExit(allowSameIp, entry, exit);
      PartsDistinct(entries, middles, exits, entry, exit);
      var picked := PickedSoFar(allowSameIp, middles, [exit, entry], count - 2, rng, 2);
      var n := |picked|;
      var more := path[1 + n..count - 1];
      AllAvailable(allowSameIp, middles, [exit, entry]);
      MiddlesOfPath(allowSameIp, entries, middles, exits, count, path, n);
      assert path[1..count - 1][..n] == path[1..1 + n] == picked;
      MiddleFailureIsFinal(allowSameIp, middles, middles, [exit, entry], count - 2, rng, 2, more);
      assert false;
    }
  }

  lemma {:induction false} AllAvailable(allowSameIp: bool, middles: seq<Descriptor>, chosen: seq<Descriptor>)
    ensures Covers(allowSameIp, middles, chosen, middles)
  {
  }

  // The middles of a valid path, from any of them on, complete what comes before.
  lemma {:induction false} MiddlesOfPath(allowSameIp: bool, entries: seq<Descriptor>, middles: seq<Descriptor>,
                                         exits: seq<Descriptor>, count: nat, path: seq<Descriptor>, n: nat)
    requires ValidPath(allowSameIp, entries, middles, exits, count, path) && n <= count - 2
    ensures var chosen, more := [path[count - 1], path[0]] + path[1..1 + n], path[1 + n..count - 1];
            && Completes(allowSameIp, middles, chosen, count - 2 - n, more)
            && forall m :: m in more ==> !HasId(chosen, m.nodeId)
  {
    hide Clash;
    var chosen, more := [path[count - 1], path[0]] + path[1..1 + n], path[1 + n..count - 1];
    forall m | m in more
      ensures m in middles && Fits(allowSameIp, m, chosen) && !HasId(chosen, m.nodeId)
    {
      var i :| 1 + n <= i < count - 1 && path[i] == m;
      forall c | c in chosen
        ensures !Clash(allowSameIp, m, c) && c.nodeId != m.nodeId
      {
        var j :| 0 <= j < count && path[j] == c && (j == count - 1 || j < 1 + n);
        ClashBothWays(allowSameIp, path[i], path[j]);
      }
    }
  }

  // ----- when it succeeds -----

  ghost predicate NothingClashes(allowSameIp: bool, nodes: seq<Descriptor>) {
    forall a, b :: a in nodes && b in nodes ==> !Clash(allowSameIp, a, b)
  }

  // With same IPs allowed and no operator tags nothing clashes.
  lemma {:induction false} UntaggedNeverClash(nodes: seq<Descriptor>)
    requires forall n :: n in nodes ==> n.operatorId == None
    ensures NothingClashes(true, nodes)
  {
  }

  lemma {:induction false} AllRetained(allowSameIp: bool, nodes: seq<Descriptor>, chosen: seq<Descriptor>)
    requires forall n :: n in nodes ==> Fits(allowSameIp, n, chosen)
    ensures Retained(allowSameIp, nodes, chosen) == nodes
  {
    if nodes != [] {
      AllRetained(allowSameIp, Init(nodes), chosen);
    }
  }

  lemma {:induction false} NoClashFits(allowSameIp: bool, all: seq<Descriptor>, n: Descriptor, chosen: seq<Descriptor>)
    requires NothingClashes(allowSameIp, all) && n in all && forall c :: c in chosen ==> c in all
    ensures Fits(allowSameIp, n, chosen)
  {
    hide Clash;
  }

  lemma {:induction false} WithoutShorter<T>(s: seq<T>, i: nat)
    requires i < |s|
    ensures |Without(s, i)| == |s| - 1
    ensures forall x :: x in Without(s, i) ==> x in s
  {
  }

  lemma {:induction false} PicksSucceed(allowSameIp: bool, all: seq<Descriptor>, available: seq<Descriptor>,
                                        chosen: seq<Descriptor>, slots: nat, rng: Rng, k: nat)
    requires InRange(rng) && NothingClashes(allowSameIp, all)
    requires forall n :: n in available || n in chosen ==> n in all
    requires |available| >= slots
    ensures PickMiddles(allowSameIp, available, chosen, slots, rng, k).Ok?
    decreases slots
  {
    hide Clash, Draw, Fits, Retained, Without;
    if slots > 0 {
      forall n | n in available
        ensures Fits(allowSameIp, n, chosen)
      {
        NoClashFits(allowSameIp, all, n, chosen);
      }
      AllRetained(allowSameIp, available, chosen);
      var i := Draw(rng, k, available);
      WithoutShorter(available, i);
      PicksSucceed(allowSameIp, all, Without(available, i), chosen + [available[i]], slots - 1, rng, k + 1);
    }
  }

  // When no two candidates clash, a path comes back for every draw exactly when there are enough
  // relays of each kind.
  lemma {:induction false} SucceedsExactlyWhenEnough(allowSameIp: bool, entries: seq<Descriptor>,
          middles: seq<Descriptor>,
                                                     exits: seq<Descriptor>, count: nat, rng: Rng)
    requires InRange(rng) && NothingClashes(allowSameIp, entries + middles + exits)
    ensures Path(allowSameIp, entries, middles, exits, count, rng).Ok? <==> Enough(entries, middles, exits, count)
  {
    hide PickMiddles, Draw;
    if Enough(entries, middles, exits, count) {
      var exit, entry := exits[Draw(rng, 0, exits)], entries[Draw(rng, 1, entries)];
      assert entry in entries + middles + exits && exit in entries + middles + exits;
      PicksSucceed(allowSameIp, entries + middles + exits, middles, [exit, entry], count - 2, rng, 2);
    }
  }

  function Example(id: string, t: NodeType, host: byte, operatorId: Option<string>): Descriptor {
    Descriptor(id, t, Address(V4(10, 0, 0, host), 9001), seq(32, _ => 0), [], 0, operatorId)
  }

  // Greedy is not complete: with these four relays and this draw it gives up, although a valid
  // path exists.
  lemma {:induction false} GreedyMayMissAPath()
    ensures exists entries: seq<Descriptor>, middles: seq<Descriptor>, exits: seq<Descriptor>, rng: Rng,
            path: seq<Descriptor> ::
              && InRange(rng) && DistinctIds(entries + middles + exits)
              && Path(false, entries, middles, exits, 3, rng) == Err(EntryExitShareOperator)
              && ValidPath(false, entries, middles, exits, 3, path)
  {
    hide Path, ValidPath, Enough;
    var entry := Example("e", EntryNode, 1, Some("op"));
    var middle := Example("m", MiddleNode, 2, None);
    var same := Example("s", ExitNode, 3, Some("op"));
    var other := Example("o", ExitNode, 4, None);
    var rng: Rng := (k, bound) => 0;
    var entries, middles, exits, path := [entry], [middle], [same, other], [entry, middle, other];
    GivesUp(entry, middle, same, other, rng);
    OtherPath(entry, middle, same, other);
    assert Path(false, entries, middles, exits, 3, rng) == Err(EntryExitShareOperator);
    assert ValidPath(false, entries, middles, exits, 3, path);
  }

  lemma {:induction false} GivesUp(entry: Descriptor, middle: Descriptor, same: Descriptor, other: Descriptor, rng: Rng)
    requires InRange(rng) && forall k, bound :: rng(k, bound) == 0
    requires entry.bandwidth == same.bandwidth == other.bandwidth == 0
    requires entry.address.ip != same.address.ip && SharesOperator(entry, same)
    ensures Path(false, [entry], [middle], [same, other], 3, rng) == Err(EntryExitShareOperator)
  {
    hide Draw, PickMiddles;
    ZeroDraw(rng, 0, [same, other]);
    ZeroDraw(rng, 1, [entry]);
  }

  lemma {:induction false} OtherPath(entry: Descriptor, middle: Descriptor, same: Descriptor, other: Descriptor)
    requires DistinctIds([entry, middle, same, other])
    requires Compatible(false, [entry, middle, other])
    ensures ValidPath(false, [entry], [middle], [same, other], 3, [entry, middle, other])
    ensures DistinctIds([entry] + [middle] + [same, other])
  {
    hide Clash;
    var all, path := [entry, middle, same, other], [entry, middle, other];
    assert [entry] + [middle] + [same, other] == all;
    assert path[0] == all[0] && path[1] == all[1] && path[2] == all[3];
  }

  lemma {:induction false} ZeroDraw(rng: Rng, k: nat, nodes: seq<Descriptor>)
    requires InRange(rng) && nodes != [] && forall bound :: rng(k, bound) == 0
    requires forall n :: n in nodes ==> n.bandwidth == 0
    ensures Draw(rng, k, nodes) == 0
  {
    NoBandwidth(nodes);
  }

  lemma {:induction false} NoBandwidth(nodes: seq<Descriptor>)
    requires forall n :: n in nodes ==> n.bandwidth == 0
    ensures Sum(Bandwidths(nodes)) == 0
  {
    if nodes != [] {
      NoBandwidth(Init(nodes));
      assert Init(Bandwidths(nodes)) == Bandwidths(Init(nodes));
    }
  }
}
