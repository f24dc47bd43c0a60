// When path selection never fails (services/discovery/src/core/registry.rs:134-286): a condition on
// the nodes alone, with no random draw in it.
module PathCompleteness {
  import opened Sequences
  import opened WeightedSampling
  import opened Directory
  import opened PathSelection

  // ----- what the sampler can pick -----

  // Of a list the sampler can pick a node of positive bandwidth, or any node if none has bandwidth.
  predicate Drawable(nodes: seq<Descriptor>, n: Descriptor) {
    n in nodes && (n.bandwidth > 0 || forall m :: m in nodes ==> m.bandwidth == 0)
  }

  lemma {:induction false} NoBandwidthAnywhere(nodes: seq<Descriptor>)
    ensures Sum(Bandwidths(nodes)) == 0 <==> forall n :: n in nodes ==> n.bandwidth == 0
  {
    if nodes != [] {
      NoBandwidthAnywhere(Init(nodes));
      assert Init(Bandwidths(nodes)) == Bandwidths(Init(nodes));
      assert forall n :: n in nodes <==> n in Init(nodes) || n == Last(nodes);
    }
  }

  // Every draw picks a drawable node.
  lemma {:induction false} PicksOnlyDrawable(rng: Rng, k: nat, nodes: seq<Descriptor>)
    requires InRange(rng) && nodes != []
    ensures Drawable(nodes, nodes[Draw(rng, k, nodes)])
  {
    var weights := Bandwidths(nodes);
    NoBandwidthAnywhere(nodes);
    if Sum(weights) > 0 {
      SumNext(weights, Draw(rng, k, nodes));
    }
  }

  // A draw that picks node i.
  function DrawFor(nodes: seq<Descriptor>, i: nat): nat
    requires i < |nodes|
  {
    if Sum(Bandwidths(nodes)) == 0 then i else Sum(Bandwidths(nodes)[..i])
  }

  // Every drawable node is picked by some draw.
  lemma {:induction false} DrawForPicks(nodes: seq<Descriptor>, i: nat)
    requires i < |nodes| && Drawable(nodes, nodes[i])
    ensures DrawFor(nodes, i) < DrawBound(Bandwidths(nodes))
    ensures Chosen(Bandwidths(nodes), DrawFor(nodes, i)) == i
  {
    var weights := Bandwidths(nodes);
    NoBandwidthAnywhere(nodes);
    if Sum(weights) > 0 {
      assert weights[i] > 0;
      SumNext(weights, i);
      SumGrows(weights, i + 1, |weights|);
      assert weights[..|weights|] == weights;
      var draw := Sum(weights[..i]);
      StretchesDisjoint(weights, draw, i, Selected(weights, draw));
    }
  }

  // ----- the candidates for the next middle -----

  // The middles that are not chosen and clash with nothing chosen.
  ghost function Candidates(allowSameIp: bool, middles: seq<Descriptor>, chosen: seq<Descriptor>): (r: seq<Descriptor>)
    ensures forall n :: n in r <==> n in middles && Fits(allowSameIp, n, chosen) && !HasId(chosen, n.nodeId)
  {
    if middles == [] then []
    else
      var rest, n := Candidates(allowSameIp, Init(middles), chosen), Last(middles);
      if Fits(allowSameIp, n, chosen) && !HasId(chosen, n.nodeId) then rest + [n] else rest
  }

  lemma {:induction false} FitsOneMore(allowSameIp: bool, n: Descriptor, chosen: seq<Descriptor>, x: Descriptor)
    ensures Fits(allowSameIp, n, chosen + [x]) <==> Fits(allowSameIp, n, chosen) && !Clash(allowSameIp, n, x)
    ensures HasId(chosen + [x], n.nodeId) <==> HasId(chosen, n.nodeId) || n.nodeId == x.nodeId
  {
    hide Clash;
    assert forall c :: c in chosen + [x] <==> c in chosen || c == x;
  }

  // At the start nothing chosen is a middle.
  lemma {:induction false} FirstCandidates(allowSameIp: bool, middles: seq<Descriptor>, chosen: seq<Descriptor>)
    requires forall n :: n in middles ==> !HasId(chosen, n.nodeId)
    ensures Retained(allowSameIp, middles, chosen) == Candidates(allowSameIp, middles, chosen)
  {
    hide Fits, HasId;
    if middles != [] {
      FirstCandidates(allowSameIp, Init(middles), chosen);
    }
  }

  lemma {:induction false} RetainedCandidates(allowSameIp: bool, middles: seq<Descriptor>, chosen: seq<Descriptor>,
                                              x: Descriptor)
    requires forall n :: n in middles ==> n.nodeId != x.nodeId
    ensures Retained(allowSameIp, Candidates(allowSameIp, middles, chosen), chosen + [x])
         == Candidates(allowSameIp, middles, chosen + [x])
  {
    hide Fits, HasId;
    if middles != [] {
      RetainedCandidates(allowSameIp, Init(middles), chosen, x);
      FitsOneMore(allowSameIp, Last(middles), chosen, x);
      var rest := Candidates(allowSameIp, Init(middles), chosen);
      assert Init(rest + [Last(middles)]) == rest;
    }
  }

  // What remains of the list after a pick and the next filtering are the next candidates.
  lemma {:induction false} NextCandidates(allowSameIp: bool, middles: seq<Descriptor>, chosen: seq<Descriptor>, i: nat)
    requires DistinctIds(middles) && i < |Candidates(allowSameIp, middles, chosen)|
    ensures var c := Candidates(allowSameIp, middles, chosen);
            Retained(allowSameIp, Without(c, i), chosen + [c[i]]) == Candidates(allowSameIp, middles, chosen + [c[i]])
  {
    hide Fits, HasId, Retained, DistinctIds, Candidates, Without;
    NoneFromNone(allowSameIp, middles, chosen);
    InitIds(middles);
    var before, n := Init(middles), Last(middles);
    var c, rest := Candidates(allowSameIp, middles, chosen), Candidates(allowSameIp, before, chosen);
    LastCandidate(allowSameIp, middles, chosen);
    LastCandidate(allowSameIp, middles, chosen + [c[i]]);
    FitsOneMore(allowSameIp, n, chosen, c[i]);
    if c == rest {
      NextCandidates(allowSameIp, before, chosen, i);
    } else if i == |c| - 1 {
      WithoutLast(rest, n);
      RetainedCandidates(allowSameIp, before, chosen, n);
    } else {
      NextCandidates(allowSameIp, before, chosen, i);
      WithoutEarlier(rest, n, i);
      assert c[i] == rest[i] && rest[i] in before;
      RetainedAppend(allowSameIp, Without(rest, i), n, chosen + [c[i]]);
    }
  }

  lemma {:induction false} NoneFromNone(allowSameIp: bool, middles: seq<Descriptor>, chosen: seq<Descriptor>)
    ensures Candidates(allowSameIp, middles, chosen) != [] ==> middles != []
  {
  }

  lemma {:induction false} InitIds(nodes: seq<Descriptor>)
    requires nodes != [] && DistinctIds(nodes)
    ensures DistinctIds(Init(nodes)) && forall n :: n in Init(nodes) ==> n.nodeId != Last(nodes).nodeId
  {
  }

  lemma {:induction false} LastCandidate(allowSameIp: bool, middles: seq<Descriptor>, chosen: seq<Descriptor>)
    requires middles != []
    ensures Candidates(allowSameIp, middles, chosen) ==
            if Fits(allowSameIp, Last(middles), chosen) && !HasId(chosen, Last(middles).nodeId)
            then Candidates(allowSameIp, Init(middles), chosen) + [Last(middles)]
            else Candidates(allowSameIp, Init(middles), chosen)
  {
    hide Fits, HasId;
  }

  lemma {:induction false} WithoutLast(rest: seq<Descriptor>, n: Descriptor)
    ensures Without(rest + [n], |rest|) == rest
  {
  }

  lemma {:induction false} WithoutEarlier(rest: seq<Descriptor>, n: Descriptor, i: nat)
    requires i < |rest|
    ensures Without(rest + [n], i) == Without(rest, i) + [n]
  {
  }

  lemma {:induction false} RetainedAppend(allowSameIp: bool, nodes: seq<Descriptor>, n: Descriptor,
          chosen: seq<Descriptor>)
    ensures Retained(allowSameIp, nodes + [n], chosen)
         == if Fits(allowSameIp, n, chosen) then Retained(allowSameIp, nodes, chosen) + [n]
            else Retained(allowSameIp, nodes, chosen)
  {
    assert Init(nodes + [n]) == nodes;
  }

  // ----- lists of middles the sampler can pick -----

  ghost predicate Pickable(allowSameIp: bool, middles: seq<Descriptor>, chosen: seq<Descriptor>, picks: seq<Descriptor>)
    decreases |picks|
  {
    picks == []
    || (Drawable(Candidates(allowSameIp, middles, chosen), picks[0])
        && Pickable(allowSameIp, middles, chosen + [picks[0]], picks[1..]))
  }

  // However the middles are drawn, enough candidates are left for the slots still open.
  ghost predicate NeverStuck(allowSameIp: bool, middles: seq<Descriptor>, chosen: seq<Descriptor>, slots: nat) {
    forall picks :: |picks| < slots && Pickable(allowSameIp, middles, chosen, picks) ==>
      |Candidates(allowSameIp, middles, chosen + picks)| >= slots - |picks|
  }

  lemma {:induction false} NeverStuckNow(allowSameIp: bool, middles: seq<Descriptor>, chosen: seq<Descriptor>,
          slots: nat)
    requires NeverStuck(allowSameIp, middles, chosen, slots) && slots > 0
    ensures |Candidates(allowSameIp, middles, chosen)| >= slots
  {
    var none: seq<Descriptor> := [];
    assert Pickable(allowSameIp, middles, chosen, none);
    assert chosen + none == chosen;
  }

  lemma {:induction false} NeverStuckNext(allowSameIp: bool, middles: seq<Descriptor>, chosen: seq<Descriptor>,
          slots: nat, x: Descriptor)
    requires NeverStuck(allowSameIp, middles, chosen, slots) && slots > 0
    requires Drawable(Candidates(allowSameIp, middles, chosen), x)
    ensures NeverStuck(allowSameIp, middles, chosen + [x], slots - 1)
  {
    hide Candidates, Drawable;
    forall picks | |picks| < slots - 1 && Pickable(allowSameIp, middles, chosen + [x], picks)
      ensures |Candidates(allowSameIp, middles, chosen + [x] + picks)| >= slots - 1 - |picks|
    {
      NeverStuckAfter(allowSameIp, middles, chosen, slots, x, picks);
    }
  }

  lemma {:induction false} NeverStuckAfter(allowSameIp: bool, middles: seq<Descriptor>, chosen: seq<Descriptor>,
          slots: nat, x: Descriptor, picks: seq<Descriptor>)
    requires NeverStuck(allowSameIp, middles, chosen, slots) && |picks| + 1 < slots
    requires Drawable(Candidates(allowSameIp, middles, chosen), x)
    requires Pickable(allowSameIp, middles, chosen + [x], picks)
    ensures |Candidates(allowSameIp, middles, chosen + [x] + picks)| >= slots - 1 - |picks|
  {
    hide Candidates, Drawable;
    var all := [x] + picks;
    assert all[0] == x && all[1..] == picks;
    assert Pickable(allowSameIp, middles, chosen, all);
    OneThenRest(chosen, all);
  }

  lemma {:induction false} NeverStuckPicks(allowSameIp: bool, middles: seq<Descriptor>, available: seq<Descriptor>,
                                           chosen: seq<Descriptor>, slots: nat, rng: Rng, k: nat)
    requires InRange(rng) && DistinctIds(middles)
    requires Retained(allowSameIp, available, chosen) == Candidates(allowSameIp, middles, chosen)
    requires NeverStuck(allowSameIp, middles, chosen, slots)
    ensures PickMiddles(allowSameIp, available, chosen, slots, rng, k).Ok?
    decreases slots
  {
    hide Retained, Candidates, NeverStuck, Draw, Without, Drawable;
    if slots > 0 {
      var fit := Candidates(allowSameIp, middles, chosen);
      NeverStuckNow(allowSameIp, middles, chosen, slots);
      var i := Draw(rng, k, fit);
      PicksOnlyDrawable(rng, k, fit);
      NeverStuckNext(allowSameIp, middles, chosen, slots, fit[i]);
      NextCandidates(allowSameIp, middles, chosen, i);
      NeverStuckPicks(allowSameIp, middles, Without(fit, i), chosen + [fit[i]], slots - 1, rng, k + 1);
    }
  }

  // ----- steering the draws -----

  ghost function IndexIn(nodes: seq<Descriptor>, n: Descriptor): (i: nat)
    requires n in nodes
    ensures i < |nodes| && nodes[i] == n
  {
    var i :| 0 <= i < |nodes| && nodes[i] == n;
    i
  }

  // The draws that pick exactly these middles.
  ghost function DrawsFor(allowSameIp: bool, middles: seq<Descriptor>, chosen: seq<Descriptor>, picks: seq<Descriptor>)
    : (draws: seq<nat>)
    requires Pickable(allowSameIp, middles, chosen, picks)
    ensures |draws| == |picks|
    decreases |picks|
  {
    if picks == [] then []
    else
      var c := Candidates(allowSameIp, middles, chosen);
      [DrawFor(c, IndexIn(c, picks[0]))] + DrawsFor(allowSameIp, middles, chosen + [picks[0]], picks[1..])
  }

  function Steer(draws: seq<nat>): Rng {
    (k: nat, bound: nat) => if k < |draws| && draws[k] < bound then draws[k] else 0
  }

  lemma {:induction false} SteeredDraw(draws: seq<nat>, k: nat, nodes: seq<Descriptor>, i: nat)
    requires k < |draws| && i < |nodes| && Drawable(nodes, nodes[i]) && draws[k] == DrawFor(nodes, i)
    ensures InRange(Steer(draws)) && Draw(Steer(draws), k, nodes) == i
  {
    DrawForPicks(nodes, i);
  }

  // Draws that lead to a list with too few candidates left make the selection fail.
  lemma {:induction false} StuckFails(allowSameIp: bool, middles: seq<Descriptor>, available: seq<Descriptor>,
                                      chosen: seq<Descriptor>, slots: nat, picks: seq<Descriptor>, draws: seq<nat>,
                                          k: nat)
    requires InRange(Steer(draws)) && DistinctIds(middles)
    requires Retained(allowSameIp, available, chosen) == Candidates(allowSameIp, middles, chosen)
    requires Pickable(allowSameIp, middles, chosen, picks) && |picks| < slots
    requires |Candidates(allowSameIp, middles, chosen + picks)| < slots - |picks|
    requires k <= |draws| && draws[k..] == DrawsFor(allowSameIp, middles, chosen, picks)
    ensures PickMiddles(allowSameIp, available, chosen, slots, Steer(draws), k).Err?
    decreases slots
  {
    hide Retained, Candidates, Draw, Without, Drawable, DrawFor, InRange, Steer;
    var fit := Candidates(allowSameIp, middles, chosen);
    if picks == [] {
      assert chosen + picks == chosen;
    } else if |fit| >= slots {
      var x, rest := picks[0], picks[1..];
      PickedIsIn(fit, x);
      var i := IndexIn(fit, x);
      assert draws[k] == draws[k..][0] && draws[k + 1..] == draws[k..][1..];
      SteeredDraw(draws, k, fit, i);
      NextCandidates(allowSameIp, middles, chosen, i);
      OneThenRest(chosen, picks);
      StuckFails(allowSameIp, middles, Without(fit, i), chosen + [x], slots - 1, rest, draws, k + 1);
    }
  }

  lemma {:induction false} OneThenRest(chosen: seq<Descriptor>, picks: seq<Descriptor>)
    requires picks != []
    ensures chosen + picks == chosen + [picks[0]] + picks[1..]
  {
  }

  lemma {:induction false} PickedIsIn(nodes: seq<Descriptor>, n: Descriptor)
    requires Drawable(nodes, n)
    ensures n in nodes
  {
  }

  lemma {:induction false} SteerInRange(draws: seq<nat>)
    ensures InRange(Steer(draws))
  {
  }

  // ----- the exact condition -----

  // No pair of entry and exit the sampler can pick clashes, or can run out of middles.
  ghost predicate PairsWork(allowSameIp: bool, entries: seq<Descriptor>, middles: seq<Descriptor>,
          exits: seq<Descriptor>, slots: nat) {
    forall entry, exit :: Drawable(entries, entry) && Drawable(exits, exit) ==>
      !Clash(allowSameIp, entry, exit) && NeverStuck(allowSameIp, middles, [exit, entry], slots)
  }

  ghost predicate NeverFails(allowSameIp: bool, entries: seq<Descriptor>, middles: seq<Descriptor>,
                             exits: seq<Descriptor>, count: nat) {
    forall rng :: InRange(rng) ==> Path(allowSameIp, entries, middles, exits, count, rng).Ok?
  }

  // Selection succeeds for all draws if and only if there are enough nodes of each kind and every
  // entry, exit and list of middles the sampler can pick leaves enough candidates.
  lemma {:induction false} NeverFailsExactly(allowSameIp: bool, entries: seq<Descriptor>, middles: seq<Descriptor>,
                                             exits: seq<Descriptor>, count: nat)
    requires DistinctIds(entries + middles + exits)
    ensures NeverFails(allowSameIp, entries, middles, exits, count) <==>
              Enough(entries, middles, exits, count)
              && PairsWork(allowSameIp, entries, middles, exits, count - 2)
  {
    hide PairsWork, Path, InRange, DistinctIds;
    if Enough(entries, middles, exits, count) && PairsWork(allowSameIp, entries, middles, exits, count - 2) {
      forall rng | InRange(rng)
        ensures Path(allowSameIp, entries, middles, exits, count, rng).Ok?
      {
        ConditionSuffices(allowSameIp, entries, middles, exits, count, rng);
      }
    }
    if NeverFails(allowSameIp, entries, middles, exits, count) {
      EnoughIsNeeded(allowSameIp, entries, middles, exits, count);
      PairsAreNeeded(allowSameIp, entries, middles, exits, count);
    }
  }

  lemma {:induction false} ConditionSuffices(allowSameIp: bool, entries: seq<Descriptor>, middles: seq<Descriptor>,
                                             exits: seq<Descriptor>, count: nat, rng: Rng)
    requires InRange(rng) && DistinctIds(entries + middles + exits) && Enough(entries, middles, exits, count)
    requires PairsWork(allowSameIp, entries, middles, exits, count - 2)
    ensures Path(allowSameIp, entries, middles, exits, count, rng).Ok?
  {
    hide Draw, Drawable, NeverStuck, PickMiddles, Clash, SharesIp, SharesOperator, InRange, DistinctIds;
    var exit, entry := exits[Draw(rng, 0, exits)], entries[Draw(rng, 1, entries)];
    PicksOnlyDrawable(rng, 0, exits);
    PicksOnlyDrawable(rng, 1, entries);
    EntryFitsExit(allowSameIp, entry, exit);
    AfterTheEnds(allowSameIp, entries, middles, exits, entry, exit);
    NeverStuckPicks(allowSameIp, middles, middles, [exit, entry], count - 2, rng, 2);
  }

  lemma {:induction false} AfterTheEnds(allowSameIp: bool, entries: seq<Descriptor>, middles: seq<Descriptor>,
                                        exits: seq<Descriptor>, entry: Descriptor, exit: Descriptor)
    requires DistinctIds(entries + middles + exits) && entry in entries && exit in exits
    ensures DistinctIds(middles)
    ensures Retained(allowSameIp, middles, [exit, entry]) == Candidates(allowSameIp, middles, [exit, entry])
  {
    hide DistinctIds, Retained, Candidates;
    PartsDistinct(entries, middles, exits, entry, exit);
    FirstCandidates(allowSameIp, middles, [exit, entry]);
  }

  lemma {:induction false} EnoughIsNeeded(allowSameIp: bool, entries: seq<Descriptor>, middles: seq<Descriptor>,
                                          exits: seq<Descriptor>, count: nat)
    requires NeverFails(allowSameIp, entries, middles, exits, count)
    ensures Enough(entries, middles, exits, count)
  {
    hide Draw, PickMiddles;
    SteerInRange([]);
    assert Path(allowSameIp, entries, middles, exits, count, Steer([])).Ok?;
  }

  lemma {:induction false} PairsAreNeeded(allowSameIp: bool, entries: seq<Descriptor>, middles: seq<Descriptor>,
                                          exits: seq<Descriptor>, count: nat)
    requires DistinctIds(entries + middles + exits) && Enough(entries, middles, exits, count)
    requires NeverFails(allowSameIp, entries, middles, exits, count)
    ensures PairsWork(allowSameIp, entries, middles, exits, count - 2)
  {
    hide Drawable, Clash, Path, InRange, DistinctIds, Candidates, Pickable;
    forall entry, exit | Drawable(entries, entry) && Drawable(exits, exit)
      ensures !Clash(allowSameIp, entry, exit) && NeverStuck(allowSameIp, middles, [exit, entry], count - 2)
    {
      NoPicks(allowSameIp, middles, [exit, entry]);
      PairIsNeeded(allowSameIp, entries, middles, exits, count, entry, exit, []);
      forall picks | |picks| < count - 2 && Pickable(allowSameIp, middles, [exit, entry], picks)
        ensures |Candidates(allowSameIp, middles, [exit, entry] + picks)| >= count - 2 - |picks|
      {
        PairIsNeeded(allowSameIp, entries, middles, exits, count, entry, exit, picks);
      }
    }
  }

  lemma {:induction false} NoPicks(allowSameIp: bool, middles: seq<Descriptor>, chosen: seq<Descriptor>)
    ensures Pickable(allowSameIp, middles, chosen, [])
  {
  }

  // Otherwise the draws that pick this pair and these middles fail.
  lemma {:induction false} PairIsNeeded(allowSameIp: bool, entries: seq<Descriptor>, middles: seq<Descriptor>,
                                        exits: seq<Descriptor>, count: nat, entry: Descriptor, exit: Descriptor,
                                        picks: seq<Descriptor>)
    requires DistinctIds(entries + middles + exits) && Enough(entries, middles, exits, count)
    requires NeverFails(allowSameIp, entries, middles, exits, count)
    requires Drawable(entries, entry) && Drawable(exits, exit)
    requires Pickable(allowSameIp, middles, [exit, entry], picks)
    ensures !Clash(allowSameIp, entry, exit)
    ensures |picks| < count - 2 ==> |Candidates(allowSameIp, middles, [exit, entry] + picks)| >= count - 2 - |picks|
  {
    hide Drawable, Draw, PickMiddles, Pickable, Candidates, Clash, SharesIp, SharesOperator, InRange, DistinctIds,
         Steer, DrawFor, Retained;
    PickedIsIn(entries, entry);
    PickedIsIn(exits, exit);
    var i, j := IndexIn(exits, exit), IndexIn(entries, entry);
    var more := DrawsFor(allowSameIp, middles, [exit, entry], picks);
    var draws := [DrawFor(exits, i), DrawFor(entries, j)] + more;
    SteerInRange(draws);
    SteeredDraw(draws, 0, exits, i);
    SteeredDraw(draws, 1, entries, j);
    EntryFitsExit(allowSameIp, entry, exit);
    AfterTheEnds(allowSameIp, entries, middles, exits, entry, exit);
    assert draws[2..] == more;
    assert Path(allowSameIp, entries, middles, exits, count, Steer(draws)).Ok?;
    if |picks| < count - 2 && |Candidates(allowSameIp, middles, [exit, entry] + picks)| < count - 2 - |picks| {
      StuckFails(allowSameIp, middles, middles, [exit, entry], count - 2, picks, draws, 2);
      assert false;
    }
  }

  // With three hops: every pair the sampler can pick is free of clashes and has a middle that fits.
  lemma {:induction false} ThreeHopsNeverFailExactly(allowSameIp: bool, entries: seq<Descriptor>,
                                                     middles: seq<Descriptor>, exits: seq<Descriptor>)
    requires DistinctIds(entries + middles + exits)
    ensures NeverFails(allowSameIp, entries, middles, exits, 3) <==>
              && entries != [] && exits != [] && middles != []
              && forall entry, exit :: Drawable(entries, entry) && Drawable(exits, exit) ==>
                   && !Clash(allowSameIp, entry, exit)
                   && exists m :: m in middles && Fits(allowSameIp, m, [exit, entry])
  {
    hide Drawable, Clash, NeverFails, Fits, NeverStuck, DistinctIds;
    NeverFailsExactly(allowSameIp, entries, middles, exits, 3);
    forall entry, exit | Drawable(entries, entry) && Drawable(exits, exit)
      ensures NeverStuck(allowSameIp, middles, [exit, entry], 1) <==>
                exists m :: m in middles && Fits(allowSameIp, m, [exit, entry])
    {
      PickedIsIn(entries, entry);
      PickedIsIn(exits, exit);
      PartsDistinct(entries, middles, exits, entry, exit);
      OneSlot(allowSameIp, middles, [exit, entry]);
    }
  }

  lemma {:induction false} OneSlot(allowSameIp: bool, middles: seq<Descriptor>, chosen: seq<Descriptor>)
    requires forall m :: m in middles ==> !HasId(chosen, m.nodeId)
    ensures NeverStuck(allowSameIp, middles, chosen, 1) <==>
              exists m :: m in middles && Fits(allowSameIp, m, chosen)
  {
    hide Fits, HasId, Pickable;
    var c := Candidates(allowSameIp, middles, chosen);
    if NeverStuck(allowSameIp, middles, chosen, 1) {
      NeverStuckNow(allowSameIp, middles, chosen, 1);
      assert c[0] in middles && Fits(allowSameIp, c[0], chosen);
    }
    if exists m :: m in middles && Fits(allowSameIp, m, chosen) {
      var m :| m in middles && Fits(allowSameIp, m, chosen);
      assert m in c;
      forall picks: seq<Descriptor> | |picks| < 1
        ensures chosen + picks == chosen
      {
      }
    }
  }
}
