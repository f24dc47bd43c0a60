// The client's pool of circuits (services/tor-client/src/core/circuit.rs:356-629) and the
// background tasks that work on it (:650-885).
module CircuitPool {
  import opened Wrappers
  import opened Sequences
  import opened Cell
  import opened Clock
  import CC = ClientCircuit

  type CircuitState = CC.CircuitState

  // A circuit as the pool sees it: its state and its registered streams.
  datatype Circuit = Circuit(state: CircuitState, streams: set<u16>)

  datatype Config = Config(maxAge: nat, maxAttempts: nat)

  // `issued` is history: how many circuit ids have been allocated.
  datatype Pool = Pool(
    circuits: map<u32, Circuit>, nextId: u32, ages: map<u32, nat>,
    failures: map<u32, nat>, abandoned: set<u32>, issued: nat)

  const EMPTY := Pool(map[], 1, map[], map[], {}, 0)

  // ----- the operations on the pool -----

  // Allocate an id first; only a successful build enters the pool.
  function AfterBuild(p: Pool, now: nat, built: bool): Pool {
    var q := p.(nextId := (p.nextId + 1) % 0x1_0000_0000, issued := p.issued + 1);
    if !built then q
    else q.(circuits := q.circuits[p.nextId := Circuit(CC.Ready, {})], ages := q.ages[p.nextId := now])
  }

  predicate IsReady(p: Pool, id: u32) {
    id in p.circuits && p.circuits[id].state == CC.Ready
  }

  predicate Expires(c: Config, p: Pool, now: nat, id: u32) {
    IsReady(p, id) && id in p.ages && Elapsed(now, p.ages[id]) >= c.maxAge
  }

  function Expired(c: Config, p: Pool, now: nat): set<u32> {
    set id | id in p.circuits && Expires(c, p, now, id)
  }

  function MarkDirty(p: Pool, ids: set<u32>): Pool {
    p.(circuits := map id | id in p.circuits ::
                     if id in ids then p.circuits[id].(state := CC.Dirty) else p.circuits[id],
       ages := p.ages - ids)
  }

  // The failed circuit leaves the pool first; success forgets its failures, failure counts one
  // more and may use up its budget.
  function AfterReplace(c: Config, p: Pool, failed: u32, now: nat, built: bool): Pool {
    var q := AfterBuild(p.(circuits := p.circuits - {failed}), now, built);
    if built then q.(failures := q.failures - {failed})
    else
      var n := (if failed in q.failures then q.failures[failed] else 0) + 1;
      q.(failures := q.failures[failed := n],
         abandoned := if n >= c.maxAttempts then q.abandoned + {failed} else q.abandoned)
  }

  datatype Operation =
    | Build(built: bool)
    | Expire
    | Replace(id: u32, built: bool)
    | Close(id: u32)                     // the reader of the circuit ends
    | Remove(id: u32)                    // the monitor drops an idle dirty circuit
    | Register(id: u32, stream: u16)
    | Unregister(id: u32, stream: u16)

  function Update(p: Pool, id: u32, c: Circuit): Pool {
    if id in p.circuits then p.(circuits := p.circuits[id := c]) else p
  }

  function After(c: Config, p: Pool, op: Operation, now: nat): Pool {
    match op
    case Build(built) => AfterBuild(p, now, built)
    case Expire => MarkDirty(p, Expired(c, p, now))
    case Replace(id, built) => AfterReplace(c, p, id, now, built)
    case Close(id) => Update(p, id, Circuit(CC.Closed, {}))
    case Remove(id) => p.(circuits := p.circuits - {id})
    case Register(id, s) =>
      if id in p.circuits then Update(p, id, p.circuits[id].(streams := p.circuits[id].streams + {s})) else p
    case Unregister(id, s) =>
      if id in p.circuits then Update(p, id, p.circuits[id].(streams := p.circuits[id].streams - {s})) else p
  }

  // Ids are not reused, and only circuits that once existed are replaced.
  predicate Allowed(p: Pool, op: Operation) {
    match op
    case Build(_) => p.issued + 2 < 0x1_0000_0000
    case Replace(id, _) => p.issued + 2 < 0x1_0000_0000 && 0 < id < p.nextId
    case _ => true
  }

  function Run(c: Config, ops: seq<(Operation, nat)>): Pool {
    if ops == [] then EMPTY
    else
      var p := Run(c, Init(ops));
      if Allowed(p, Last(ops).0) then After(c, p, Last(ops).0, Last(ops).1) else p
  }

  // ----- the invariant -----

  ghost predicate Known(p: Pool, ids: set<u32>) {
    forall id :: id in ids ==> 0 < id < p.nextId
  }

  ghost predicate Inv(c: Config, p: Pool) {
    && p.nextId == p.issued + 1
    && Known(p, p.circuits.Keys) && Known(p, p.ages.Keys) && Known(p, p.failures.Keys) && Known(p, p.abandoned)
    && (forall id :: id in p.circuits && p.circuits[id].state == CC.Ready ==> id in p.ages)
    && (forall id :: id in p.circuits && p.circuits[id].state == CC.Dirty ==> id !in p.ages)
    && (forall id :: id in p.circuits ==> p.circuits[id].state in {CC.Ready, CC.Dirty, CC.Closed})
    && p.circuits.Keys !! p.failures.Keys
    && (forall id :: id in p.failures ==> p.failures[id] > 0)
    && (forall id :: id in p.failures && p.failures[id] >= c.maxAttempts ==> id in p.abandoned)
  }

  lemma {:induction false} BuildKeepsInv(c: Config, p: Pool, now: nat, built: bool)
    requires Inv(c, p) && p.issued + 2 < 0x1_0000_0000
    ensures Inv(c, AfterBuild(p, now, built))
  {
  }

  lemma {:induction false} RemoveKeepsInv(c: Config, p: Pool, id: u32)
    requires Inv(c, p)
    ensures Inv(c, p.(circuits := p.circuits - {id}))
  {
  }

  lemma {:induction false} ForgetKeepsInv(c: Config, p: Pool, id: u32)
    requires Inv(c, p)
    ensures Inv(c, p.(failures := p.failures - {id}))
  {
  }

  lemma {:induction false} CountKeepsInv(c: Config, p: Pool, id: u32, n: nat)
    requires Inv(c, p) && 0 < id < p.nextId && id !in p.circuits && n > 0
    ensures Inv(c, p.(failures := p.failures[id := n],
                      abandoned := if n >= c.maxAttempts then p.abandoned + {id} else p.abandoned))
  {
  }

  lemma {:induction false} ReplaceKeepsInv(c: Config, p: Pool, failed: u32, now: nat, built: bool)
    requires Inv(c, p) && p.issued + 2 < 0x1_0000_0000 && 0 < failed < p.nextId
    ensures Inv(c, AfterReplace(c, p, failed, now, built))
  {
    hide Inv;
    var q := p.(circuits := p.circuits - {failed});
    RemoveKeepsInv(c, p, failed);
    BuildKeepsInv(c, q, now, built);
    var r := AfterBuild(q, now, built);
    NextIdMoves(c, p);
    if built {
      ForgetKeepsInv(c, r, failed);
    } else {
      CountKeepsInv(c, r, failed, (if failed in r.failures then r.failures[failed] else 0) + 1);
    }
  }

  lemma {:induction false} NextIdMoves(c: Config, p: Pool)
    requires Inv(c, p) && p.issued + 2 < 0x1_0000_0000
    ensures (p.nextId + 1) % 0x1_0000_0000 == p.nextId + 1
  {
  }

  lemma {:induction false} UpdateKeepsInv(c: Config, p: Pool, id: u32, x: Circuit)
    requires Inv(c, p)
    requires x.state == CC.Closed || (id in p.circuits && x.state == p.circuits[id].state)
    ensures Inv(c, Update(p, id, x))
  {
  }

  lemma {:induction false} ExpireKeepsInv(c: Config, p: Pool, ids: set<u32>)
    requires Inv(c, p) && forall id :: id in ids ==> IsReady(p, id)
    ensures Inv(c, MarkDirty(p, ids))
  {
  }

  lemma {:induction false} StepKeepsInv(c: Config, p: Pool, op: Operation, now: nat)
    requires Inv(c, p) && Allowed(p, op)
    ensures Inv(c, After(c, p, op, now))
  {
    hide Inv, AfterBuild, AfterReplace, MarkDirty, Update;
    match op
    case Build(built) => BuildKeepsInv(c, p, now, built);
    case Replace(id, built) => ReplaceKeepsInv(c, p, id, now, built);
    case Expire => ExpireKeepsInv(c, p, Expired(c, p, now));
    case Close(id) => UpdateKeepsInv(c, p, id, Circuit(CC.Closed, {}));
    case Remove(id) => RemoveKeepsInv(c, p, id);
    case Register(id, s) =>
      if id in p.circuits {
        UpdateKeepsInv(c, p, id, p.circuits[id].(streams := p.circuits[id].streams + {s}));
      }
    case Unregister(id, s) =>
      if id in p.circuits {
        UpdateKeepsInv(c, p, id, p.circuits[id].(streams := p.circuits[id].streams - {s}));
      }
  }

  lemma {:induction false} RunKeepsInv(c: Config, ops: seq<(Operation, nat)>)
    ensures Inv(c, Run(c, ops))
  {
    hide Inv, After, Allowed;
    if ops == [] {
      NothingYet(c);
    } else {
      RunKeepsInv(c, Init(ops));
      var p := Run(c, Init(ops));
      if Allowed(p, Last(ops).0) {
        StepKeepsInv(c, p, Last(ops).0, Last(ops).1);
      }
    }
  }

  lemma {:induction false} NothingYet(c: Config)
    ensures Inv(c, EMPTY)
  {
  }

  // ----- what no run undoes -----

  // How far a circuit has come: ready (or yet to be built), dirty, closed, gone.
  function Stage(p: Pool, id: u32): nat {
    if id !in p.circuits then (if id < p.nextId then 3 else 0)
    else match p.circuits[id].state
      case Dirty => 1
      case Closed => 2
      case _ => 0
  }

  lemma {:induction false} StageGrows(c: Config, p: Pool, op: Operation, now: nat, id: u32)
    requires Inv(c, p) && Allowed(p, op)
    ensures Stage(p, id) <= Stage(After(c, p, op, now), id)
  {
  }

  // Along every run a circuit only moves on: dirty never turns ready again, closed is terminal
  // until the circuit leaves the pool, and its id never comes back.
  lemma {:induction false} StagesOnlyGrow(c: Config, ops: seq<(Operation, nat)>, n: nat, id: u32)
    requires n <= |ops|
    ensures Stage(Run(c, ops[..n]), id) <= Stage(Run(c, ops), id)
    decreases |ops|
  {
    hide Inv, After, Stage, Allowed;
    if n == |ops| {
      assert ops[..n] == ops;
    } else {
      assert Init(ops)[..n] == ops[..n];
      StagesOnlyGrow(c, Init(ops), n, id);
      RunKeepsInv(c, Init(ops));
      if Allowed(Run(c, Init(ops)), Last(ops).0) {
        StageGrows(c, Run(c, Init(ops)), Last(ops).0, Last(ops).1, id);
      }
    }
  }

  // What the k-th operation expires.
  function ExpiredBy(c: Config, ops: seq<(Operation, nat)>, k: nat): set<u32>
    requires k < |ops|
  {
    if ops[k].0.Expire? then Expired(c, Run(c, ops[..k]), ops[k].1) else {}
  }

  // No circuit is ever returned by two expiries.
  lemma {:induction false} ExpiresAtMostOnce(c: Config, ops: seq<(Operation, nat)>, i: nat, j: nat)
    requires i < j < |ops|
    ensures ExpiredBy(c, ops, i) !! ExpiredBy(c, ops, j)
  {
    hide Run, Expires;
    forall id | id in ExpiredBy(c, ops, i)
      ensures id !in ExpiredBy(c, ops, j)
    {
      ExpiredIsDirty(c, ops, i, id);
      assert ops[..j][..i + 1] == ops[..i + 1];
      StagesOnlyGrow(c, ops[..j], i + 1, id);
      ReadyIsFirstStage(c, Run(c, ops[..j]), ops[j].1, id);
    }
  }

  lemma {:induction false} ExpiredIsDirty(c: Config, ops: seq<(Operation, nat)>, i: nat, id: u32)
    requires i < |ops| && id in ExpiredBy(c, ops, i)
    ensures Stage(Run(c, ops[..i + 1]), id) == 1
  {
    assert Init(ops[..i + 1]) == ops[..i];
  }

  lemma {:induction false} ReadyIsFirstStage(c: Config, p: Pool, now: nat, id: u32)
    ensures id in Expired(c, p, now) ==> Stage(p, id) == 0
  {
  }

  // In every run a circuit of the pool is dirty exactly when some expiry returned it and it has not
  // closed since; so a ready circuit was never expired.
  lemma {:induction false} DirtyExactlyWhenExpired(c: Config, ops: seq<(Operation, nat)>, id: u32)
    requires id in Run(c, ops).circuits
    ensures Run(c, ops).circuits[id].state == CC.Dirty <==>
              Run(c, ops).circuits[id].state != CC.Closed && exists k :: 0 <= k < |ops| && id in ExpiredBy(c, ops, k)
  {
    hide Run, ExpiredBy, Inv;
    if exists k :: 0 <= k < |ops| && id in ExpiredBy(c, ops, k) {
      var k :| 0 <= k < |ops| && id in ExpiredBy(c, ops, k);
      ExpiredIsDirty(c, ops, k, id);
      StagesOnlyGrow(c, ops, k + 1, id);
      RunKeepsInv(c, ops);
      OneOfThree(c, Run(c, ops), id);
    }
    if Run(c, ops).circuits[id].state == CC.Dirty {
      var k := DirtyByExpiry(c, ops, id);
    }
  }

  lemma {:induction false} OneOfThree(c: Config, p: Pool, id: u32)
    requires Inv(c, p) && id in p.circuits
    ensures p.circuits[id].state in {CC.Ready, CC.Dirty, CC.Closed}
  {
  }

  lemma {:induction false} DirtyByExpiry(c: Config, ops: seq<(Operation, nat)>, id: u32) returns (k: nat)
    requires id in Run(c, ops).circuits && Run(c, ops).circuits[id].state == CC.Dirty
    ensures k < |ops| && id in ExpiredBy(c, ops, k)
  {
    hide Expires, AfterBuild, Allowed;
    var before := Init(ops);
    assert ops[..|ops| - 1] == before;
    if id in Run(c, before).circuits && Run(c, before).circuits[id].state == CC.Dirty {
      k := DirtyByExpiry(c, before, id);
      assert before[..k] == ops[..k];
    } else {
      k := |ops| - 1;
      BecomesDirty(c, Run(c, before), Last(ops).0, Last(ops).1, id);
    }
  }

  lemma {:induction false} BecomesDirty(c: Config, p: Pool, op: Operation, now: nat, id: u32)
    requires id !in p.circuits || p.circuits[id].state != CC.Dirty
    ensures var q := After(c, p, op, now);
            id in q.circuits && q.circuits[id].state == CC.Dirty ==> op.Expire? && id in Expired(c, p, now)
  {
  }

  // An expiry touches only the circuits it returns, and of those only the state and the age.
  lemma {:induction false} ExpiryIsExact(c: Config, p: Pool, now: nat, id: u32)
    requires Inv(c, p) && id in p.circuits
    ensures var q := After(c, p, Expire, now);
            && q.circuits.Keys == p.circuits.Keys
            && q.circuits[id].streams == p.circuits[id].streams
            && (p.circuits[id].state == CC.Ready && Elapsed(now, p.ages[id]) >= c.maxAge ==>
                  id in Expired(c, p, now) && q.circuits[id].state == CC.Dirty && id !in q.ages)
            && (p.circuits[id].state != CC.Ready || Elapsed(now, p.ages[id]) < c.maxAge ==>
                  id !in Expired(c, p, now) && q.circuits[id] == p.circuits[id] && (id in q.ages <==> id in p.ages))
  {
  }

  // ----- failures -----

  // A slot is abandoned by its maxAttempts-th failure in a row, and not before: n failed
  // replacements count n.
  lemma {:induction false} FailuresAddUp(c: Config, p: Pool, failed: u32, nows: seq<nat>)
    requires failed !in p.failures
    ensures var q := FailedTimes(c, p, failed, nows);
            && (nows != [] ==> failed in q.failures && q.failures[failed] == |nows|)
            && (failed !in p.abandoned ==> (failed in q.abandoned <==> nows != [] && |nows| >= c.maxAttempts))
            && q.issued == p.issued + |nows|
  {
    if nows != [] {
      FailuresAddUp(c, p, failed, Init(nows));
    }
  }

  function FailedTimes(c: Config, p: Pool, failed: u32, nows: seq<nat>): (q: Pool)
    ensures nows == [] ==> q == p
  {
    if nows == [] then p else AfterReplace(c, FailedTimes(c, p, failed, Init(nows)), failed, Last(nows), false)
  }

  // Two callers replace: the monitor, for the closed circuits it found (circuit.rs:828-881), and
  // every SOCKS connection whose stream failed on a closed circuit, whether or not the circuit is
  // still in the pool (services/tor-client/src/client/socks_proxy.rs:144-163).

  predicate Fails(c: Config, ops: seq<(Operation, nat)>, k: nat, id: u32)
    requires k < |ops|
  {
    ops[k].0 == Replace(id, false) && Allowed(Run(c, ops[..k]), ops[k].0)
  }

  predicate Succeeds(c: Config, ops: seq<(Operation, nat)>, k: nat, id: u32)
    requires k < |ops|
  {
    ops[k].0 == Replace(id, true) && Allowed(Run(c, ops[..k]), ops[k].0)
  }

  // Failed replacements of an id since its last successful one.
  function Streak(c: Config, ops: seq<(Operation, nat)>, id: u32): nat {
    if ops == [] then 0
    else if Succeeds(c, ops, |ops| - 1, id) then 0
    else Streak(c, Init(ops), id) + if Fails(c, ops, |ops| - 1, id) then 1 else 0
  }

  // The streak has used up the budget.
  predicate Spent(c: Config, ops: seq<(Operation, nat)>, id: u32) {
    Streak(c, ops, id) > 0 && Streak(c, ops, id) >= c.maxAttempts
  }

  // In every run the failure count of an id is its streak, and the id is abandoned exactly when
  // its streak once used up the budget.
  lemma {:induction false} FailuresAreStreaks(c: Config, ops: seq<(Operation, nat)>, id: u32)
    ensures var p := Run(c, ops);
            && (id in p.failures <==> Streak(c, ops, id) > 0)
            && (id in p.failures ==> p.failures[id] == Streak(c, ops, id))
            && (id in p.abandoned <==> exists k :: 0 <= k <= |ops| && Spent(c, ops[..k], id))
  {
    hide Run, After, Allowed, Succeeds, Fails;
    if ops == [] {
      NoFailuresYet(c, ops, id);
    } else {
      var before := Init(ops);
      FailuresAreStreaks(c, before, id);
      FailuresMove(c, ops, id);
      SpentSoFar(c, ops, id);
      assert before[..|before|] == before;
      assert Spent(c, before, id) ==> id in Run(c, before).abandoned;
      assert id in Run(c, ops).abandoned <==> id in Run(c, before).abandoned || Spent(c, ops, id);
    }
  }

  lemma {:induction false} NoFailuresYet(c: Config, ops: seq<(Operation, nat)>, id: u32)
    requires ops == []
    ensures Run(c, ops) == EMPTY && Streak(c, ops, id) == 0
    ensures forall k :: 0 <= k <= |ops| ==> !Spent(c, ops[..k], id)
  {
    assert ops[..0] == ops;
  }

  // One operation changes the account of an id only by replacing it.
  lemma {:induction false} FailuresMove(c: Config, ops: seq<(Operation, nat)>, id: u32)
    requires ops != []
    ensures var p, q, k := Run(c, Init(ops)), Run(c, ops), |ops| - 1;
            if Succeeds(c, ops, k, id) then
              id !in q.failures && (id in q.abandoned <==> id in p.abandoned)
            else if Fails(c, ops, k, id) then
              && id in q.failures && q.failures[id] == (if id in p.failures then p.failures[id] else 0) + 1
              && (id in q.abandoned <==> id in p.abandoned || q.failures[id] >= c.maxAttempts)
            else
              && (id in q.failures <==> id in p.failures) && (id in q.failures ==> q.failures[id] == p.failures[id])
              && (id in q.abandoned <==> id in p.abandoned)
  {
    hide Expired, MarkDirty, Update, Allowed, AfterBuild;
    assert ops[..|ops| - 1] == Init(ops);
    FailuresOnlyByReplace(c, Run(c, Init(ops)), Last(ops).0, Last(ops).1);
    if Last(ops).0.Replace? {
      ReplaceMovesFailures(c, Run(c, Init(ops)), Last(ops).0.id, Last(ops).1, Last(ops).0.built, id);
    }
  }

  lemma {:induction false} ReplaceMovesFailures(c: Config, p: Pool, failed: u32, now: nat, built: bool, id: u32)
    ensures var q := AfterReplace(c, p, failed, now, built);
            if id == failed && built then id !in q.failures && q.abandoned == p.abandoned
            else if id == failed then
              && id in q.failures && q.failures[id] == (if id in p.failures then p.failures[id] else 0) + 1
              && (id in q.abandoned <==> id in p.abandoned || q.failures[id] >= c.maxAttempts)
            else
              && (id in q.failures <==> id in p.failures) && (id in q.failures ==> q.failures[id] == p.failures[id])
              && (id in q.abandoned <==> id in p.abandoned)
  {
  }

  lemma {:induction false} FailuresOnlyByReplace(c: Config, p: Pool, op: Operation, now: nat)
    ensures !op.Replace? ==>
              After(c, p, op, now).failures == p.failures && After(c, p, op, now).abandoned == p.abandoned
  {
  }

  lemma {:induction false} SpentSoFar(c: Config, ops: seq<(Operation, nat)>, id: u32)
    requires ops != []
    ensures (exists k :: 0 <= k <= |ops| && Spent(c, ops[..k], id)) <==>
              Spent(c, ops, id) || exists k :: 0 <= k < |ops| && Spent(c, Init(ops)[..k], id)
  {
    hide Spent;
    assert ops[..|ops|] == ops;
    forall k | 0 <= k < |ops|
      ensures Init(ops)[..k] == ops[..k]
    {
    }
  }

  // The k-th operation fails to replace a circuit that had failed before: it is gone from the pool.
  ghost predicate FailsAgain(c: Config, ops: seq<(Operation, nat)>, k: nat, id: u32)
    requires k < |ops|
  {
    Fails(c, ops, k, id) && id in Run(c, ops[..k]).failures
  }

  ghost predicate CountedTwice(c: Config, ops: seq<(Operation, nat)>, id: u32) {
    id in Run(c, ops).failures && Run(c, ops).failures[id] > 1
  }

  // A count ever exceeds one exactly when somebody fails to replace an id with a failure on
  // record, and that id is then no longer in the pool.
  lemma {:induction false} RetriedExactlyWhenGone(c: Config, ops: seq<(Operation, nat)>, id: u32)
    ensures (exists k :: 0 <= k <= |ops| && CountedTwice(c, ops[..k], id)) <==>
              exists k :: 0 <= k < |ops| && FailsAgain(c, ops, k, id)
    ensures forall k :: 0 <= k < |ops| && FailsAgain(c, ops, k, id) ==> id !in Run(c, ops[..k]).circuits
  {
    hide Run, CountedTwice, FailsAgain;
    if exists k :: 0 <= k <= |ops| && CountedTwice(c, ops[..k], id) {
      var k :| 0 <= k <= |ops| && CountedTwice(c, ops[..k], id);
      var j := TwiceComesFromAgain(c, ops, k, id);
      assert FailsAgain(c, ops, j, id);
    }
    if exists k :: 0 <= k < |ops| && FailsAgain(c, ops, k, id) {
      var k :| 0 <= k < |ops| && FailsAgain(c, ops, k, id);
      AgainCountsTwice(c, ops, k, id);
      var n := k + 1;
      assert CountedTwice(c, ops[..n], id);
    }
    forall k | 0 <= k < |ops| && FailsAgain(c, ops, k, id)
      ensures CountedTwice(c, ops[..k + 1], id) && id !in Run(c, ops[..k]).circuits
    {
      AgainCountsTwice(c, ops, k, id);
    }
  }

  lemma {:induction false} AgainCountsTwice(c: Config, ops: seq<(Operation, nat)>, k: nat, id: u32)
    requires k < |ops| && FailsAgain(c, ops, k, id)
    ensures CountedTwice(c, ops[..k + 1], id) && id !in Run(c, ops[..k]).circuits
  {
    hide Run, Allowed;
    assert Init(ops[..k + 1]) == ops[..k] == ops[..k + 1][..k];
    FailuresMove(c, ops[..k + 1], id);
    RunKeepsInv(c, ops[..k]);
  }

  lemma {:induction false} TwiceComesFromAgain(c: Config, ops: seq<(Operation, nat)>, n: nat, id: u32) returns (k: nat)
    requires n <= |ops| && CountedTwice(c, ops[..n], id)
    ensures k < n && FailsAgain(c, ops, k, id)
    decreases n
  {
    hide Run, Allowed;
    if n == 0 {
      NoFailuresYet(c, ops[..n], id);
      assert false;
    }
    assert Init(ops[..n]) == ops[..n - 1] == ops[..n][..n - 1];
    FailuresMove(c, ops[..n], id);
    if CountedTwice(c, ops[..n - 1], id) {
      k := TwiceComesFromAgain(c, ops, n - 1, id);
    } else {
      k := n - 1;
    }
  }

  // It does happen: two connections wait on one circuit, it closes, both replace it, both builds
  // fail, and a budget of two is spent.
  lemma {:induction false} TwoConnectionsSpendABudget(now: nat)
    ensures var c := Config(600, 2);
            var p := Run(c, [(Build(true), now), (Close(1), now), (Replace(1, false), now), (Replace(1, false), now)]);
            1 in p.failures && p.failures[1] == 2 && 1 in p.abandoned
  {
    hide Run, After, Allowed;
    var c := Config(600, 2);
    var ops := [(Build(true), now), (Close(1), now)];
    BuildAndClose(c, now);
    var a, b := ops + [(Replace(1, false), now)], ops + [(Replace(1, false), now)] + [(Replace(1, false), now)];
    RunMore(c, ops, Replace(1, false), now);
    RunMore(c, a, Replace(1, false), now);
    FirstTwoReplaces(c, Run(c, ops), now);
    assert b == [(Build(true), now), (Close(1), now), (Replace(1, false), now), (Replace(1, false), now)];
  }

  lemma {:induction false} RunMore(c: Config, ops: seq<(Operation, nat)>, op: Operation, now: nat)
    ensures var p := Run(c, ops);
            Run(c, ops + [(op, now)]) == if Allowed(p, op) then After(c, p, op, now) else p
  {
    assert Init(ops + [(op, now)]) == ops;
  }

  lemma {:induction false} BuildAndClose(c: Config, now: nat)
    ensures var p := Run(c, [(Build(true), now), (Close(1), now)]);
            && p.circuits == map[1 := Circuit(CC.Closed, {})] && p.nextId == 2 && p.issued == 1
            && p.failures == map[] && p.abandoned == {}
  {
    RunMore(c, [], Build(true), now);
    assert [] + [(Build(true), now)] == [(Build(true), now)];
    RunMore(c, [(Build(true), now)], Close(1), now);
    assert [(Build(true), now)] + [(Close(1), now)] == [(Build(true), now), (Close(1), now)];
  }

  lemma {:induction false} FirstTwoReplaces(c: Config, p: Pool, now: nat)
    requires p.nextId == 2 && p.issued == 1 && 1 !in p.failures && c.maxAttempts == 2
    ensures Allowed(p, Replace(1, false))
    ensures var q := After(c, p, Replace(1, false), now);
            && Allowed(q, Replace(1, false))
            && var r := After(c, q, Replace(1, false), now); 1 in r.failures && r.failures[1] == 2 && 1 in r.abandoned
  {
  }

  // How the pool grows: a replacement of a circuit that is still there keeps its size, a second
  // replacement of the same circuit adds one.
  lemma {:induction false} ReplacementSize(c: Config, p: Pool, id: u32, now: nat, built: bool)
    requires Inv(c, p) && Allowed(p, Replace(id, built))
    ensures |After(c, p, Replace(id, built), now).circuits|
         == |p.circuits| - (if id in p.circuits then 1 else 0) + (if built then 1 else 0)
    ensures built ==>
              (|After(c, p, Replace(id, built), now).circuits| > |p.circuits| <==> id !in p.circuits)
  {
    hide Inv;
    NewIdIsNew(c, p);
    OneOutOneIn(p.circuits, id, p.nextId, Circuit(CC.Ready, {}));
  }

  lemma {:induction false} OneOutOneIn(m: map<u32, Circuit>, gone: u32, come: u32, v: Circuit)
    requires come !in m
    ensures |m - {gone}| == |m| - (if gone in m then 1 else 0)
    ensures |(m - {gone})[come := v]| == |m - {gone}| + 1
  {
    var left := m - {gone};
    KeysLeft(m, gone);
    KeysAdded(left, come, v);
  }

  lemma {:induction false} KeysLeft(m: map<u32, Circuit>, gone: u32)
    ensures |m - {gone}| == |m| - (if gone in m then 1 else 0)
  {
    var left := m - {gone};
    assert left.Keys == m.Keys - {gone};
    assert |left| == |left.Keys| && |m| == |m.Keys|;
  }

  lemma {:induction false} KeysAdded(m: map<u32, Circuit>, come: u32, v: Circuit)
    requires come !in m
    ensures |m[come := v]| == |m| + 1
  {
    var more := m[come := v];
    assert more.Keys == m.Keys + {come};
    assert |more| == |more.Keys| && |m| == |m.Keys|;
  }

  lemma {:induction false} NewIdIsNew(c: Config, p: Pool)
    requires Inv(c, p)
    ensures p.nextId !in p.circuits
  {
  }

  // The k-th operation replaces or drops the circuit.
  predicate TakesOut(op: Operation, id: u32) {
    (op.Replace? && op.id == id) || op == Remove(id)
  }

  // Every replacement is of a circuit found in the pool earlier, which nobody has taken out since.
  // That is what the monitor guarantees as long as no SOCKS connection replaces circuits itself:
  // it collects closed circuits, waits without the lock, and replaces each once.
  ghost predicate MonitorAlone(c: Config, ops: seq<(Operation, nat)>) {
    forall k, id, built :: 0 <= k < |ops| && ops[k].0 == Replace(id, built) ==> Found(c, ops, k, id)
  }

  ghost predicate Found(c: Config, ops: seq<(Operation, nat)>, k: nat, id: u32)
    requires k < |ops|
  {
    exists j :: 0 <= j <= k && id in Run(c, ops[..j]).circuits && LeftAlone(ops, j, k, id)
  }

  ghost predicate LeftAlone(ops: seq<(Operation, nat)>, j: nat, k: nat, id: u32)
    requires j <= k <= |ops|
  {
    forall i :: j <= i < k ==> !TakesOut(ops[i].0, id)
  }

  lemma {:induction false} StillThere(c: Config, ops: seq<(Operation, nat)>, j: nat, k: nat, id: u32)
    requires j <= k <= |ops| && id in Run(c, ops[..j]).circuits && LeftAlone(ops, j, k, id)
    ensures id in Run(c, ops[..k]).circuits
    decreases k
  {
    hide Expired, Allowed, AfterBuild;
    if j < k {
      StillThere(c, ops, j, k - 1, id);
      assert Init(ops[..k]) == ops[..k - 1];
      OthersStay(c, Run(c, ops[..k - 1]), ops[k - 1].0, ops[k - 1].1, id);
    }
  }

  lemma {:induction false} OthersStay(c: Config, p: Pool, op: Operation, now: nat, id: u32)
    requires id in p.circuits && !TakesOut(op, id)
    ensures id in After(c, p, op, now).circuits
  {
  }

  // Then no slot is tried twice: the failed circuit leaves the pool before the count goes up, so
  // every count stays at one and a budget above one is never spent.
  lemma {:induction false} MonitorAloneNeverRetries(c: Config, ops: seq<(Operation, nat)>)
    requires MonitorAlone(c, ops)
    ensures forall id :: id in Run(c, ops).failures ==> Run(c, ops).failures[id] == 1
    ensures c.maxAttempts > 1 ==> Run(c, ops).abandoned == {}
  {
    hide Run, CountedTwice, Fails, Spent;
    forall id: u32
      ensures !CountedTwice(c, ops, id) && (c.maxAttempts > 1 ==> id !in Run(c, ops).abandoned)
    {
      NeverAgain(c, ops, id);
      RetriedExactlyWhenGone(c, ops, id);
      assert ops[..|ops|] == ops;
      FailuresAreStreaks(c, ops, id);
      forall k | 0 <= k <= |ops| && c.maxAttempts > 1
        ensures !Spent(c, ops[..k], id)
      {
        SpentCountsTwice(c, ops[..k], id);
      }
    }
    RunKeepsInv(c, ops);
    CountsAreOne(c, ops);
  }

  lemma {:induction false} NeverAgain(c: Config, ops: seq<(Operation, nat)>, id: u32)
    requires MonitorAlone(c, ops)
    ensures forall k :: 0 <= k < |ops| ==> !FailsAgain(c, ops, k, id)
  {
    hide Run, Allowed;
    forall k | 0 <= k < |ops|
      ensures !FailsAgain(c, ops, k, id)
    {
      if ops[k].0 == Replace(id, false) {
        assert Found(c, ops, k, id);
        var j :| 0 <= j <= k && id in Run(c, ops[..j]).circuits && LeftAlone(ops, j, k, id);
        StillThere(c, ops, j, k, id);
        RunKeepsInv(c, ops[..k]);
      }
    }
  }

  lemma {:induction false} SpentCountsTwice(c: Config, ops: seq<(Operation, nat)>, id: u32)
    requires c.maxAttempts > 1
    ensures Spent(c, ops, id) ==> CountedTwice(c, ops, id)
  {
    hide Run, Streak;
    FailuresAreStreaks(c, ops, id);
  }

  lemma {:induction false} CountsAreOne(c: Config, ops: seq<(Operation, nat)>)
    requires Inv(c, Run(c, ops)) && forall id: u32 :: !CountedTwice(c, ops, id)
    ensures forall id :: id in Run(c, ops).failures ==> Run(c, ops).failures[id] == 1
  {
    hide Run;
    forall id | id in Run(c, ops).failures
      ensures Run(c, ops).failures[id] == 1
    {
      assert !CountedTwice(c, ops, id);
    }
  }

  // ----- the pool as the program keeps it -----

  datatype PoolError = BuildFailed

  class CircuitPool {
    const config: Config
    var circuits: map<u32, Circuit>
    var nextCircuitId: u32
    var circuitAges: map<u32, nat>
    var rebuildFailureCounts: map<u32, nat>
    var abandonedSlots: set<u32>
    ghost var issued: nat

    constructor (config: Config)
      ensures this.config == config && State() == EMPTY
    {
      this.config := config;
      circuits, nextCircuitId, circuitAges := map[], 1, map[];
      rebuildFailureCounts, abandonedSlots, issued := map[], {}, 0;
    }

    ghost function State(): Pool
      reads this
    {
      Pool(circuits, nextCircuitId, circuitAges, rebuildFailureCounts, abandonedSlots, issued)
    }

    method AllocateCircuitId() returns (id: u32)
      modifies this`nextCircuitId, this`issued
      ensures id == old(nextCircuitId)
      ensures State() == old(State()).(nextId := (id + 1) % 0x1_0000_0000, issued := old(issued) + 1)
    {
      id := nextCircuitId;
      nextCircuitId := (nextCircuitId + 1) % 0x1_0000_0000;
      issued := issued + 1;
    }

    // `built` is the outcome of asking the directory for a path and building along it.
    method BuildCircuit(now: nat, built: bool) returns (r: Result<u32, PoolError>)
      modifies this
      ensures State() == AfterBuild(old(State()), now, built)
      ensures r == if built then Ok(old(nextCircuitId)) else Err(BuildFailed)
    {
      var id := AllocateCircuitId();
      if !built {
        return Err(BuildFailed);
      }
      circuits := circuits[id := Circuit(CC.Ready, {})];
      circuitAges := circuitAges[id := now];
      r := Ok(id);
    }

    method ReplaceCircuit(failed: u32, now: nat, built: bool) returns (r: Result<u32, PoolError>)
      modifies this
      ensures State() == AfterReplace(config, old(State()), failed, now, built)
      ensures r == if built then Ok(old(nextCircuitId)) else Err(BuildFailed)
    {
      circuits := circuits - {failed};
      r := BuildCircuit(now, built);
      if r.Ok? {
        rebuildFailureCounts := rebuildFailureCounts - {failed};
      } else {
        var count := (if failed in rebuildFailureCounts then rebuildFailureCounts[failed] else 0) + 1;
        rebuildFailureCounts := rebuildFailureCounts[failed := count];
        if count >= config.maxAttempts {
          abandonedSlots := abandonedSlots + {failed};
        }
      }
    }

    // Collect the aged ids, then turn those still ready to dirty, whatever order the map has.
    method ExpireAgedCircuits(now: nat) returns (agedOut: seq<u32>)
      modifies this`circuits, this`circuitAges
      ensures State() == After(config, old(State()), Expire, now)
      ensures Enumerates(agedOut, Expired(config, old(State()), now))
    {
      hide MarkDirty, Expired, Enumerates;
      ghost var before, all := State(), Expired(config, State(), now);
      var left := set id | id in circuitAges && Elapsed(now, circuitAges[id]) >= config.maxAge;
      ghost var aged := left;
      agedOut := [];
      ghost var done: set<u32> := {};
      NothingMarked(before);
      NothingEnumerated();
      ExpiredAreAged(config, before, now, left);
      while left != {}
        invariant left <= aged && done == all - left
        invariant State() == MarkDirty(before, done)
        invariant Enumerates(agedOut, done)
        decreases left
      {
        var id :| id in left;
        StillToMark(config, before, now, done, id, aged);
        OneFewer(all, left, id);
        left := left - {id};
        if id in circuits && circuits[id].state == CC.Ready {
          MarkOneMore(before, done, id);
          EnumeratesOneMore(agedOut, done, id);
          circuits := circuits[id := circuits[id].(state := CC.Dirty)];
          circuitAges := circuitAges - {id};
          agedOut := agedOut + [id];
          done := done + {id};
        }
      }
      assert done == all;
    }

    // The least loaded ready circuit, whatever order the map has; a new one when none is ready.
    method SelectCircuit(now: nat, built: bool) returns (r: Result<u32, PoolError>)
      modifies this
      ensures (exists id :: IsReady(old(State()), id)) ==>
                && State() == old(State())
                && r.Ok? && IsReady(State(), r.value)
                && forall id :: IsReady(State(), id) ==> |circuits[r.value].streams| <= |circuits[id].streams|
      ensures !(exists id :: IsReady(old(State()), id)) ==>
                && State() == AfterBuild(old(State()), now, built)
                && r == (if built then Ok(old(nextCircuitId)) else Err(BuildFailed))
    {
      var best: Option<u32> := None;
      var left := circuits.Keys;
      while left != {}
        invariant left <= circuits.Keys
        invariant best.Some? ==> IsReady(State(), best.value)
        invariant forall id :: id in circuits.Keys - left && IsReady(State(), id) ==>
                    best.Some? && |circuits[best.value].streams| <= |circuits[id].streams|
        decreases left
      {
        var id :| id in left;
        left := left - {id};
        if circuits[id].state == CC.Ready {
          if best.None? || |circuits[id].streams| < |circuits[best.value].streams| {
            best := Some(id);
          }
        }
      }
      if best.Some? {
        return Ok(best.value);
      }
      assert forall id :: IsReady(State(), id) ==> id in circuits.Keys - left;
      r := BuildCircuit(now, built);
    }
  }

  // A list of exactly these ids, each once.
  ghost predicate Enumerates(ids: seq<u32>, s: set<u32>) {
    && (forall id: u32 :: id in ids <==> id in s)
    && (forall i, j :: 0 <= i < j < |ids| ==> ids[i] != ids[j])
  }

  lemma {:induction false} NothingEnumerated()
    ensures Enumerates([], {})
  {
  }

  lemma {:induction false} EnumeratesOneMore(ids: seq<u32>, s: set<u32>, id: u32)
    requires Enumerates(ids, s) && id !in s
    ensures Enumerates(ids + [id], s + {id})
  {
  }

  lemma {:induction false} OneFewer(all: set<u32>, left: set<u32>, id: u32)
    requires id in left
    ensures id in all ==> all - (left - {id}) == (all - left) + {id}
    ensures id !in all ==> all - (left - {id}) == all - left
    ensures id !in all - left
  {
  }

  lemma {:induction false} NothingMarked(p: Pool)
    ensures MarkDirty(p, {}) == p
  {
    assert p.ages - {} == p.ages;
    assert MarkDirty(p, {}).circuits == p.circuits;
  }

  lemma {:induction false} ExpiredAreAged(c: Config, p: Pool, now: nat, aged: set<u32>)
    requires aged == set id | id in p.ages && Elapsed(now, p.ages[id]) >= c.maxAge
    ensures Expired(c, p, now) <= aged
  {
  }

  // An aged circuit not marked yet is as it was; it expires exactly when it is ready.
  lemma {:induction false} StillToMark(c: Config, p: Pool, now: nat, done: set<u32>, id: u32, aged: set<u32>)
    requires aged == set x | x in p.ages && Elapsed(now, p.ages[x]) >= c.maxAge
    requires id in aged && id !in done
    ensures IsReady(MarkDirty(p, done), id) <==> id in Expired(c, p, now)
    ensures id in MarkDirty(p, done).circuits <==> id in p.circuits
    ensures id in p.circuits ==> MarkDirty(p, done).circuits[id] == p.circuits[id]
  {
  }

  lemma {:induction false} MarkOneMore(p: Pool, done: set<u32>, id: u32)
    requires id in p.circuits
    ensures var q := MarkDirty(p, done);
            MarkDirty(p, done + {id})
              == q.(circuits := q.circuits[id := p.circuits[id].(state := CC.Dirty)], ages := q.ages - {id})
  {
    assert p.ages - (done + {id}) == (p.ages - done) - {id};
  }
}
