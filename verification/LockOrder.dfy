// The locks of a relay process and the tokio tasks taking them. Any number of connections, next-hop
// readers, stream tasks and observers run concurrently; each takes the registry lock before an
// exit's crypto lock before a connection's writer lock.
//   connections: services/relay-node/src/main.rs:371-388, :400-499, circuit/exit.rs:117-220, :381-460, :477-524
//   readers:     services/relay-node/src/circuit/entry.rs:335-396, middle.rs:364-415
//   streams:     services/relay-node/src/circuit/exit.rs:250-263, :282-303, :326-339
module LockOrder {
  import opened Sequences

  datatype Lock = RegistryLock | CryptoLock(circuit: nat) | WriterLock(connection: nat)

  function Rank(l: Lock): nat {
    match l
    case RegistryLock => 0
    case CryptoLock(_) => 1
    case WriterLock(_) => 2
  }

  datatype Action = Acquire(lock: Lock) | Release(lock: Lock)

  function Hold(l: Lock, inside: seq<Action>): seq<Action> {
    [Acquire(l)] + inside + [Release(l)]
  }

  // ----- what each task does between two waits for input -----

  datatype Kind =
    | Connection(connection: nat)
    | NextHopReader(previous: nat)               // writes to the connection of the previous hop
    | StreamTask(circuit: nat, previous: nat)
    | Observer                                   // heartbeat and display

  datatype Work =
    | HandleCreate                               // answer, then register the circuit
    | HandleCell(reply: bool)                    // entry, middle, and cells without stream work
    | HandleStreamCell(circuit: nat, connected: bool, reply: bool)
    | PassBack(answered: bool)
    | ReportDestroy
    | SendBack
    | Observe

  predicate Does(k: Kind, w: Work) {
    match w
    case HandleCreate => k.Connection?
    case HandleCell(_) => k.Connection?
    case HandleStreamCell(_, _, _) => k.Connection?
    case PassBack(_) => k.NextHopReader?
    case ReportDestroy => k.NextHopReader?
    case SendBack => k.StreamTask?
    case Observe => k.Observer?
  }

  // The lock actions of one piece of work, in program order.
  function Actions(k: Kind, w: Work): seq<Action>
    requires Does(k, w)
  {
    match w
    case HandleCreate => Hold(WriterLock(k.connection), []) + Hold(RegistryLock, [])
    case HandleCell(reply) =>
      Hold(RegistryLock, if reply then Hold(WriterLock(k.connection), []) else [])
    case HandleStreamCell(c, connected, reply) =>
      Hold(RegistryLock,
           Hold(CryptoLock(c), [])
           + (if connected then Hold(CryptoLock(c), Hold(WriterLock(k.connection), [])) else [])
           + (if reply then Hold(CryptoLock(c), []) + Hold(WriterLock(k.connection), []) else []))
    case PassBack(answered) =>
      Hold(RegistryLock, []) + (if answered then Hold(WriterLock(k.previous), []) else [])
    case ReportDestroy => Hold(WriterLock(k.previous), [])
    case SendBack => Hold(CryptoLock(k.circuit), Hold(WriterLock(k.previous), []))
    case Observe => Hold(RegistryLock, [])
  }

  // ----- the system -----

  datatype Task = Task(kind: Kind, held: seq<Lock>, todo: seq<Action>)

  datatype Step =
    | Spawn(kind: Kind)
    | Start(task: nat, work: Work)
    | Act(task: nat)

  predicate Holds(t: Task, l: Lock) {
    l in t.held
  }

  predicate Free(tasks: seq<Task>, l: Lock) {
    forall i :: 0 <= i < |tasks| ==> !Holds(tasks[i], l)
  }

  // A task waits when its next action is to take a lock that somebody holds.
  predicate CanAct(tasks: seq<Task>, i: nat)
    requires i < |tasks|
  {
    tasks[i].todo != [] && (tasks[i].todo[0].Acquire? ==> Free(tasks, tasks[i].todo[0].lock))
  }

  predicate Enabled(tasks: seq<Task>, s: Step) {
    match s
    case Spawn(_) => true
    case Start(i, w) => i < |tasks| && tasks[i].todo == [] && Does(tasks[i].kind, w)
    case Act(i) => i < |tasks| && CanAct(tasks, i)
  }

  function Dropped(held: seq<Lock>, l: Lock): seq<Lock> {
    if held == [] then []
    else if Last(held) == l then Init(held)
    else Dropped(Init(held), l) + [Last(held)]
  }

  function Acted(t: Task): Task
    requires t.todo != []
  {
    match t.todo[0]
    case Acquire(l) => Task(t.kind, t.held + [l], t.todo[1..])
    case Release(l) => Task(t.kind, Dropped(t.held, l), t.todo[1..])
  }

  function Apply(tasks: seq<Task>, s: Step): seq<Task>
    requires Enabled(tasks, s)
  {
    match s
    case Spawn(k) => tasks + [Task(k, [], [])]
    case Start(i, w) => tasks[i := tasks[i].(todo := Actions(tasks[i].kind, w))]
    case Act(i) => tasks[i := Acted(tasks[i])]
  }

  function Run(steps: seq<Step>): seq<Task> {
    if steps == [] then []
    else
      var tasks := Run(Init(steps));
      if Enabled(tasks, Last(steps)) then Apply(tasks, Last(steps)) else tasks
  }

  // ----- the discipline -----

  predicate Above(l: Lock, held: seq<Lock>) {
    forall h :: h in held ==> Rank(h) < Rank(l)
  }

  // From here on every lock is taken above those held, and all are given back.
  predicate Disciplined(held: seq<Lock>, todo: seq<Action>)
    decreases |todo|
  {
    if todo == [] then held == []
    else match todo[0]
      case Acquire(l) => Above(l, held) && Disciplined(held + [l], todo[1..])
      case Release(l) => held != [] && Last(held) == l && Disciplined(Init(held), todo[1..])
  }

  // Work that leaves `held` as it found it, taking locks only above it.
  ghost predicate Balanced(held: seq<Lock>, work: seq<Action>) {
    forall rest :: Disciplined(held, rest) ==> Disciplined(held, work + rest)
  }

  lemma {:induction false} NothingIsBalanced(held: seq<Lock>)
    ensures Balanced(held, [])
  {
    forall rest | Disciplined(held, rest)
      ensures Disciplined(held, [] + rest)
    {
      assert [] + rest == rest;
    }
  }

  lemma {:induction false} HoldIsBalanced(held: seq<Lock>, l: Lock, inside: seq<Action>)
    requires Above(l, held) && Balanced(held + [l], inside)
    ensures Balanced(held, Hold(l, inside))
  {
    forall rest | Disciplined(held, rest)
      ensures Disciplined(held, Hold(l, inside) + rest)
    {
      var tail := [Release(l)] + rest;
      assert tail[1..] == rest && Init(held + [l]) == held;
      assert Disciplined(held + [l], tail);
      assert (Hold(l, inside) + rest)[1..] == inside + tail;
    }
  }

  lemma {:induction false} BothBalanced(held: seq<Lock>, a: seq<Action>, b: seq<Action>)
    requires Balanced(held, a) && Balanced(held, b)
    ensures Balanced(held, a + b)
  {
    forall rest | Disciplined(held, rest)
      ensures Disciplined(held, a + b + rest)
    {
      assert a + b + rest == a + (b + rest);
    }
  }

  lemma {:induction false} LeafBalanced(held: seq<Lock>, l: Lock)
    requires Above(l, held)
    ensures Balanced(held, Hold(l, []))
  {
    NothingIsBalanced(held + [l]);
    HoldIsBalanced(held, l, []);
  }

  // Every piece of work of every task keeps to the order.
  lemma {:induction false} AllWorkIsDisciplined(k: Kind, w: Work)
    requires Does(k, w)
    ensures Disciplined([], Actions(k, w))
  {
    hide Balanced, Disciplined;
    var registry := [RegistryLock];
    assert [] + [RegistryLock] == registry;
    NothingIsBalanced([]);
    NothingIsBalanced(registry);
    match w
    case HandleCreate =>
      LeafBalanced([], WriterLock(k.connection));
      LeafBalanced([], RegistryLock);
      BothBalanced([], Hold(WriterLock(k.connection), []), Hold(RegistryLock, []));
      BalancedAlone(Actions(k, w));
    case HandleCell(reply) =>
      LeafBalanced(registry, WriterLock(k.connection));
      HoldIsBalanced([], RegistryLock, if reply then Hold(WriterLock(k.connection), []) else []);
      BalancedAlone(Actions(k, w));
    case HandleStreamCell(c, connected, reply) => StreamCellIsDisciplined(k, w);
    case PassBack(answered) =>
      LeafBalanced([], RegistryLock);
      LeafBalanced([], WriterLock(k.previous));
      BothBalanced([], Hold(RegistryLock, []), if answered then Hold(WriterLock(k.previous), []) else []);
      BalancedAlone(Actions(k, w));
    case ReportDestroy =>
      LeafBalanced([], WriterLock(k.previous));
      BalancedAlone(Actions(k, w));
    case SendBack =>
      assert [] + [CryptoLock(k.circuit)] == [CryptoLock(k.circuit)];
      LeafBalanced([CryptoLock(k.circuit)], WriterLock(k.previous));
      HoldIsBalanced([], CryptoLock(k.circuit), Hold(WriterLock(k.previous), []));
      BalancedAlone(Actions(k, w));
    case Observe =>
      LeafBalanced([], RegistryLock);
      BalancedAlone(Actions(k, w));
  }

  lemma {:induction false} StreamCellIsDisciplined(k: Kind, w: Work)
    requires w.HandleStreamCell? && Does(k, w)
    ensures Disciplined([], Actions(k, w))
  {
    hide Balanced, Disciplined;
    var registry, crypto, writer := [RegistryLock], CryptoLock(w.circuit), WriterLock(k.connection);
    assert [] + [RegistryLock] == registry && registry + [crypto] == [RegistryLock, crypto];
    NothingIsBalanced(registry);
    LeafBalanced(registry, crypto);
    LeafBalanced(registry, writer);
    LeafBalanced([RegistryLock, crypto], writer);
    HoldIsBalanced(registry, crypto, Hold(writer, []));
    BothBalanced(registry, Hold(crypto, []), Hold(writer, []));
    var connect := if w.connected then Hold(crypto, Hold(writer, [])) else [];
    var answer := if w.reply then Hold(crypto, []) + Hold(writer, []) else [];
    BothBalanced(registry, Hold(crypto, []), connect);
    BothBalanced(registry, Hold(crypto, []) + connect, answer);
    HoldIsBalanced([], RegistryLock, Hold(crypto, []) + connect + answer);
    BalancedAlone(Actions(k, w));
  }

  lemma {:induction false} BalancedAlone(work: seq<Action>)
    requires Balanced([], work)
    ensures Disciplined([], work)
  {
    assert Disciplined([], []);
    assert work + [] == work;
  }

  ghost predicate AllDisciplined(tasks: seq<Task>) {
    forall i :: 0 <= i < |tasks| ==> Disciplined(tasks[i].held, tasks[i].todo)
  }

  // A lock has one holder.
  ghost predicate Exclusive(tasks: seq<Task>) {
    forall i, j, l :: 0 <= i < j < |tasks| && Holds(tasks[i], l) ==> !Holds(tasks[j], l)
  }

  ghost predicate Inv(tasks: seq<Task>) {
    AllDisciplined(tasks) && Exclusive(tasks)
  }

  lemma {:induction false} DisciplineGoesOn(t: Task)
    requires t.todo != [] && Disciplined(t.held, t.todo)
    ensures Disciplined(Acted(t).held, Acted(t).todo)
    ensures t.todo[0].Release? ==> Acted(t).held == Init(t.held)
  {
  }

  // Only the acting task's locks change, and it takes only a free one.
  lemma {:induction false} StaysExclusive(tasks: seq<Task>, i: nat, t: Task)
    requires Exclusive(tasks) && i < |tasks|
    requires forall l :: Holds(t, l) ==> Holds(tasks[i], l) || Free(tasks, l)
    ensures Exclusive(tasks[i := t])
  {
    var tasks' := tasks[i := t];
    forall a, b, l | 0 <= a < b < |tasks| && Holds(tasks'[a], l)
      ensures !Holds(tasks'[b], l)
    {
      if a == i {
        assert Holds(tasks[i], l) ==> !Holds(tasks[b], l);
      } else if b == i {
        assert Holds(tasks[a], l);
      }
    }
  }

  lemma {:induction false} ActKeepsInv(tasks: seq<Task>, i: nat)
    requires Inv(tasks) && i < |tasks| && CanAct(tasks, i)
    ensures Inv(tasks[i := Acted(tasks[i])])
  {
    hide Exclusive, Disciplined, Free;
    var t := Acted(tasks[i]);
    DisciplineGoesOn(tasks[i]);
    forall l | Holds(t, l)
      ensures Holds(tasks[i], l) || Free(tasks, l)
    {
    }
    StaysExclusive(tasks, i, t);
  }

  lemma {:induction false} StepKeepsInv(tasks: seq<Task>, s: Step)
    requires Inv(tasks) && Enabled(tasks, s)
    ensures Inv(Apply(tasks, s))
  {
    match s
    case Spawn(_) =>
    case Start(i, w) =>
      AllWorkIsDisciplined(tasks[i].kind, w);
      StaysExclusive(tasks, i, tasks[i].(todo := Actions(tasks[i].kind, w)));
    case Act(i) => ActKeepsInv(tasks, i);
  }

  lemma {:induction false} RunKeepsInv(steps: seq<Step>)
    ensures Inv(Run(steps))
  {
    hide Inv, Apply, Enabled;
    if steps == [] {
      NoTasks();
    } else {
      RunKeepsInv(Init(steps));
      if Enabled(Run(Init(steps)), Last(steps)) {
        StepKeepsInv(Run(Init(steps)), Last(steps));
      }
    }
  }

  lemma {:induction false} NoTasks()
    ensures Inv(Run([]))
  {
  }

  // ----- no deadlock -----

  ghost predicate WaitsFor(tasks: seq<Task>, i: nat, j: nat)
    requires i < |tasks| && j < |tasks|
  {
    tasks[i].todo != [] && tasks[i].todo[0].Acquire? && Holds(tasks[j], tasks[i].todo[0].lock)
  }

  ghost predicate Stuck(tasks: seq<Task>, stuck: set<nat>, i: nat) {
    i < |tasks| && exists j: nat :: j in stuck && j < |tasks| && WaitsFor(tasks, i, j)
  }

  // A deadlock: tasks that each wait for another of them.
  ghost predicate Deadlock(tasks: seq<Task>, stuck: set<nat>) {
    && stuck != {}
    && forall i: nat {:trigger Stuck(tasks, stuck, i)} :: i in stuck ==> Stuck(tasks, stuck, i)
  }

  // The holder of a lock waits, if it waits, for a lock of higher rank.
  lemma {:induction false} WaitingClimbs(tasks: seq<Task>, i: nat, j: nat)
    requires Inv(tasks) && i < |tasks| && j < |tasks| && WaitsFor(tasks, i, j)
    ensures tasks[j].todo != []
    ensures tasks[j].todo[0].Acquire? ==> Rank(tasks[i].todo[0].lock) < Rank(tasks[j].todo[0].lock)
  {
    assert Disciplined(tasks[j].held, tasks[j].todo);
  }

  lemma {:induction false} StuckWaits(tasks: seq<Task>, stuck: set<nat>, i: nat) returns (j: nat)
    requires Deadlock(tasks, stuck) && i in stuck
    ensures i < |tasks| && j in stuck && j < |tasks| && WaitsFor(tasks, i, j)
  {
    assert Stuck(tasks, stuck, i);
    j :| j in stuck && j < |tasks| && WaitsFor(tasks, i, j);
  }

  // So a cycle of waiting tasks would climb above the highest rank.
  lemma {:induction false} ClimbsForever(tasks: seq<Task>, stuck: set<nat>, i: nat, rank: nat)
    requires Inv(tasks) && Deadlock(tasks, stuck) && i in stuck && rank <= 3
    requires i < |tasks| && tasks[i].todo != [] && tasks[i].todo[0].Acquire? ==> rank <= Rank(tasks[i].todo[0].lock)
    ensures false
    decreases 3 - rank
  {
    hide Inv, Deadlock, Rank;
    var j := StuckWaits(tasks, stuck, i);
    var _ := StuckWaits(tasks, stuck, j);
    WaitingClimbs(tasks, i, j);
    RankAtMostTwo(tasks[i].todo[0].lock);
    ClimbsForever(tasks, stuck, j, rank + 1);
  }

  lemma {:induction false} RankAtMostTwo(l: Lock)
    ensures Rank(l) <= 2
  {
  }

  // No reachable configuration, however many tasks there are, holds a deadlock.
  lemma {:induction false} NoDeadlock(steps: seq<Step>, stuck: set<nat>)
    ensures !Deadlock(Run(steps), stuck)
  {
    RunKeepsInv(steps);
    if Deadlock(Run(steps), stuck) {
      var i :| i in stuck;
      ClimbsForever(Run(steps), stuck, i, 0);
    }
  }

  // And as long as any work is unfinished, some task can act.
  lemma {:induction false} SomeTaskCanAct(steps: seq<Step>, i: nat)
    requires i < |Run(steps)| && Run(steps)[i].todo != []
    ensures exists j :: 0 <= j < |Run(steps)| && CanAct(Run(steps), j)
  {
    RunKeepsInv(steps);
    FindActive(Run(steps), i);
  }

  lemma {:induction false} FindActive(tasks: seq<Task>, i: nat)
    requires Inv(tasks) && i < |tasks| && tasks[i].todo != []
    ensures exists j :: 0 <= j < |tasks| && CanAct(tasks, j)
    decreases 2 - Rank(tasks[i].todo[0].lock)
  {
    hide Inv;
    if !CanAct(tasks, i) {
      var j: nat :| j < |tasks| && Holds(tasks[j], tasks[i].todo[0].lock);
      WaitingClimbs(tasks, i, j);
      if !CanAct(tasks, j) {
        FindActive(tasks, j);
      }
    }
  }
}
