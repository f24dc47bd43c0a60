// The way back: what a client stream writes to its SOCKS client
// (services/relay-node/src/circuit/exit.rs:273-303, services/tor-client/src/core/circuit.rs:731-746,
// services/tor-client/src/core/stream.rs:162-169).
module StreamReturn {
  import opened Bytes
  import opened Cell
  import opened Crypto
  import opened Keystream
  import opened Sequences
  import opened Transcript
  import opened Chunking
  import opened ExitStreams
  import Backward
  import BackwardDelivery

  // The data cells of a read carry the read, and nothing for other streams.
  lemma {:induction false} ChunksCarryTheRead(id: u16, data: seq<byte>)
    ensures DataOf(DataCells(id, Chunks(data)), id) == data
    ensures forall other: u16 :: other != id ==> DataOf(DataCells(id, Chunks(data)), other) == []
  {
    CellsCarryChunks(id, Chunks(data));
    forall other: u16 | other != id
      ensures DataOf(DataCells(id, Chunks(data)), other) == []
    {
      NoDataOfAbsentStream(DataCells(id, Chunks(data)), other);
    }
  }

  lemma {:induction false} CellsCarryChunks(id: u16, chunks: seq<seq<byte>>)
    ensures DataOf(DataCells(id, chunks), id) == Concat(chunks)
  {
    if chunks != [] {
      CellsCarryChunks(id, Init(chunks));
      assert Init(DataCells(id, chunks)) == DataCells(id, Init(chunks));
    }
  }

  lemma {:induction false} DataOfOwnCells(cells: seq<Plain>, id: u16)
    ensures DataOf(Backward.OfStream(cells, id), id) == DataOf(cells, id)
  {
    if cells != [] {
      DataOfOwnCells(Init(cells), id);
      DataOfAppend(Backward.OfStream(Init(cells), id), Last(cells), id);
    }
  }

  // Unless a reply was overtaken, the bytes a registered stream has been given are a prefix of the
  // bytes the exit has sealed for it since it was registered, cells of other streams
  // notwithstanding.
  lemma {:induction false} WrittenIsPrefixOfSealed(net: Backward.Net, steps: seq<Backward.Step>, id: u16)
    requires |net.path| >= 3
    requires !Backward.Run(net, steps).overtaken
    requires id in Backward.Run(net, steps).client.inboxes
    ensures var s := Backward.Run(net, steps);
            var inbox := s.client.inboxes[id];
            && inbox.start <= |s.log|
            && DataOf(inbox.cells, id) <= DataOf(s.log[inbox.start..], id)
  {
    var s := Backward.Run(net, steps);
    var c := s.client;
    var inbox := c.inboxes[id];
    BackwardDelivery.BackwardDelivery(net, steps);
    BackwardDelivery.InboxIsOwnStream(net, steps, id);
    var got, sealed := c.received[inbox.start..], s.log[inbox.start..];
    DataOfOwnCells(got, id);
    assert got == sealed[..|got|];
    DataOfPrefix(sealed, |got|, id);
  }

  // ----- many stream tasks at the exit -----

  // A stream task. `read` is history: everything read from its destination so far; `unsent` is the
  // part of the last read that is not sealed yet.
  datatype ExitTask = ExitTask(read: seq<byte>, unsent: seq<byte>, running: bool)

  // `registered` is history: the ids the client has registered streams for.
  datatype State = State(tasks: map<u16, ExitTask>, registered: set<u16>, net: Backward.State)

  datatype Step =
    | Connect(id: u16)                    // BEGIN worked: CONNECTED goes out, the task starts
    | Read(id: u16, data: seq<byte>)
    | SendChunk(id: u16)
    | Finish(id: u16, reason: seq<byte>)  // the destination closed or failed: END goes out
    | Below(step: Backward.Step)          // replies, relays, the client's reader and its streams

  // The exit connects only for a BEGIN, which the client sends after registering the stream, and
  // ids have not wrapped around.
  ghost predicate Enabled(net: Backward.Net, s: State, step: Step)
    requires Backward.Shape(net, s.net)
  {
    match step
    case Connect(id) => id in s.registered && id !in s.tasks
    case Read(id, data) => id in s.tasks && s.tasks[id].running && s.tasks[id].unsent == []
    case SendChunk(id) => id in s.tasks && s.tasks[id].running && s.tasks[id].unsent != []
    case Finish(id, reason) => id in s.tasks && s.tasks[id].running && |reason| <= MAX_PAYLOAD
    case Below(t) =>
      && !t.SealAndWrite? && (t.Register? ==> t.stream !in s.registered)
      && Backward.Enabled(net, s.net, t)
  }

  function CellOf(s: State, step: Step): Plain
    requires step.Connect? || step.Finish? || (step.SendChunk? && step.id in s.tasks)
  {
    match step
    case Connect(id) => Plain(id, Connected, [])
    case SendChunk(id) => Plain(id, Data, s.tasks[id].unsent[..FirstChunk(s.tasks[id].unsent)])
    case Finish(id, reason) => Plain(id, End, reason)
  }

  function TaskAfter(t: ExitTask, step: Step): ExitTask {
    match step
    case Read(_, data) => t.(read := t.read + data, unsent := data)
    case SendChunk(_) => t.(unsent := t.unsent[FirstChunk(t.unsent)..])
    case Finish(_, _) => t.(running := false)
    case _ => t
  }

  ghost function Apply(net: Backward.Net, s: State, step: Step): State
    requires Backward.Shape(net, s.net) && Enabled(net, s, step)
  {
    match step
    case Below(t) =>
      s.(registered := if t.Register? then s.registered + {t.stream} else s.registered,
         net := Backward.Apply(net, s.net, t))
    case Read(id, _) => s.(tasks := s.tasks[id := TaskAfter(s.tasks[id], step)])
    case Connect(id) =>
      s.(tasks := s.tasks[id := ExitTask([], [], true)],
         net := Backward.Apply(net, s.net, Backward.SealAndWrite(CellOf(s, step))))
    case _ =>
      s.(tasks := s.tasks[step.id := TaskAfter(s.tasks[step.id], step)],
         net := Backward.Apply(net, s.net, Backward.SealAndWrite(CellOf(s, step))))
  }

  ghost function Run(net: Backward.Net, steps: seq<Step>): (s: State)
    requires |net.path| >= 3
    ensures Backward.Shape(net, s.net)
  {
    if steps == [] then State(map[], {}, Backward.Start(net))
    else
      var s := Run(net, Init(steps));
      if Enabled(net, s, Last(steps)) then Apply(net, s, Last(steps)) else s
  }

  ghost function Lowered(net: Backward.Net, steps: seq<Step>): seq<Backward.Step>
    requires |net.path| >= 3
  {
    if steps == [] then []
    else
      var s, step := Run(net, Init(steps)), Last(steps);
      if !Enabled(net, s, step) || step.Read? then Lowered(net, Init(steps))
      else Lowered(net, Init(steps)) + [if step.Below? then step.step else Backward.SealAndWrite(CellOf(s, step))]
  }

  // Every run of the tasks is a run of the circuit underneath.
  lemma {:induction false} RunsBelow(net: Backward.Net, steps: seq<Step>)
    requires |net.path| >= 3
    ensures Run(net, steps).net == Backward.Run(net, Lowered(net, steps))
  {
    hide Backward.Run, Backward.Start, Backward.Apply;
    NothingRun(net);
    if steps != [] {
      var s, step := Run(net, Init(steps)), Last(steps);
      RunsBelow(net, Init(steps));
      if Enabled(net, s, step) && !step.Read? {
        BackwardDelivery.RunMore(net, Lowered(net, Init(steps)), Last(Lowered(net, steps)));
      }
    }
  }

  lemma {:induction false} NothingRun(net: Backward.Net)
    requires |net.path| >= 3
    ensures Backward.Run(net, []) == Backward.Start(net)
  {
  }

  // ----- the account of every task -----

  ghost predicate TaskOk(log: seq<Plain>, t: ExitTask, id: u16) {
    DataOf(log, id) + t.unsent == t.read
  }

  // A stream was registered when none of its data had been sealed.
  ghost predicate InboxOk(log: seq<Plain>, inbox: Backward.Inbox, id: u16) {
    inbox.start <= |log| && DataOf(log[..inbox.start], id) == []
  }

  ghost predicate TasksOk(log: seq<Plain>, tasks: map<u16, ExitTask>) {
    && (forall id :: id in tasks ==> TaskOk(log, tasks[id], id))
    && (forall id: u16 :: id !in tasks ==> DataOf(log, id) == [])
  }

  ghost predicate InboxesOk(log: seq<Plain>, inboxes: map<u16, Backward.Inbox>) {
    forall id :: id in inboxes ==> InboxOk(log, inboxes[id], id)
  }

  ghost predicate Inv(s: State) {
    && TasksOk(s.net.log, s.tasks)
    && InboxesOk(s.net.log, s.net.client.inboxes)
    && s.tasks.Keys <= s.registered && s.net.client.inboxes.Keys <= s.registered
  }

  lemma {:induction false} SealKeepsInboxes(log: seq<Plain>, p: Plain, inboxes: map<u16, Backward.Inbox>)
    requires InboxesOk(log, inboxes)
    ensures InboxesOk(log + [p], inboxes)
  {
    forall id | id in inboxes
      ensures InboxOk(log + [p], inboxes[id], id)
    {
      assert (log + [p])[..inboxes[id].start] == log[..inboxes[id].start];
    }
  }

  lemma {:induction false} SealKeepsTasks(log: seq<Plain>, s: State, step: Step)
    requires step.Connect? || step.SendChunk? || step.Finish?
    requires TasksOk(log, s.tasks)
    requires if step.Connect? then step.id !in s.tasks else step.id in s.tasks
    ensures var t := if step.Connect? then ExitTask([], [], true) else TaskAfter(s.tasks[step.id], step);
            TasksOk(log + [CellOf(s, step)], s.tasks[step.id := t])
  {
    hide DataOf, TaskOk;
    var p := CellOf(s, step);
    var t := if step.Connect? then ExitTask([], [], true) else TaskAfter(s.tasks[step.id], step);
    OwnTaskMoves(log, s, step);
    forall id: u16 | id != step.id
      ensures DataOf(log + [p], id) == DataOf(log, id)
      ensures id in s.tasks ==> TaskOk(log + [p], s.tasks[id], id)
    {
      DataOfAppend(log, p, id);
      SameData(log, log + [p], if id in s.tasks then s.tasks[id] else t, id);
    }
  }

  lemma {:induction false} SameData(a: seq<Plain>, b: seq<Plain>, t: ExitTask, id: u16)
    requires DataOf(a, id) == DataOf(b, id)
    ensures TaskOk(a, t, id) == TaskOk(b, t, id)
  {
  }

  lemma {:induction false} OwnTaskMoves(log: seq<Plain>, s: State, step: Step)
    requires step.Connect? || step.SendChunk? || step.Finish?
    requires TasksOk(log, s.tasks)
    requires if step.Connect? then step.id !in s.tasks else step.id in s.tasks
    ensures var t := if step.Connect? then ExitTask([], [], true) else TaskAfter(s.tasks[step.id], step);
            TaskOk(log + [CellOf(s, step)], t, step.id)
  {
    hide DataOf;
    DataOfAppend(log, CellOf(s, step), step.id);
    if step.SendChunk? {
      var t := s.tasks[step.id];
      var n := FirstChunk(t.unsent);
      assert TaskOk(log, t, step.id);
      assert t.unsent == t.unsent[..n] + t.unsent[n..];
    }
  }

  lemma {:induction false} OtherCellKeepsTasks(log: seq<Plain>, p: Plain, tasks: map<u16, ExitTask>)
    requires TasksOk(log, tasks) && p.command != Data
    ensures TasksOk(log + [p], tasks)
  {
    hide DataOf;
    forall id: u16
      ensures DataOf(log + [p], id) == DataOf(log, id)
    {
      DataOfAppend(log, p, id);
    }
  }

  // What a step of the circuit does to the sealed cells and to the client's inboxes.
  lemma {:induction false} CircuitStep(net: Backward.Net, s: Backward.State, t: Backward.Step)
    requires Backward.Shape(net, s) && Backward.Enabled(net, s, t)
    ensures Backward.Apply(net, s, t).log == if t.SealAndWrite? || t.SealReply? then s.log + [t.p] else s.log
    ensures var before, after := s.client.inboxes, Backward.Apply(net, s, t).client.inboxes;
            forall id :: id in after ==>
              if t == Backward.Register(id) then after[id].start == |s.client.received|
              else id in before && after[id].start == before[id].start
  {
    hide XorStream, Mask, Frame, PlainFrame, SlotOf;
  }

  lemma {:induction false} ReceivedWereSealed(net: Backward.Net, s: Backward.State)
    requires Backward.Inv(net, s)
    ensures |s.client.received| <= |s.log|
  {
    hide Backward.QueueOk, Backward.RelaysOk, Backward.InboxesOk, Backward.PendingOk, AllVerify, WireOf;
  }

  lemma {:induction false} InboxesFollow(log: seq<Plain>, before: map<u16, Backward.Inbox>,
                                         after: map<u16, Backward.Inbox>, t: Backward.Step, received: nat)
    requires InboxesOk(log, before) && received <= |log|
    requires t.Register? ==> DataOf(log, t.stream) == []
    requires forall id :: id in after ==>
               if t == Backward.Register(id) then after[id].start == received
               else id in before && after[id].start == before[id].start
    ensures InboxesOk(log, after)
  {
    hide DataOf;
    forall id | id in after
      ensures InboxOk(log, after[id], id)
    {
      if t == Backward.Register(id) {
        DataOfPrefix(log, received, id);
      } else {
        assert InboxOk(log, before[id], id);
      }
    }
  }

  lemma {:induction false} StepKeepsInv(net: Backward.Net, s: State, step: Step)
    requires Backward.Shape(net, s.net) && Inv(s) && Enabled(net, s, step)
    requires |s.net.client.received| <= |s.net.log|
    ensures Inv(Apply(net, s, step))
  {
    hide TasksOk, InboxesOk, Backward.Apply, Backward.Enabled;
    var log, inboxes := s.net.log, s.net.client.inboxes;
    match step
    case Read(id, data) => ReadKeepsTasks(log, s, id, data);
    case Below(t) => BelowKeepsInv(net, s, t);
    case _ =>
      var seal := Backward.SealAndWrite(CellOf(s, step));
      SealsAreEnabled(net, s, step);
      CircuitStep(net, s.net, seal);
      SealKeepsTasks(log, s, step);
      InboxesFollow(log, inboxes, Backward.Apply(net, s.net, seal).client.inboxes, seal, |s.net.client.received|);
      SealKeepsInboxes(log, CellOf(s, step), Backward.Apply(net, s.net, seal).client.inboxes);
  }

  lemma {:induction false} SealsAreEnabled(net: Backward.Net, s: State, step: Step)
    requires Backward.Shape(net, s.net) && Enabled(net, s, step) && !step.Read? && !step.Below?
    ensures Backward.Enabled(net, s.net, Backward.SealAndWrite(CellOf(s, step)))
  {
  }

  lemma {:induction false} ReadKeepsTasks(log: seq<Plain>, s: State, id: u16, data: seq<byte>)
    requires TasksOk(log, s.tasks) && id in s.tasks && s.tasks[id].unsent == []
    ensures TasksOk(log, s.tasks[id := TaskAfter(s.tasks[id], Read(id, data))])
  {
    assert TaskOk(log, s.tasks[id], id);
  }

  lemma {:induction false} BelowKeepsInv(net: Backward.Net, s: State, t: Backward.Step)
    requires Backward.Shape(net, s.net) && Inv(s) && Enabled(net, s, Below(t))
    requires |s.net.client.received| <= |s.net.log|
    ensures Inv(Apply(net, s, Below(t)))
  {
    hide TaskOk, InboxesOk, Backward.Apply;
    var log, after := s.net.log, Backward.Apply(net, s.net, t).client.inboxes;
    CircuitStep(net, s.net, t);
    InboxesFollow(log, s.net.client.inboxes, after, t, |s.net.client.received|);
    if t.SealReply? {
      OtherCellKeepsTasks(log, t.p, s.tasks);
      SealKeepsInboxes(log, t.p, after);
    }
  }

  lemma {:induction false} RunKeepsInv(net: Backward.Net, steps: seq<Step>)
    requires |net.path| >= 3
    ensures Inv(Run(net, steps)) && |Run(net, steps).net.client.received| <= |Run(net, steps).net.log|
  {
    hide Inv, Apply, Enabled, Backward.Run, Backward.Inv;
    RunsBelow(net, steps);
    Backward.RunKeepsInv(net, Lowered(net, steps));
    ReceivedWereSealed(net, Run(net, steps).net);
    if steps == [] {
      NothingYet(net);
    } else {
      RunKeepsInv(net, Init(steps));
      if Enabled(net, Run(net, Init(steps)), Last(steps)) {
        StepKeepsInv(net, Run(net, Init(steps)), Last(steps));
      }
    }
  }

  lemma {:induction false} NothingYet(net: Backward.Net)
    requires |net.path| >= 3
    ensures Inv(Run(net, []))
  {
  }

  // Whatever the interleaving of stream tasks, unless a reply was overtaken the bytes a client
  // stream writes to its SOCKS client are a prefix of the bytes read from its destination.
  lemma {:induction false} WrittenIsPrefixOfRead(net: Backward.Net, steps: seq<Step>, id: u16)
    requires |net.path| >= 3
    requires !Run(net, steps).net.overtaken
    requires id in Run(net, steps).net.client.inboxes
    ensures var s := Run(net, steps);
            && s.net.client.status != Backward.Rejected
            && DataOf(s.net.client.inboxes[id].cells, id) <= if id in s.tasks then s.tasks[id].read else []
  {
    hide Run, Lowered, DataOf;
    var s := Run(net, steps);
    var inbox, log := s.net.client.inboxes[id], s.net.log;
    RunsBelow(net, steps);
    RunKeepsInv(net, steps);
    BackwardDelivery.BackwardDelivery(net, Lowered(net, steps));
    WrittenIsPrefixOfSealed(net, Lowered(net, steps), id);
    assert InboxOk(log, inbox, id);
    assert log == log[..inbox.start] + log[inbox.start..];
    DataOfConcat(log[..inbox.start], log[inbox.start..], id);
    assert id in s.tasks ==> TaskOk(log, s.tasks[id], id);
  }

  lemma {:induction false} DataOfConcat(a: seq<Plain>, b: seq<Plain>, id: u16)
    ensures DataOf(a + b, id) == DataOf(a, id) + DataOf(b, id)
    decreases |b|
  {
    if b == [] {
      assert a + b == a;
    } else {
      assert Init(a + b) == a + Init(b) && Last(a + b) == Last(b);
      DataOfConcat(a, Init(b), id);
      assert DataOf(a, id) + (DataOf(Init(b), id) + Last(b).data) == (DataOf(a, id) + DataOf(Init(b), id))
             + Last(b).data;
    }
  }
}
