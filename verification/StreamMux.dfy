// Many streams on one circuit: every stream of the client reads its SOCKS client, cuts each read
// into chunks and sends them one lock at a time, so cells of all streams interleave in any way.
//   client: services/tor-client/src/core/stream.rs:24-221
//   exit:   services/relay-node/src/circuit/exit.rs:380-420, :476-502
module StreamMux {
  import opened Bytes
  import opened Cell
  import opened Sequences
  import opened Transcript
  import opened Chunking
  import opened ExitStreams
  import Forward
  import ForwardDelivery
  import Ids = ClientCircuit

  datatype Phase = Registered | Begun | Ended

  // A stream at the client. `read` is history: everything read from its SOCKS client so far;
  // `unsent` is the part of the last read that has not been given to send_message.
  datatype ClientStream = ClientStream(phase: Phase, read: seq<byte>, unsent: seq<byte>)

  datatype State = State(streams: map<u16, ClientStream>, issued: nat, net: Forward.State)

  datatype Step =
    | Allocate
    | SendBegin(id: u16, destination: seq<byte>)
    | Read(id: u16, data: seq<byte>)
    | SendChunk(id: u16)
    | SendEnd(id: u16)
    | Below(step: Forward.Step)  // a keepalive, or a hop passes a cell on

  // Ids have not wrapped around, and a destination is a string that with its final zero fits a cell.
  ghost predicate Enabled(net: Forward.Net, s: State, step: Step)
    requires Forward.Shape(net, s.net)
  {
    match step
    case Allocate => s.issued < 65535
    case SendBegin(id, destination) =>
      && id in s.streams && s.streams[id].phase == Registered
      && net.isText(destination + [0]) && |destination| + 1 <= MAX_PAYLOAD
    case Read(id, data) => id in s.streams && s.streams[id].phase == Begun && s.streams[id].unsent == []
    case SendChunk(id) => id in s.streams && s.streams[id].phase == Begun && s.streams[id].unsent != []
    case SendEnd(id) => id in s.streams && s.streams[id].phase == Begun
    case Below(t) => !t.Send? && Forward.Enabled(net, s.net, t)
  }

  // The cell a step gives to send_message, and the stream afterwards.
  function CellOf(s: State, step: Step): Plain
    requires step.SendBegin? || step.SendEnd? || (step.SendChunk? && step.id in s.streams)
  {
    match step
    case SendBegin(id, destination) => Plain(id, Begin, destination + [0])
    case SendChunk(id) => Plain(id, Data, s.streams[id].unsent[..FirstChunk(s.streams[id].unsent)])
    case SendEnd(id) => Plain(id, End, [])
  }

  function StreamAfter(c: ClientStream, step: Step): ClientStream {
    match step
    case SendBegin(_, _) => c.(phase := Begun)
    case Read(_, data) => c.(read := c.read + data, unsent := data)
    case SendChunk(_) => c.(unsent := c.unsent[FirstChunk(c.unsent)..])
    case SendEnd(_) => c.(phase := Ended)
    case _ => c
  }

  ghost function Apply(net: Forward.Net, s: State, step: Step): State
    requires Forward.Shape(net, s.net) && Enabled(net, s, step)
  {
    match step
    case Allocate =>
      s.(streams := s.streams[Ids.StreamIdAt(s.issued) := ClientStream(Registered, [], [])], issued := s.issued + 1)
    case Below(t) => s.(net := Forward.Apply(net, s.net, t))
    case Read(id, _) => s.(streams := s.streams[id := StreamAfter(s.streams[id], step)])
    case _ =>
      State(s.streams[step.id := StreamAfter(s.streams[step.id], step)], s.issued,
            Forward.SendMessage(net, s.net, CellOf(s, step)))
  }

  ghost function Run(net: Forward.Net, steps: seq<Step>): (s: State)
    requires |net.path| >= 3
    ensures Forward.Shape(net, s.net)
  {
    if steps == [] then State(map[], 0, Forward.Start(net))
    else
      var s := Run(net, Init(steps));
      if Enabled(net, s, Last(steps)) then Apply(net, s, Last(steps)) else s
  }

  // ----- every run is a run of the circuit underneath -----

  ghost function Lowered(net: Forward.Net, steps: seq<Step>): seq<Forward.Step>
    requires |net.path| >= 3
  {
    if steps == [] then []
    else
      var s, step := Run(net, Init(steps)), Last(steps);
      if !Enabled(net, s, step) || step.Allocate? || step.Read? then Lowered(net, Init(steps))
      else Lowered(net, Init(steps)) + [if step.Below? then step.step else Forward.Send(CellOf(s, step))]
  }

  lemma {:induction false} RunsBelow(net: Forward.Net, steps: seq<Step>)
    requires |net.path| >= 3
    ensures Run(net, steps).net == Forward.Run(net, Lowered(net, steps))
  {
    hide Forward.Run, Forward.Start, Forward.TakenAndPassedOn, Forward.TakeAtExit;
    NothingRun(net);
    if steps != [] {
      var s, step := Run(net, Init(steps)), Last(steps);
      RunsBelow(net, Init(steps));
      if Enabled(net, s, step) && !step.Allocate? && !step.Read? {
        ForwardDelivery.RunMore(net, Lowered(net, Init(steps)), Last(Lowered(net, steps)));
      }
    }
  }

  lemma {:induction false} NothingRun(net: Forward.Net)
    requires |net.path| >= 3
    ensures Forward.Run(net, []) == Forward.Start(net)
  {
  }

  // ----- the invariant -----

  // What the log of the circuit holds for one id.
  ghost predicate StreamOk(log: seq<Plain>, id: u16, c: ClientStream) {
    && StartsOnce(log, id)
    && (c.phase == Registered ==> Absent(log, id) && c.read == c.unsent == [])
    && DataOf(log, id) + c.unsent == c.read
  }

  ghost predicate Absent(log: seq<Plain>, id: u16) {
    forall i :: 0 <= i < |log| ==> log[i].streamId != id
  }

  ghost predicate StreamsOk(log: seq<Plain>, streams: map<u16, ClientStream>) {
    && (forall id :: id in streams ==> StreamOk(log, id, streams[id]))
    && (forall id: u16 :: id !in streams ==> Absent(log, id))
  }

  ghost predicate IdsOk(streams: map<u16, ClientStream>, issued: nat) {
    forall id :: id in streams ==> exists k :: 0 <= k < issued && Ids.StreamIdAt(k) == id
  }

  ghost predicate Inv(isText: TextTest, s: State) {
    && StreamsOk(s.net.log, s.streams)
    && IdsOk(s.streams, s.issued)
    && s.issued <= 65535
    && ForwardDelivery.AllFit(s.net.log)
    && ForwardDelivery.AllText(isText, s.net.log)
  }

  // Until the ids wrap around, a new id is new.
  lemma {:induction false} NextIdIsNew(streams: map<u16, ClientStream>, issued: nat)
    requires IdsOk(streams, issued) && issued < 65535
    ensures Ids.StreamIdAt(issued) !in streams
  {
    forall k | 0 <= k < issued
      ensures Ids.StreamIdAt(k) != Ids.StreamIdAt(issued)
    {
      Ids.StreamIdsRepeatOnlyAfterFullCycle(k, issued);
    }
  }

  lemma {:induction false} OtherStreamUntouched(log: seq<Plain>, p: Plain, id: u16, c: ClientStream)
    requires p.streamId != id
    ensures StreamOk(log, id, c) ==> StreamOk(log + [p], id, c)
    ensures Absent(log, id) ==> Absent(log + [p], id)
  {
    DataOfAppend(log, p, id);
  }

  // The stream that sends keeps its account.
  lemma {:induction false} OwnStreamMoves(log: seq<Plain>, s: State, step: Step)
    requires step.SendBegin? || step.SendChunk? || step.SendEnd?
    requires step.id in s.streams && StreamOk(log, step.id, s.streams[step.id])
    requires if step.SendBegin? then s.streams[step.id].phase == Registered else s.streams[step.id].phase == Begun
    ensures StreamOk(log + [CellOf(s, step)], step.id, StreamAfter(s.streams[step.id], step))
  {
    hide StartsOnce;
    var c, p := s.streams[step.id], CellOf(s, step);
    DataOfAppend(log, p, step.id);
    StillStartsOnce(log, p, step.id);
    if step.SendChunk? {
      var n := FirstChunk(c.unsent);
      assert c.unsent == c.unsent[..n] + c.unsent[n..];
    }
  }

  lemma {:induction false} StillStartsOnce(log: seq<Plain>, p: Plain, id: u16)
    requires StartsOnce(log, id) && (p.command == Begin ==> Absent(log, id))
    ensures StartsOnce(log + [p], id)
  {
  }

  lemma {:induction false} SendKeepsStreams(log: seq<Plain>, s: State, step: Step)
    requires step.SendBegin? || step.SendChunk? || step.SendEnd?
    requires StreamsOk(log, s.streams) && step.id in s.streams
    requires if step.SendBegin? then s.streams[step.id].phase == Registered else s.streams[step.id].phase == Begun
    ensures StreamsOk(log + [CellOf(s, step)], s.streams[step.id := StreamAfter(s.streams[step.id], step)])
  {
    hide StreamOk, Absent;
    var p := CellOf(s, step);
    var streams := s.streams[step.id := StreamAfter(s.streams[step.id], step)];
    forall id | id in streams
      ensures StreamOk(log + [p], id, streams[id])
    {
      if id == step.id {
        OwnStreamMoves(log, s, step);
      } else {
        OtherStreamUntouched(log, p, id, streams[id]);
      }
    }
    forall id: u16 | id !in streams
      ensures Absent(log + [p], id)
    {
      OtherStreamUntouched(log, p, id, StreamAfter(s.streams[step.id], step));
    }
  }

  lemma {:induction false} AllocateKeepsStreams(log: seq<Plain>, s: State)
    requires StreamsOk(log, s.streams) && IdsOk(s.streams, s.issued) && s.issued < 65535
    ensures StreamsOk(log, s.streams[Ids.StreamIdAt(s.issued) := ClientStream(Registered, [], [])])
    ensures IdsOk(s.streams[Ids.StreamIdAt(s.issued) := ClientStream(Registered, [], [])], s.issued + 1)
  {
    NextIdIsNew(s.streams, s.issued);
    NoDataOfAbsentStream(log, Ids.StreamIdAt(s.issued));
  }

  lemma {:induction false} StepKeepsInv(net: Forward.Net, s: State, step: Step)
    requires Forward.Shape(net, s.net) && Inv(net.isText, s) && Enabled(net, s, step)
    ensures Inv(net.isText, Apply(net, s, step))
  {
    hide StreamOk, Absent, Ids.StreamIdAt;
    match step
    case Allocate => AllocateKeepsStreams(s.net.log, s);
    case Below(t) => LogUnchanged(net, s.net, t);
    case Read(id, data) => ReadKeepsStreams(s.net.log, s, id, data);
    case SendBegin(_, _) => SendKeepsStreams(s.net.log, s, step);
    case SendChunk(_) => SendKeepsStreams(s.net.log, s, step);
    case SendEnd(_) => SendKeepsStreams(s.net.log, s, step);
  }

  lemma {:induction false} ReadKeepsStreams(log: seq<Plain>, s: State, id: u16, data: seq<byte>)
    requires StreamsOk(log, s.streams) && id in s.streams
    requires s.streams[id].phase == Begun && s.streams[id].unsent == []
    ensures StreamsOk(log, s.streams[id := StreamAfter(s.streams[id], Read(id, data))])
  {
  }

  lemma {:induction false} LogUnchanged(net: Forward.Net, s: Forward.State, t: Forward.Step)
    requires Forward.Shape(net, s) && Forward.Enabled(net, s, t) && !t.Send?
    ensures Forward.Apply(net, s, t).log == s.log
  {
  }

  lemma {:induction false} RunKeepsInv(net: Forward.Net, steps: seq<Step>)
    requires |net.path| >= 3
    ensures Inv(net.isText, Run(net, steps))
  {
    hide Inv, Apply, Enabled;
    if steps == [] {
      NothingYet(net);
    } else {
      RunKeepsInv(net, Init(steps));
      if Enabled(net, Run(net, Init(steps)), Last(steps)) {
        StepKeepsInv(net, Run(net, Init(steps)), Last(steps));
      }
    }
  }

  lemma {:induction false} NothingYet(net: Forward.Net)
    requires |net.path| >= 3
    ensures Inv(net.isText, Run(net, []))
  {
  }

  // ----- the streams at the exit -----

  // Whatever the interleaving, the bytes queued for the destination of a stream in the exit's
  // table are a prefix of the bytes read from that stream's SOCKS client.
  lemma {:induction false} QueueIsPrefixOfRead(net: Forward.Net, steps: seq<Step>, outcomes: nat -> Outcome, id: u16)
    requires |net.path| >= 3
    requires id in Streams(Run(net, steps).net.exit.delivered, outcomes)
    ensures var s := Run(net, steps);
            && s.net.exit.reading
            && id in s.streams
            && Streams(s.net.exit.delivered, outcomes)[id].queue <= s.streams[id].read
  {
    hide Streams, StreamOk;
    var s := Run(net, steps);
    RunKeepsInv(net, steps);
    RunsBelow(net, steps);
    ForwardDelivery.ForwardDelivery(net, Lowered(net, steps));
    var delivered, log := s.net.exit.delivered, s.net.log;
    assert delivered == log[..|delivered|];
    ExitSawStream(log, delivered, s.streams, outcomes, id);
    StreamAccount(log, |delivered|, id, s.streams[id]);
    QueueIsStreamData(delivered, outcomes, id);
  }

  // Once everything has arrived, a stream whose task still runs has queued every byte read.
  lemma {:induction false} QuietQueueIsAllOfRead(net: Forward.Net, steps: seq<Step>, outcomes: nat -> Outcome, id: u16)
    requires |net.path| >= 3
    requires ForwardDelivery.Idle(Run(net, steps).net.hops)
    requires id in Streams(Run(net, steps).net.exit.delivered, outcomes)
    requires id in Run(net, steps).streams && Run(net, steps).streams[id].unsent == []
    requires Streams(Run(net, steps).net.exit.delivered, outcomes)[id].open
    ensures var s := Run(net, steps);
            Streams(s.net.exit.delivered, outcomes)[id].queue == s.streams[id].read
  {
    hide Streams, StartsOnce;
    var s := Run(net, steps);
    RunKeepsInv(net, steps);
    RunsBelow(net, steps);
    ForwardDelivery.QuietMeansAllDelivered(net, Lowered(net, steps));
    assert StreamOk(s.net.log, id, s.streams[id]);
    QueueIsStreamData(s.net.log, outcomes, id);
  }

  lemma {:induction false} StreamAccount(log: seq<Plain>, n: nat, id: u16, c: ClientStream)
    requires StreamOk(log, id, c) && n <= |log|
    ensures StartsOnce(log[..n], id)
    ensures DataOf(log[..n], id) <= DataOf(log, id) <= c.read
  {
    DataOfPrefix(log, n, id);
  }

  lemma {:induction false} ExitSawStream(log: seq<Plain>, delivered: seq<Plain>, streams: map<u16, ClientStream>,
                                         outcomes: nat -> Outcome, id: u16)
    requires StreamsOk(log, streams) && delivered <= log && id in Streams(delivered, outcomes)
    ensures id in streams
  {
    hide StreamOk;
    if id !in streams {
      NoStreamOfAbsentId(delivered, outcomes, id);
    }
  }

  lemma {:induction false} NoStreamOfAbsentId(cells: seq<Plain>, outcomes: nat -> Outcome, id: u16)
    requires Absent(cells, id)
    ensures id !in Streams(cells, outcomes)
  {
    if cells != [] {
      NoStreamOfAbsentId(Init(cells), outcomes, id);
    }
  }
}
