// What the backward invariant means for whole runs.
module BackwardDelivery {
  import opened Keystream
  import opened Cell
  import opened Crypto
  import opened Sequences
  import opened Transcript

  import opened Backward

  // In every run in which nothing was sealed and written while an END reply was waiting to be
  // written, the reader never rejects a cell, and what it has decrypted is a prefix of exactly
  // what the exit sealed, whether or not the streams of those cells are registered.
  lemma {:induction false} BackwardDelivery(net: Net, steps: seq<Step>)
    requires |net.path| >= 3
    requires !Run(net, steps).overtaken
    ensures var s := Run(net, steps);
            s.client.status != Rejected && s.client.received <= s.log
  {
    var s := Run(net, steps);
    RunKeepsInv(net, steps);
    InOrderOpens(net.tag, ExitLayer(net), s.log, s.wire, s.client.passed);
    var n := s.client.passed;
    assert n > 0 ==> Verifies(net.tag, ExitLayer(net), s.wire, n - 1);
  }

  // How many relay cells the reader has taken.
  ghost function Taken(net: Net, steps: seq<Step>): (n: nat)
    requires |net.path| >= 3
    ensures n <= |Run(net, steps).wire|
  {
    RunKeepsInv(net, steps);
    Run(net, steps).client.passed
  }

  // For every run, unless the digest collides: what the reader has accepted is a prefix of what
  // the exit sealed, and the circuit is torn down for a bad digest exactly when a cell that left
  // the exit out of sealing order has reached the reader.
  lemma {:induction false} ReaderRejectsExactlyOutOfOrder(net: Net, steps: seq<Step>)
    requires |net.path| >= 3
    requires NoCollisions(net.tag, ExitLayer(net), Run(net, steps).wire, Taken(net, steps))
    ensures var s, n := Run(net, steps), Taken(net, steps);
            s.client.received <= s.log
            && (s.client.status == Rejected <==> !InOrder(s.wire, n))
  {
    hide RelaysOk, QueueOk, InboxesOk, Verifies, AllVerify, OpenedAll, InOrder, WireOf, NoCollisions, LayersAfter,
         Absorbed;
    var s, n, path := Run(net, steps), Taken(net, steps), ExitLayer(net);
    RunKeepsInv(net, steps);
    var good := if s.client.status == Rejected then n - 1 else n;
    if good < n {
      OneMore(net.tag, path, s.wire, good);
    }
    VerifiesIffInOrder(net.tag, path, s.log, s.wire, good);
    VerifiesIffInOrder(net.tag, path, s.log, s.wire, n);
    InOrderOpens(net.tag, path, s.log, s.wire, good);
  }

  // Cells leave the exit in sealing order exactly when no cell was sealed and written while a
  // reply was pending; and it takes only one such cell to lose the order for good.
  lemma {:induction false} OrderLostExactlyByOvertaking(net: Net, steps: seq<Step>)
    requires |net.path| >= 3
    ensures var s := Run(net, steps); InOrder(s.wire, |s.wire|) <==> !s.overtaken
    ensures Run(net, steps).overtaken <==>
            exists k :: 0 <= k < |steps| && Overtakes(net, steps, k)
  {
    RunKeepsInv(net, steps);
    OvertakenBySomeStep(net, steps);
  }

  // Step k seals and writes while a reply waits.
  ghost predicate Overtakes(net: Net, steps: seq<Step>, k: nat)
    requires |net.path| >= 3 && k < |steps|
  {
    steps[k].SealAndWrite? && ExitCell(steps[k].p) && Run(net, steps[..k]).exit.pending.Some?
  }

  lemma {:induction false} OvertakenBySomeStep(net: Net, steps: seq<Step>)
    requires |net.path| >= 3
    ensures Run(net, steps).overtaken <==> exists k :: 0 <= k < |steps| && Overtakes(net, steps, k)
  {
    hide Run, Overtakes;
    if steps == [] {
      NotOvertakenAtStart(net);
    } else {
      var before, k := Init(steps), |steps| - 1;
      OvertakenBySomeStep(net, before);
      LastStepOvertakes(net, steps);
      forall j | 0 <= j < k
        ensures Overtakes(net, steps, j) <==> Overtakes(net, before, j)
      {
        SameOvertaking(net, steps, j);
      }
    }
  }

  lemma {:induction false} NotOvertakenAtStart(net: Net)
    requires |net.path| >= 3
    ensures !Run(net, []).overtaken
  {
  }

  lemma {:induction false} LastStepOvertakes(net: Net, steps: seq<Step>)
    requires |net.path| >= 3 && steps != []
    ensures Run(net, steps).overtaken <==> Run(net, Init(steps)).overtaken || Overtakes(net, steps, |steps| - 1)
  {
    assert steps[..|steps| - 1] == Init(steps);
  }

  lemma {:induction false} SameOvertaking(net: Net, steps: seq<Step>, j: nat)
    requires |net.path| >= 3 && j + 1 < |steps|
    ensures Overtakes(net, steps, j) <==> Overtakes(net, Init(steps), j)
  {
    hide Run;
    assert steps[..j] == Init(steps)[..j];
  }

  // A registered stream's channel holds, in order, exactly the accepted cells of that stream
  // since it was registered.
  lemma {:induction false} InboxIsOwnStream(net: Net, steps: seq<Step>, id: u16)
    requires |net.path| >= 3
    requires id in Run(net, steps).client.inboxes
    ensures var c := Run(net, steps).client;
            c.inboxes[id].start <= |c.received|
            && c.inboxes[id].cells == OfStream(c.received[c.inboxes[id].start..], id)
  {
    RunKeepsInv(net, steps);
  }

  // ----- DESTROY -----

  // The entry's reader has stopped exactly when it has sent DESTROY, and sends nothing after it.
  ghost predicate EndsWithDestroy(running: bool, q: seq<Message>, status: ReaderStatus) {
    && (forall k :: 0 <= k < |q| && q[k].command == Destroy ==> k == |q| - 1)
    && (!running <==> status == Destroyed || (q != [] && Last(q).command == Destroy))
    && (status == Destroyed ==> q == [])
  }

  ghost predicate TornDownInOrder(s: State)
    requires s.relays != []
  {
    EndsWithDestroy(s.relays[0].running, s.client.queue, s.client.status)
  }

  // So a teardown overtakes nothing: when the client closes on DESTROY it has taken, and unless a
  // digest failed accepted, every cell the entry ever passed on.
  lemma {:induction false} DestroyOvertakesNothing(net: Net, steps: seq<Step>)
    requires |net.path| >= 3
    ensures var s := Run(net, steps);
            && TornDownInOrder(s)
            && (s.client.status == Destroyed ==>
                  s.client.passed == s.relays[0].passed && |s.client.received| == s.relays[0].passed)
  {
    RunEndsWithDestroy(net, steps);
    RunKeepsInv(net, steps);
    var s := Run(net, steps);
    assert QueueOk(net, s.wire, 0, s.client.passed, s.relays[0].passed, s.client.queue);
    assert ReaderOk(net, s.wire, s.client);
  }

  lemma {:induction false} RunEndsWithDestroy(net: Net, steps: seq<Step>)
    requires |net.path| >= 3
    ensures TornDownInOrder(Run(net, steps))
  {
    hide TornDownInOrder, Apply, Enabled;
    if steps == [] {
      StartEndsWithDestroy(net);
    } else {
      RunEndsWithDestroy(net, Init(steps));
      if Enabled(net, Run(net, Init(steps)), Last(steps)) {
        StepEndsWithDestroy(net, Run(net, Init(steps)), Last(steps));
      }
    }
  }

  lemma {:induction false} StartEndsWithDestroy(net: Net)
    requires |net.path| >= 3
    ensures TornDownInOrder(Run(net, []))
  {
  }

  lemma {:induction false} StepEndsWithDestroy(net: Net, s: State, step: Step)
    requires Shape(net, s) && Enabled(net, s, step) && TornDownInOrder(s)
    ensures TornDownInOrder(Apply(net, s, step))
  {
    hide EndsWithDestroy, XorStream, Mask, Frame, PlainFrame, SlotOf, Delivered;
    match step
    case RelayBack(i) => EntrySends(s.client.queue, s.client.status, Passed(net.circuitId, s.relays[i], i == 0));
    case HangUp(i) => EntrySends(s.client.queue, s.client.status, DestroyCell(net.circuitId));
    case ClientTake => ClientTakes(s.relays[0].running, s.client.queue);
    case _ =>
  }

  lemma {:induction false} EntrySends(q: seq<Message>, status: ReaderStatus, m: Message)
    ensures EndsWithDestroy(true, q, status) ==> EndsWithDestroy(m.command != Destroy, q + [m], status)
  {
  }

  lemma {:induction false} ClientTakes(running: bool, q: seq<Message>)
    requires EndsWithDestroy(running, q, Reading) && q != []
    ensures EndsWithDestroy(running, q[1..], if q[0].command == Destroy then Destroyed else Reading)
    ensures q[0].command != Destroy ==> EndsWithDestroy(running, q[1..], Rejected)
  {
  }

  // The code does lose the order: a DATA cell for an unknown stream makes the connection task
  // seal an END reply; before it writes the reply, a stream task seals and writes a DATA cell.
  // The reader tears the circuit down on that first cell.
  lemma {:induction false} OvertakenReplyKillsCircuit(net: Net, reply: Plain, data: Plain)
    requires |net.path| == 3
    requires ExitCell(reply) && reply.command == End && ExitCell(data) && data.command == Data
    requires NoCollisions(net.tag, ExitLayer(net), [SlotOf([reply, data], 1)], 1)
    ensures var s := Run(net, [SealReply(reply), SealAndWrite(data), RelayBack(1), RelayBack(0), ClientTake]);
            s.client.status == Rejected && s.client.received == []
  {
    hide Run, NoCollisions, OneCellAt, QueueOk, RelaysOk, SealsOk, InboxesOk, ReaderOk;
    var steps := [SealReply(reply), SealAndWrite(data), RelayBack(1), RelayBack(0), ClientTake];
    SealThenOvertake(net, reply, data);
    assert steps[..2] == [SealReply(reply), SealAndWrite(data)];
    OneCellBack(net, steps[..2]);
    assert steps == steps[..2] + [RelayBack(1), RelayBack(0), ClientTake];
    var s := Run(net, steps);
    assert s.wire[0].index == 1;
    assert !InOrder(s.wire, 1);
    ReaderRejectsExactlyOutOfOrder(net, steps);
    RunKeepsInv(net, steps);
    RejectedFirst(net, s.wire, s.client);
  }

  lemma {:induction false} RejectedFirst(net: Net, wire: seq<Slot>, c: ClientState)
    requires net.path != [] && ReaderOk(net, wire, c) && c.passed == 1 && c.status == Rejected
    ensures c.received == []
  {
  }

  lemma {:induction false} RunMore(net: Net, steps: seq<Step>, step: Step)
    requires |net.path| >= 3
    ensures var s := Run(net, steps);
            Run(net, steps + [step]) == if Enabled(net, s, step) then Apply(net, s, step) else s
  {
    assert Init(steps + [step]) == steps;
  }

  lemma {:induction false} SealThenOvertake(net: Net, reply: Plain, data: Plain)
    requires |net.path| == 3
    requires ExitCell(reply) && reply.command == End && ExitCell(data) && data.command == Data
    ensures var s := Run(net, [SealReply(reply), SealAndWrite(data)]);
            s.wire == [SlotOf([reply, data], 1)] && OneCellAt(s, 2)
  {
    hide SlotOf, SealedCell;
    RunMore(net, [], SealReply(reply));
    assert [] + [SealReply(reply)] == [SealReply(reply)];
    RunMore(net, [SealReply(reply)], SealAndWrite(data));
    assert [SealReply(reply)] + [SealAndWrite(data)] == [SealReply(reply), SealAndWrite(data)];
    assert Run(net, [SealReply(reply)]).log == [reply] && [reply] + [data] == [reply, data];
    SealedCellIsData(net, Run(net, [SealReply(reply)]), data);
  }

  lemma {:induction false} SealedCellIsData(net: Net, s: State, p: Plain)
    ensures SealedCell(net.circuitId, net.tag, s.exit.layer, s.exit.digest, p).command == p.command
  {
  }

  // The only cell under way is a DATA cell in the queue of relay 1, relay 0 or the client.
  ghost predicate OneCellAt(s: State, place: nat) {
    && |s.relays| == 2 && s.relays[0].running && s.relays[1].running
    && s.client.status == Reading && s.client.passed == 0
    && Holds(s.relays[1].queue, place == 2) && Holds(s.relays[0].queue, place == 1) && Holds(s.client.queue, place == 0)
  }

  ghost predicate Holds(q: seq<Message>, one: bool) {
    if one then |q| == 1 && q[0].command == Data else q == []
  }

  lemma {:induction false} CellMovesUp(net: Net, s: State, i: nat)
    requires Shape(net, s) && i < 2 && OneCellAt(s, i + 1)
    ensures Enabled(net, s, RelayBack(i))
    ensures OneCellAt(Apply(net, s, RelayBack(i)), i) && Apply(net, s, RelayBack(i)).wire == s.wire
  {
    hide XorStream;
  }

  lemma {:induction false} ClientTakesIt(net: Net, s: State)
    requires Shape(net, s) && OneCellAt(s, 0)
    ensures Enabled(net, s, ClientTake)
    ensures Apply(net, s, ClientTake).wire == s.wire && Apply(net, s, ClientTake).client.passed == 1
  {
    hide Mask, Delivered, PlainFrame;
  }

  lemma {:induction false} OneCellBack(net: Net, steps: seq<Step>)
    requires |net.path| == 3 && OneCellAt(Run(net, steps), 2)
    ensures Run(net, steps + [RelayBack(1), RelayBack(0), ClientTake]).wire == Run(net, steps).wire
    ensures Run(net, steps + [RelayBack(1), RelayBack(0), ClientTake]).client.passed == 1
  {
    hide Run, Apply, Enabled, OneCellAt;
    var a, b := steps + [RelayBack(1)], steps + [RelayBack(1)] + [RelayBack(0)];
    CellMovesUp(net, Run(net, steps), 1);
    RunMore(net, steps, RelayBack(1));
    CellMovesUp(net, Run(net, a), 0);
    RunMore(net, a, RelayBack(0));
    ClientTakesIt(net, Run(net, b));
    RunMore(net, b, ClientTake);
    assert b + [ClientTake] == steps + [RelayBack(1), RelayBack(0), ClientTake];
  }
}
