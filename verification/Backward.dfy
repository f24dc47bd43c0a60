// The backward direction of a circuit as a step system: the exit seals cells, N - 1 relays each
// add a layer, and the client's reader takes all N layers off.
//   exit:   services/relay-node/src/circuit/exit.rs:149-196 (BEGIN), :241-303 (stream tasks),
//           :446-525 (END replies); services/relay-node/src/main.rs:401-412 (the reply is written)
//   relays: services/relay-node/src/circuit/entry.rs:234-252, :311-396, middle.rs:261-279, :326-405
//   client: services/tor-client/src/core/circuit.rs:653-755
module Backward {
  import opened Bytes
  import opened Wrappers
  import opened Keystream
  import opened Cell
  import opened Crypto
  import opened Sequences
  import opened Transcript

  // The backward layer of every hop, entry first, as it is when the circuit is ready.
  datatype Net = Net(circuitId: u32, path: seq<Layer>, tag: TagFn)

  // The exit's cipher and digest. An END reply is sealed under the crypto lock, which is released
  // before the connection task writes the reply: in between it is pending.
  datatype ExitState = ExitState(layer: Layer, digest: seq<byte>, pending: Option<(Slot, Message)>)

  // One relay's next-hop reader: its backward cipher, the cells on their way to it, how many
  // relay cells it has taken, and whether it is still running.
  datatype RelayState = RelayState(layer: Layer, queue: seq<Message>, passed: nat, running: bool)

  datatype ReaderStatus = Reading | Rejected | Destroyed

  // A registered stream: how many cells had been accepted when it was registered, and what its
  // channel has been given since.
  datatype Inbox = Inbox(start: nat, cells: seq<Plain>)

  // The client's circuit reader.
  datatype ClientState = ClientState(
    layers: seq<Layer>, digest: seq<byte>, queue: seq<Message>, passed: nat,
    status: ReaderStatus, received: seq<Plain>, inboxes: map<u16, Inbox>)

  datatype State = State(
    exit: ExitState,
    relays: seq<RelayState>,   // every hop but the exit
    client: ClientState,
    log: seq<Plain>,           // history: cells in sealing order
    wire: seq<Slot>,           // history: cells in the order the exit wrote them
    overtaken: bool)           // history: was a cell sealed and written while a reply was pending?

  datatype Step =
    | SealAndWrite(p: Plain)   // CONNECTED and stream tasks: one critical section
    | SealReply(p: Plain)
    | WriteReply
    | RelayBack(i: nat)
    | HangUp(i: nat)           // relay i loses its next hop and reports DESTROY upstream
    | ClientTake
    | Register(stream: u16)
    | Unregister(stream: u16)

  // ----- one party at a time -----

  function SealedCell(circuitId: u32, tag: TagFn, l: Layer, absorbed: seq<byte>, p: Plain): Message {
    Message(circuitId, p.streamId, p.command, XorStream(p.data, l), tag(absorbed + PlainFrame(p)))
  }

  function WrappedCell(m: Message, l: Layer): Message {
    m.(data := XorStream(m.data, l))
  }

  function DestroyCell(circuitId: u32): Message {
    CircuitMessage(circuitId, Destroy, [])
  }

  // The exit moves on by one sealed cell.
  function Sealed(x: ExitState, p: Plain): ExitState {
    x.(layer := x.layer.(pos := x.layer.pos + |p.data|), digest := x.digest + PlainFrame(p))
  }

  function Arrive(r: RelayState, m: Message): RelayState {
    r.(queue := r.queue + [m])
  }

  // The reader of a middle relay treats DESTROY like any cell; the entry's reader stops on it.
  function Take(r: RelayState, isEntry: bool): RelayState
    requires r.queue != []
  {
    var m := r.queue[0];
    if m.command == Destroy then r.(queue := r.queue[1..], running := r.running && !isEntry)
    else RelayState(r.layer.(pos := r.layer.pos + |m.data|), r.queue[1..], r.passed + 1, r.running)
  }

  // What a reader sends upstream for the cell it took.
  function Passed(circuitId: u32, r: RelayState, isEntry: bool): Message
    requires r.queue != []
  {
    var m := r.queue[0];
    if m.command == Destroy && isEntry then DestroyCell(circuitId) else WrappedCell(m, r.layer)
  }

  function Opened(c: ClientState, m: Message): Plain {
    Plain(m.streamId, m.command, Mask(m.data, c.layers))
  }

  // The client's reader: DESTROY closes the circuit; any other cell is decrypted under every
  // layer and digested, registered stream or not, and a bad digest closes the circuit.
  function ClientCheck(tag: TagFn, c: ClientState): ClientState
    requires c.queue != []
  {
    var m := c.queue[0];
    var c' := c.(queue := c.queue[1..]);
    if m.command == Destroy then c'.(status := Destroyed, inboxes := map[])
    else
      var p := Opened(c, m);
      var absorbed := c.digest + PlainFrame(p);
      var c'' := c'.(layers := Advance(c.layers, |m.data|), digest := absorbed, passed := c.passed + 1);
      if tag(absorbed) != m.digest then c''.(status := Rejected, inboxes := map[])
      else c''.(received := c.received + [p], inboxes := Delivered(c.inboxes, p))
  }

  function Delivered(inboxes: map<u16, Inbox>, p: Plain): map<u16, Inbox> {
    if p.streamId in inboxes then
      var b := inboxes[p.streamId];
      inboxes[p.streamId := b.(cells := b.cells + [p])]
    else inboxes
  }

  // ----- the step system -----

  ghost predicate Shape(net: Net, s: State) {
    |net.path| >= 3 && |s.relays| == |net.path| - 1 && |s.client.layers| == |net.path|
  }

  function Start(net: Net): State
    requires |net.path| >= 3
  {
    var n := |net.path| - 1;
    State(ExitState(net.path[n], [], None),
          seq(n, i requires 0 <= i < n => RelayState(net.path[i], [], 0, true)),
          ClientState(net.path, [], [], 0, Reading, [], map[]),
          [], [], false)
  }

  predicate ExitCell(p: Plain) {
    (p.command == Connected || p.command == Data || p.command == End) && |p.data| <= MAX_PAYLOAD
  }

  ghost predicate Enabled(net: Net, s: State, step: Step)
    requires Shape(net, s)
  {
    match step
    case SealAndWrite(p) => ExitCell(p)
    case SealReply(p) => ExitCell(p) && p.command == End && s.exit.pending == None
    case WriteReply => s.exit.pending.Some?
    case RelayBack(i) => i < |s.relays| && s.relays[i].running && s.relays[i].queue != []
    case HangUp(i) => i < |s.relays| && s.relays[i].running
    case ClientTake => s.client.status == Reading && s.client.queue != []
    case Register(id) => s.client.status == Reading && id !in s.client.inboxes
    case Unregister(id) => true
  }

  function Write(s: State, t: Slot, m: Message): State
    requires s.relays != []
  {
    var last := |s.relays| - 1;
    s.(relays := s.relays[last := Arrive(s.relays[last], m)], wire := s.wire + [t])
  }

  function Seal(s: State, p: Plain): State {
    s.(exit := Sealed(s.exit, p), log := s.log + [p])
  }

  function NextSlot(s: State, p: Plain): Slot {
    SlotOf(s.log + [p], |s.log|)
  }

  // Relay i sends m upstream: to relay i - 1, or from the entry to the client.
  function SendUp(s: State, i: nat, r: RelayState, m: Message): State
    requires i < |s.relays|
  {
    if i == 0 then s.(relays := s.relays[0 := r], client := s.client.(queue := s.client.queue + [m]))
    else s.(relays := s.relays[i := r][i - 1 := Arrive(s.relays[i - 1], m)])
  }

  ghost function Apply(net: Net, s: State, step: Step): State
    requires Shape(net, s) && Enabled(net, s, step)
  {
    match step
    case SealAndWrite(p) =>
      Write(Seal(s, p), NextSlot(s, p), SealedCell(net.circuitId, net.tag, s.exit.layer, s.exit.digest, p))
        .(overtaken := s.overtaken || s.exit.pending.Some?)
    case SealReply(p) =>
      var t := Seal(s, p);
      t.(exit := t.exit.(pending :=
           Some((NextSlot(s, p), SealedCell(net.circuitId, net.tag, s.exit.layer, s.exit.digest, p)))))
    case WriteReply =>
      Write(s, s.exit.pending.value.0, s.exit.pending.value.1).(exit := s.exit.(pending := None))
    case RelayBack(i) =>
      SendUp(s, i, Take(s.relays[i], i == 0), Passed(net.circuitId, s.relays[i], i == 0))
    case HangUp(i) => SendUp(s, i, s.relays[i].(running := false), DestroyCell(net.circuitId))
    case ClientTake => s.(client := ClientCheck(net.tag, s.client))
    case Register(id) =>
      s.(client := s.client.(inboxes := s.client.inboxes[id := Inbox(|s.client.received|, [])]))
    case Unregister(id) => s.(client := s.client.(inboxes := s.client.inboxes - {id}))
  }

  ghost function Run(net: Net, steps: seq<Step>): (s: State)
    requires |net.path| >= 3
    ensures Shape(net, s)
  {
    if steps == [] then Start(net)
    else
      var s := Run(net, Init(steps));
      if Enabled(net, s, Last(steps)) then Apply(net, s, Last(steps)) else s
  }

  // ----- the invariant -----

  // The layer the two ends share for sealing: the exit's.
  function ExitLayer(net: Net): seq<Layer>
    requires net.path != []
  {
    [Last(net.path)]
  }

  function LayersAfter(net: Net, wire: seq<Slot>, n: nat): (r: seq<Layer>)
    requires n <= |wire|
    ensures |r| == |net.path|
  {
    Advance(net.path, WireOctets(wire[..n]))
  }

  // A cell as the exit seals it: its own layer and no other.
  function SlotCell(net: Net, t: Slot): Message
    requires net.path != []
  {
    Message(net.circuitId, t.plain.streamId, t.plain.command,
            Mask(t.plain.data, Advance(ExitLayer(net), t.offset)), net.tag(t.absorbed))
  }

  // Cell w as it leaves relay i (or the exit, for i = N - 1): the exit's layer as it was when the
  // cell was sealed, the others as they are when it passes.
  function UpCell(net: Net, wire: seq<Slot>, w: nat, i: nat): Message
    requires w < |wire| && i < |net.path|
  {
    var t := wire[w];
    Message(net.circuitId, t.plain.streamId, t.plain.command,
            Mask(Mask(t.plain.data, Advance(ExitLayer(net), t.offset)), LayersAfter(net, wire, w)[i..|net.path| - 1]),
            net.tag(t.absorbed))
  }

  function UpCells(net: Net, wire: seq<Slot>, i: nat, lo: nat, hi: nat): (q: seq<Message>)
    requires lo <= hi <= |wire| && i < |net.path|
    ensures |q| == hi - lo
    decreases hi - lo
  {
    if lo == hi then [] else UpCells(net, wire, i, lo, hi - 1) + [UpCell(net, wire, hi - 1, i)]
  }

  // The relay cells of a queue: everything but DESTROY, which carries no payload.
  function NoDestroy(q: seq<Message>): seq<Message> {
    if q == [] then []
    else if Last(q).command == Destroy then NoDestroy(Init(q))
    else NoDestroy(Init(q)) + [Last(q)]
  }

  ghost predicate DestroysEmpty(q: seq<Message>) {
    forall k :: 0 <= k < |q| && q[k].command == Destroy ==> q[k].data == []
  }

  // A queue into which hop i sends, when it has sent `sent` relay cells of which `taken` are gone.
  ghost predicate QueueOk(net: Net, wire: seq<Slot>, i: nat, taken: nat, sent: nat, q: seq<Message>)
    requires i < |net.path|
  {
    && taken <= sent <= |wire|
    && NoDestroy(q) == UpCells(net, wire, i, taken, sent)
    && DestroysEmpty(q)
  }

  ghost predicate RelayOk(net: Net, wire: seq<Slot>, i: nat, sent: nat, r: RelayState)
    requires i + 1 < |net.path|
  {
    && QueueOk(net, wire, i + 1, r.passed, sent, r.queue)
    && r.layer == LayersAfter(net, wire, r.passed)[i]
  }

  // How many relay cells have been sent to relay i.
  function SentTo(wire: seq<Slot>, relays: seq<RelayState>, i: nat): nat
    requires i < |relays|
  {
    if i + 1 == |relays| then |wire| else relays[i + 1].passed
  }

  ghost predicate RelaysOk(net: Net, wire: seq<Slot>, relays: seq<RelayState>) {
    && |relays| + 1 == |net.path|
    && forall i :: 0 <= i < |relays| ==> RelayOk(net, wire, i, SentTo(wire, relays, i), relays[i])
  }

  function OfStream(cells: seq<Plain>, id: u16): seq<Plain> {
    if cells == [] then []
    else if Last(cells).streamId == id then OfStream(Init(cells), id) + [Last(cells)]
    else OfStream(Init(cells), id)
  }

  ghost predicate InboxesOk(received: seq<Plain>, inboxes: map<u16, Inbox>) {
    forall id :: id in inboxes ==>
      inboxes[id].start <= |received| && inboxes[id].cells == OfStream(received[inboxes[id].start..], id)
  }

  ghost predicate ReaderOk(net: Net, wire: seq<Slot>, c: ClientState)
    requires net.path != []
  {
    && c.passed <= |wire|
    && c.layers == LayersAfter(net, wire, c.passed)
    && c.digest == Absorbed(OpenedAll(ExitLayer(net), wire, c.passed))
    && (c.status != Rejected ==>
          c.received == OpenedAll(ExitLayer(net), wire, c.passed)
          && AllVerify(net.tag, ExitLayer(net), wire, c.passed))
    && (c.status == Rejected ==>
          c.passed > 0 && c.received == OpenedAll(ExitLayer(net), wire, c.passed - 1)
          && AllVerify(net.tag, ExitLayer(net), wire, c.passed - 1)
          && !Verifies(net.tag, ExitLayer(net), wire, c.passed - 1))
  }

  // The exit's side: everything sealed is on the wire except the pending reply.
  ghost predicate SealsOk(net: Net, s: State)
    requires net.path != []
  {
    && s.exit.layer == Advance(ExitLayer(net), Octets(s.log))[0]
    && s.exit.digest == Absorbed(s.log)
    && WireOf(s.wire, s.log)
    && |s.log| == |s.wire| + (if s.exit.pending.Some? then 1 else 0)
    && (s.exit.pending.Some? ==> PendingOk(net, s.log, s.wire, s.exit.pending.value))
    && (s.overtaken <==> !InOrder(s.wire, |s.wire|))
    && (!s.overtaken && s.exit.pending.Some? ==> s.exit.pending.value.0.index == |s.wire|)
  }

  ghost predicate PendingOk(net: Net, log: seq<Plain>, wire: seq<Slot>, pending: (Slot, Message))
    requires net.path != []
  {
    var (t, m) := pending;
    && t.index < |log| && t == SlotOf(log, t.index)
    && t.plain.command == End
    && m == SlotCell(net, t)
    && forall w :: 0 <= w < |wire| ==> wire[w].index != t.index
  }

  ghost predicate Inv(net: Net, s: State) {
    && Shape(net, s)
    && SealsOk(net, s)
    && RelaysOk(net, s.wire, s.relays)
    && QueueOk(net, s.wire, 0, s.client.passed, s.relays[0].passed, s.client.queue)
    && ReaderOk(net, s.wire, s.client)
    && InboxesOk(s.client.received, s.client.inboxes)
  }

  // ----- lemmas about one queue -----

  lemma {:induction false} NoDestroyAppend(q: seq<Message>, m: Message)
    ensures NoDestroy(q + [m]) == if m.command == Destroy then NoDestroy(q) else NoDestroy(q) + [m]
  {
    assert Init(q + [m]) == q;
  }

  lemma {:induction false} NoDestroyHead(q: seq<Message>)
    requires q != []
    ensures NoDestroy(q) == if q[0].command == Destroy then NoDestroy(q[1..]) else [q[0]] + NoDestroy(q[1..])
    decreases |q|
  {
    if |q| > 1 {
      NoDestroyHead(Init(q));
      assert Init(q)[1..] == Init(q[1..]);
    }
  }

  lemma {:induction false} UpCellsLongerWire(net: Net, wire: seq<Slot>, t: Slot, i: nat, lo: nat, hi: nat)
    requires lo <= hi <= |wire| && i < |net.path|
    ensures UpCells(net, wire + [t], i, lo, hi) == UpCells(net, wire, i, lo, hi)
    decreases hi
  {
    if lo < hi {
      UpCellsLongerWire(net, wire, t, i, lo, hi - 1);
      assert (wire + [t])[..hi - 1] == wire[..hi - 1];
      assert UpCell(net, wire + [t], hi - 1, i) == UpCell(net, wire, hi - 1, i);
    }
  }

  lemma {:induction false} UpCellsHead(net: Net, wire: seq<Slot>, i: nat, lo: nat, hi: nat)
    requires lo < hi <= |wire| && i < |net.path|
    ensures UpCells(net, wire, i, lo, hi) == [UpCell(net, wire, lo, i)] + UpCells(net, wire, i, lo + 1, hi)
    decreases hi
  {
    hide UpCell;
    if lo + 1 < hi {
      UpCellsHead(net, wire, i, lo, hi - 1);
    } else {
      assert UpCells(net, wire, i, lo, lo) == [];
    }
  }

  lemma {:induction false} QueueLongerWire(net: Net, wire: seq<Slot>, t: Slot, i: nat, taken: nat, sent: nat,
          q: seq<Message>)
    requires i < |net.path| && QueueOk(net, wire, i, taken, sent, q)
    ensures QueueOk(net, wire + [t], i, taken, sent, q)
  {
    UpCellsLongerWire(net, wire, t, i, taken, sent);
  }

  // A relay cell joins the queue.
  lemma {:induction false} QueueArrives(net: Net, wire: seq<Slot>, i: nat, taken: nat, sent: nat,
          q: seq<Message>, m: Message)
    requires i < |net.path| && QueueOk(net, wire, i, taken, sent, q)
    requires sent < |wire| && m == UpCell(net, wire, sent, i) && m.command != Destroy
    ensures QueueOk(net, wire, i, taken, sent + 1, q + [m])
  {
    hide UpCell;
    NoDestroyAppend(q, m);
  }

  // DESTROY joins the queue.
  lemma {:induction false} QueueDestroyed(net: Net, wire: seq<Slot>, i: nat, taken: nat, sent: nat,
          q: seq<Message>, m: Message)
    requires i < |net.path| && QueueOk(net, wire, i, taken, sent, q)
    requires m.command == Destroy && m.data == []
    ensures QueueOk(net, wire, i, taken, sent, q + [m])
  {
    NoDestroyAppend(q, m);
  }

  // The head leaves the queue; a relay cell is the next one due.
  lemma {:induction false} QueueTaken(net: Net, wire: seq<Slot>, i: nat, taken: nat, sent: nat, q: seq<Message>)
    requires i < |net.path| && QueueOk(net, wire, i, taken, sent, q) && q != []
    ensures q[0].command == Destroy ==> q[0].data == [] && QueueOk(net, wire, i, taken, sent, q[1..])
    ensures q[0].command != Destroy ==>
              taken < sent <= |wire| && q[0] == UpCell(net, wire, taken, i)
              && QueueOk(net, wire, i, taken + 1, sent, q[1..])
  {
    hide UpCell;
    NoDestroyHead(q);
    if q[0].command != Destroy {
      UpCellsHead(net, wire, i, taken, sent);
      assert NoDestroy(q[1..]) == NoDestroy(q)[1..];
      assert UpCells(net, wire, i, taken + 1, sent) == UpCells(net, wire, i, taken, sent)[1..];
    }
  }

  // ----- the layers -----

  // Relay i's layer moves cell w from what hop i + 1 sent to what relay i sends.
  lemma {:induction false} WrapMovesOn(net: Net, wire: seq<Slot>, w: nat, i: nat)
    requires w < |wire| && i + 1 < |net.path|
    ensures WrappedCell(UpCell(net, wire, w, i + 1), LayersAfter(net, wire, w)[i]) == UpCell(net, wire, w, i)
  {
    MaskPrevious(Mask(wire[w].plain.data, Advance(ExitLayer(net), wire[w].offset)),
                 LayersAfter(net, wire, w), i, |net.path| - 1);
  }

  lemma {:induction false} ExitSends(net: Net, wire: seq<Slot>, w: nat)
    requires w < |wire| && net.path != []
    ensures UpCell(net, wire, w, |net.path| - 1) == SlotCell(net, wire[w])
  {
    MaskNone(Mask(wire[w].plain.data, Advance(ExitLayer(net), wire[w].offset)));
    assert LayersAfter(net, wire, w)[|net.path| - 1..|net.path| - 1] == [];
  }

  // The client's N layers take the N - 1 relay layers off and leave the channel's view of the cell.
  lemma {:induction false} ClientOpens(net: Net, wire: seq<Slot>, w: nat)
    requires w < |wire| && net.path != []
    ensures var m := UpCell(net, wire, w, 0);
            Plain(m.streamId, m.command, Mask(m.data, LayersAfter(net, wire, w)))
              == Transcript.Opened(ExitLayer(net), wire, w)
  {
    var layers, e := LayersAfter(net, wire, w), |net.path| - 1;
    var sealed := Mask(wire[w].plain.data, Advance(ExitLayer(net), wire[w].offset));
    var relays := layers[0..e];
    assert layers == relays + [layers[e]];
    MaskConcat(Mask(sealed, relays), relays, [layers[e]]);
    MaskTwice(sealed, relays);
    assert [layers[e]] == Advance(ExitLayer(net), WireOctets(wire[..w]));
  }

  // ----- the exit -----

  lemma {:induction false} ExitMovesOn(net: Net, log: seq<Plain>, x: ExitState, p: Plain)
    requires net.path != [] && x.layer == Advance(ExitLayer(net), Octets(log))[0] && x.digest == Absorbed(log)
    ensures Sealed(x, p).layer == Advance(ExitLayer(net), Octets(log + [p]))[0]
    ensures Sealed(x, p).digest == Absorbed(log + [p])
    ensures SealedCell(net.circuitId, net.tag, x.layer, x.digest, p) == SlotCell(net, SlotOf(log + [p], |log|))
  {
    AbsorbedAppend(log, p);
    assert (log + [p])[..|log|] == log && (log + [p])[..|log| + 1] == log + [p];
    var l := Advance(ExitLayer(net), Octets(log));
    assert l == [l[0]];
    MaskOne(p.data, l[0]);
  }

  lemma {:induction false} WireOfNext(wire: seq<Slot>, log: seq<Plain>, t: Slot)
    requires WireOf(wire, log)
    requires t.index < |log| && t == SlotOf(log, t.index)
    requires forall w :: 0 <= w < |wire| ==> wire[w].index != t.index
    ensures WireOf(wire + [t], log)
    ensures InOrder(wire + [t], |wire| + 1) <==> InOrder(wire, |wire|) && t.index == |wire|
  {
    hide SlotOf;
    assert (wire + [t])[|wire|] == t;
    assert forall w :: 0 <= w < |wire| ==> (wire + [t])[w] == wire[w];
  }

  lemma {:induction false} FreshSlot(wire: seq<Slot>, log: seq<Plain>, p: Plain)
    requires WireOf(wire, log)
    ensures WireOf(wire, log + [p])
    ensures WireOf(wire + [SlotOf(log + [p], |log|)], log + [p])
    ensures InOrder(wire + [SlotOf(log + [p], |log|)], |wire| + 1) <==> InOrder(wire, |wire|) && |log| == |wire|
  {
    WireOfLongerLog(wire, log, p);
    hide SlotOf, WireOf;
    NewIndex(wire, log);
    SlotIndex(log + [p], |log|);
    WireOfNext(wire, log + [p], SlotOf(log + [p], |log|));
  }

  lemma {:induction false} SlotIndex(log: seq<Plain>, i: nat)
    requires i < |log|
    ensures SlotOf(log, i).index == i && SlotOf(log, i).plain == log[i]
  {
  }

  lemma {:induction false} NewIndex(wire: seq<Slot>, log: seq<Plain>)
    requires WireOf(wire, log)
    ensures forall w :: 0 <= w < |wire| ==> wire[w].index < |log|
  {
  }

  lemma {:induction false} PendingLongerLog(net: Net, log: seq<Plain>, wire: seq<Slot>,
          pending: (Slot, Message), p: Plain)
    requires net.path != [] && PendingOk(net, log, wire, pending)
    ensures PendingOk(net, log + [p], wire, pending)
    ensures PendingOk(net, log + [p], wire + [SlotOf(log + [p], |log|)], pending)
  {
    var i := pending.0.index;
    assert (log + [p])[..i] == log[..i] && (log + [p])[..i + 1] == log[..i + 1];
  }

  lemma {:induction false} SealAndWriteKeepsSeals(net: Net, s: State, p: Plain)
    requires Shape(net, s) && SealsOk(net, s) && ExitCell(p)
    ensures SealsOk(net, Apply(net, s, SealAndWrite(p)))
  {
    hide SlotOf, WireOf, InOrder, PendingOk, SealedCell, Octets, Absorbed, Sealed;
    ExitMovesOn(net, s.log, s.exit, p);
    FreshSlot(s.wire, s.log, p);
    SealedLeavesPending(s.exit, p);
    if s.exit.pending.Some? {
      PendingLongerLog(net, s.log, s.wire, s.exit.pending.value, p);
    }
  }

  lemma {:induction false} SealedLeavesPending(x: ExitState, p: Plain)
    ensures Sealed(x, p).pending == x.pending
  {
  }

  lemma {:induction false} SealReplyKeepsSeals(net: Net, s: State, p: Plain)
    requires Shape(net, s) && SealsOk(net, s) && ExitCell(p) && p.command == End && s.exit.pending == None
    ensures SealsOk(net, Apply(net, s, SealReply(p)))
  {
    hide WireOf, InOrder, SealedCell, Octets, Absorbed, Sealed;
    ExitMovesOn(net, s.log, s.exit, p);
    FreshSlot(s.wire, s.log, p);
    NewIndex(s.wire, s.log);
  }

  lemma {:induction false} WriteReplyKeepsSeals(net: Net, s: State)
    requires Shape(net, s) && SealsOk(net, s) && s.exit.pending.Some?
    ensures SealsOk(net, Apply(net, s, WriteReply))
  {
    hide WireOf, InOrder, SlotOf, Octets, Absorbed;
    WireOfNext(s.wire, s.log, s.exit.pending.value.0);
  }

  // ----- a longer wire -----

  // The exit writes one more cell.
  lemma {:induction false} WriteReachesRelays(net: Net, wire: seq<Slot>, t: Slot, relays: seq<RelayState>, m: Message)
    requires RelaysOk(net, wire, relays) && relays != []
    requires m == UpCell(net, wire + [t], |wire|, |net.path| - 1) && m.command != Destroy
    ensures RelaysOk(net, wire + [t], relays[|relays| - 1 := Arrive(relays[|relays| - 1], m)])
  {
    hide UpCell, QueueOk, LayersAfter;
    var last, wire' := |relays| - 1, wire + [t];
    var relays' := relays[last := Arrive(relays[last], m)];
    forall i | 0 <= i < |relays|
      ensures RelayOk(net, wire', i, SentTo(wire', relays', i), relays'[i])
    {
      RelayLongerWire(net, wire, t, i, SentTo(wire, relays, i), relays[i]);
      if i == last {
        QueueArrives(net, wire', i + 1, relays[i].passed, |wire|, relays[i].queue, m);
      }
    }
  }

  lemma {:induction false} RelayLongerWire(net: Net, wire: seq<Slot>, t: Slot, i: nat, sent: nat, r: RelayState)
    requires i + 1 < |net.path| && RelayOk(net, wire, i, sent, r)
    ensures RelayOk(net, wire + [t], i, sent, r)
    ensures sent <= |wire|
  {
    QueueLongerWire(net, wire, t, i + 1, r.passed, sent, r.queue);
    assert (wire + [t])[..r.passed] == wire[..r.passed];
  }

  lemma {:induction false} ReaderLongerWire(net: Net, wire: seq<Slot>, t: Slot, c: ClientState)
    requires net.path != [] && ReaderOk(net, wire, c)
    ensures ReaderOk(net, wire + [t], c)
  {
    var path := ExitLayer(net);
    assert (wire + [t])[..c.passed] == wire[..c.passed];
    OpenedLongerWire(path, wire, t, c.passed);
    if c.passed > 0 {
      OpenedLongerWire(path, wire, t, c.passed - 1);
    }
    VerifiedLongerWire(net.tag, path, wire, t, c.passed);
  }

  lemma {:induction false} VerifiedLongerWire(tag: TagFn, path: seq<Layer>, wire: seq<Slot>, t: Slot, n: nat)
    requires n <= |wire|
    ensures forall w :: 0 <= w < n ==> Verifies(tag, path, wire + [t], w) == Verifies(tag, path, wire, w)
  {
    forall w | 0 <= w < n
      ensures Verifies(tag, path, wire + [t], w) == Verifies(tag, path, wire, w)
    {
      OpenedLongerWire(path, wire, t, w + 1);
    }
  }

  // ----- relays -----

  // Relay i's state is replaced and it sends m upstream.
  ghost predicate SendsOn(net: Net, wire: seq<Slot>, i: nat, sent: nat, r: RelayState, r': RelayState, m: Message)
    requires i + 1 < |net.path|
  {
    && RelayOk(net, wire, i, sent, r')
    && if m.command == Destroy then m.data == [] && r'.passed == r.passed
       else r.passed < |wire| && r'.passed == r.passed + 1 && m == UpCell(net, wire, r.passed, i)
  }

  lemma {:induction false} RelayTakes(net: Net, wire: seq<Slot>, i: nat, sent: nat, r: RelayState)
    requires i + 1 < |net.path| && RelayOk(net, wire, i, sent, r) && r.queue != []
    ensures SendsOn(net, wire, i, sent, r, Take(r, i == 0), Passed(net.circuitId, r, i == 0))
  {
    QueueTaken(net, wire, i + 1, r.passed, sent, r.queue);
    if r.queue[0].command != Destroy {
      WrapMovesOn(net, wire, r.passed, i);
      WireOctetsNext(wire, r.passed);
    }
  }

  lemma {:induction false} RelayHangsUp(net: Net, wire: seq<Slot>, i: nat, sent: nat, r: RelayState)
    requires i + 1 < |net.path| && RelayOk(net, wire, i, sent, r)
    ensures SendsOn(net, wire, i, sent, r, r.(running := false), DestroyCell(net.circuitId))
  {
  }

  lemma {:induction false} QueueSent(net: Net, wire: seq<Slot>, i: nat, taken: nat, sent: nat, r: RelayState,
          r': RelayState, q: seq<Message>, m: Message)
    requires i + 1 < |net.path| && SendsOn(net, wire, i, sent, r, r', m)
    requires QueueOk(net, wire, i, taken, r.passed, q)
    ensures QueueOk(net, wire, i, taken, r'.passed, q + [m])
  {
    hide UpCell, RelayOk, QueueOk;
    if m.command == Destroy {
      QueueDestroyed(net, wire, i, taken, r.passed, q, m);
    } else {
      QueueArrives(net, wire, i, taken, r.passed, q, m);
    }
  }

  lemma {:induction false} SendUpKeepsRelays(net: Net, s: State, i: nat, r': RelayState, m: Message)
    requires Shape(net, s) && RelaysOk(net, s.wire, s.relays) && i < |s.relays|
    requires SendsOn(net, s.wire, i, SentTo(s.wire, s.relays, i), s.relays[i], r', m)
    ensures RelaysOk(net, s.wire, SendUp(s, i, r', m).relays)
  {
    hide RelayOk, SendsOn;
    var relays, relays' := s.relays, SendUp(s, i, r', m).relays;
    StillOk(net, s.wire, i, SentTo(s.wire, relays, i), relays[i], r', m);
    forall j | 0 <= j < |relays|
      ensures RelayOk(net, s.wire, j, SentTo(s.wire, relays', j), relays'[j])
    {
      assert RelayOk(net, s.wire, j, SentTo(s.wire, relays, j), relays[j]);
      if j + 1 == i {
        RelayReceives(net, s.wire, j, SentTo(s.wire, relays, i), relays[i], r', relays[j], m);
      }
    }
  }

  lemma {:induction false} StillOk(net: Net, wire: seq<Slot>, i: nat, sent: nat, r: RelayState, r': RelayState,
          m: Message)
    requires i + 1 < |net.path| && SendsOn(net, wire, i, sent, r, r', m)
    ensures RelayOk(net, wire, i, sent, r')
  {
  }

  lemma {:induction false} RelayReceives(net: Net, wire: seq<Slot>, j: nat, sent: nat, r: RelayState,
          r': RelayState, receiver: RelayState, m: Message)
    requires j + 2 < |net.path| && SendsOn(net, wire, j + 1, sent, r, r', m)
    requires RelayOk(net, wire, j, r.passed, receiver)
    ensures RelayOk(net, wire, j, r'.passed, Arrive(receiver, m))
  {
    hide SendsOn, QueueOk, UpCell, LayersAfter;
    QueueSent(net, wire, j + 1, receiver.passed, sent, r, r', receiver.queue, m);
  }

  lemma {:induction false} SendUpKeepsInv(net: Net, s: State, i: nat, r': RelayState, m: Message)
    requires Inv(net, s) && i < |s.relays|
    requires SendsOn(net, s.wire, i, SentTo(s.wire, s.relays, i), s.relays[i], r', m)
    ensures Inv(net, SendUp(s, i, r', m))
  {
    hide SealsOk, RelaysOk, QueueOk, ReaderOk, InboxesOk, SendsOn;
    SendUpKeepsRelays(net, s, i, r', m);
    SealsOnlyDependOn(net, s, SendUp(s, i, r', m));
    ReaderIgnoresQueue(net, s.wire, s.client, s.client.queue + [m]);
    if i == 0 {
      QueueSent(net, s.wire, 0, s.client.passed, SentTo(s.wire, s.relays, 0), s.relays[0], r', s.client.queue, m);
    }
  }

  lemma {:induction false} SealsOnlyDependOn(net: Net, s: State, t: State)
    requires net.path != [] && SealsOk(net, s)
    requires t.exit == s.exit && t.log == s.log && t.wire == s.wire && t.overtaken == s.overtaken
    ensures SealsOk(net, t)
  {
  }

  lemma {:induction false} ReaderIgnoresQueue(net: Net, wire: seq<Slot>, c: ClientState, q: seq<Message>)
    requires net.path != [] && ReaderOk(net, wire, c)
    ensures ReaderOk(net, wire, c.(queue := q))
  {
  }

  // ----- the client -----

  lemma {:induction false} OfStreamAppend(cells: seq<Plain>, p: Plain, id: u16)
    ensures OfStream(cells + [p], id) == if p.streamId == id then OfStream(cells, id) + [p] else OfStream(cells, id)
  {
    assert Init(cells + [p]) == cells;
  }

  lemma {:induction false} InboxesDelivered(received: seq<Plain>, inboxes: map<u16, Inbox>, p: Plain)
    requires InboxesOk(received, inboxes)
    ensures InboxesOk(received + [p], Delivered(inboxes, p))
  {
    hide OfStream;
    forall id | id in inboxes
      ensures id in Delivered(inboxes, p)
      ensures Delivered(inboxes, p)[id].start == inboxes[id].start <= |received|
      ensures Delivered(inboxes, p)[id].cells == OfStream((received + [p])[inboxes[id].start..], id)
    {
      var since := received[inboxes[id].start..];
      assert (received + [p])[inboxes[id].start..] == since + [p];
      OfStreamAppend(since, p, id);
    }
  }

  lemma {:induction false} ReaderTakesDestroy(net: Net, wire: seq<Slot>, sent: nat, c: ClientState)
    requires net.path != [] && ReaderOk(net, wire, c) && c.status == Reading
    requires QueueOk(net, wire, 0, c.passed, sent, c.queue) && c.queue != [] && c.queue[0].command == Destroy
    ensures var c' := ClientCheck(net.tag, c);
            ReaderOk(net, wire, c') && QueueOk(net, wire, 0, c'.passed, sent, c'.queue) && c'.received == c.received
  {
    QueueTaken(net, wire, 0, c.passed, sent, c.queue);
    hide QueueOk;
  }

  lemma {:induction false} ReaderTakesCell(net: Net, wire: seq<Slot>, sent: nat, c: ClientState)
    requires net.path != [] && ReaderOk(net, wire, c) && c.status == Reading
    requires QueueOk(net, wire, 0, c.passed, sent, c.queue) && c.queue != [] && c.queue[0].command != Destroy
    ensures var c' := ClientCheck(net.tag, c);
            ReaderOk(net, wire, c') && QueueOk(net, wire, 0, c'.passed, sent, c'.queue)
  {
    hide QueueOk, UpCell, Transcript.Opened, OpenedAll, AllVerify, Delivered, Absorbed, Mask, PlainFrame, WireOctets;
    var n, path := c.passed, ExitLayer(net);
    QueueTaken(net, wire, 0, n, sent, c.queue);
    UpCellShape(net, wire, n);
    ClientOpens(net, wire, n);
    OpenedNext(path, wire, n);
    OneMore(net.tag, path, wire, n);
    WireOctetsNext(wire, n);
    AdvanceTwice(net.path, WireOctets(wire[..n]), |wire[n].plain.data|);
  }

  lemma {:induction false} UpCellShape(net: Net, wire: seq<Slot>, w: nat)
    requires w < |wire| && net.path != []
    ensures UpCell(net, wire, w, 0).digest == net.tag(wire[w].absorbed)
    ensures |UpCell(net, wire, w, 0).data| == |wire[w].plain.data|
  {
  }

  lemma {:induction false} ClientTakeKeepsInv(net: Net, s: State)
    requires Inv(net, s) && Enabled(net, s, ClientTake)
    ensures Inv(net, Apply(net, s, ClientTake))
  {
    hide SealsOk, RelaysOk, QueueOk, ReaderOk, InboxesOk;
    SealsOnlyDependOn(net, s, Apply(net, s, ClientTake));
    if s.client.queue[0].command == Destroy {
      ReaderTakesDestroy(net, s.wire, s.relays[0].passed, s.client);
      NoInboxes(s.client.received);
    } else {
      ReaderTakesCell(net, s.wire, s.relays[0].passed, s.client);
      NoInboxes(s.client.received);
      InboxesDelivered(s.client.received, s.client.inboxes, Opened(s.client, s.client.queue[0]));
    }
  }

  lemma {:induction false} NoInboxes(received: seq<Plain>)
    ensures InboxesOk(received, map[])
  {
  }

  lemma {:induction false} RegisterKeepsInv(net: Net, s: State, step: Step)
    requires Inv(net, s) && (step.Register? || step.Unregister?) && Enabled(net, s, step)
    ensures Inv(net, Apply(net, s, step))
  {
    hide SealsOk, RelaysOk, QueueOk, InboxesOk, LayersAfter, OpenedAll, AllVerify, Absorbed;
    SealsOnlyDependOn(net, s, Apply(net, s, step));
    InboxesChange(s.client.received, s.client.inboxes, if step.Register? then step.stream else 0);
    InboxesChange(s.client.received, s.client.inboxes, if step.Unregister? then step.stream else 0);
  }

  lemma {:induction false} InboxesChange(received: seq<Plain>, inboxes: map<u16, Inbox>, id: u16)
    requires InboxesOk(received, inboxes)
    ensures InboxesOk(received, inboxes[id := Inbox(|received|, [])])
    ensures InboxesOk(received, inboxes - {id})
  {
    assert received[|received|..] == [];
  }

  // ----- every step keeps the invariant -----

  lemma {:induction false} StartInv(net: Net)
    requires |net.path| >= 3
    ensures Inv(net, Start(net))
  {
    AdvanceTwice(net.path, 0, 0);
    AdvanceTwice(ExitLayer(net), 0, 0);
  }

  lemma {:induction false} WriteKeepsInv(net: Net, s: State, t: State, slot: Slot, m: Message)
    requires Inv(net, s) && t.relays == Write(s, slot, m).relays && t.wire == s.wire + [slot] && t.client == s.client
    requires SealsOk(net, t)
    requires m == SlotCell(net, slot)
    requires m.command != Destroy
    ensures Inv(net, t)
  {
    hide SealsOk, RelaysOk, QueueOk, ReaderOk, InboxesOk, UpCell, SlotCell;
    ExitSends(net, t.wire, |s.wire|);
    WriteReachesRelays(net, s.wire, slot, s.relays, m);
    QueueLongerWire(net, s.wire, slot, 0, s.client.passed, s.relays[0].passed, s.client.queue);
    ReaderLongerWire(net, s.wire, slot, s.client);
  }

  lemma {:induction false} ExitStepKeepsInv(net: Net, s: State, step: Step)
    requires Inv(net, s) && Enabled(net, s, step)
    requires step.SealAndWrite? || step.SealReply? || step.WriteReply?
    ensures Inv(net, Apply(net, s, step))
  {
    hide RelaysOk, QueueOk, ReaderOk, InboxesOk, SealedCell, WireOf, InOrder;
    var t := Apply(net, s, step);
    match step
    case SealAndWrite(p) =>
      SealAndWriteKeepsSeals(net, s, p);
      ExitMovesOn(net, s.log, s.exit, p);
      WriteKeepsInv(net, s, t, NextSlot(s, p), SealedCell(net.circuitId, net.tag, s.exit.layer, s.exit.digest, p));
    case SealReply(p) => SealReplyKeepsSeals(net, s, p);
    case WriteReply =>
      WriteReplyKeepsSeals(net, s);
      WriteKeepsInv(net, s, t, s.exit.pending.value.0, s.exit.pending.value.1);
  }

  lemma {:induction false} StepKeepsInv(net: Net, s: State, step: Step)
    requires Inv(net, s) && Enabled(net, s, step)
    ensures Inv(net, Apply(net, s, step))
  {
    hide SealsOk, QueueOk, ReaderOk, InboxesOk, RelayOk, SendsOn;
    match step
    case RelayBack(i) =>
      RelayTakes(net, s.wire, i, SentTo(s.wire, s.relays, i), s.relays[i]);
      SendUpKeepsInv(net, s, i, Take(s.relays[i], i == 0), Passed(net.circuitId, s.relays[i], i == 0));
    case HangUp(i) =>
      RelayHangsUp(net, s.wire, i, SentTo(s.wire, s.relays, i), s.relays[i]);
      SendUpKeepsInv(net, s, i, s.relays[i].(running := false), DestroyCell(net.circuitId));
    case ClientTake => ClientTakeKeepsInv(net, s);
    case Register(id) => RegisterKeepsInv(net, s, step);
    case Unregister(id) => RegisterKeepsInv(net, s, step);
    case _ => ExitStepKeepsInv(net, s, step);
  }

  lemma {:induction false} RunKeepsInv(net: Net, steps: seq<Step>)
    requires |net.path| >= 3
    ensures Inv(net, Run(net, steps))
  {
    hide Inv, Apply, Enabled;
    if steps == [] {
      StartInv(net);
    } else {
      RunKeepsInv(net, Init(steps));
      if Enabled(net, Run(net, Init(steps)), Last(steps)) {
        StepKeepsInv(net, Run(net, Init(steps)), Last(steps));
      }
    }
  }
}
