// The forward direction of a circuit as a step system: the client, N relays, and a FIFO queue of
// cells into every relay. Any interleaving of sends, keepalives and hops is a run.
//   client: services/tor-client/src/core/circuit.rs:67-94 (send_message), :889-915 (keepalive)
//   relays: services/relay-node/src/circuit/entry.rs:200-231, middle.rs:229-258, exit.rs:360-397
module Forward {
  import opened Bytes
  import opened Keystream
  import opened Cell
  import opened Crypto
  import opened Sequences
  import opened Transcript

  // What the ends agree on when the circuit is ready: the forward layer of every hop, entry first.
  datatype Net = Net(circuitId: u32, path: seq<Layer>, tag: TagFn, isText: TextTest)

  // One relay: its forward cipher, the cells on their way to it, and how many it has taken.
  datatype HopState = HopState(layer: Layer, queue: seq<Message>, passed: nat)

  // The exit: what its forward digest has absorbed, whether it still reads (it stops at the first
  // cell it rejects), and what it has decrypted and verified.
  datatype ExitState = ExitState(digest: seq<byte>, reading: bool, delivered: seq<Plain>)

  datatype State = State(
    client: seq<Layer>,           // the client's forward ciphers
    clientDigest: seq<byte>,      // what the client's forward digest has absorbed
    hops: seq<HopState>,
    exit: ExitState,
    log: seq<Plain>)              // history: everything given to send_message

  datatype Step = Send(p: Plain) | Keepalive(filler: seq<byte>) | Hop(i: nat)

  // ----- one party at a time -----

  // The cell send_message makes: digest of the plain payload, payload under every layer.
  function SealedCell(circuitId: u32, tag: TagFn, layers: seq<Layer>, absorbed: seq<byte>, p: Plain): Message {
    Message(circuitId, p.streamId, p.command, Mask(p.data, layers), tag(absorbed + PlainFrame(p)))
  }

  // A relay takes its own layer off and leaves everything else alone.
  function PeeledCell(m: Message, l: Layer): Message {
    m.(data := XorStream(m.data, l))
  }

  function PlainOf(m: Message): Plain {
    Plain(m.streamId, m.command, m.data)
  }

  // The destination in a BEGIN has to be text.
  predicate Readable(isText: TextTest, p: Plain) {
    p.command == Begin ==> isText(p.data)
  }

  // The exit peels the last layer, checks the digest, then the destination of a BEGIN, and
  // delivers or stops.
  function ExitCheck(tag: TagFn, isText: TextTest, x: ExitState, l: Layer, m: Message): ExitState {
    var plain := PlainOf(PeeledCell(m, l));
    var absorbed := x.digest + PlainFrame(plain);
    if tag(absorbed) == m.digest && Readable(isText, plain) then ExitState(absorbed, true, x.delivered + [plain])
    else ExitState(absorbed, false, x.delivered)
  }

  function Arrive(h: HopState, m: Message): HopState {
    h.(queue := h.queue + [m])
  }

  // The next cell leaves the queue; a padding cell leaves no other trace.
  function Take(h: HopState): HopState
    requires h.queue != []
  {
    var m := h.queue[0];
    if m.command == Padding then h.(queue := h.queue[1..])
    else HopState(h.layer.(pos := h.layer.pos + |m.data|), h.queue[1..], h.passed + 1)
  }

  // ----- the step system -----

  ghost predicate Shape(net: Net, s: State) {
    |net.path| >= 3 && |s.hops| == |net.path| == |s.client|
  }

  // The state a freshly built circuit starts from.
  function Start(net: Net): State {
    State(net.path, [],
          seq(|net.path|, i requires 0 <= i < |net.path| => HopState(net.path[i], [], 0)),
          ExitState([], true, []), [])
  }

  ghost predicate Enabled(net: Net, s: State, step: Step)
    requires Shape(net, s)
  {
    match step
    case Send(p) => p.command == Begin || p.command == Data || p.command == End
    case Keepalive(filler) => |filler| <= MAX_PAYLOAD
    case Hop(i) => i < |s.hops| && s.hops[i].queue != [] && (i + 1 == |s.hops| ==> s.exit.reading)
  }

  // The digest and the ciphers move on before the cell writer looks at the size of the payload.
  function SendMessage(net: Net, s: State, p: Plain): State
    requires s.hops != []
  {
    State(Advance(s.client, |p.data|),
          s.clientDigest + PlainFrame(p),
          if |p.data| > MAX_PAYLOAD then s.hops
          else s.hops[0 := Arrive(s.hops[0], SealedCell(net.circuitId, net.tag, s.client, s.clientDigest, p))],
          s.exit,
          s.log + [p])
  }

  // A relay takes its next cell and, unless it is padding, passes it on.
  function TakenAndPassedOn(hops: seq<HopState>, i: nat): seq<HopState>
    requires i + 1 < |hops| && hops[i].queue != []
  {
    var m := hops[i].queue[0];
    var taken := hops[i := Take(hops[i])];
    if m.command == Padding then taken
    else taken[i + 1 := Arrive(hops[i + 1], PeeledCell(m, hops[i].layer))]
  }

  function TakeAtExit(net: Net, s: State): State
    requires s.hops != [] && Last(s.hops).queue != []
  {
    var h := Last(s.hops);
    var m := h.queue[0];
    s.(hops := Init(s.hops) + [Take(h)],
       exit := if m.command == Padding then s.exit else ExitCheck(net.tag, net.isText, s.exit, h.layer, m))
  }

  ghost function Apply(net: Net, s: State, step: Step): State
    requires Shape(net, s) && Enabled(net, s, step)
  {
    match step
    case Send(p) => SendMessage(net, s, p)
    case Keepalive(filler) =>
      s.(hops := s.hops[0 := Arrive(s.hops[0], CircuitMessage(net.circuitId, Padding, filler))])
    case Hop(i) => if i + 1 < |s.hops| then s.(hops := TakenAndPassedOn(s.hops, i)) else TakeAtExit(net, s)
  }

  // A run: any list of steps, those that are not enabled doing nothing.
  ghost function Run(net: Net, steps: seq<Step>): (s: State)
    requires |net.path| >= 3
    ensures Shape(net, s)
  {
    if steps == [] then Start(net)
    else
      var s := Run(net, Init(steps));
      if Enabled(net, s, Last(steps)) then Apply(net, s, Last(steps)) else s
  }

  // ----- the invariant -----

  // The cells that reach the entry connection: those whose payload fits a cell.
  function Wire(log: seq<Plain>): seq<Slot> {
    if log == [] then []
    else if |Last(log).data| > MAX_PAYLOAD then Wire(Init(log))
    else Wire(Init(log)) + [SlotOf(log, |log| - 1)]
  }

  function NoPadding(q: seq<Message>): seq<Message> {
    if q == [] then []
    else if Last(q).command == Padding then NoPadding(Init(q))
    else NoPadding(Init(q)) + [Last(q)]
  }

  // The shared layers after the first n cells of the wire.
  function LayersAfter(net: Net, wire: seq<Slot>, n: nat): (r: seq<Layer>)
    requires n <= |wire|
    ensures |r| == |net.path|
  {
    Advance(net.path, WireOctets(wire[..n]))
  }

  // Cell w of the wire with the client's N layers on and the first i layers off again.
  function DownCell(net: Net, wire: seq<Slot>, w: nat, i: nat): Message
    requires w < |wire| && i <= |net.path|
  {
    var t := wire[w];
    Message(net.circuitId, t.plain.streamId, t.plain.command,
            Mask(Mask(t.plain.data, Advance(net.path, t.offset)), LayersAfter(net, wire, w)[..i]),
            net.tag(t.absorbed))
  }

  function DownCells(net: Net, wire: seq<Slot>, i: nat, lo: nat, hi: nat): (q: seq<Message>)
    requires lo <= hi <= |wire| && i <= |net.path|
    ensures |q| == hi - lo
    decreases hi - lo
  {
    if lo == hi then [] else DownCells(net, wire, i, lo, hi - 1) + [DownCell(net, wire, hi - 1, i)]
  }

  // A hop to which `hi` cells have been sent: its cipher is on the next cell it will take, and
  // its queue holds the cells it has not taken, in order.
  ghost predicate HopOk(net: Net, wire: seq<Slot>, i: nat, hi: nat, h: HopState)
    requires i < |net.path|
  {
    && h.passed <= hi <= |wire|
    && h.layer == LayersAfter(net, wire, h.passed)[i]
    && NoPadding(h.queue) == DownCells(net, wire, i, h.passed, hi)
  }

  // The exit accepts arrival w: its digest verifies, and a BEGIN names its destination in text.
  ghost predicate Accepted(net: Net, wire: seq<Slot>, w: nat)
    requires w < |wire|
  {
    Verifies(net.tag, net.path, wire, w) && Readable(net.isText, Opened(net.path, wire, w))
  }

  ghost predicate AllAccepted(net: Net, wire: seq<Slot>, n: nat)
    requires n <= |wire|
  {
    forall w :: 0 <= w < n ==> Accepted(net, wire, w)
  }

  // The exit after n relay cells.
  ghost predicate ExitOk(net: Net, wire: seq<Slot>, n: nat, x: ExitState) {
    && n <= |wire|
    && x.digest == Absorbed(OpenedAll(net.path, wire, n))
    && (x.reading ==> x.delivered == OpenedAll(net.path, wire, n) && AllAccepted(net, wire, n))
    && (!x.reading ==> n > 0 && x.delivered == OpenedAll(net.path, wire, n - 1)
                       && AllAccepted(net, wire, n - 1) && !Accepted(net, wire, n - 1))
  }

  // How many cells have been sent to hop i.
  function Upstream(wire: seq<Slot>, hops: seq<HopState>, i: nat): nat
    requires i <= |hops|
  {
    if i == 0 then |wire| else hops[i - 1].passed
  }

  ghost predicate HopsOk(net: Net, wire: seq<Slot>, hops: seq<HopState>) {
    && |hops| == |net.path|
    && forall i :: 0 <= i < |hops| ==> HopOk(net, wire, i, Upstream(wire, hops, i), hops[i])
  }

  ghost predicate Inv(net: Net, s: State) {
    && Shape(net, s)
    && s.client == Advance(net.path, Octets(s.log))
    && s.clientDigest == Absorbed(s.log)
    && HopsOk(net, Wire(s.log), s.hops)
    && ExitOk(net, Wire(s.log), Last(s.hops).passed, s.exit)
  }

  // ----- lemmas about one queue -----

  lemma {:induction false} NoPaddingAppend(q: seq<Message>, m: Message)
    ensures NoPadding(q + [m]) == if m.command == Padding then NoPadding(q) else NoPadding(q) + [m]
  {
    assert Init(q + [m]) == q;
  }

  lemma {:induction false} NoPaddingHead(q: seq<Message>)
    requires q != []
    ensures NoPadding(q) == if q[0].command == Padding then NoPadding(q[1..]) else [q[0]] + NoPadding(q[1..])
    decreases |q|
  {
    if |q| > 1 {
      NoPaddingHead(Init(q));
      assert Init(q)[1..] == Init(q[1..]);
    }
  }

  lemma {:induction false} DownCellsLongerWire(net: Net, wire: seq<Slot>, t: Slot, i: nat, lo: nat, hi: nat)
    requires lo <= hi <= |wire| && i <= |net.path|
    ensures DownCells(net, wire + [t], i, lo, hi) == DownCells(net, wire, i, lo, hi)
    decreases hi
  {
    if lo < hi {
      DownCellsLongerWire(net, wire, t, i, lo, hi - 1);
      assert (wire + [t])[..hi - 1] == wire[..hi - 1];
      assert DownCell(net, wire + [t], hi - 1, i) == DownCell(net, wire, hi - 1, i);
    }
  }

  lemma {:induction false} DownCellsHead(net: Net, wire: seq<Slot>, i: nat, lo: nat, hi: nat)
    requires lo < hi <= |wire| && i <= |net.path|
    ensures DownCells(net, wire, i, lo, hi) == [DownCell(net, wire, lo, i)] + DownCells(net, wire, i, lo + 1, hi)
    decreases hi
  {
    hide DownCell;
    if lo + 1 < hi {
      DownCellsHead(net, wire, i, lo, hi - 1);
    } else {
      assert DownCells(net, wire, i, lo, lo) == [];
    }
  }

  lemma {:induction false} HopLongerWire(net: Net, wire: seq<Slot>, t: Slot, i: nat, hi: nat, h: HopState)
    requires i < |net.path| && HopOk(net, wire, i, hi, h)
    ensures HopOk(net, wire + [t], i, hi, h)
  {
    assert (wire + [t])[..h.passed] == wire[..h.passed];
    DownCellsLongerWire(net, wire, t, i, h.passed, hi);
  }

  // A relay cell joins the queue.
  lemma {:induction false} HopArrives(net: Net, wire: seq<Slot>, i: nat, hi: nat, h: HopState, m: Message)
    requires i < |net.path| && HopOk(net, wire, i, hi, h)
    requires hi < |wire| && m == DownCell(net, wire, hi, i) && m.command != Padding
    ensures HopOk(net, wire, i, hi + 1, Arrive(h, m))
  {
    hide DownCell;
    NoPaddingAppend(h.queue, m);
  }

  // A padding cell joins the queue.
  lemma {:induction false} HopPads(net: Net, wire: seq<Slot>, i: nat, hi: nat, h: HopState, m: Message)
    requires i < |net.path| && HopOk(net, wire, i, hi, h)
    requires m.command == Padding
    ensures HopOk(net, wire, i, hi, Arrive(h, m))
  {
    NoPaddingAppend(h.queue, m);
  }

  // The hop takes the next cell; if it is a relay cell, it is the one its cipher is on.
  lemma {:induction false} HopTakes(net: Net, wire: seq<Slot>, i: nat, hi: nat, h: HopState)
    requires i < |net.path| && HopOk(net, wire, i, hi, h)
    requires h.queue != []
    ensures HopOk(net, wire, i, hi, Take(h))
    ensures h.queue[0].command == Padding ==> Take(h).passed == h.passed
    ensures h.queue[0].command != Padding ==>
              && h.passed < hi <= |wire| && Take(h).passed == h.passed + 1
              && h.queue[0] == DownCell(net, wire, h.passed, i)
              && h.layer == LayersAfter(net, wire, h.passed)[i]
  {
    NoPaddingHead(h.queue);
    if h.queue[0].command != Padding {
      DownCellsHead(net, wire, i, h.passed, hi);
      assert NoPadding(h.queue[1..]) == NoPadding(h.queue)[1..];
      assert DownCells(net, wire, i, h.passed + 1, hi) == DownCells(net, wire, i, h.passed, hi)[1..];
      WireOctetsNext(wire, h.passed);
    }
  }

  // Taking relay i's layer off cell w leaves the cell as it enters relay i + 1.
  lemma {:induction false} PeelMovesOn(net: Net, wire: seq<Slot>, w: nat, i: nat)
    requires w < |wire| && i < |net.path|
    ensures PeeledCell(DownCell(net, wire, w, i), LayersAfter(net, wire, w)[i]) == DownCell(net, wire, w, i + 1)
  {
    var layers := LayersAfter(net, wire, w);
    MaskNext(Mask(wire[w].plain.data, Advance(net.path, wire[w].offset)), layers, 0, i);
    assert layers[0..i] == layers[..i] && layers[0..i + 1] == layers[..i + 1];
  }

  // ----- every step keeps the invariant -----

  lemma {:induction false} StartInv(net: Net)
    requires |net.path| >= 3
    ensures Inv(net, Start(net))
  {
    AdvanceTwice(net.path, 0, 0);
  }

  lemma {:induction false} WireAppend(log: seq<Plain>, p: Plain)
    ensures Wire(log + [p]) ==
            if |p.data| > MAX_PAYLOAD then Wire(log)
            else Wire(log) + [Slot(|log|, p, Octets(log), Absorbed(log) + PlainFrame(p))]
  {
    assert Init(log + [p]) == log;
    assert (log + [p])[..|log|] == log && (log + [p])[..|log| + 1] == log + [p];
    AbsorbedAppend(log, p);
  }

  lemma {:induction false} ExitLongerWire(net: Net, wire: seq<Slot>, t: Slot, n: nat, x: ExitState)
    requires ExitOk(net, wire, n, x)
    ensures ExitOk(net, wire + [t], n, x)
  {
    hide OpenedAll, Accepted, Absorbed;
    OpenedLongerWire(net.path, wire, t, n);
    if !x.reading {
      OpenedLongerWire(net.path, wire, t, n - 1);
    }
    forall w | 0 <= w < n
      ensures Accepted(net, wire + [t], w) == Accepted(net, wire, w)
    {
      AcceptedLongerWire(net, wire, t, w);
    }
  }

  lemma {:induction false} AcceptedLongerWire(net: Net, wire: seq<Slot>, t: Slot, w: nat)
    requires w < |wire|
    ensures Accepted(net, wire + [t], w) == Accepted(net, wire, w)
  {
    hide Opened, Absorbed, Readable;
    OpenedLongerWire(net.path, wire, t, w + 1);
    assert OpenedAll(net.path, wire + [t], w + 1)[w] == OpenedAll(net.path, wire, w + 1)[w];
  }

  lemma {:induction false} SentCell(net: Net, s: State, p: Plain)
    requires Inv(net, s) && |p.data| <= MAX_PAYLOAD
    ensures var wire := Wire(s.log + [p]);
            |wire| == |Wire(s.log)| + 1
            && SealedCell(net.circuitId, net.tag, s.client, s.clientDigest, p) == DownCell(net, wire, |Wire(s.log)|, 0)
  {
    WireAppend(s.log, p);
    MaskNone(Mask(p.data, s.client));
    var wire := Wire(s.log + [p]);
    assert LayersAfter(net, wire, |Wire(s.log)|)[..0] == [];
  }

  lemma {:induction false} SendReachesHops(net: Net, wire: seq<Slot>, t: Slot, hops: seq<HopState>, m: Message)
    requires HopsOk(net, wire, hops) && hops != []
    requires m == DownCell(net, wire + [t], |wire|, 0) && m.command != Padding
    ensures HopsOk(net, wire + [t], hops[0 := Arrive(hops[0], m)])
  {
    hide HopOk, DownCell;
    var wire', hops' := wire + [t], hops[0 := Arrive(hops[0], m)];
    forall i | 0 <= i < |hops|
      ensures HopOk(net, wire', i, Upstream(wire', hops', i), hops'[i])
    {
      HopLongerWire(net, wire, t, i, Upstream(wire, hops, i), hops[i]);
      if i == 0 {
        HopArrives(net, wire', 0, |wire|, hops[0], m);
      }
    }
  }

  lemma {:induction false} SendKeepsInv(net: Net, s: State, p: Plain)
    requires Inv(net, s) && p.command != Padding
    ensures Inv(net, SendMessage(net, s, p))
  {
    hide HopsOk, ExitOk, Mask, Wire;
    var wire := Wire(s.log);
    WireAppend(s.log, p);
    AbsorbedAppend(s.log, p);
    AdvanceTwice(net.path, Octets(s.log), |p.data|);
    if |p.data| <= MAX_PAYLOAD {
      var slot := Last(Wire(s.log + [p]));
      ExitLongerWire(net, wire, slot, Last(s.hops).passed, s.exit);
      SentCell(net, s, p);
      SendReachesHops(net, wire, slot, s.hops, SealedCell(net.circuitId, net.tag, s.client, s.clientDigest, p));
    }
  }

  lemma {:induction false} KeepaliveReachesHops(net: Net, wire: seq<Slot>, hops: seq<HopState>, m: Message)
    requires HopsOk(net, wire, hops) && hops != [] && m.command == Padding
    ensures HopsOk(net, wire, hops[0 := Arrive(hops[0], m)])
  {
    hide HopOk;
    HopPads(net, wire, 0, |wire|, hops[0], m);
    var hops' := hops[0 := Arrive(hops[0], m)];
    forall i | 0 <= i < |hops|
      ensures HopOk(net, wire, i, Upstream(wire, hops', i), hops'[i])
    {
      assert HopOk(net, wire, i, Upstream(wire, hops, i), hops[i]);
    }
  }

  lemma {:induction false} RelayMovesOn(net: Net, wire: seq<Slot>, hops: seq<HopState>, i: nat)
    requires HopsOk(net, wire, hops) && i + 1 < |hops| && hops[i].queue != []
    ensures HopsOk(net, wire, TakenAndPassedOn(hops, i))
  {
    hide HopOk, DownCell, XorStream, LayersAfter;
    var h, next, m, hops' := hops[i], hops[i + 1], hops[i].queue[0], TakenAndPassedOn(hops, i);
    assert HopOk(net, wire, i + 1, h.passed, next);
    HopTakes(net, wire, i, Upstream(wire, hops, i), h);
    if m.command != Padding {
      PeelMovesOn(net, wire, h.passed, i);
      HopArrives(net, wire, i + 1, h.passed, next, PeeledCell(m, h.layer));
    }
    forall j | 0 <= j < |hops|
      ensures HopOk(net, wire, j, Upstream(wire, hops', j), hops'[j])
    {
      assert HopOk(net, wire, j, Upstream(wire, hops, j), hops[j]);
    }
  }

  // What the exit decrypts is the channel's view of the cell, and the digest decides.
  lemma {:induction false} ExitTakes(net: Net, wire: seq<Slot>, n: nat, x: ExitState, m: Message, l: Layer)
    requires |net.path| >= 1 && ExitOk(net, wire, n, x) && x.reading && n < |wire|
    requires m == DownCell(net, wire, n, |net.path| - 1) && l == LayersAfter(net, wire, n)[|net.path| - 1]
    ensures ExitOk(net, wire, n + 1, ExitCheck(net.tag, net.isText, x, l, m))
  {
    hide OpenedAll, Opened, DownCell, LayersAfter, PeeledCell, Absorbed, PlainFrame, Readable;
    var e := |net.path| - 1;
    PeelMovesOn(net, wire, n, e);
    LastPeelOpens(net, wire, n);
    OpenedNext(net.path, wire, n);
  }

  lemma {:induction false} LastPeelOpens(net: Net, wire: seq<Slot>, n: nat)
    requires |net.path| >= 1 && n < |wire|
    ensures PlainOf(DownCell(net, wire, n, |net.path|)) == Opened(net.path, wire, n)
    ensures forall i :: 0 <= i <= |net.path| ==> DownCell(net, wire, n, i).digest == net.tag(wire[n].absorbed)
  {
    assert LayersAfter(net, wire, n)[..|net.path|] == LayersAfter(net, wire, n);
  }

  lemma {:induction false} ExitKeepsInv(net: Net, s: State)
    requires Inv(net, s) && s.exit.reading && Last(s.hops).queue != []
    ensures Inv(net, TakeAtExit(net, s))
  {
    hide HopOk, HopsOk, ExitOk, DownCell, Wire, ExitCheck, LayersAfter, Take;
    var wire, h := Wire(s.log), Last(s.hops);
    LastHopTakes(net, wire, s.hops);
    if h.queue[0].command != Padding {
      ExitTakes(net, wire, h.passed, s.exit, h.queue[0], h.layer);
    }
  }

  lemma {:induction false} LastHopTakes(net: Net, wire: seq<Slot>, hops: seq<HopState>)
    requires HopsOk(net, wire, hops) && hops != [] && Last(hops).queue != []
    ensures HopsOk(net, wire, Init(hops) + [Take(Last(hops))])
    ensures var h, n := Last(hops), |hops| - 1;
            var m := h.queue[0];
            if m.command == Padding then Take(h).passed == h.passed
            else h.passed < |wire| && Take(h).passed == h.passed + 1
                 && m == DownCell(net, wire, h.passed, n) && h.layer == LayersAfter(net, wire, h.passed)[n]
  {
    hide HopOk, DownCell, LayersAfter, Take;
    var n, hops' := |hops| - 1, Init(hops) + [Take(Last(hops))];
    HopTakes(net, wire, n, Upstream(wire, hops, n), hops[n]);
    forall j | 0 <= j < |hops|
      ensures HopOk(net, wire, j, Upstream(wire, hops', j), hops'[j])
    {
      assert HopOk(net, wire, j, Upstream(wire, hops, j), hops[j]);
    }
  }

  lemma {:induction false} StepKeepsInv(net: Net, s: State, step: Step)
    requires Inv(net, s) && Enabled(net, s, step)
    ensures Inv(net, Apply(net, s, step))
  {
    hide HopsOk, ExitOk, Wire;
    match step
    case Send(p) => SendKeepsInv(net, s, p);
    case Keepalive(filler) =>
      KeepaliveReachesHops(net, Wire(s.log), s.hops, CircuitMessage(net.circuitId, Padding, filler));
    case Hop(i) =>
      if i + 1 < |s.hops| {
        RelayMovesOn(net, Wire(s.log), s.hops, i);
      } else {
        ExitKeepsInv(net, s);
      }
  }

  lemma {:induction false} RunKeepsInv(net: Net, steps: seq<Step>)
    requires |net.path| >= 3
    ensures Inv(net, Run(net, steps))
  {
    hide Inv, Apply, Enabled;
    if steps == [] {
      StartInv(net);
    } else {
      RunKeepsInv(net, Init(steps));
      if Enabled(net, Run(net, Init(steps)), Last(steps)) {
        StepKeepsInv(net, Run(net, Init(steps)), Last(steps));
      }
    }
  }
}
