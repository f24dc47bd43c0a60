// Building a circuit hop by hop: CREATE to the entry, then one EXTEND per further hop, sent
// through the relays already there, under their ciphers.
//   client: services/tor-client/src/core/circuit.rs:117-353
//   relays: services/relay-node/src/circuit/entry.rs:42-198, middle.rs:70-226, exit.rs:56-98
module Telescope {
  import opened Bytes
  import opened Wrappers
  import opened Keystream
  import opened Cell
  import opened Crypto
  import opened Ntor
  import EP = ExtendPayload

  datatype Role = EntryRole | MiddleRole | ExitRole

  // A relay process: its role, its long-term secret, and the fingerprint of its TLS certificate.
  datatype Relay = Relay(role: Role, secret: Bytes32, fingerprint: seq<byte>)

  // What the directory told the client about a relay.
  datatype Node = Node(address: seq<byte>, publicKey: Bytes32, fingerprint: seq<byte>)

  datatype Env = Env(
    primitives: Primitives, ctr: CtrFn,
    isText: TextTest, isSocketAddress: TextTest,
    relays: map<seq<byte>, Relay>)  // who listens at an address

  // A circuit at one relay, once its CREATE has been handled. `seen` is history: the EXTEND
  // payloads that passed, as they read after the relay took its layer off.
  datatype Hop = Hop(role: Role, forward: Layer, backward: Layer, seen: seq<seq<byte>>)

  // What goes wrong at a relay, and what the client is left with.
  datatype BuildError =
    | PathTooShort
    | ConnectionClosed
    | NoConnection
    | CreateTooShort
    | ExtendAtExit
    | BadExtend(error: EP.ExtendError)
    | NotAnAddress
    | CellTooLarge
    | UnexpectedReply
    | ReplyTooShort
    | HandshakeFailed

  // A circuit under construction: the client's layers and the relays reached, entry first.
  datatype Stage = Stage(forward: seq<Layer>, backward: seq<Layer>, hops: seq<Hop>)

  // The random numbers of a build: ephemeral secrets of the client and of the relays, per hop.
  datatype Draws = Draws(client: nat -> Bytes32, relay: nat -> Bytes32)

  // ----- relays -----

  // TCP and TLS: somebody listens and presents the pinned certificate.
  function Connect(env: Env, address: seq<byte>, fingerprint: seq<byte>): Result<Relay, BuildError> {
    if address in env.relays && env.relays[address].fingerprint == fingerprint then Ok(env.relays[address])
    else Err(NoConnection)
  }

  function Reply(env: Env, r: Relay, X: Bytes32, y: Bytes32): ServerReply {
    Server(env.primitives, r.secret, env.primitives.publicKey(r.secret), X, y)
  }

  function NewHop(env: Env, role: Role, key: SessionKey): Hop {
    Hop(role, Layer(env.ctr(key.forward), 0), Layer(env.ctr(key.backward), 0), [])
  }

  // CREATE: the same at all three kinds of relay.
  function HandleCreate(env: Env, r: Relay, y: Bytes32, m: Message): Result<(Hop, Message), BuildError> {
    if |m.data| < 32 then Err(CreateTooShort)
    else
      var reply := Reply(env, r, m.data[..32], y);
      Ok((NewHop(env, r.role, reply.key), CircuitMessage(m.circuitId, Created, reply.Y + reply.auth)))
  }

  // What a relay without a next hop does with a decrypted EXTEND payload.
  function ExtendTo(env: Env, y: Bytes32, circuitId: u32, payload: seq<byte>): Result<(Hop, Message), BuildError> {
    match EP.Parse(env.isText, payload)
    case Err(e) => Err(BadExtend(e))
    case Ok(e) =>
      if !env.isSocketAddress(e.address) then Err(NotAnAddress) else
      match Connect(env, e.address, e.fingerprint)
      case Err(x) => Err(x)
      case Ok(next) =>
        match HandleCreate(env, next, y, CircuitMessage(circuitId, Create, e.clientKey))
        case Err(x) => Err(x)
        case Ok((hop, created)) => if created.command != Created then Err(UnexpectedReply) else Ok((hop, created))
  }

  // An EXTEND cell arrives at the first of these hops. A relay with a next hop takes its layer off,
  // passes the cell on, and puts its backward layer on the answer; the last one extends.
  function Travel(env: Env, y: Bytes32, hops: seq<Hop>, m: Message): Result<(seq<Hop>, Message), BuildError>
    requires hops != []
    decreases |hops|
  {
    var h := hops[0];
    var plain := XorStream(m.data, h.forward);
    if |hops| > 1 then
      match Travel(env, y, hops[1..], m.(data := plain))
      case Err(e) => Err(e)
      case Ok((rest, reply)) =>
        Ok(([Moved(h, plain, |reply.data|)] + rest, reply.(data := XorStream(reply.data, h.backward))))
    else if h.role == ExitRole then Err(ExtendAtExit)
    else
      match ExtendTo(env, y, m.circuitId, plain)
      case Err(e) => Err(e)
      case Ok((next, created)) =>
        Ok(([Moved(h, plain, |created.data|), next],
            CircuitMessage(m.circuitId, Extended, XorStream(created.data, h.backward))))
  }

  function Moved(h: Hop, plain: seq<byte>, backward: nat): Hop {
    Hop(h.role, h.forward.(pos := h.forward.pos + |plain|), h.backward.(pos := h.backward.pos + backward),
        h.seen + [plain])
  }

  // ----- the client -----

  function ExtendPayloadFor(env: Env, node: Node, x: Bytes32): seq<byte> {
    EP.Build(EP.Extend(node.address, env.primitives.publicKey(x), node.fingerprint))
  }

  // The client's half of the handshake, on the decrypted answer.
  function Finish(env: Env, node: Node, x: Bytes32, answer: seq<byte>): Result<SessionKey, BuildError> {
    if |answer| < 64 then Err(ReplyTooShort)
    else
      match Client(env.primitives, x, env.primitives.publicKey(x), node.publicKey, answer[..32], answer[32..64])
      case Err(_) => Err(HandshakeFailed)
      case Ok(key) => Ok(key)
  }

  function WithHop(env: Env, s: Stage, key: SessionKey): Stage {
    var h := NewHop(env, EntryRole, key);
    Stage(s.forward + [h.forward], s.backward + [h.backward], s.hops)
  }

  function CreateEntry(env: Env, circuitId: u32, node: Node, x: Bytes32, y: Bytes32): Result<Stage, BuildError> {
    match Connect(env, node.address, node.fingerprint)
    case Err(e) => Err(e)
    case Ok(entry) =>
      match HandleCreate(env, entry, y, CircuitMessage(circuitId, Create, env.primitives.publicKey(x)))
      case Err(_) => Err(ConnectionClosed)
      case Ok((hop, created)) =>
        if created.command != Created then Err(UnexpectedReply) else
        match Finish(env, node, x, created.data)
        case Err(e) => Err(e)
        case Ok(key) => Ok(WithHop(env, Stage([], [], [hop]), key))
  }

  // A relay that fails drops its connection. The client sees a close if that was the entry;
  // otherwise the relay before reports DESTROY, which is not the answer expected.
  function Lost(hops: seq<Hop>): BuildError {
    if |hops| == 1 then ConnectionClosed else UnexpectedReply
  }

  function ExtendBy(env: Env, circuitId: u32, node: Node, x: Bytes32, y: Bytes32, s: Stage): Result<Stage, BuildError>
    requires s.hops != []
  {
    var payload := ExtendPayloadFor(env, node, x);
    if |payload| > MAX_PAYLOAD then Err(CellTooLarge) else
    match Travel(env, y, s.hops, CircuitMessage(circuitId, Extend, Mask(payload, s.forward)))
    case Err(_) => Err(Lost(s.hops))
    case Ok((hops, reply)) =>
      if reply.command != Extended then Err(UnexpectedReply) else
      match Finish(env, node, x, Mask(reply.data, s.backward))
      case Err(e) => Err(e)
      case Ok(key) =>
        Ok(WithHop(env, Stage(Advance(s.forward, |payload|), Advance(s.backward, |reply.data|), hops), key))
  }

  // The circuit after the first n hops of the path.
  function BuildTo(env: Env, circuitId: u32, path: seq<Node>, draws: Draws, n: nat): (r: Result<Stage, BuildError>)
    requires 1 <= n <= |path|
    ensures r.Ok? ==> r.value.hops != []
    decreases n
  {
    if n == 1 then CreateEntry(env, circuitId, path[0], draws.client(0), draws.relay(0))
    else
      match BuildTo(env, circuitId, path, draws, n - 1)
      case Err(e) => Err(e)
      case Ok(s) => ExtendBy(env, circuitId, path[n - 1], draws.client(n - 1), draws.relay(n - 1), s)
  }

  function Build(env: Env, circuitId: u32, path: seq<Node>, draws: Draws): Result<Stage, BuildError> {
    if |path| < 3 then Err(PathTooShort) else BuildTo(env, circuitId, path, draws, |path|)
  }

  // ----- one EXTEND -----

  function Forwards(hops: seq<Hop>): (r: seq<Layer>)
    ensures |r| == |hops|
  {
    seq(|hops|, i requires 0 <= i < |hops| => hops[i].forward)
  }

  function Backwards(hops: seq<Hop>): (r: seq<Layer>)
    ensures |r| == |hops|
  {
    seq(|hops|, i requires 0 <= i < |hops| => hops[i].backward)
  }

  // All relays after an EXTEND: relay i has seen the payload under the layers of the relays behind it.
  function AllMoved(hops: seq<Hop>, payload: seq<byte>, backward: nat): (r: seq<Hop>)
    ensures |r| == |hops|
  {
    seq(|hops|, i requires 0 <= i < |hops| => Moved(hops[i], Mask(payload, Forwards(hops)[i + 1..]), backward))
  }

  lemma {:induction false} PeelFirst(data: seq<byte>, layers: seq<Layer>)
    requires layers != []
    ensures XorStream(Mask(data, layers), layers[0]) == Mask(data, layers[1..])
    ensures XorStream(Mask(data, layers[1..]), layers[0]) == Mask(data, layers)
  {
    hide Mask, XorStream;
    PeelOneMore(data, layers, 0);
    assert layers[0..] == layers;
    MaskOne(Mask(data, layers[1..]), layers[0]);
    MaskOne(Mask(data, layers), layers[0]);
    MaskTwice(Mask(data, layers[1..]), [layers[0]]);
  }

  lemma {:induction false} TailLayers(hops: seq<Hop>, payload: seq<byte>, backward: nat)
    requires hops != []
    ensures Forwards(hops)[1..] == Forwards(hops[1..]) && Backwards(hops)[1..] == Backwards(hops[1..])
    ensures Forwards(hops)[0] == hops[0].forward && Backwards(hops)[0] == hops[0].backward
    ensures AllMoved(hops, payload, backward)
         == [Moved(hops[0], Mask(payload, Forwards(hops)[1..]), backward)] + AllMoved(hops[1..], payload, backward)
  {
    hide Mask;
    var rest := Forwards(hops[1..]);
    assert Forwards(hops)[1..] == rest;
    forall i | 1 <= i < |hops|
      ensures Forwards(hops)[i + 1..] == rest[i..]
    {
    }
  }

  // An EXTEND under the layers of all hops: the last relay acts on the payload in clear, its
  // answer comes back under all backward layers, and every cipher has moved by the same amount.
  lemma {:induction false} TravelExact(env: Env, y: Bytes32, circuitId: u32, hops: seq<Hop>, payload: seq<byte>)
    requires hops != []
    ensures Travel(env, y, hops, CircuitMessage(circuitId, Extend, Mask(payload, Forwards(hops)))) ==
            if hops[|hops| - 1].role == ExitRole then Err(ExtendAtExit) else
            match ExtendTo(env, y, circuitId, payload)
            case Err(e) => Err(e)
            case Ok((next, created)) =>
              Ok((AllMoved(hops, payload, |created.data|) + [next],
                  CircuitMessage(circuitId, Extended, Mask(created.data, Backwards(hops)))))
    decreases |hops|
  {
    hide Mask, XorStream, ExtendTo, AllMoved, Forwards, Backwards;
    var fwd, bwd, out := Forwards(hops), Backwards(hops), ExtendTo(env, y, circuitId, payload);
    var answer := if out.Ok? then out.value.1.data else [];
    TailLayers(hops, payload, |answer|);
    PeelFirst(payload, fwd);
    PeelFirst(answer, bwd);
    var all, first, rest := AllMoved(hops, payload, |answer|), Moved(hops[0], Mask(payload, fwd[1..]), |answer|),
                            AllMoved(hops[1..], payload, |answer|);
    if |hops| > 1 {
      TravelExact(env, y, circuitId, hops[1..], payload);
      if out.Ok? {
        assert [first] + (rest + [out.value.0]) == all + [out.value.0];
      }
    } else {
      MaskNothing(payload, fwd[1..]);
      MaskNothing(answer, bwd[1..]);
      assert rest == [];
      assert all == [first];
      if out.Ok? {
        assert [first, out.value.0] == all + [out.value.0];
      }
    }
  }

  lemma {:induction false} MaskNothing(data: seq<byte>, layers: seq<Layer>)
    requires |layers| == 0
    ensures Mask(data, layers) == data
  {
    assert layers == [];
    MaskNone(data);
  }

  // ----- one hop, exactly -----

  // True of every descriptor: the address is a printed socket address, the fingerprint a string.
  ghost predicate Printable(env: Env, node: Node) {
    && env.isText(node.address) && env.isText(node.fingerprint)
    && EP.ZeroFree(node.address) && env.isSocketAddress(node.address)
  }

  // The client's and the relay's run of the handshake use the same keys.
  ghost predicate Agrees(env: Env, node: Node, r: Relay, x: Bytes32, y: Bytes32) {
    var p := env.primitives;
    && node.publicKey == p.publicKey(r.secret)
    && p.dh(x, p.publicKey(y)) == p.dh(y, p.publicKey(x))
    && p.dh(x, node.publicKey) == p.dh(r.secret, p.publicKey(x))
  }

  // The two HMAC inputs the client compares at this hop do not collide.
  ghost predicate Distinguishes(env: Env, node: Node, r: Relay, x: Bytes32, y: Bytes32) {
    var p := env.primitives;
    var X, Y, B := p.publicKey(x), p.publicKey(y), p.publicKey(r.secret);
    var si, si' := ClientSecrets(p, x, X, node.publicKey, Y), ServerSecrets(p, r.secret, B, X, y);
    && NoCollision(p, T_VERIFY, si, si')
    && NoCollision(p, T_MAC, AuthInput(p.hmac(T_VERIFY, si), node.publicKey, Y, X),
                   AuthInput(p.hmac(T_VERIFY, si'), B, Y, X))
  }

  lemma {:induction false} FinishExact(env: Env, node: Node, r: Relay, x: Bytes32, y: Bytes32)
    requires Distinguishes(env, node, r, x, y)
    ensures var reply := Reply(env, r, env.primitives.publicKey(x), y);
            Finish(env, node, x, reply.Y + reply.auth)
              == if Agrees(env, node, r, x, y) then Ok(reply.key) else Err(HandshakeFailed)
  {
    hide AuthFor, SecretInput, AuthInput, KeyFor;
    var p := env.primitives;
    var X, Y, B := p.publicKey(x), p.publicKey(y), p.publicKey(r.secret);
    var reply := Reply(env, r, X, y);
    assert (reply.Y + reply.auth)[..32] == reply.Y && (reply.Y + reply.auth)[32..64] == reply.auth;
    AcceptanceMeansAgreement(p, r.secret, B, X, y, x, X, node.publicKey, Y);
  }

  lemma {:induction false} ExtendInClear(env: Env, circuitId: u32, node: Node, x: Bytes32, y: Bytes32)
    requires Printable(env, node)
    ensures ExtendTo(env, y, circuitId, ExtendPayloadFor(env, node, x)) ==
            match Connect(env, node.address, node.fingerprint)
            case Err(e) => Err(e)
            case Ok(r) =>
              var reply := Reply(env, r, env.primitives.publicKey(x), y);
              Ok((NewHop(env, r.role, reply.key), CircuitMessage(circuitId, Created, reply.Y + reply.auth)))
  {
    hide Reply;
    var X := env.primitives.publicKey(x);
    EP.ParseAfterBuild(env.isText, EP.Extend(node.address, X, node.fingerprint));
    assert X[..32] == X;
  }

  lemma {:induction false} CreateEntryExact(env: Env, circuitId: u32, node: Node, x: Bytes32, y: Bytes32)
    requires Connect(env, node.address, node.fingerprint).Ok? ==>
               Distinguishes(env, node, Connect(env, node.address, node.fingerprint).value, x, y)
    ensures CreateEntry(env, circuitId, node, x, y) ==
            match Connect(env, node.address, node.fingerprint)
            case Err(e) => Err(e)
            case Ok(r) =>
              var h := NewHop(env, r.role, Reply(env, r, env.primitives.publicKey(x), y).key);
              if Agrees(env, node, r, x, y) then Ok(Stage([h.forward], [h.backward], [h])) else Err(HandshakeFailed)
  {
    hide Reply, Agrees, Distinguishes, Finish;
    match Connect(env, node.address, node.fingerprint) {
      case Err(_) =>
      case Ok(r) =>
        var X := env.primitives.publicKey(x);
        assert X[..32] == X;
        FinishExact(env, node, r, x, y);
        var h := NewHop(env, r.role, Reply(env, r, X, y).key);
        assert [] + [h.forward] == [h.forward] && [] + [h.backward] == [h.backward];
    }
  }

  // The client and the relays hold the same layers.
  ghost predicate InSync(s: Stage) {
    s.forward == Forwards(s.hops) && s.backward == Backwards(s.hops)
  }

  lemma {:induction false} ExtendByExact(env: Env, circuitId: u32, node: Node, x: Bytes32, y: Bytes32, s: Stage)
    requires s.hops != [] && InSync(s) && Printable(env, node)
    requires Connect(env, node.address, node.fingerprint).Ok? ==>
               Distinguishes(env, node, Connect(env, node.address, node.fingerprint).value, x, y)
    ensures ExtendBy(env, circuitId, node, x, y, s) ==
            var payload := ExtendPayloadFor(env, node, x);
            if |payload| > MAX_PAYLOAD then Err(CellTooLarge) else
            if s.hops[|s.hops| - 1].role == ExitRole then Err(Lost(s.hops)) else
            match Connect(env, node.address, node.fingerprint)
            case Err(_) => Err(Lost(s.hops))
            case Ok(r) =>
              var h := NewHop(env, r.role, Reply(env, r, env.primitives.publicKey(x), y).key);
              if Agrees(env, node, r, x, y) then
                Ok(Stage(Advance(s.forward, |payload|) + [h.forward], Advance(s.backward, 64) + [h.backward],
                         AllMoved(s.hops, payload, 64) + [h]))
              else Err(HandshakeFailed)
  {
    hide ExtendPayloadFor, Travel, ExtendTo, Reply, Agrees, Distinguishes, Finish, AllMoved, Mask, Advance, Forwards,
         Backwards;
    TravelExact(env, y, circuitId, s.hops, ExtendPayloadFor(env, node, x));
    ExtendInClear(env, circuitId, node, x, y);
    match Connect(env, node.address, node.fingerprint) {
      case Err(_) =>
      case Ok(r) =>
        var reply := Reply(env, r, env.primitives.publicKey(x), y);
        MaskTwice(reply.Y + reply.auth, s.backward);
        FinishExact(env, node, r, x, y);
    }
  }

  // ----- the whole build -----

  ghost predicate Listens(env: Env, node: Node) {
    Connect(env, node.address, node.fingerprint).Ok?
  }

  ghost function RelayAt(env: Env, node: Node): Relay
    requires Listens(env, node)
  {
    env.relays[node.address]
  }

  // Hop h can be reached over the hops before it, and the handshake with it agrees.
  ghost predicate HopWorks(env: Env, path: seq<Node>, draws: Draws, h: nat)
    requires h < |path|
  {
    && Listens(env, path[h])
    && Agrees(env, path[h], RelayAt(env, path[h]), draws.client(h), draws.relay(h))
    && (h > 0 ==>
          && |PayloadFor(env, path, draws, h)| <= MAX_PAYLOAD
          && Listens(env, path[h - 1]) && RelayAt(env, path[h - 1]).role != ExitRole)
  }

  ghost predicate AllWork(env: Env, path: seq<Node>, draws: Draws, n: nat)
    requires n <= |path|
  {
    forall h :: 0 <= h < n ==> HopWorks(env, path, draws, h)
  }

  function PayloadFor(env: Env, path: seq<Node>, draws: Draws, h: nat): seq<byte>
    requires h < |path|
  {
    ExtendPayloadFor(env, path[h], draws.client(h))
  }

  ghost function KeyAt(env: Env, path: seq<Node>, draws: Draws, h: nat): SessionKey
    requires h < |path| && Listens(env, path[h])
  {
    Reply(env, RelayAt(env, path[h]), env.primitives.publicKey(draws.client(h)), draws.relay(h)).key
  }

  // Payload bytes of the EXTEND cells for hops lo to hi - 1.
  function ExtendOctets(env: Env, path: seq<Node>, draws: Draws, lo: nat, hi: nat): nat
    requires hi <= |path|
    decreases hi
  {
    if hi <= lo then 0 else ExtendOctets(env, path, draws, lo, hi - 1) + |PayloadFor(env, path, draws, hi - 1)|
  }

  // The forward layer of hop i when the circuit has n hops: moved by every later EXTEND.
  ghost function ForwardAt(env: Env, path: seq<Node>, draws: Draws, n: nat, i: nat): Layer
    requires i < n <= |path| && Listens(env, path[i])
  {
    Layer(env.ctr(KeyAt(env, path, draws, i).forward), ExtendOctets(env, path, draws, i + 1, n))
  }

  // The backward layer: moved by 64 bytes for every later EXTENDED.
  ghost function BackwardAt(env: Env, path: seq<Node>, draws: Draws, n: nat, i: nat): Layer
    requires i < n <= |path| && Listens(env, path[i])
  {
    Layer(env.ctr(KeyAt(env, path, draws, i).backward), 64 * (n - 1 - i))
  }

  ghost function LayersOfBuild(env: Env, path: seq<Node>, draws: Draws, n: nat): (r: seq<Layer>)
    requires n <= |path| && AllWork(env, path, draws, n)
    ensures |r| == n
  {
    seq(n, i requires 0 <= i < n => assert HopWorks(env, path, draws, i); ForwardAt(env, path, draws, n, i))
  }

  // What relay i has seen: the EXTEND for hop i + 1 in clear, and every later one still under the
  // layers of the relays between.
  ghost function SeenAt(env: Env, path: seq<Node>, draws: Draws, n: nat, i: nat): (seen: seq<seq<byte>>)
    requires i < n <= |path| && AllWork(env, path, draws, n)
    ensures |seen| == n - 1 - i
    ensures |seen| > 0 ==> seen[0] == PayloadFor(env, path, draws, i + 1)
    decreases n
  {
    if i + 1 == n then []
    else
      var payload, layers := PayloadFor(env, path, draws, n - 1), LayersOfBuild(env, path, draws, n - 1)[i + 1..];
      if i + 2 == n then
        MaskNothing(payload, layers);
        [Mask(payload, layers)]
      else SeenAt(env, path, draws, n - 1, i) + [Mask(payload, layers)]
  }

  ghost function HopAt(env: Env, path: seq<Node>, draws: Draws, n: nat, i: nat): Hop
    requires i < n <= |path| && AllWork(env, path, draws, n)
  {
    assert HopWorks(env, path, draws, i);
    Hop(RelayAt(env, path[i]).role, ForwardAt(env, path, draws, n, i), BackwardAt(env, path, draws, n, i),
        SeenAt(env, path, draws, n, i))
  }

  ghost function HopsAt(env: Env, path: seq<Node>, draws: Draws, n: nat): (r: seq<Hop>)
    requires n <= |path| && AllWork(env, path, draws, n)
    ensures |r| == n
  {
    seq(n, i requires 0 <= i < n => HopAt(env, path, draws, n, i))
  }

  // A path of real descriptors, no relay twice (a relay knows a circuit only by the id the client
  // chose, so a second CREATE there would replace the first), and no HMAC collision on the way.
  ghost predicate Sound(env: Env, path: seq<Node>, draws: Draws) {
    && (forall i, j :: 0 <= i < j < |path| ==> path[i].address != path[j].address)
    && forall h :: 0 <= h < |path| ==>
      && Printable(env, path[h])
      && (Listens(env, path[h]) ==>
            Distinguishes(env, path[h], RelayAt(env, path[h]), draws.client(h), draws.relay(h)))
  }

  lemma {:induction false} HopMoves(env: Env, path: seq<Node>, draws: Draws, n: nat, i: nat)
    requires i + 1 < n <= |path| && AllWork(env, path, draws, n)
    ensures HopAt(env, path, draws, n, i) ==
            Moved(HopAt(env, path, draws, n - 1, i),
                  Mask(PayloadFor(env, path, draws, n - 1), LayersOfBuild(env, path, draws, n - 1)[i + 1..]), 64)
  {
    hide Mask, PayloadFor, KeyAt, LayersOfBuild;
  }

  lemma {:induction false} HopsMove(env: Env, path: seq<Node>, draws: Draws, n: nat)
    requires 1 < n <= |path| && AllWork(env, path, draws, n)
    ensures HopsAt(env, path, draws, n)
         == AllMoved(HopsAt(env, path, draws, n - 1), PayloadFor(env, path, draws, n - 1), 64)
            + [HopAt(env, path, draws, n, n - 1)]
    ensures Forwards(HopsAt(env, path, draws, n - 1)) == LayersOfBuild(env, path, draws, n - 1)
  {
    hide Mask, PayloadFor, KeyAt, Moved, SeenAt, ForwardAt, BackwardAt, HopWorks;
    assert Forwards(HopsAt(env, path, draws, n - 1)) == LayersOfBuild(env, path, draws, n - 1);
    forall i | 0 <= i < n - 1
      ensures HopsAt(env, path, draws, n)[i]
           == AllMoved(HopsAt(env, path, draws, n - 1), PayloadFor(env, path, draws, n - 1), 64)[i]
    {
      HopMoves(env, path, draws, n, i);
    }
  }

  lemma {:induction false} MovedLayers(hops: seq<Hop>, payload: seq<byte>, backward: nat, last: Hop)
    ensures Forwards(AllMoved(hops, payload, backward) + [last]) == Advance(Forwards(hops), |payload|) + [last.forward]
    ensures Backwards(AllMoved(hops, payload, backward) + [last]) == Advance(Backwards(hops), backward)
            + [last.backward]
  {
    hide Mask;
  }

  function StageOf(hops: seq<Hop>): Stage {
    Stage(Forwards(hops), Backwards(hops), hops)
  }

  lemma {:induction false} NewestHop(env: Env, path: seq<Node>, draws: Draws, n: nat)
    requires 1 <= n <= |path| && AllWork(env, path, draws, n)
    ensures HopWorks(env, path, draws, n - 1)
    ensures HopAt(env, path, draws, n, n - 1)
         == NewHop(env, RelayAt(env, path[n - 1]).role, KeyAt(env, path, draws, n - 1))
  {
    hide KeyAt;
  }

  lemma {:induction false} FirstHop(env: Env, circuitId: u32, path: seq<Node>, draws: Draws)
    requires Sound(env, path, draws) && 1 <= |path|
    ensures BuildTo(env, circuitId, path, draws, 1).Ok? <==> AllWork(env, path, draws, 1)
    ensures AllWork(env, path, draws, 1) ==>
              BuildTo(env, circuitId, path, draws, 1) == Ok(StageOf(HopsAt(env, path, draws, 1)))
  {
    hide Agrees, Distinguishes, Printable, HopAt, CreateEntry, Reply;
    CreateEntryExact(env, circuitId, path[0], draws.client(0), draws.relay(0));
    assert AllWork(env, path, draws, 1) <==> HopWorks(env, path, draws, 0);
    if AllWork(env, path, draws, 1) {
      NewestHop(env, path, draws, 1);
      var hops := HopsAt(env, path, draws, 1);
      assert hops == [HopAt(env, path, draws, 1, 0)];
      assert Forwards(hops) == [hops[0].forward] && Backwards(hops) == [hops[0].backward];
    }
  }

  lemma {:induction false} OneMoreHop(env: Env, path: seq<Node>, draws: Draws, n: nat)
    requires n < |path|
    ensures AllWork(env, path, draws, n + 1) <==> AllWork(env, path, draws, n) && HopWorks(env, path, draws, n)
  {
    hide HopWorks;
  }

  lemma {:induction false} NextHop(env: Env, circuitId: u32, path: seq<Node>, draws: Draws, n: nat)
    requires Sound(env, path, draws) && 1 < n <= |path|
    requires AllWork(env, path, draws, n - 1)
    ensures var s := StageOf(HopsAt(env, path, draws, n - 1));
            var r := ExtendBy(env, circuitId, path[n - 1], draws.client(n - 1), draws.relay(n - 1), s);
            && (r.Ok? <==> AllWork(env, path, draws, n))
            && (AllWork(env, path, draws, n) ==> r == Ok(StageOf(HopsAt(env, path, draws, n))))
  {
    hide ExtendBy, ExtendPayloadFor, Agrees, Distinguishes, Printable, Forwards, Backwards, AllMoved, Advance, HopAt,
         Reply, AllWork;
    var hops, node, payload := HopsAt(env, path, draws, n - 1), path[n - 1], PayloadFor(env, path, draws, n - 1);
    ExtendByExact(env, circuitId, node, draws.client(n - 1), draws.relay(n - 1), StageOf(hops));
    OneMoreHop(env, path, draws, n - 1);
    LastRole(env, path, draws, n - 1);
    if AllWork(env, path, draws, n) {
      NewestHop(env, path, draws, n);
      HopsMove(env, path, draws, n);
      MovedLayers(hops, payload, 64, HopAt(env, path, draws, n, n - 1));
    }
  }

  lemma {:induction false} LastRole(env: Env, path: seq<Node>, draws: Draws, n: nat)
    requires 1 <= n <= |path| && AllWork(env, path, draws, n)
    ensures Listens(env, path[n - 1])
    ensures HopsAt(env, path, draws, n)[n - 1].role == RelayAt(env, path[n - 1]).role
  {
    NewestHop(env, path, draws, n);
  }

  // Telescoping, exactly: building n hops succeeds if and only if every one of them works, and
  // then client and relays hold the same layers, each moved by exactly the cells that passed it.
  lemma {:induction false} BuildExact(env: Env, circuitId: u32, path: seq<Node>, draws: Draws, n: nat)
    requires Sound(env, path, draws) && 1 <= n <= |path|
    ensures BuildTo(env, circuitId, path, draws, n).Ok? <==> AllWork(env, path, draws, n)
    ensures AllWork(env, path, draws, n) ==>
              BuildTo(env, circuitId, path, draws, n) == Ok(StageOf(HopsAt(env, path, draws, n)))
    decreases n
  {
    hide ExtendBy, CreateEntry, Agrees, Distinguishes, Printable, PayloadFor, Forwards, Backwards, AllMoved, HopsAt,
         Advance, SeenAt;
    if n == 1 {
      FirstHop(env, circuitId, path, draws);
    } else {
      BuildExact(env, circuitId, path, draws, n - 1);
      if AllWork(env, path, draws, n - 1) {
        NextHop(env, circuitId, path, draws, n);
      }
    }
  }

  // A build ends in Ready exactly when the path has three hops or more and every hop works; then
  // the two sides hold the same N layers in both directions, hop i's forward cipher has moved by
  // the payloads of the EXTEND cells for the hops behind it, its backward cipher by 64 bytes for
  // each of them, and the EXTEND for hop i + 1 was in clear at relay i.
  lemma {:induction false} ReadyExactly(env: Env, circuitId: u32, path: seq<Node>, draws: Draws)
    requires Sound(env, path, draws)
    ensures var r := Build(env, circuitId, path, draws);
            && (r.Ok? <==> |path| >= 3 && AllWork(env, path, draws, |path|))
            && (r.Ok? ==>
                  && InSync(r.value) && |r.value.hops| == |path|
                  && forall i :: 0 <= i < |path| ==> ReadyHop(env, path, draws, r.value, i))
  {
    hide BuildTo, HopWorks, AllWork, HopsAt;
    if |path| >= 3 {
      BuildExact(env, circuitId, path, draws, |path|);
      if AllWork(env, path, draws, |path|) {
        forall i | 0 <= i < |path|
          ensures ReadyHop(env, path, draws, StageOf(HopsAt(env, path, draws, |path|)), i)
        {
          ReadyAt(env, path, draws, i);
        }
      }
    }
  }

  ghost predicate ReadyHop(env: Env, path: seq<Node>, draws: Draws, s: Stage, i: nat)
    requires i < |path| == |s.hops| && InSync(s)
  {
    var h := s.hops[i];
    && Listens(env, path[i])
    && h.role == RelayAt(env, path[i]).role
    && h.forward.ks == env.ctr(KeyAt(env, path, draws, i).forward)
    && h.backward.ks == env.ctr(KeyAt(env, path, draws, i).backward)
    && h.forward.pos == ExtendOctets(env, path, draws, i + 1, |path|)
    && h.backward.pos == 64 * (|path| - 1 - i)
    && |h.seen| == |path| - 1 - i
    && (i + 1 < |path| ==> h.seen[0] == PayloadFor(env, path, draws, i + 1))
    && (AllWork(env, path, draws, |path|) ==> h.seen == SeenAt(env, path, draws, |path|, i))
  }

  lemma {:induction false} ReadyAt(env: Env, path: seq<Node>, draws: Draws, i: nat)
    requires i < |path| && AllWork(env, path, draws, |path|)
    ensures ReadyHop(env, path, draws, StageOf(HopsAt(env, path, draws, |path|)), i)
  {
    hide KeyAt, PayloadFor, ExtendOctets, Agrees;
    assert HopWorks(env, path, draws, i);
    var seen := SeenAt(env, path, draws, |path|, i);
    assert HopsAt(env, path, draws, |path|)[i] == HopAt(env, path, draws, |path|, i);
  }

  // Honest relays that match their descriptors, addresses that fit a cell, and only the last relay
  // an exit: such a build always ends in Ready.
  lemma {:induction false} HonestPathWorks(env: Env, path: seq<Node>, draws: Draws)
    requires Commutes(env.primitives)
    requires forall h :: 0 <= h < |path| ==>
               && Listens(env, path[h])
               && path[h].publicKey == env.primitives.publicKey(RelayAt(env, path[h]).secret)
               && |path[h].address| + 34 + |path[h].fingerprint| <= MAX_PAYLOAD
               && (h + 1 < |path| ==> RelayAt(env, path[h]).role != ExitRole)
    ensures AllWork(env, path, draws, |path|)
  {
    forall h | 0 <= h < |path|
      ensures HopWorks(env, path, draws, h)
    {
      var p, x, y, b := env.primitives, draws.client(h), draws.relay(h), RelayAt(env, path[h]).secret;
      assert p.dh(x, p.publicKey(y)) == p.dh(y, p.publicKey(x));
      assert p.dh(x, p.publicKey(b)) == p.dh(b, p.publicKey(x));
    }
  }
}
