// The client's end of a circuit (services/tor-client/src/core/circuit.rs): building it, sending on
// it, and the reader that takes cells off it.
module ClientCircuit {
  import opened Bytes
  import opened Wrappers
  import opened Keystream
  import opened Cell
  import opened Crypto
  import opened Ntor
  import opened Transcript
  import opened Telescope
  import Forward
  import Backward

  datatype CircuitState = Building | Ready | Dirty | Closing | Closed

  // ----- stream ids -----

  // The k-th id a circuit hands out, k from 0.
  function StreamIdAt(k: nat): (id: u16)
    ensures id != 0
  {
    k % 65535 + 1
  }

  lemma {:induction false} StreamIdsRepeatOnlyAfterFullCycle(j: nat, k: nat)
    requires j <= k
    ensures StreamIdAt(j) == StreamIdAt(k) <==> (k - j) % 65535 == 0
  {
    var q, r := (k - j) / 65535, (k - j) % 65535;
    assert k == j + 65535 * q + r;
    assert k % 65535 == (j % 65535 + r) % 65535;
  }

  // ----- the circuit -----

  ghost function AsInboxes(senders: map<u16, seq<Plain>>): map<u16, Backward.Inbox> {
    map id | id in senders :: Backward.Inbox(0, senders[id])
  }

  lemma {:induction false} NoInboxes()
    ensures AsInboxes(map[]) == map[]
  {
  }

  lemma {:induction false} InboxDelivery(senders: map<u16, seq<Plain>>, p: Plain)
    ensures p.streamId in senders ==>
              AsInboxes(senders[p.streamId := senders[p.streamId] + [p]]) == Backward.Delivered(AsInboxes(senders), p)
    ensures p.streamId !in senders ==> AsInboxes(senders) == Backward.Delivered(AsInboxes(senders), p)
  {
  }

  class Circuit {
    const circuitId: u32
    const keys: OnionKeys
    const entry: CellStream  // to the entry relay
    var state: CircuitState
    var streamSenders: map<u16, seq<Plain>>  // what each stream's channel has been given
    var nextStreamId: u16
    ghost var issued: nat

    ghost predicate Valid()
      reads this
    {
      keys.Valid() && nextStreamId == StreamIdAt(issued)
    }

    constructor (circuitId: u32, keys: OnionKeys, entry: CellStream)
      requires keys.Valid()
      ensures Valid() && this.circuitId == circuitId && this.keys == keys && this.entry == entry
      ensures state == Ready && streamSenders == map[] && issued == 0
    {
      this.circuitId, this.keys, this.entry := circuitId, keys, entry;
      state, streamSenders, nextStreamId, issued := Ready, map[], 1, 0;
    }

    method AllocateStreamId() returns (id: u16)
      requires Valid()
      modifies this`nextStreamId, this`issued
      ensures Valid() && issued == old(issued) + 1
      ensures id == StreamIdAt(old(issued))
    {
      id := nextStreamId;
      nextStreamId := (nextStreamId + 1) % 0x1_0000;
      if nextStreamId == 0 {
        nextStreamId := 1;
      }
      issued := issued + 1;
    }

    method RegisterStream(id: u16)
      modifies this`streamSenders
      ensures streamSenders == old(streamSenders)[id := []]
    {
      streamSenders := streamSenders[id := []];
    }

    method UnregisterStream(id: u16)
      modifies this`streamSenders
      ensures streamSenders == old(streamSenders) - {id}
    {
      streamSenders := streamSenders - {id};
    }

    // Digest the plain payload, put all layers on, write the cell. An oversize payload is refused
    // only by the last of these, when digest and ciphers have already moved on.
    method SendMessage(streamId: u16, command: Command, data: seq<byte>, padding: seq<byte>)
      returns (r: Result<(), WriteError>)
      requires keys.Valid()
      requires |padding| == MAX_PAYLOAD - |Truncated(data)|
      modifies keys.forwardDigest, keys.ciphers, entry
      ensures var p, layers, absorbed := Plain(streamId, command, data),
                                         old(ForwardLayers(keys.ciphers)), old(keys.forwardDigest.absorbed);
              && ForwardLayers(keys.ciphers) == Advance(layers, |data|)
              && BackwardLayers(keys.ciphers) == old(BackwardLayers(keys.ciphers))
              && keys.forwardDigest.absorbed == absorbed + PlainFrame(p)
              && (if |data| > MAX_PAYLOAD then r == Err(PayloadTooLarge(|data|)) && entry.bytes == old(entry.bytes)
                  else
                    && r == Ok(())
                    && var cell := Forward.SealedCell(circuitId, keys.forwardDigest.tag, layers, absorbed, p);
                       |Truncated(cell.data)| == |Truncated(data)|
                       && entry.bytes == old(entry.bytes) + Layout(cell, padding))
    {
      hide Mask, Advance, Frame, ForwardLayers, BackwardLayers, Layout;
      var digest := keys.forwardDigest.Update(streamId, command, data);
      var encrypted := Wrapped(keys.ciphers, data);
      var msg := Message(circuitId, streamId, command, encrypted, digest);
      r := entry.Write(msg, padding);
    }

    // The channels as the reader of the step system sees them.
    ghost function Inboxes(): map<u16, Backward.Inbox>
      reads this
    {
      AsInboxes(streamSenders)
    }

    ghost function ReaderView(queue: seq<Message>): Backward.ClientState
      reads this, keys, keys.ciphers, keys.backwardDigest
    {
      Backward.ClientState(BackwardLayers(keys.ciphers), keys.backwardDigest.absorbed, queue, 0,
                           Backward.Reading, [], Inboxes())
    }

    // One turn of the reader loop.
    method ReceiveCell(m: Message) returns (more: bool)
      requires Valid()
      modifies this`state, this`streamSenders, keys.backwardDigest, keys.ciphers
      ensures Valid()
      ensures var next := Backward.ClientCheck(keys.backwardDigest.tag, old(ReaderView([m])));
              && BackwardLayers(keys.ciphers) == next.layers
              && keys.backwardDigest.absorbed == next.digest
              && Inboxes() == next.inboxes
              && (more <==> next.status == Backward.Reading)
      ensures ForwardLayers(keys.ciphers) == old(ForwardLayers(keys.ciphers))
      ensures state == if more then old(state) else CircuitState.Closed
    {
      hide Mask, Advance, Frame, BackwardLayers, ForwardLayers, AsInboxes, Backward.Delivered;
      NoInboxes();
      if m.command == Destroy {
        state, streamSenders := CircuitState.Closed, map[];
        return false;
      }
      var decrypted := Unwrapped(keys.ciphers, m.data);
      var ok := keys.backwardDigest.Verify(m.streamId, m.command, decrypted, m.digest);
      if !ok {
        state, streamSenders := CircuitState.Closed, map[];
        return false;
      }
      var p := Plain(m.streamId, m.command, decrypted);
      InboxDelivery(streamSenders, p);
      if m.streamId in streamSenders {
        streamSenders := streamSenders[m.streamId := streamSenders[m.streamId] + [p]];
      }
      more := true;
    }
  }

  // ----- building -----

  method HandshakeCreate(env: Env, circuitId: u32, node: Node, x: Bytes32, y: Bytes32)
    returns (r: Result<SessionKey, BuildError>, hops: seq<Hop>)
    ensures match CreateEntry(env, circuitId, node, x, y)
            case Err(e) => r == Err(e)
            case Ok(s) => r.Ok? && hops != [] && s == WithHop(env, Stage([], [], hops), r.value)
  {
    hops := [];
    var connected := Connect(env, node.address, node.fingerprint);
    if connected.Err? {
      return Err(connected.error), hops;
    }
    var create := CircuitMessage(circuitId, Create, env.primitives.publicKey(x));
    var answer := HandleCreate(env, connected.value, y, create);
    if answer.Err? {
      return Err(ConnectionClosed), hops;
    }
    var (hop, created) := answer.value;
    hops := [hop];
    if created.command != Created {
      return Err(UnexpectedReply), hops;
    }
    r := Finish(env, node, x, created.data);
  }

  // The relays between are the environment: `hops` before the call, `hops'` after it.
  method HandshakeExtend(env: Env, circuitId: u32, node: Node, x: Bytes32, y: Bytes32,
                         ciphers: seq<CipherPair>, hops: seq<Hop>)
    returns (r: Result<SessionKey, BuildError>, hops': seq<Hop>)
    requires Distinct(ciphers) && hops != []
    modifies ciphers
    ensures match ExtendBy(env, circuitId, node, x, y,
                           Stage(old(ForwardLayers(ciphers)), old(BackwardLayers(ciphers)), hops))
            case Err(e) => r == Err(e)
            case Ok(s) =>
              && r.Ok? && hops' != []
              && s == WithHop(env, Stage(ForwardLayers(ciphers), BackwardLayers(ciphers), hops'), r.value)
  {
    hide ExtendPayloadFor, Finish, Mask, Advance;
    hops' := hops;
    var payload := ExtendPayloadFor(env, node, x);
    var wrapped := Wrapped(ciphers, payload);
    if |wrapped| > MAX_PAYLOAD {
      return Err(CellTooLarge), hops';
    }
    var answer := Travel(env, y, hops, CircuitMessage(circuitId, Extend, wrapped));
    if answer.Err? {
      return Err(Lost(hops)), hops';
    }
    var (after, reply) := answer.value;
    hops' := after;
    if reply.command != Extended {
      return Err(UnexpectedReply), hops';
    }
    var plain := Unwrapped(ciphers, reply.data);
    r := Finish(env, node, x, plain);
  }

  method AddCipher(env: Env, key: SessionKey, ciphers: seq<CipherPair>, ghost hops: seq<Hop>)
    returns (all: seq<CipherPair>)
    requires Distinct(ciphers)
    ensures |all| == |ciphers| + 1 && all[..|ciphers|] == ciphers && fresh(all[|ciphers|]) && Distinct(all)
    ensures Stage(ForwardLayers(all), BackwardLayers(all), hops)
         == WithHop(env, Stage(old(ForwardLayers(ciphers)), old(BackwardLayers(ciphers)), hops), key)
  {
    var next := new CipherPair(key, env.ctr);
    all := ciphers + [next];
    assert ForwardLayers(all) == ForwardLayers(ciphers) + [next.forward];
    assert BackwardLayers(all) == BackwardLayers(ciphers) + [next.backward];
  }

  // The circuit that comes out holds exactly the layers of the telescope.
  method BuildCircuit(env: Env, circuitId: u32, path: seq<Node>, draws: Draws, tag: TagFn)
    returns (r: Result<Circuit, BuildError>)
    ensures match Build(env, circuitId, path, draws)
            case Err(e) => r == Err(e)
            case Ok(s) =>
              && r.Ok? && fresh(r.value) && r.value.Valid()
              && r.value.circuitId == circuitId && r.value.state == Ready
              && ForwardLayers(r.value.keys.ciphers) == s.forward
              && BackwardLayers(r.value.keys.ciphers) == s.backward
              && r.value.keys.forwardDigest.tag == tag && r.value.keys.forwardDigest.absorbed == []
              && r.value.keys.backwardDigest.tag == tag && r.value.keys.backwardDigest.absorbed == []
              && r.value.issued == 0 && r.value.streamSenders == map[]
  {
    hide ExtendBy, CreateEntry, WithHop, ForwardLayers, BackwardLayers;
    if |path| < 3 {
      return Err(PathTooShort);
    }
    var entryKey, hops := HandshakeCreate(env, circuitId, path[0], draws.client(0), draws.relay(0));
    if entryKey.Err? {
      BuildFails(env, circuitId, path, draws, 1, |path|);
      return Err(entryKey.error);
    }
    var ciphers := AddCipher(env, entryKey.value, [], hops);
    for h := 1 to |path|
      invariant |ciphers| == h && fresh(set c | c in ciphers) && Distinct(ciphers) && hops != []
      invariant BuildTo(env, circuitId, path, draws, h)
             == Ok(Stage(ForwardLayers(ciphers), BackwardLayers(ciphers), hops))
    {
      var key, after := HandshakeExtend(env, circuitId, path[h], draws.client(h), draws.relay(h), ciphers, hops);
      if key.Err? {
        BuildFails(env, circuitId, path, draws, h + 1, |path|);
        return Err(key.error);
      }
      hops := after;
      ciphers := AddCipher(env, key.value, ciphers, hops);
    }
    var keys := new OnionKeys(ciphers, tag);
    var entry := new CellStream();
    var circuit := new Circuit(circuitId, keys, entry);
    r := Ok(circuit);
  }

  // A failed hop fails the build.
  lemma {:induction false} BuildFails(env: Env, circuitId: u32, path: seq<Node>, draws: Draws, n: nat, m: nat)
    requires 1 <= n <= m <= |path| && BuildTo(env, circuitId, path, draws, n).Err?
    ensures BuildTo(env, circuitId, path, draws, m) == BuildTo(env, circuitId, path, draws, n)
    decreases m
  {
    hide ExtendBy, CreateEntry;
    if n < m {
      BuildFails(env, circuitId, path, draws, n, m - 1);
    }
  }
}
