// The two loops that cut a read buffer into cells: a client stream sends them through its circuit
// (services/tor-client/src/core/stream.rs:123-138), an exit stream task seals and writes them
// (services/relay-node/src/circuit/exit.rs:281-306).
module StreamLoops {
  import opened Bytes
  import opened Wrappers
  import opened Keystream
  import opened Cell
  import opened Crypto
  import opened Sequences
  import opened Transcript
  import opened Chunking
  import opened ClientCircuit
  import opened RelayHandlers
  import Forward
  import Backward

  // Cells sealed one after the other, by the client and by the exit.
  function ClientCells(circuitId: u32, tag: TagFn, layers: seq<Layer>, absorbed: seq<byte>, cells: seq<Plain>)
    : (r: seq<Message>)
    ensures |r| == |cells|
    ensures forall i :: 0 <= i < |r| ==> |r[i].data| == |cells[i].data|
    decreases |cells|
  {
    if cells == [] then []
    else
      [Forward.SealedCell(circuitId, tag, layers, absorbed, cells[0])]
      + ClientCells(circuitId, tag, Advance(layers, |cells[0].data|), absorbed + PlainFrame(cells[0]), cells[1..])
  }

  function ExitCells(circuitId: u32, tag: TagFn, x: Backward.ExitState, cells: seq<Plain>): (r: seq<Message>)
    ensures |r| == |cells|
    ensures forall i :: 0 <= i < |r| ==> |r[i].data| == |cells[i].data|
    decreases |cells|
  {
    if cells == [] then []
    else
      [Backward.SealedCell(circuitId, tag, x.layer, x.digest, cells[0])]
      + ExitCells(circuitId, tag, Backward.Sealed(x, cells[0]), cells[1..])
  }

  // The paddings of the cells of one read.
  ghost predicate PaddingFor(chunks: seq<seq<byte>>, paddings: seq<seq<byte>>) {
    && |paddings| == |chunks|
    && forall i :: 0 <= i < |chunks| ==> |chunks[i]| + |paddings[i]| == MAX_PAYLOAD
  }

  // What one read of a client stream looks like on the wire.
  ghost function ClientBytes(circuitId: u32, tag: TagFn, layers: seq<Layer>, absorbed: seq<byte>,
                             id: u16, data: seq<byte>, paddings: seq<seq<byte>>): seq<byte>
    requires PaddingFor(Chunks(data), paddings)
  {
    WrittenBytes(ClientCells(circuitId, tag, layers, absorbed, DataCells(id, Chunks(data))), paddings)
  }

  lemma {:induction false} ChunkCells(id: u16, data: seq<byte>, paddings: seq<seq<byte>>)
    requires data != [] && PaddingFor(Chunks(data), paddings)
    ensures var n := FirstChunk(data);
            && DataCells(id, Chunks(data)) == [Plain(id, Data, data[..n])] + DataCells(id, Chunks(data[n..]))
            && paddings != [] && |paddings[0]| == MAX_PAYLOAD - n
            && PaddingFor(Chunks(data[n..]), paddings[1..])
  {
    NextChunk(data);
    var n := FirstChunk(data);
    var all, rest := Chunks(data), Chunks(data[n..]);
    assert all[0] == data[..n] && all[1..] == rest;
  }

  lemma {:induction false} ClientBytesStep(circuitId: u32, tag: TagFn, layers: seq<Layer>, absorbed: seq<byte>,
                                           id: u16, data: seq<byte>, paddings: seq<seq<byte>>)
    requires data != [] && PaddingFor(Chunks(data), paddings)
    ensures var n := FirstChunk(data);
            var p := Plain(id, Data, data[..n]);
            && paddings != [] && |paddings[0]| == MAX_PAYLOAD - n
            && PaddingFor(Chunks(data[n..]), paddings[1..])
            && ClientBytes(circuitId, tag, layers, absorbed, id, data, paddings)
               == Layout(Forward.SealedCell(circuitId, tag, layers, absorbed, p), paddings[0])
                  + ClientBytes(circuitId, tag, Advance(layers, n), absorbed + PlainFrame(p), id,
                                data[n..], paddings[1..])
  {
    hide Chunks, Mask, Advance, Frame, Layout;
    ChunkCells(id, data, paddings);
    var n := FirstChunk(data);
    var cells, p := DataCells(id, Chunks(data)), Plain(id, Data, data[..n]);
    assert cells[0] == p && cells[1..] == DataCells(id, Chunks(data[n..]));
    var more := ClientCells(circuitId, tag, Advance(layers, n), absorbed + PlainFrame(p), cells[1..]);
    var all := ClientCells(circuitId, tag, layers, absorbed, cells);
    assert all[1..] == more;
  }

  // The digest takes in one chunk after the other.
  lemma {:induction false} AbsorbsChunk(absorbed: seq<byte>, id: u16, data: seq<byte>)
    requires data != []
    ensures var n := FirstChunk(data);
            absorbed + Absorbed(DataCells(id, Chunks(data)))
              == absorbed + PlainFrame(Plain(id, Data, data[..n])) + Absorbed(DataCells(id, Chunks(data[n..])))
  {
    hide Chunks, Frame, Absorbed;
    var n := FirstChunk(data);
    var p, rest := Plain(id, Data, data[..n]), DataCells(id, Chunks(data[n..]));
    NextChunk(data);
    assert DataCells(id, Chunks(data)) == [p] + rest;
    AbsorbedFirst(p, rest);
    assert absorbed + (PlainFrame(p) + Absorbed(rest)) == absorbed + PlainFrame(p) + Absorbed(rest);
  }

  lemma {:induction false} AbsorbedFirst(p: Plain, cells: seq<Plain>)
    ensures Absorbed([p] + cells) == PlainFrame(p) + Absorbed(cells)
  {
    hide PlainFrame;
    if cells == [] {
      AbsorbedAppend([], p);
      assert [p] + cells == [] + [p];
    } else {
      assert Init([p] + cells) == [p] + Init(cells) && Last([p] + cells) == Last(cells);
      AbsorbedFirst(p, Init(cells));
      assert PlainFrame(p) + (Absorbed(Init(cells)) + PlainFrame(Last(cells)))
          == PlainFrame(p) + Absorbed(Init(cells)) + PlainFrame(Last(cells));
    }
  }

  lemma {:induction false} NothingAbsorbed(absorbed: seq<byte>, id: u16)
    ensures absorbed + Absorbed(DataCells(id, Chunks([]))) == absorbed
  {
    assert Chunks([]) == [] && DataCells(id, []) == [];
  }

  // One read of a SOCKS client, while no other stream uses the circuit: its bytes leave as DATA
  // cells of at most 497 bytes each, in order and without a gap.
  method SendRead(circuit: Circuit, id: u16, data: seq<byte>, paddings: seq<seq<byte>>) returns (failed: bool)
    requires circuit.keys.Valid() && PaddingFor(Chunks(data), paddings)
    modifies circuit.keys.forwardDigest, circuit.keys.ciphers, circuit.entry
    ensures !failed
    ensures circuit.entry.bytes == old(circuit.entry.bytes) +
              ClientBytes(circuit.circuitId, circuit.keys.forwardDigest.tag, old(ForwardLayers(circuit.keys.ciphers)),
                          old(circuit.keys.forwardDigest.absorbed), id, data, paddings)
    ensures ForwardLayers(circuit.keys.ciphers) == Advance(old(ForwardLayers(circuit.keys.ciphers)), |data|)
    ensures BackwardLayers(circuit.keys.ciphers) == old(BackwardLayers(circuit.keys.ciphers))
    ensures circuit.keys.forwardDigest.absorbed
         == old(circuit.keys.forwardDigest.absorbed) + Absorbed(DataCells(id, Chunks(data)))
  {
    hide Chunks, Mask, Advance, Frame, Layout, ClientBytes, ForwardLayers, BackwardLayers, Absorbed, DataCells;
    AdvanceTwice(ForwardLayers(circuit.keys.ciphers), 0, 0);
    failed := false;
    var rest, left := data, paddings;
    ghost var tag := circuit.keys.forwardDigest.tag;
    while rest != [] && !failed
      invariant !failed && PaddingFor(Chunks(rest), left)
      invariant circuit.entry.bytes
                  + ClientBytes(circuit.circuitId, tag, ForwardLayers(circuit.keys.ciphers),
                                circuit.keys.forwardDigest.absorbed, id, rest, left)
             == old(circuit.entry.bytes)
                  + ClientBytes(circuit.circuitId, tag, old(ForwardLayers(circuit.keys.ciphers)),
                                old(circuit.keys.forwardDigest.absorbed), id, data, paddings)
      invariant |rest| <= |data|
      invariant ForwardLayers(circuit.keys.ciphers)
             == Advance(old(ForwardLayers(circuit.keys.ciphers)), |data| - |rest|)
      invariant BackwardLayers(circuit.keys.ciphers) == old(BackwardLayers(circuit.keys.ciphers))
      invariant circuit.keys.forwardDigest.absorbed + Absorbed(DataCells(id, Chunks(rest)))
             == old(circuit.keys.forwardDigest.absorbed) + Absorbed(DataCells(id, Chunks(data)))
      decreases |rest|
    {
      var n := FirstChunk(rest);
      ClientBytesStep(circuit.circuitId, tag, ForwardLayers(circuit.keys.ciphers),
                      circuit.keys.forwardDigest.absorbed, id, rest, left);
      AbsorbsChunk(circuit.keys.forwardDigest.absorbed, id, rest);
      AdvanceTwice(old(ForwardLayers(circuit.keys.ciphers)), |data| - |rest|, n);
      var sent := circuit.SendMessage(id, Data, rest[..n], left[0]);
      failed := sent.Err?;
      rest, left := rest[n..], left[1..];
    }
    NothingAbsorbed(circuit.keys.forwardDigest.absorbed, id);
    NothingLeft(circuit.circuitId, tag, ForwardLayers(circuit.keys.ciphers), circuit.keys.forwardDigest.absorbed,
                id, left);
  }

  lemma {:induction false} NothingLeft(circuitId: u32, tag: TagFn, layers: seq<Layer>, absorbed: seq<byte>,
                                       id: u16, paddings: seq<seq<byte>>)
    requires PaddingFor(Chunks([]), paddings)
    ensures ClientBytes(circuitId, tag, layers, absorbed, id, [], paddings) == []
  {
    assert Chunks([]) == [] && DataCells(id, []) == [];
  }

  // What one read of an exit stream task looks like on the wire.
  ghost function ExitBytes(circuitId: u32, tag: TagFn, x: Backward.ExitState,
                           id: u16, data: seq<byte>, paddings: seq<seq<byte>>): seq<byte>
    requires PaddingFor(Chunks(data), paddings)
  {
    WrittenBytes(ExitCells(circuitId, tag, x, DataCells(id, Chunks(data))), paddings)
  }

  lemma {:induction false} ExitBytesStep(circuitId: u32, tag: TagFn, x: Backward.ExitState,
                                         id: u16, data: seq<byte>, paddings: seq<seq<byte>>)
    requires data != [] && PaddingFor(Chunks(data), paddings)
    ensures var n := FirstChunk(data);
            var p := Plain(id, Data, data[..n]);
            && paddings != [] && |paddings[0]| == MAX_PAYLOAD - n
            && PaddingFor(Chunks(data[n..]), paddings[1..])
            && ExitBytes(circuitId, tag, x, id, data, paddings)
               == Layout(Backward.SealedCell(circuitId, tag, x.layer, x.digest, p), paddings[0])
                  + ExitBytes(circuitId, tag, Backward.Sealed(x, p), id, data[n..], paddings[1..])
  {
    hide Chunks, XorStream, Frame, Layout;
    ChunkCells(id, data, paddings);
    var n := FirstChunk(data);
    var cells, p := DataCells(id, Chunks(data)), Plain(id, Data, data[..n]);
    assert cells[0] == p && cells[1..] == DataCells(id, Chunks(data[n..]));
    var more := ExitCells(circuitId, tag, Backward.Sealed(x, p), cells[1..]);
    var all := ExitCells(circuitId, tag, x, cells);
    assert all[1..] == more;
  }

  ghost function OutState(crypto: ExitCrypto): Backward.ExitState
    reads crypto.cipher, crypto.backwardDigest
  {
    Backward.ExitState(crypto.cipher.backward, crypto.backwardDigest.absorbed, None)
  }

  // One read from a destination, while no other task uses the crypto state.
  method SendBack(crypto: ExitCrypto, writer: CellStream, id: u16, data: seq<byte>, paddings: seq<seq<byte>>)
    returns (failed: bool)
    requires crypto.Valid() && PaddingFor(Chunks(data), paddings)
    modifies crypto.backwardDigest, crypto.cipher, writer
    ensures !failed
    ensures crypto.cipher.forward == old(crypto.cipher.forward)
    ensures writer.bytes == old(writer.bytes) +
              ExitBytes(crypto.circuitId, crypto.backwardDigest.tag, old(OutState(crypto)), id, data, paddings)
    ensures crypto.cipher.backward == old(crypto.cipher.backward).(pos := old(crypto.cipher.backward).pos + |data|)
    ensures crypto.backwardDigest.absorbed
         == old(crypto.backwardDigest.absorbed) + Absorbed(DataCells(id, Chunks(data)))
  {
    hide Chunks, XorStream, Frame, Layout, ExitBytes, Absorbed, DataCells;
    failed := false;
    var rest, left := data, paddings;
    ghost var tag := crypto.backwardDigest.tag;
    while rest != [] && !failed
      invariant !failed && PaddingFor(Chunks(rest), left)
      invariant crypto.cipher.forward == old(crypto.cipher.forward)
      invariant writer.bytes + ExitBytes(crypto.circuitId, tag, OutState(crypto), id, rest, left)
             == old(writer.bytes) + ExitBytes(crypto.circuitId, tag, old(OutState(crypto)), id, data, paddings)
      invariant |rest| <= |data|
      invariant crypto.cipher.backward
             == old(crypto.cipher.backward).(pos := old(crypto.cipher.backward).pos + |data| - |rest|)
      invariant crypto.backwardDigest.absorbed + Absorbed(DataCells(id, Chunks(rest)))
             == old(crypto.backwardDigest.absorbed) + Absorbed(DataCells(id, Chunks(data)))
      decreases |rest|
    {
      var n := FirstChunk(rest);
      ExitBytesStep(crypto.circuitId, tag, OutState(crypto), id, rest, left);
      AbsorbsChunk(crypto.backwardDigest.absorbed, id, rest);
      var cell := crypto.Seal(Plain(id, Data, rest[..n]));
      var sent := writer.Write(cell, left[0]);
      failed := sent.Err?;
      rest, left := rest[n..], left[1..];
    }
    NothingAbsorbed(crypto.backwardDigest.absorbed, id);
    NothingLeftBack(crypto.circuitId, tag, OutState(crypto), id, left);
  }

  lemma {:induction false} NothingLeftBack(circuitId: u32, tag: TagFn, x: Backward.ExitState,
                                           id: u16, paddings: seq<seq<byte>>)
    requires PaddingFor(Chunks([]), paddings)
    ensures ExitBytes(circuitId, tag, x, id, [], paddings) == []
  {
    assert Chunks([]) == [] && DataCells(id, []) == [];
  }
}
