// Cutting a read buffer into cell payloads, as both stream loops do
// (services/tor-client/src/core/stream.rs:128, services/relay-node/src/circuit/exit.rs:282).
module Chunking {
  import opened Bytes
  import opened Cell
  import opened Sequences
  import opened Transcript

  function Chunks(data: seq<byte>): (r: seq<seq<byte>>)
    ensures Concat(r) == data
    ensures forall i :: 0 <= i < |r| ==> 0 < |r[i]| <= MAX_PAYLOAD
    ensures forall i :: 0 <= i < |r| - 1 ==> |r[i]| == MAX_PAYLOAD
  {
    if data == [] then []
    else if |data| <= MAX_PAYLOAD then
      ConcatSplits([data], []);
      [data]
    else
      var first, rest := data[..MAX_PAYLOAD], Chunks(data[MAX_PAYLOAD..]);
      ConcatSplits([first], rest);
      [first] + rest
  }

  function Concat(chunks: seq<seq<byte>>): seq<byte> {
    if chunks == [] then [] else Concat(Init(chunks)) + Last(chunks)
  }

  lemma {:induction false} ConcatSplits(a: seq<seq<byte>>, b: seq<seq<byte>>)
    ensures Concat(a + b) == Concat(a) + Concat(b)
    ensures |a| == 1 ==> Concat(a) == a[0]
    decreases |b|
  {
    if |a| == 1 {
      assert Init(a) == [];
    }
    if b == [] {
      assert a + b == a;
    } else {
      assert Init(a + b) == a + Init(b) && Last(a + b) == Last(b);
      ConcatSplits(a, Init(b));
      assert Concat(a) + (Concat(Init(b)) + Last(b)) == (Concat(a) + Concat(Init(b))) + Last(b);
    }
  }

  // Length of the next chunk.
  function FirstChunk(data: seq<byte>): (n: nat)
    ensures n <= |data| && n <= MAX_PAYLOAD
  {
    if |data| <= MAX_PAYLOAD then |data| else MAX_PAYLOAD
  }

  // The next chunk and what is left.
  lemma {:induction false} NextChunk(data: seq<byte>)
    requires data != []
    ensures var n := FirstChunk(data);
            Chunks(data) == [data[..n]] + Chunks(data[n..])
  {
    assert Chunks([]) == [];
    assert data[..|data|] == data && data[|data|..] == [];
  }

  // The cells of one read, in order.
  function DataCells(id: u16, chunks: seq<seq<byte>>): (r: seq<Plain>)
    ensures |r| == |chunks|
  {
    seq(|chunks|, i requires 0 <= i < |chunks| => Plain(id, Data, chunks[i]))
  }
}
