// Per-hop cipher pairs, running digests and the client's onion keys
// (services/common/src/crypto.rs, services/tor-client/src/core/crypto_engine.rs).
module Crypto {
  import opened Bytes
  import opened Keystream
  import opened Cell

  // Forward and backward key of one hop.
  datatype SessionKey = SessionKey(forward: seq<byte>, backward: seq<byte>)

  // The block cipher: the keystream of a key under the all-zero initial counter.
  type CtrFn = seq<byte> -> Stream

  // The digest: the first four bytes of the hash of everything absorbed so far.
  type TagFn = seq<byte> -> Digest

  // What one cell adds to a running digest.
  function Frame(streamId: u16, command: Command, data: seq<byte>): (f: seq<byte>)
    ensures |f| == 3 + |data|
  {
    Be16(streamId) + [CommandCode(command)] + data
  }

  class CipherPair {
    var forward: Layer
    var backward: Layer

    constructor (key: SessionKey, ctr: CtrFn)
      ensures forward == Layer(ctr(key.forward), 0)
      ensures backward == Layer(ctr(key.backward), 0)
    {
      forward := Layer(ctr(key.forward), 0);
      backward := Layer(ctr(key.backward), 0);
    }

    method ApplyForward(data: array<byte>)
      modifies this`forward, data
      ensures data[..] == XorStream(old(data[..]), old(forward))
      ensures forward == old(forward).(pos := old(forward).pos + data.Length)
    {
      ApplyKeystream(forward, data);
      forward := forward.(pos := forward.pos + data.Length);
    }

    method ApplyBackward(data: array<byte>)
      modifies this`backward, data
      ensures data[..] == XorStream(old(data[..]), old(backward))
      ensures backward == old(backward).(pos := old(backward).pos + data.Length)
    {
      ApplyKeystream(backward, data);
      backward := backward.(pos := backward.pos + data.Length);
    }
  }

  // Exclusive-or a buffer with the keystream, in place.
  method ApplyKeystream(l: Layer, data: array<byte>)
    modifies data
    ensures data[..] == XorStream(old(data[..]), l)
  {
    for i := 0 to data.Length
      invariant forall k :: 0 <= k < i ==> data[k] == Xor(old(data[k]), l.ks(l.pos + k))
      invariant forall k :: i <= k < data.Length ==> data[k] == old(data[k])
    {
      data[i] := Xor(data[i], l.ks(l.pos + i));
    }
  }

  class RunningDigest {
    var absorbed: seq<byte>
    const tag: TagFn

    constructor (tag: TagFn)
      ensures absorbed == [] && this.tag == tag
    {
      this.tag := tag;
      absorbed := [];
    }

    method Update(streamId: u16, command: Command, data: seq<byte>) returns (t: Digest)
      modifies this
      ensures absorbed == old(absorbed) + Frame(streamId, command, data)
      ensures t == tag(absorbed)
    {
      absorbed := absorbed + Frame(streamId, command, data);
      t := tag(absorbed);
    }

    method Verify(streamId: u16, command: Command, data: seq<byte>, expected: Digest) returns (ok: bool)
      modifies this
      ensures absorbed == old(absorbed) + Frame(streamId, command, data)
      ensures ok <==> tag(absorbed) == expected
    {
      var computed := Update(streamId, command, data);
      ok := computed == expected;
    }
  }

  // ----- the client's N cipher pairs, entry first, exit last -----

  ghost predicate Distinct(ciphers: seq<CipherPair>) {
    forall i, j :: 0 <= i < j < |ciphers| ==> ciphers[i] != ciphers[j]
  }

  ghost function ForwardLayers(ciphers: seq<CipherPair>): (r: seq<Layer>)
    reads ciphers
    ensures |r| == |ciphers|
  {
    seq(|ciphers|, i requires 0 <= i < |ciphers| reads ciphers => ciphers[i].forward)
  }

  ghost function BackwardLayers(ciphers: seq<CipherPair>): (r: seq<Layer>)
    reads ciphers
    ensures |r| == |ciphers|
  {
    seq(|ciphers|, i requires 0 <= i < |ciphers| reads ciphers => ciphers[i].backward)
  }

  // Exit cipher first, entry cipher last; whatever the order, the buffer is masked with the
  // combined keystream and every cipher moves on by the length of the buffer.
  method WrapForward(ciphers: seq<CipherPair>, data: array<byte>)
    requires Distinct(ciphers)
    modifies ciphers, data
    ensures data[..] == Mask(old(data[..]), old(ForwardLayers(ciphers)))
    ensures ForwardLayers(ciphers) == Advance(old(ForwardLayers(ciphers)), data.Length)
    ensures BackwardLayers(ciphers) == old(BackwardLayers(ciphers))
  {
    hide Mask, XorStream, PadByte;
    var i := |ciphers|;
    ghost var before := ForwardLayers(ciphers);
    assert before[i..] == [];
    MaskNone(data[..]);
    while i > 0
      invariant 0 <= i <= |ciphers|
      invariant data[..] == Mask(old(data[..]), before[i..])
      invariant forall j :: 0 <= j < i ==> ciphers[j].forward == before[j]
      invariant forall j :: i <= j < |ciphers| ==> ciphers[j].forward == Advance(before, data.Length)[j]
      invariant forall j :: 0 <= j < |ciphers| ==> ciphers[j].backward == old(ciphers[j].backward)
    {
      i := i - 1;
      ciphers[i].ApplyForward(data);
      PeelOneMore(old(data[..]), before, i);
    }
    assert before[0..] == before;
  }

  // Entry cipher first, exit cipher last.
  method UnwrapBackward(ciphers: seq<CipherPair>, data: array<byte>)
    requires Distinct(ciphers)
    modifies ciphers, data
    ensures data[..] == Mask(old(data[..]), old(BackwardLayers(ciphers)))
    ensures BackwardLayers(ciphers) == Advance(old(BackwardLayers(ciphers)), data.Length)
    ensures ForwardLayers(ciphers) == old(ForwardLayers(ciphers))
  {
    hide Mask, XorStream, PadByte;
    ghost var before := BackwardLayers(ciphers);
    assert before[..0] == [];
    MaskNone(data[..]);
    for i := 0 to |ciphers|
      invariant data[..] == Mask(old(data[..]), before[..i])
      invariant forall j :: 0 <= j < i ==> ciphers[j].backward == Advance(before, data.Length)[j]
      invariant forall j :: i <= j < |ciphers| ==> ciphers[j].backward == before[j]
      invariant forall j :: 0 <= j < |ciphers| ==> ciphers[j].forward == old(ciphers[j].forward)
    {
      ciphers[i].ApplyBackward(data);
      MaskNext(old(data[..]), before, 0, i);
    }
    assert before[..|ciphers|] == before;
  }

  // A copy of the data under every forward layer.
  method Wrapped(ciphers: seq<CipherPair>, data: seq<byte>) returns (r: seq<byte>)
    requires Distinct(ciphers)
    modifies ciphers
    ensures r == Mask(data, old(ForwardLayers(ciphers)))
    ensures ForwardLayers(ciphers) == Advance(old(ForwardLayers(ciphers)), |data|)
    ensures BackwardLayers(ciphers) == old(BackwardLayers(ciphers))
  {
    hide Mask, Advance;
    var buffer := new byte[|data|](i requires 0 <= i < |data| => data[i]);
    assert buffer[..] == data;
    WrapForward(ciphers, buffer);
    r := buffer[..];
  }

  // A copy of the data with every backward layer taken off.
  method Unwrapped(ciphers: seq<CipherPair>, data: seq<byte>) returns (r: seq<byte>)
    requires Distinct(ciphers)
    modifies ciphers
    ensures r == Mask(data, old(BackwardLayers(ciphers)))
    ensures BackwardLayers(ciphers) == Advance(old(BackwardLayers(ciphers)), |data|)
    ensures ForwardLayers(ciphers) == old(ForwardLayers(ciphers))
  {
    hide Mask, Advance;
    var buffer := new byte[|data|](i requires 0 <= i < |data| => data[i]);
    assert buffer[..] == data;
    UnwrapBackward(ciphers, buffer);
    r := buffer[..];
  }

  class OnionKeys {
    const ciphers: seq<CipherPair>
    const forwardDigest: RunningDigest
    const backwardDigest: RunningDigest

    ghost predicate Valid() {
      Distinct(ciphers) && forwardDigest != backwardDigest
    }

    constructor (ciphers: seq<CipherPair>, tag: TagFn)
      requires Distinct(ciphers)
      ensures Valid() && this.ciphers == ciphers
      ensures fresh(forwardDigest) && forwardDigest.absorbed == [] && forwardDigest.tag == tag
      ensures fresh(backwardDigest) && backwardDigest.absorbed == [] && backwardDigest.tag == tag
    {
      this.ciphers := ciphers;
      var f := new RunningDigest(tag);
      var b := new RunningDigest(tag);
      forwardDigest, backwardDigest := f, b;
    }
  }

  // One more layer on the inside end of a stretch of layers.
  lemma {:induction false} MaskNext(data: seq<byte>, layers: seq<Layer>, lo: nat, hi: nat)
    requires lo <= hi < |layers|
    ensures XorStream(Mask(data, layers[lo..hi]), layers[hi]) == Mask(data, layers[lo..hi + 1])
  {
    MaskOne(Mask(data, layers[lo..hi]), layers[hi]);
    MaskConcat(data, layers[lo..hi], [layers[hi]]);
    assert layers[lo..hi] + [layers[hi]] == layers[lo..hi + 1];
  }

  // One more layer on the outside end.
  lemma {:induction false} PeelOneMore(data: seq<byte>, layers: seq<Layer>, lo: nat)
    requires lo < |layers|
    ensures XorStream(Mask(data, layers[lo + 1..]), layers[lo]) == Mask(data, layers[lo..])
  {
    MaskPrevious(data, layers, lo, |layers|);
    assert layers[lo + 1..|layers|] == layers[lo + 1..] && layers[lo..|layers|] == layers[lo..];
  }

  lemma {:induction false} MaskPrevious(data: seq<byte>, layers: seq<Layer>, lo: nat, hi: nat)
    requires lo < hi <= |layers|
    ensures XorStream(Mask(data, layers[lo + 1..hi]), layers[lo]) == Mask(data, layers[lo..hi])
  {
    var inner := layers[lo + 1..hi];
    MaskOne(Mask(data, inner), layers[lo]);
    MaskConcat(data, inner, [layers[lo]]);
    MaskConcat(data, [layers[lo]], inner);
    assert [layers[lo]] + inner == layers[lo..hi];
    MaskSwaps(data, inner, [layers[lo]]);
  }

  lemma {:induction false} MaskSwaps(data: seq<byte>, a: seq<Layer>, b: seq<Layer>)
    ensures Mask(data, a + b) == Mask(data, b + a)
  {
    assert multiset(a + b) == multiset(b + a);
    forall i | 0 <= i < |data|
      ensures PadByte(a + b, i) == PadByte(b + a, i)
    {
      PadAnyOrder(a + b, b + a, i);
    }
  }
}
