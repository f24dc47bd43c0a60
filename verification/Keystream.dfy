// The algebra of stream-cipher layers. A cipher in counter mode (section 6.5 of NIST
// SP 800-38A) is a fixed keystream and a position in it; a layer is that pair.
module Keystream {
  import opened Bytes

  type Stream = nat -> byte

  datatype Layer = Layer(ks: Stream, pos: nat)

  // One cipher applied to a buffer.
  function XorStream(data: seq<byte>, l: Layer): (r: seq<byte>)
    ensures |r| == |data|
  {
    seq(|data|, i requires 0 <= i < |data| => Xor(data[i], l.ks(l.pos + i)))
  }

  // The same ciphers after `n` more bytes.
  function Advance(layers: seq<Layer>, n: nat): (r: seq<Layer>)
    ensures |r| == |layers|
    ensures forall j :: 0 <= j < |r| ==> r[j] == layers[j].(pos := layers[j].pos + n)
  {
    seq(|layers|, j requires 0 <= j < |layers| => layers[j].(pos := layers[j].pos + n))
  }

  // Ciphers applied one after the other, in order.
  function ApplyEach(data: seq<byte>, layers: seq<Layer>): (r: seq<byte>)
    ensures |r| == |data|
    decreases |layers|
  {
    if layers == [] then data else ApplyEach(XorStream(data, layers[0]), layers[1..])
  }

  // The combined keystream byte of several layers, `i` bytes ahead.
  function PadByte(layers: seq<Layer>, i: nat): byte {
    if layers == [] then 0 else Xor(layers[0].ks(layers[0].pos + i), PadByte(layers[1..], i))
  }

  // One exclusive or with the combined keystream.
  function Mask(data: seq<byte>, layers: seq<Layer>): (r: seq<byte>)
    ensures |r| == |data|
  {
    seq(|data|, i requires 0 <= i < |data| => Xor(data[i], PadByte(layers, i)))
  }

  lemma {:induction false} PadConcat(a: seq<Layer>, b: seq<Layer>, i: nat)
    ensures PadByte(a + b, i) == Xor(PadByte(a, i), PadByte(b, i))
  {
    if a == [] {
      assert a + b == b;
      XorLaws(PadByte(b, i), 0, 0);
    } else {
      assert (a + b)[0] == a[0] && (a + b)[1..] == a[1..] + b;
      PadConcat(a[1..], b, i);
      XorLaws(a[0].ks(a[0].pos + i), PadByte(a[1..], i), PadByte(b, i));
    }
  }

  // Masking with `a` and then with `b` is masking with both.
  lemma {:induction false} MaskConcat(data: seq<byte>, a: seq<Layer>, b: seq<Layer>)
    ensures Mask(Mask(data, a), b) == Mask(data, a + b)
  {
    forall i | 0 <= i < |data|
      ensures Mask(Mask(data, a), b)[i] == Mask(data, a + b)[i]
    {
      PadConcat(a, b, i);
      XorLaws(data[i], PadByte(a, i), PadByte(b, i));
    }
  }

  lemma {:induction false} MaskNone(data: seq<byte>)
    ensures Mask(data, []) == data
  {
    forall i | 0 <= i < |data|
      ensures Mask(data, [])[i] == data[i]
    {
      XorLaws(data[i], 0, 0);
    }
  }

  lemma {:induction false} MaskOne(data: seq<byte>, l: Layer)
    ensures Mask(data, [l]) == XorStream(data, l)
  {
    forall i | 0 <= i < |data|
      ensures Mask(data, [l])[i] == XorStream(data, l)[i]
    {
      assert [l][1..] == [];
      assert PadByte([l], i) == Xor(l.ks(l.pos + i), 0);
      XorLaws(l.ks(l.pos + i), 0, 0);
    }
  }

  // The same layers a second time take the mask off again.
  lemma {:induction false} MaskTwice(data: seq<byte>, layers: seq<Layer>)
    ensures Mask(Mask(data, layers), layers) == data
  {
    forall i | 0 <= i < |data|
      ensures Mask(Mask(data, layers), layers)[i] == data[i]
    {
      XorCancels(data[i], PadByte(layers, i));
    }
  }

  // Applying N ciphers in sequence is one exclusive or with their combined keystream.
  lemma {:induction false} ApplyEachIsMask(data: seq<byte>, layers: seq<Layer>)
    ensures ApplyEach(data, layers) == Mask(data, layers)
    decreases |layers|
  {
    if layers == [] {
      MaskNone(data);
    } else {
      var l, rest := layers[0], layers[1..];
      ApplyEachIsMask(XorStream(data, l), rest);
      MaskOne(data, l);
      MaskConcat(data, [l], rest);
      assert [l] + rest == layers;
    }
  }

  // The combined keystream does not depend on the order of the layers.
  lemma {:induction false} PadAnyOrder(a: seq<Layer>, b: seq<Layer>, i: nat)
    requires multiset(a) == multiset(b)
    ensures PadByte(a, i) == PadByte(b, i)
    decreases |a|
  {
    hide PadByte;
    if a == [] {
      assert |b| == |multiset(b)| == |multiset(a)| == 0;
      assert a == b;
    } else {
      assert a[0] in multiset(a);
      var k :| 0 <= k < |b| && b[k] == a[0];
      var before, after := b[..k], b[k + 1..];
      SameWithoutOne(a, b, k);
      PadAnyOrder(a[1..], before + after, i);
      PadMoveFirst(before, b[k], after, i);
      PadHead(a, i);
      assert b == before + ([b[k]] + after);
    }
  }

  lemma {:induction false} PadHead(a: seq<Layer>, i: nat)
    requires a != []
    ensures PadByte(a, i) == Xor(a[0].ks(a[0].pos + i), PadByte(a[1..], i))
  {
  }

  lemma {:induction false} SameWithoutOne<T>(a: seq<T>, b: seq<T>, k: nat)
    requires multiset(a) == multiset(b)
    requires a != [] && k < |b| && b[k] == a[0]
    ensures multiset(a[1..]) == multiset(b[..k] + b[k + 1..])
  {
    var x := multiset{a[0]};
    assert a == [a[0]] + a[1..];
    assert multiset(a[1..]) == multiset(a) - x;
    assert b == b[..k] + ([b[k]] + b[k + 1..]);
    assert multiset(b[..k] + b[k + 1..]) == multiset(b) - x;
  }

  lemma {:induction false} PadMoveFirst(before: seq<Layer>, l: Layer, after: seq<Layer>, i: nat)
    ensures PadByte(before + ([l] + after), i) == Xor(l.ks(l.pos + i), PadByte(before + after, i))
  {
    var p, q, x := PadByte(before, i), PadByte(after, i), l.ks(l.pos + i);
    PadConcat(before, [l] + after, i);
    PadConcat(before, after, i);
    assert ([l] + after)[1..] == after;
    XorLaws(p, x, q);
    XorLaws(x, p, q);
  }

  // Onion encryption by one party and peeling by the others, in any order, restores the
  // plaintext whenever the two sides hold the same layers.
  lemma {:induction false} PeelInAnyOrder(data: seq<byte>, wrap: seq<Layer>, peel: seq<Layer>)
    requires multiset(wrap) == multiset(peel)
    ensures ApplyEach(ApplyEach(data, wrap), peel) == data
  {
    ApplyEachIsMask(data, wrap);
    ApplyEachIsMask(Mask(data, wrap), peel);
    forall i | 0 <= i < |data|
      ensures Mask(Mask(data, wrap), peel)[i] == data[i]
    {
      PadAnyOrder(wrap, peel, i);
      XorCancels(data[i], PadByte(wrap, i));
    }
  }

  // The cipher state carries over from one buffer to the next: two buffers in a row are
  // treated as their concatenation.
  lemma {:induction false} MaskInPieces(a: seq<byte>, b: seq<byte>, layers: seq<Layer>)
    ensures Mask(a + b, layers) == Mask(a, layers) + Mask(b, Advance(layers, |a|))
  {
    forall i | 0 <= i < |b|
      ensures PadByte(layers, |a| + i) == PadByte(Advance(layers, |a|), i)
    {
      PadAdvance(layers, |a|, i);
    }
  }

  lemma {:induction false} PadAdvance(layers: seq<Layer>, n: nat, i: nat)
    ensures PadByte(layers, n + i) == PadByte(Advance(layers, n), i)
  {
    if layers != [] {
      assert Advance(layers, n)[1..] == Advance(layers[1..], n);
      PadAdvance(layers[1..], n, i);
    }
  }

  lemma {:induction false} AdvanceTwice(layers: seq<Layer>, m: nat, n: nat)
    ensures Advance(Advance(layers, m), n) == Advance(layers, m + n)
    ensures Advance(layers, 0) == layers
  {
  }
}
