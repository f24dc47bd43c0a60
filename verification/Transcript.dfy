// End-to-end theory of a sealed cell stream. The sender seals cells in one order, its cipher and
// digest moving on with every seal; the receiver opens them in the order they arrive, its own
// cipher and digest moving on with every arrival. Nothing in a cell says where it belongs.
module Transcript {
  import opened Bytes
  import opened Keystream
  import opened Cell
  import opened Crypto
  import opened Sequences

  // A cell before any layer is put on it.
  datatype Plain = Plain(streamId: u16, command: Command, data: seq<byte>)

  function PlainFrame(p: Plain): (f: seq<byte>)
    ensures |f| == 3 + |p.data|
  {
    Frame(p.streamId, p.command, p.data)
  }

  // Everything a digest has absorbed after these cells.
  function Absorbed(log: seq<Plain>): seq<byte> {
    if log == [] then [] else Absorbed(Init(log)) + PlainFrame(Last(log))
  }

  // Payload bytes in these cells: how far they move a cipher.
  function Octets(log: seq<Plain>): nat {
    if log == [] then 0 else Octets(Init(log)) + |Last(log).data|
  }

  lemma {:induction false} AbsorbedAppend(log: seq<Plain>, p: Plain)
    ensures Absorbed(log + [p]) == Absorbed(log) + PlainFrame(p)
    ensures Octets(log + [p]) == Octets(log) + |p.data|
  {
    assert Init(log + [p]) == log;
  }

  lemma {:induction false} AbsorbedLength(log: seq<Plain>)
    ensures |Absorbed(log)| == 3 * |log| + Octets(log)
  {
    if log != [] {
      AbsorbedLength(Init(log));
    }
  }

  lemma {:induction false} OctetsGrow(log: seq<Plain>, i: nat, j: nat)
    requires i <= j <= |log|
    ensures Octets(log[..i]) <= Octets(log[..j])
    decreases j
  {
    if i < j {
      assert Init(log[..j]) == log[..j - 1];
      OctetsGrow(log, i, j - 1);
    }
  }

  // One cell on the wire, with its place in the sender's sealing order.
  datatype Slot = Slot(index: nat, plain: Plain, offset: nat, absorbed: seq<byte>)

  // The i-th sealed cell: the octets sealed before it and the digest input including it.
  function SlotOf(log: seq<Plain>, i: nat): Slot
    requires i < |log|
  {
    Slot(i, log[i], Octets(log[..i]), Absorbed(log[..i + 1]))
  }

  function WireOctets(wire: seq<Slot>): nat {
    if wire == [] then 0 else WireOctets(Init(wire)) + |Last(wire).plain.data|
  }

  lemma {:induction false} WireOctetsAppend(wire: seq<Slot>, t: Slot)
    ensures WireOctets(wire + [t]) == WireOctets(wire) + |t.plain.data|
  {
    assert Init(wire + [t]) == wire;
  }

  lemma {:induction false} WireOctetsNext(wire: seq<Slot>, n: nat)
    requires n < |wire|
    ensures WireOctets(wire[..n + 1]) == WireOctets(wire[..n]) + |wire[n].plain.data|
  {
    assert wire[..n + 1] == wire[..n] + [wire[n]];
    WireOctetsAppend(wire[..n], wire[n]);
  }

  // The wire carries sealed cells, none of them twice.
  ghost predicate WireOf(wire: seq<Slot>, log: seq<Plain>) {
    && (forall w :: 0 <= w < |wire| ==> wire[w].index < |log| && wire[w] == SlotOf(log, wire[w].index))
    && (forall v, w :: 0 <= v < w < |wire| ==> wire[v].index != wire[w].index)
  }

  lemma {:induction false} WireOfLongerLog(wire: seq<Slot>, log: seq<Plain>, p: Plain)
    requires WireOf(wire, log)
    ensures WireOf(wire, log + [p])
  {
    forall w | 0 <= w < |wire|
      ensures wire[w] == SlotOf(log + [p], wire[w].index)
    {
      var i := wire[w].index;
      assert (log + [p])[..i] == log[..i] && (log + [p])[..i + 1] == log[..i + 1];
    }
  }

  // The first n arrivals are the first n seals, in order.
  ghost predicate InOrder(wire: seq<Slot>, n: nat)
    requires n <= |wire|
  {
    forall w :: 0 <= w < n ==> wire[w].index == w
  }

  // What the receiver makes of arrival w. `path` is the layers both ends share at the start;
  // the sender put them on at its sealing offset, the receiver takes them off at its own.
  function Opened(path: seq<Layer>, wire: seq<Slot>, w: nat): Plain
    requires w < |wire|
  {
    var t := wire[w];
    t.plain.(data := Mask(Mask(t.plain.data, Advance(path, t.offset)), Advance(path, WireOctets(wire[..w]))))
  }

  function OpenedAll(path: seq<Layer>, wire: seq<Slot>, n: nat): (r: seq<Plain>)
    requires n <= |wire|
    ensures |r| == n
  {
    seq(n, w requires 0 <= w < n => Opened(path, wire, w))
  }

  ghost predicate Verifies(tag: TagFn, path: seq<Layer>, wire: seq<Slot>, w: nat)
    requires w < |wire|
  {
    tag(Absorbed(OpenedAll(path, wire, w + 1))) == tag(wire[w].absorbed)
  }

  ghost predicate AllVerify(tag: TagFn, path: seq<Layer>, wire: seq<Slot>, n: nat)
    requires n <= |wire|
  {
    forall w :: 0 <= w < n ==> Verifies(tag, path, wire, w)
  }

  // The digest inputs compared during these arrivals do not collide.
  ghost predicate NoCollisions(tag: TagFn, path: seq<Layer>, wire: seq<Slot>, n: nat)
    requires n <= |wire|
  {
    forall w :: 0 <= w < n ==>
      var got, sealed := Absorbed(OpenedAll(path, wire, w + 1)), wire[w].absorbed;
      tag(got) == tag(sealed) ==> got == sealed
  }

  lemma {:induction false} OpenedNext(path: seq<Layer>, wire: seq<Slot>, n: nat)
    requires n < |wire|
    ensures OpenedAll(path, wire, n + 1) == OpenedAll(path, wire, n) + [Opened(path, wire, n)]
    ensures Absorbed(OpenedAll(path, wire, n + 1)) == Absorbed(OpenedAll(path, wire, n))
            + PlainFrame(Opened(path, wire, n))
  {
    assert OpenedAll(path, wire, n + 1) == OpenedAll(path, wire, n) + [Opened(path, wire, n)];
    AbsorbedAppend(OpenedAll(path, wire, n), Opened(path, wire, n));
  }

  lemma {:induction false} OpenedLongerWire(path: seq<Layer>, wire: seq<Slot>, t: Slot, n: nat)
    requires n <= |wire|
    ensures OpenedAll(path, wire + [t], n) == OpenedAll(path, wire, n)
  {
    forall w | 0 <= w < n
      ensures Opened(path, wire + [t], w) == Opened(path, wire, w)
    {
      assert (wire + [t])[..w] == wire[..w];
    }
  }

  // The two ends count the same octets while arrivals follow seals.
  lemma {:induction false} InOrderOctets(log: seq<Plain>, wire: seq<Slot>, n: nat)
    requires WireOf(wire, log) && n <= |wire| && InOrder(wire, n)
    ensures n <= |log| && WireOctets(wire[..n]) == Octets(log[..n])
    decreases n
  {
    hide Absorbed, PlainFrame;
    if n > 0 {
      InOrderOctets(log, wire, n - 1);
      assert wire[n - 1].index == n - 1;
      WireOctetsNext(wire, n - 1);
      assert log[..n] == log[..n - 1] + [log[n - 1]];
      AbsorbedAppend(log[..n - 1], log[n - 1]);
    }
  }

  lemma {:induction false} InOrderOpensAt(path: seq<Layer>, log: seq<Plain>, wire: seq<Slot>, w: nat)
    requires WireOf(wire, log) && w < |wire| && InOrder(wire, w + 1)
    ensures w < |log| && Opened(path, wire, w) == log[w] && wire[w].absorbed == Absorbed(log[..w + 1])
  {
    InOrderOctets(log, wire, w);
    assert wire[w].index == w && wire[w] == SlotOf(log, w);
    MaskTwice(log[w].data, Advance(path, Octets(log[..w])));
  }

  lemma {:induction false} InOrderOpensPrefix(path: seq<Layer>, log: seq<Plain>, wire: seq<Slot>, n: nat)
    requires WireOf(wire, log) && n <= |wire| && InOrder(wire, n)
    ensures n <= |log| && OpenedAll(path, wire, n) == log[..n]
  {
    InOrderOctets(log, wire, n);
    hide WireOf, Opened;
    forall w | 0 <= w < n
      ensures Opened(path, wire, w) == log[w]
    {
      InOrderOpensAt(path, log, wire, w);
    }
  }

  // Arrivals in sealing order open to exactly what was sealed, and every digest verifies.
  lemma {:induction false} InOrderOpens(tag: TagFn, path: seq<Layer>, log: seq<Plain>, wire: seq<Slot>, n: nat)
    requires WireOf(wire, log) && n <= |wire| && InOrder(wire, n)
    ensures n <= |log| && OpenedAll(path, wire, n) == log[..n]
    ensures AllVerify(tag, path, wire, n)
  {
    hide WireOf, Opened, OpenedAll, Absorbed;
    InOrderOpensPrefix(path, log, wire, n);
    forall w | 0 <= w < n
      ensures Verifies(tag, path, wire, w)
    {
      InOrderOpensAt(path, log, wire, w);
      InOrderOpensPrefix(path, log, wire, w + 1);
    }
  }

  lemma {:induction false} LaterSealAbsorbsMore(log: seq<Plain>, w: nat, i: nat)
    requires w < i < |log|
    ensures |Absorbed(log[..i + 1])| > |Absorbed(log[..w])| + 3 + |log[i].data|
  {
    AbsorbedLength(log[..w]);
    AbsorbedLength(log[..i]);
    OctetsGrow(log, w, i);
    assert log[..i + 1] == log[..i] + [log[i]];
    AbsorbedAppend(log[..i], log[i]);
  }

  lemma {:induction false} FirstGapIsLater(log: seq<Plain>, wire: seq<Slot>, w: nat)
    requires WireOf(wire, log) && w < |wire| && InOrder(wire, w) && wire[w].index != w
    ensures w < wire[w].index < |log|
    ensures wire[w].plain == log[wire[w].index] && wire[w].absorbed == Absorbed(log[..wire[w].index + 1])
  {
    var i := wire[w].index;
    var v := if i < w then i else 0;
    assert w > 0 ==> wire[v].index == v;
  }

  lemma {:induction false} GapDigestDiffers(path: seq<Layer>, log: seq<Plain>, wire: seq<Slot>, w: nat)
    requires WireOf(wire, log) && w < |wire| && InOrder(wire, w) && wire[w].index != w
    ensures |Absorbed(OpenedAll(path, wire, w + 1))| < |wire[w].absorbed|
  {
    hide WireOf, InOrder, OpenedAll, Opened, Absorbed, PlainFrame;
    FirstGapIsLater(log, wire, w);
    InOrderOpensPrefix(path, log, wire, w);
    OpenedNext(path, wire, w);
    OpenedLength(path, wire, w);
    LaterSealAbsorbsMore(log, w, wire[w].index);
  }

  lemma {:induction false} OpenedLength(path: seq<Layer>, wire: seq<Slot>, w: nat)
    requires w < |wire|
    ensures |PlainFrame(Opened(path, wire, w))| == 3 + |wire[w].plain.data|
  {
  }

  // The first arrival that is not the next seal is rejected: it was sealed later, so its digest
  // covers more bytes than the receiver has seen.
  lemma {:induction false} FirstGapFails(tag: TagFn, path: seq<Layer>, log: seq<Plain>, wire: seq<Slot>, w: nat)
    requires WireOf(wire, log) && w < |wire| && InOrder(wire, w) && wire[w].index != w
    requires NoCollisions(tag, path, wire, w + 1)
    ensures !Verifies(tag, path, wire, w)
  {
    GapDigestDiffers(path, log, wire, w);
  }

  lemma {:induction false} OneMore(tag: TagFn, path: seq<Layer>, wire: seq<Slot>, n: nat)
    requires n < |wire|
    ensures AllVerify(tag, path, wire, n + 1) <==> AllVerify(tag, path, wire, n) && Verifies(tag, path, wire, n)
    ensures InOrder(wire, n + 1) <==> InOrder(wire, n) && wire[n].index == n
    ensures NoCollisions(tag, path, wire, n + 1) ==> NoCollisions(tag, path, wire, n)
  {
    hide Verifies, OpenedAll, Absorbed;
  }

  lemma {:induction false} NoneYet(tag: TagFn, path: seq<Layer>, wire: seq<Slot>)
    ensures AllVerify(tag, path, wire, 0) && InOrder(wire, 0)
  {
  }

  // Hence all arrivals verify exactly when they come in sealing order.
  lemma {:induction false} VerifiesIffInOrder(tag: TagFn, path: seq<Layer>, log: seq<Plain>, wire: seq<Slot>, n: nat)
    requires WireOf(wire, log) && n <= |wire|
    requires NoCollisions(tag, path, wire, n)
    ensures AllVerify(tag, path, wire, n) <==> InOrder(wire, n)
    decreases n
  {
    hide WireOf, AllVerify, InOrder, NoCollisions, Verifies;
    NoneYet(tag, path, wire);
    if n > 0 {
      OneMore(tag, path, wire, n - 1);
      VerifiesIffInOrder(tag, path, log, wire, n - 1);
      if InOrder(wire, n) {
        InOrderOpens(tag, path, log, wire, n);
      } else if InOrder(wire, n - 1) {
        FirstGapFails(tag, path, log, wire, n - 1);
      }
    }
  }
}
