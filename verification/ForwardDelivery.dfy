// What the forward invariant means for whole runs.
module ForwardDelivery {
  import opened Bytes
  import opened Keystream
  import opened Cell
  import opened Sequences
  import opened Transcript
  import opened Forward

  ghost predicate AllFit(log: seq<Plain>) {
    forall i :: 0 <= i < |log| ==> |log[i].data| <= MAX_PAYLOAD
  }

  ghost predicate AllText(isText: TextTest, log: seq<Plain>) {
    forall i :: 0 <= i < |log| ==> Readable(isText, log[i])
  }

  // ----- the wire carries the cells that fit, in sealing order -----

  lemma {:induction false} WireIsOfLog(log: seq<Plain>)
    ensures |Wire(log)| <= |log|
    ensures WireOf(Wire(log), log)
    ensures forall w :: 0 <= w < |Wire(log)| ==> |Wire(log)[w].plain.data| <= MAX_PAYLOAD
  {
    if log != [] {
      var rest, p := Init(log), Last(log);
      assert log == rest + [p];
      WireIsOfLog(rest);
      WireOfLongerLog(Wire(rest), rest, p);
    }
  }

  lemma {:induction false} FirstFitAreSent(log: seq<Plain>, n: nat)
    requires n <= |log| && AllFit(log[..n])
    ensures n <= |Wire(log)| && InOrder(Wire(log), n)
  {
    if n > 0 {
      var rest := Init(log);
      if n < |log| {
        assert rest[..n] == log[..n];
        FirstFitAreSent(rest, n);
      } else {
        assert log[..n] == log && log[n - 1] == Last(log);
        assert rest[..n - 1] == log[..n - 1];
        assert forall i :: 0 <= i < n - 1 ==> rest[i] == log[..n][i];
        FirstFitAreSent(rest, n - 1);
        WireIsOfLog(rest);
      }
    }
  }

  // The first n cells of the wire are the first n sends exactly when those all fit a cell.
  lemma {:induction false} InOrderIffFirstFit(log: seq<Plain>, n: nat)
    requires n <= |Wire(log)|
    ensures n <= |log|
    ensures InOrder(Wire(log), n) <==> AllFit(log[..n])
  {
    WireIsOfLog(log);
    if AllFit(log[..n]) {
      FirstFitAreSent(log, n);
    }
    if InOrder(Wire(log), n) {
      forall i | 0 <= i < n
        ensures |log[i].data| <= MAX_PAYLOAD
      {
        assert Wire(log)[i].index == i && Wire(log)[i].plain == log[i];
      }
    }
  }

  lemma {:induction false} AllSent(log: seq<Plain>)
    requires AllFit(log)
    ensures |Wire(log)| == |log| && InOrder(Wire(log), |log|)
  {
    WireIsOfLog(log);
    assert log[..|log|] == log;
    FirstFitAreSent(log, |log|);
  }

  lemma {:induction false} AllSentOctets(log: seq<Plain>)
    requires AllFit(log)
    ensures WireOctets(Wire(log)) == Octets(log)
  {
    var wire := Wire(log);
    WireIsOfLog(log);
    AllSent(log);
    assert log[..|log|] == log && wire[..|wire|] == wire;
    InOrderOctets(log, wire, |wire|);
  }

  ghost predicate Idle(hops: seq<HopState>) {
    forall i :: 0 <= i < |hops| ==> NoPadding(hops[i].queue) == []
  }

  // ----- delivery -----

  // How many relay cells the exit has taken.
  ghost function Taken(net: Net, steps: seq<Step>): (n: nat)
    requires |net.path| >= 3
    ensures n <= |Wire(Run(net, steps).log)|
  {
    RunKeepsInv(net, steps);
    Last(Run(net, steps).hops).passed
  }

  lemma {:induction false} AcceptedVerify(net: Net, wire: seq<Slot>, n: nat)
    requires n <= |wire|
    ensures AllAccepted(net, wire, n) ==> AllVerify(net.tag, net.path, wire, n)
  {
    hide Verifies, Readable, Opened;
    if AllAccepted(net, wire, n) {
      forall w | 0 <= w < n
        ensures Verifies(net.tag, net.path, wire, w)
      {
        assert Accepted(net, wire, w);
      }
    }
  }

  // The exit still reads exactly when it has accepted everything it has taken.
  lemma {:induction false} ReadsExactlyWhileAccepting(net: Net, wire: seq<Slot>, n: nat, x: ExitState)
    requires ExitOk(net, wire, n, x)
    ensures x.reading <==> AllAccepted(net, wire, n)
    ensures x.delivered == OpenedAll(net.path, wire, if x.reading then n else n - 1)
    ensures AllVerify(net.tag, net.path, wire, if x.reading then n else n - 1)
  {
    hide Verifies, Opened, OpenedAll, Readable;
    AcceptedVerify(net, wire, if x.reading then n else n - 1);
  }

  // Cells that arrive in sealing order are accepted exactly when their destinations are text.
  lemma {:induction false} AcceptedExactlyWhenText(net: Net, log: seq<Plain>, n: nat)
    requires n <= |Wire(log)| && InOrder(Wire(log), n)
    ensures n <= |log| && (AllAccepted(net, Wire(log), n) <==> AllText(net.isText, log[..n]))
  {
    hide Wire, Readable, Verifies, WireOf;
    WireIsOfLog(log);
    InOrderOpens(net.tag, net.path, log, Wire(log), n);
    forall w | 0 <= w < n
      ensures Accepted(net, Wire(log), w) <==> Readable(net.isText, log[..n][w])
    {
      assert OpenedAll(net.path, Wire(log), n)[w] == log[w];
      assert Verifies(net.tag, net.path, Wire(log), w);
    }
  }

  // In every run, as long as every payload given to send_message so far fits a cell and every
  // destination is text, the exit has rejected nothing and has decrypted a prefix of exactly what
  // the client sent.
  lemma {:induction false} ForwardDelivery(net: Net, steps: seq<Step>)
    requires |net.path| >= 3
    requires AllFit(Run(net, steps).log) && AllText(net.isText, Run(net, steps).log)
    ensures var s := Run(net, steps); s.exit.reading && s.exit.delivered <= s.log
  {
    hide Run, Wire, ExitOk, HopsOk, Readable, AllAccepted, WireOf, OpenedAll;
    var s, n := Run(net, steps), Taken(net, steps);
    RunKeepsInv(net, steps);
    WireIsOfLog(s.log);
    AllSent(s.log);
    ReadsExactlyWhileAccepting(net, Wire(s.log), n, s.exit);
    AcceptedExactlyWhenText(net, s.log, n);
    InOrderOpens(net.tag, net.path, s.log, Wire(s.log), n);
  }

  // Without any assumption on the cells: unless the digest collides, whatever the exit has
  // delivered is a prefix of what was sent, and it is still reading exactly when the sends up to
  // the last cell it has taken all fit a cell and name their destinations in text.
  lemma {:induction false} ExitStopsExactlyAtBadCell(net: Net, steps: seq<Step>)
    requires |net.path| >= 3
    requires NoCollisions(net.tag, net.path, Wire(Run(net, steps).log), Taken(net, steps))
    ensures var s, n := Run(net, steps), Taken(net, steps);
            n <= |s.log|
            && s.exit.delivered <= s.log
            && (s.exit.reading <==> AllFit(s.log[..n]) && AllText(net.isText, s.log[..n]))
  {
    hide Run, Wire, ExitOk, HopsOk, Readable, Verifies, WireOf, OpenedAll, NoCollisions, InOrder;
    var s, n := Run(net, steps), Taken(net, steps);
    var wire := Wire(s.log);
    RunKeepsInv(net, steps);
    WireIsOfLog(s.log);
    InOrderIffFirstFit(s.log, n);
    ReadsExactlyWhileAccepting(net, wire, n, s.exit);
    var good := if s.exit.reading then n else n - 1;
    FewerCollisions(net, wire, good, n);
    VerifiesIffInOrder(net.tag, net.path, s.log, wire, good);
    VerifiesIffInOrder(net.tag, net.path, s.log, wire, n);
    InOrderOpens(net.tag, net.path, s.log, wire, good);
    if InOrder(wire, n) {
      AcceptedExactlyWhenText(net, s.log, n);
    } else {
      AcceptedVerify(net, wire, n);
    }
  }

  lemma {:induction false} FewerCollisions(net: Net, wire: seq<Slot>, m: nat, n: nat)
    requires m <= n <= |wire| && NoCollisions(net.tag, net.path, wire, n)
    ensures NoCollisions(net.tag, net.path, wire, m)
  {
    hide OpenedAll, Absorbed;
  }

  // The client's cipher for hop i is ahead of relay i's by exactly the payload bytes queued
  // upstream of relay i.
  ghost function Queued(hops: seq<HopState>, i: nat): nat
    requires i < |hops|
  {
    QueueOctets(NoPadding(hops[i].queue)) + if i == 0 then 0 else Queued(hops, i - 1)
  }

  function QueueOctets(q: seq<Message>): nat {
    if q == [] then 0 else QueueOctets(Init(q)) + |Last(q).data|
  }

  lemma {:induction false} QueueOctetsOfCells(net: Net, wire: seq<Slot>, i: nat, lo: nat, hi: nat)
    requires lo <= hi <= |wire| && i <= |net.path|
    ensures QueueOctets(DownCells(net, wire, i, lo, hi)) + WireOctets(wire[..lo]) == WireOctets(wire[..hi])
    decreases hi
  {
    hide DownCell;
    if lo < hi {
      DownCellOctets(net, wire, hi - 1, i);
      QueueOctetsOfCells(net, wire, i, lo, hi - 1);
      WireOctetsNext(wire, hi - 1);
      assert Init(DownCells(net, wire, i, lo, hi)) == DownCells(net, wire, i, lo, hi - 1);
    }
  }

  lemma {:induction false} DownCellOctets(net: Net, wire: seq<Slot>, w: nat, i: nat)
    requires w < |wire| && i <= |net.path|
    ensures |DownCell(net, wire, w, i).data| == |wire[w].plain.data|
  {
  }

  lemma {:induction false} HopAt(net: Net, wire: seq<Slot>, hops: seq<HopState>, i: nat)
    requires HopsOk(net, wire, hops) && i < |hops|
    ensures i < |net.path| && HopOk(net, wire, i, Upstream(wire, hops, i), hops[i])
  {
    hide HopOk;
  }

  lemma {:induction false} HopPosition(net: Net, wire: seq<Slot>, i: nat, hi: nat, h: HopState)
    requires i < |net.path| && HopOk(net, wire, i, hi, h)
    ensures h.passed <= hi <= |wire|
    ensures h.layer.ks == net.path[i].ks && h.layer.pos == net.path[i].pos + WireOctets(wire[..h.passed])
    ensures QueueOctets(NoPadding(h.queue)) + WireOctets(wire[..h.passed]) == WireOctets(wire[..hi])
    ensures NoPadding(h.queue) == [] <==> h.passed == hi
  {
    QueueOctetsOfCells(net, wire, i, h.passed, hi);
    assert |NoPadding(h.queue)| == hi - h.passed;
  }

  lemma {:induction false} QueuedUpstream(net: Net, wire: seq<Slot>, hops: seq<HopState>, i: nat)
    requires HopsOk(net, wire, hops) && i < |hops|
    ensures hops[i].passed <= |wire|
    ensures Queued(hops, i) + WireOctets(wire[..hops[i].passed]) == WireOctets(wire)
  {
    hide HopOk, HopsOk;
    HopAt(net, wire, hops, i);
    HopPosition(net, wire, i, Upstream(wire, hops, i), hops[i]);
    if i == 0 {
      assert wire[..|wire|] == wire;
    } else {
      QueuedUpstream(net, wire, hops, i - 1);
    }
  }

  lemma {:induction false} PositionsLagByQueuedBytes(net: Net, steps: seq<Step>, i: nat)
    requires |net.path| >= 3 && i < |net.path|
    requires AllFit(Run(net, steps).log)
    ensures var s := Run(net, steps);
            s.client[i].ks == s.hops[i].layer.ks
            && s.client[i].pos == s.hops[i].layer.pos + Queued(s.hops, i)
  {
    var s := Run(net, steps);
    var wire := Wire(s.log);
    RunKeepsInv(net, steps);
    hide HopOk, HopsOk, ExitOk;
    HopAt(net, wire, s.hops, i);
    HopPosition(net, wire, i, Upstream(wire, s.hops, i), s.hops[i]);
    QueuedUpstream(net, wire, s.hops, i);
    AllSentOctets(s.log);
  }

  // When nothing is in flight, everything has been delivered.
  lemma {:induction false} QuietMeansAllDelivered(net: Net, steps: seq<Step>)
    requires |net.path| >= 3
    requires AllFit(Run(net, steps).log) && AllText(net.isText, Run(net, steps).log)
    requires Idle(Run(net, steps).hops)
    ensures Run(net, steps).exit.delivered == Run(net, steps).log
  {
    var s := Run(net, steps);
    ForwardDelivery(net, steps);
    RunKeepsInv(net, steps);
    AllTaken(net, s);
    PrefixOfSameLength(s.exit.delivered, s.log);
  }

  lemma {:induction false} AllTaken(net: Net, s: State)
    requires Inv(net, s) && AllFit(s.log) && Idle(s.hops) && s.exit.reading
    ensures |s.exit.delivered| == |s.log|
  {
    hide HopsOk, ExitOk;
    DeliveredLength(net, Wire(s.log), Last(s.hops).passed, s.exit);
    LastTaken(net, Wire(s.log), s.hops);
    AllSent(s.log);
  }

  lemma {:induction false} LastTaken(net: Net, wire: seq<Slot>, hops: seq<HopState>)
    requires HopsOk(net, wire, hops) && Idle(hops) && hops != []
    ensures Last(hops).passed == |wire|
  {
    hide HopsOk, Idle;
    NothingQueued(net, wire, hops, |hops| - 1);
  }

  lemma {:induction false} PrefixOfSameLength<T>(a: seq<T>, b: seq<T>)
    requires a <= b && |a| == |b|
    ensures a == b
  {
  }

  lemma {:induction false} DeliveredLength(net: Net, wire: seq<Slot>, n: nat, x: ExitState)
    requires ExitOk(net, wire, n, x) && x.reading
    ensures |x.delivered| == n
  {
  }

  lemma {:induction false} NothingQueued(net: Net, wire: seq<Slot>, hops: seq<HopState>, i: nat)
    requires HopsOk(net, wire, hops) && i < |hops|
    requires Idle(hops)
    ensures hops[i].passed == |wire|
  {
    hide HopOk, HopsOk;
    HopAt(net, wire, hops, i);
    HopPosition(net, wire, i, Upstream(wire, hops, i), hops[i]);
    if i > 0 {
      NothingQueued(net, wire, hops, i - 1);
    }
  }

  // send_message moves digest and ciphers on before the cell writer refuses an oversize payload,
  // so the next cell, whatever it is, makes the exit stop.
  lemma {:induction false} OversizeDesynchronises(net: Net, big: Plain, next: Plain)
    requires |net.path| == 3
    requires big.command == Data && |big.data| > MAX_PAYLOAD
    requires next.command == Data && |next.data| <= MAX_PAYLOAD
    requires NoCollisions(net.tag, net.path, Wire([big, next]), |Wire([big, next])|)
    ensures var s := Run(net, [Send(big), Send(next), Hop(0), Hop(1), Hop(2)]);
            s.log == [big, next] && !s.exit.reading && s.exit.delivered == []
  {
    var steps := [Send(big), Send(next), Hop(0), Hop(1), Hop(2)];
    TwoSends(net, big, next);
    OneCellTaken(net, steps[..2]);
    assert steps == steps[..2] + [Hop(0), Hop(1), Hop(2)];
    assert Init([big, next]) == [big];
    ExitStopsExactlyAtBadCell(net, steps);
    assert Run(net, steps).log[..1][0] == big;
    RunKeepsInv(net, steps);
    DeliveredBeforeStop(net, Wire([big, next]), Run(net, steps).exit);
  }

  // A BEGIN whose destination is not text passes the digest check and still stops the exit.
  lemma {:induction false} NonTextBeginStops(net: Net, begin: Plain)
    requires |net.path| == 3
    requires begin.command == Begin && |begin.data| <= MAX_PAYLOAD && !net.isText(begin.data)
    ensures var s := Run(net, [Send(begin), Hop(0), Hop(1), Hop(2)]);
            s.log == [begin] && !s.exit.reading && s.exit.delivered == []
  {
    hide Run, Mask, ExitOk, HopsOk, Wire, WireOf;
    var steps := [Send(begin), Hop(0), Hop(1), Hop(2)];
    OneSend(net, begin);
    assert [Send(begin)] == steps[..1];
    OneCellTaken(net, steps[..1]);
    assert steps == steps[..1] + [Hop(0), Hop(1), Hop(2)];
    var s := Run(net, steps);
    RunKeepsInv(net, steps);
    assert AllFit([begin]) && [begin][..1] == [begin] && [begin][0] == begin;
    AllSent([begin]);
    AcceptedExactlyWhenText(net, [begin], 1);
    ReadsExactlyWhileAccepting(net, Wire([begin]), 1, s.exit);
    DeliveredBeforeStop(net, Wire([begin]), s.exit);
  }

  lemma {:induction false} OneSend(net: Net, p: Plain)
    requires |net.path| == 3
    requires p.command == Begin && |p.data| <= MAX_PAYLOAD
    ensures var s := Run(net, [Send(p)]);
            && s.log == [p] && s.exit.reading
            && |s.hops[0].queue| == 1 && s.hops[0].queue[0].command == Begin
            && s.hops[1].queue == [] && s.hops[2].queue == [] && s.hops[2].passed == 0
  {
    RunMore(net, [], Send(p));
    assert [] + [Send(p)] == [Send(p)];
  }

  lemma {:induction false} DeliveredBeforeStop(net: Net, wire: seq<Slot>, x: ExitState)
    requires ExitOk(net, wire, 1, x) && !x.reading
    ensures x.delivered == []
  {
  }

  lemma {:induction false} TwoSends(net: Net, big: Plain, next: Plain)
    requires |net.path| == 3
    requires big.command == Data && |big.data| > MAX_PAYLOAD
    requires next.command == Data && |next.data| <= MAX_PAYLOAD
    ensures var s := Run(net, [Send(big), Send(next)]);
            && s.log == [big, next] && s.exit.reading
            && |s.hops[0].queue| == 1 && s.hops[0].queue[0].command == Data
            && s.hops[1].queue == [] && s.hops[2].queue == [] && s.hops[2].passed == 0
  {
    RunMore(net, [], Send(big));
    assert [] + [Send(big)] == [Send(big)];
    RunMore(net, [Send(big)], Send(next));
    assert [Send(big)] + [Send(next)] == [Send(big), Send(next)];
  }

  // The one cell in flight goes through the three hops.
  lemma {:induction false} OneCellTaken(net: Net, steps: seq<Step>)
    requires |net.path| == 3
    requires var s := Run(net, steps);
             && s.exit.reading
             && |s.hops[0].queue| == 1 && s.hops[0].queue[0].command != Padding
             && s.hops[1].queue == [] && s.hops[2].queue == [] && s.hops[2].passed == 0
    ensures Run(net, steps + [Hop(0), Hop(1), Hop(2)]).log == Run(net, steps).log
    ensures Last(Run(net, steps + [Hop(0), Hop(1), Hop(2)]).hops).passed == 1
  {
    hide XorStream, ExitCheck;
    var a, b := steps + [Hop(0)], steps + [Hop(0)] + [Hop(1)];
    RunMore(net, steps, Hop(0));
    RunMore(net, a, Hop(1));
    RunMore(net, b, Hop(2));
    assert b + [Hop(2)] == steps + [Hop(0), Hop(1), Hop(2)];
  }

  lemma {:induction false} RunMore(net: Net, steps: seq<Step>, step: Step)
    requires |net.path| >= 3
    ensures var s := Run(net, steps);
            Run(net, steps + [step]) == if Enabled(net, s, step) then Apply(net, s, step) else s
  {
    assert Init(steps + [step]) == steps;
  }
}
