// A circuit that Build reports as Ready is a start state of both directions of traffic: the
// delivery theorems apply to the very relays the build reached.
module ReadyCircuit {
  import opened Bytes
  import opened Wrappers
  import opened Cell
  import opened Crypto
  import opened Telescope
  import Forward
  import Backward
  import ForwardDelivery
  import BackwardDelivery

  function ForwardNet(circuitId: u32, tag: TagFn, isText: TextTest, s: Stage): Forward.Net {
    Forward.Net(circuitId, s.forward, tag, isText)
  }

  function BackwardNet(circuitId: u32, tag: TagFn, s: Stage): Backward.Net {
    Backward.Net(circuitId, s.backward, tag)
  }

  // The parties as the build leaves them: the client with its layers, every relay with its own,
  // fresh digests at both ends, nothing in flight.
  function ForwardParties(s: Stage): Forward.State {
    Forward.State(s.forward, [],
                  seq(|s.hops|, i requires 0 <= i < |s.hops| => Forward.HopState(s.hops[i].forward, [], 0)),
                  Forward.ExitState([], true, []), [])
  }

  function BackwardParties(s: Stage): Backward.State
    requires s.hops != []
  {
    var n := |s.hops| - 1;
    Backward.State(Backward.ExitState(s.hops[n].backward, [], None),
                   seq(n, i requires 0 <= i < n => Backward.RelayState(s.hops[i].backward, [], 0, true)),
                   Backward.ClientState(s.backward, [], [], 0, Backward.Reading, [], map[]),
                   [], [], false)
  }

  lemma {:induction false} ReadyIsForwardStart(env: Env, circuitId: u32, path: seq<Node>, draws: Draws, tag: TagFn)
    requires Sound(env, path, draws) && Build(env, circuitId, path, draws).Ok?
    ensures var s := Build(env, circuitId, path, draws).value;
            var net := ForwardNet(circuitId, tag, env.isText, s);
            && |net.path| == |path| >= 3
            && ForwardParties(s) == Forward.Start(net)
  {
    hide Build, ReadyHop, AllWork;
    ReadyExactly(env, circuitId, path, draws);
    var s := Build(env, circuitId, path, draws).value;
    assert ForwardParties(s).hops == Forward.Start(ForwardNet(circuitId, tag, env.isText, s)).hops;
  }

  lemma {:induction false} ReadyIsBackwardStart(env: Env, circuitId: u32, path: seq<Node>, draws: Draws, tag: TagFn)
    requires Sound(env, path, draws) && Build(env, circuitId, path, draws).Ok?
    ensures var s := Build(env, circuitId, path, draws).value;
            var net := BackwardNet(circuitId, tag, s);
            && |net.path| == |s.hops| == |path| >= 3
            && BackwardParties(s) == Backward.Start(net)
  {
    hide Build, ReadyHop, AllWork;
    ReadyExactly(env, circuitId, path, draws);
    var s := Build(env, circuitId, path, draws).value;
    assert BackwardParties(s).relays == Backward.Start(BackwardNet(circuitId, tag, s)).relays;
  }

  // From the first CREATE to the last cell: on every circuit that comes up, in every interleaving,
  // the exit decrypts a prefix of what the client sends as long as every payload fits a cell and
  // every destination is text, and
  // the client decrypts a prefix of what the exit seals as long as no reply is overtaken.
  lemma {:induction false} BuiltCircuitDelivers(
    env: Env, circuitId: u32, path: seq<Node>, draws: Draws, tag: TagFn,
    down: seq<Forward.Step>, up: seq<Backward.Step>)
    requires Sound(env, path, draws) && Build(env, circuitId, path, draws).Ok?
    ensures var s := Build(env, circuitId, path, draws).value;
            && |s.forward| >= 3 && |s.backward| >= 3
            && var f := Forward.Run(ForwardNet(circuitId, tag, env.isText, s), down);
               var b := Backward.Run(BackwardNet(circuitId, tag, s), up);
               && (ForwardDelivery.AllFit(f.log) && ForwardDelivery.AllText(env.isText, f.log) ==>
                     f.exit.reading && f.exit.delivered <= f.log)
               && (!b.overtaken ==> b.client.status != Backward.Rejected && b.client.received <= b.log)
  {
    hide Build, Sound;
    ReadyIsForwardStart(env, circuitId, path, draws, tag);
    ReadyIsBackwardStart(env, circuitId, path, draws, tag);
    var s := Build(env, circuitId, path, draws).value;
    var f, b := ForwardNet(circuitId, tag, env.isText, s), BackwardNet(circuitId, tag, s);
    var log := Forward.Run(f, down).log;
    if ForwardDelivery.AllFit(log) && ForwardDelivery.AllText(env.isText, log) {
      ForwardDelivery.ForwardDelivery(f, down);
    }
    if !Backward.Run(b, up).overtaken {
      BackwardDelivery.BackwardDelivery(b, up);
    }
  }
}
