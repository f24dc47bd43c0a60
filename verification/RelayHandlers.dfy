// The circuit handlers of a relay: entry and middle (services/relay-node/src/circuit/entry.rs,
// middle.rs) and exit (exit.rs), with the context they share (handler.rs:193-242).
module RelayHandlers {
  import opened Bytes
  import opened Wrappers
  import opened Keystream
  import opened Cell
  import opened Crypto
  import opened Ntor
  import opened Transcript
  import T = Telescope
  import Forward
  import Backward
  import ES = ExitStreams

  datatype RelayError =
    | NotEstablished
    | Handshake(error: T.BuildError)
    | UnexpectedCommand(command: Command)
    | ExtendedTooShort
    | DigestMismatch
    | DestinationNotText
    | WriteFailed(cause: WriteError)

  // Take a relay's own layer off a payload, or put it on, on a copy as the handlers do.
  method PeelForward(cipher: CipherPair, data: seq<byte>) returns (r: seq<byte>)
    modifies cipher
    ensures r == XorStream(data, old(cipher.forward))
    ensures cipher.forward == old(cipher.forward).(pos := old(cipher.forward).pos + |data|)
    ensures cipher.backward == old(cipher.backward)
  {
    var buffer := new byte[|data|](i requires 0 <= i < |data| => data[i]);
    assert buffer[..] == data;
    cipher.ApplyForward(buffer);
    r := buffer[..];
  }

  method WrapBackward(cipher: CipherPair, data: seq<byte>) returns (r: seq<byte>)
    modifies cipher
    ensures r == XorStream(data, old(cipher.backward))
    ensures cipher.backward == old(cipher.backward).(pos := old(cipher.backward).pos + |data|)
    ensures cipher.forward == old(cipher.forward)
  {
    var buffer := new byte[|data|](i requires 0 <= i < |data| => data[i]);
    assert buffer[..] == data;
    cipher.ApplyBackward(buffer);
    r := buffer[..];
  }

  // ----- entry and middle -----

  class RelayHandler {
    const circuitId: u32
    const relay: T.Relay
    var cipher: CipherPair?     // none before CREATE and after close
    var nextHop: CellStream?    // the write half of the link to the next hop

    constructor (circuitId: u32, relay: T.Relay)
      ensures this.circuitId == circuitId && this.relay == relay && cipher == null && nextHop == null
    {
      this.circuitId, this.relay, cipher, nextHop := circuitId, relay, null, null;
    }

    ghost function Repr(): set<object>
      reads this
    {
      {this} + (if cipher == null then {} else {cipher}) + (if nextHop == null then {} else {nextHop})
    }

    // Where its ciphers are and what it has sent to the next hop.
    ghost function View(): (Option<(Layer, Layer)>, Option<seq<byte>>)
      reads Repr()
    {
      (if cipher == null then None else Some((cipher.forward, cipher.backward)),
       if nextHop == null then None else Some(nextHop.bytes))
    }

    // The hop of the telescope that this handler is.
    ghost function AsHop(seen: seq<seq<byte>>): T.Hop
      reads this, cipher
      requires cipher != null
    {
      T.Hop(relay.role, cipher.forward, cipher.backward, seen)
    }

    method HandleCreate(env: T.Env, y: Bytes32, m: Message) returns (r: Result<Message, RelayError>)
      modifies this`cipher
      ensures match T.HandleCreate(env, relay, y, m)
              case Err(e) => r == Err(Handshake(e)) && cipher == old(cipher)
              case Ok((hop, created)) => r == Ok(created) && fresh(cipher) && AsHop([]) == hop
    {
      var answer := T.HandleCreate(env, relay, y, m);
      if answer.Err? {
        return Err(Handshake(answer.error));
      }
      var reply := T.Reply(env, relay, m.data[..32], y);
      cipher := new CipherPair(reply.key, env.ctr);
      r := Ok(CircuitMessage(m.circuitId, Created, reply.Y + reply.auth));
    }

    // EXTEND at the end of the circuit: extend by one hop, exactly as in the telescope.
    method HandleExtend(env: T.Env, y: Bytes32, m: Message) returns (r: Result<Message, RelayError>)
      requires nextHop == null && relay.role != T.ExitRole
      modifies this`nextHop, if cipher == null then {} else {cipher}
      ensures cipher == old(cipher)
      ensures cipher == null ==> r == Err(NotEstablished) && nextHop == null
      ensures cipher != null ==>
                && cipher.forward == old(cipher.forward).(pos := old(cipher.forward).pos + |m.data|)
                && (r.Err? ==> cipher.backward == old(cipher.backward))
      ensures cipher != null ==>
                match T.Travel(env, y, [old(AsHop([]))], m)
                case Err(e) => r == Err(Handshake(e)) && nextHop == null
                case Ok((hops, reply)) =>
                  && r == Ok(reply) && nextHop != null && fresh(nextHop) && nextHop.bytes == []
                  && |hops| == 2 && AsHop(hops[0].seen) == hops[0]
    {
      hide T.ExtendTo, XorStream;
      if cipher == null {
        return Err(NotEstablished);
      }
      var plain := PeelForward(cipher, m.data);
      var extended := T.ExtendTo(env, y, m.circuitId, plain);
      if extended.Err? {
        return Err(Handshake(extended.error));
      }
      var (_, created) := extended.value;
      nextHop := new CellStream();
      var encrypted := WrapBackward(cipher, created.data);
      r := Ok(CircuitMessage(m.circuitId, Extended, encrypted));
    }

    // Forward cells: one layer off, one cell on. Without a next hop the cell is dropped, but the
    // cipher has moved.
    method HandleRelay(m: Message, padding: seq<byte>) returns (r: Result<Option<Message>, RelayError>)
      requires |m.data| <= MAX_PAYLOAD && |padding| == MAX_PAYLOAD - |m.data|
      modifies if cipher == null then {} else {cipher}, if nextHop == null then {} else {nextHop}
      ensures cipher == null ==> r == Err(NotEstablished)
      ensures cipher == null && nextHop != null ==> nextHop.bytes == old(nextHop.bytes)
      ensures cipher != null ==>
                && r == Ok(None)
                && cipher.backward == old(cipher.backward)
                && cipher.forward == old(cipher.forward).(pos := old(cipher.forward).pos + |m.data|)
                && (nextHop != null ==>
                      nextHop.bytes == old(nextHop.bytes) + Layout(Forward.PeeledCell(m, old(cipher.forward)), padding))
    {
      hide XorStream, Layout;
      if cipher == null {
        return Err(NotEstablished);
      }
      var decrypted := PeelForward(cipher, m.data);
      if nextHop != null {
        var forwardMsg := Message(m.circuitId, m.streamId, m.command, decrypted, m.digest);
        var written := nextHop.Write(forwardMsg, padding);
      }
      r := Ok(None);
    }

    // Backward cells: one layer on.
    method HandleBackwardRelay(m: Message) returns (r: Result<Message, RelayError>)
      modifies if cipher == null then {} else {cipher}
      ensures cipher == null ==> r == Err(NotEstablished)
      ensures cipher != null ==>
                && r == Ok(Backward.WrappedCell(m, old(cipher.backward)))
                && cipher.forward == old(cipher.forward)
                && cipher.backward == old(cipher.backward).(pos := old(cipher.backward).pos + |m.data|)
    {
      hide XorStream;
      if cipher == null {
        return Err(NotEstablished);
      }
      var encrypted := WrapBackward(cipher, m.data);
      r := Ok(Message(m.circuitId, m.streamId, m.command, encrypted, m.digest));
    }

    method Close()
      modifies this`cipher, this`nextHop
      ensures cipher == null && nextHop == null
    {
      cipher, nextHop := null, null;
    }

    // Dispatch. Only the middle relay knows EXTENDED, which it hands back untouched; padding
    // changes nothing.
    method HandleMessage(env: T.Env, y: Bytes32, m: Message, padding: seq<byte>)
      returns (r: Result<Option<Message>, RelayError>)
      requires relay.role != T.ExitRole
      requires |m.data| <= MAX_PAYLOAD && |padding| == MAX_PAYLOAD - |m.data|
      modifies Repr()
      ensures fresh(Repr() - old(Repr()))
      ensures m.command == Padding ==> r == Ok(None) && Same(old(cipher), old(nextHop)) && View() == old(View())
      ensures m.command == Create ==>
                match T.HandleCreate(env, relay, y, m)
                case Err(e) => r == Err(Handshake(e))
                case Ok((hop, created)) => r == Ok(Some(created)) && cipher != null && AsHop([]) == hop
      ensures m.command == Create ==>
                nextHop == old(nextHop) && (nextHop != null ==> nextHop.bytes == old(nextHop.bytes))
      ensures m.command == Created ==>
                r == Err(UnexpectedCommand(m.command)) && Same(old(cipher), old(nextHop)) && View() == old(View())
      ensures m.command in {Begin, Data, End, Connected, Extend} && old(cipher) == null ==>
                r == Err(NotEstablished) && Same(old(cipher), old(nextHop)) && View() == old(View())
      ensures m.command == Destroy ==> r == Ok(None) && cipher == null && nextHop == null
      ensures m.command == Extended ==>
                && Same(old(cipher), old(nextHop)) && View() == old(View())
                && (r.Ok? <==> relay.role == T.MiddleRole && |m.data| >= 32)
                && (r.Ok? ==> r.value == Some(m))
      ensures m.command == Extend && old(cipher) != null && old(nextHop) == null ==>
                match T.Travel(env, y, [old(AsHop([]))], m)
                case Err(e) =>
                  && r == Err(Handshake(e)) && Same(old(cipher), null)
                  && cipher.forward == old(cipher.forward).(pos := old(cipher.forward).pos + |m.data|)
                  && cipher.backward == old(cipher.backward)
                case Ok((hops, reply)) =>
                  && r == Ok(Some(reply)) && cipher == old(cipher) && |hops| == 2 && AsHop(hops[0].seen) == hops[0]
                  && nextHop != null && fresh(nextHop) && nextHop.bytes == []
      ensures (m.command in {Begin, Data, End, Connected} || (m.command == Extend && old(nextHop) != null))
              && old(cipher) != null ==>
                && r == Ok(None) && Same(old(cipher), old(nextHop)) && cipher.backward == old(cipher.backward)
                && cipher.forward == old(cipher.forward).(pos := old(cipher.forward).pos + |m.data|)
                && (nextHop != null ==>
                      nextHop.bytes == old(nextHop.bytes) + Layout(Forward.PeeledCell(m, old(cipher.forward)), padding))
    {
      hide XorStream, Layout, T.Travel;
      match m.command
      case Create =>
        var created := HandleCreate(env, y, m);
        r := Answer(created);
      case Extend =>
        if nextHop != null {
          r := HandleRelay(m, padding);
        } else {
          var reply := HandleExtend(env, y, m);
          r := Answer(reply);
        }
      case Begin => r := HandleRelay(m, padding);
      case Data => r := HandleRelay(m, padding);
      case End => r := HandleRelay(m, padding);
      case Connected => r := HandleRelay(m, padding);
      case Extended =>
        if relay.role != T.MiddleRole {
          r := Err(UnexpectedCommand(m.command));
        } else if |m.data| < 32 {
          r := Err(ExtendedTooShort);
        } else {
          r := Ok(Some(m));
        }
      case Destroy =>
        Close();
        r := Ok(None);
      case Padding => r := Ok(None);
      case _ => r := Err(UnexpectedCommand(m.command));
    }

    ghost predicate Same(c: CipherPair?, n: CellStream?)
      reads this
    {
      cipher == c && nextHop == n
    }
  }

  function Answer(r: Result<Message, RelayError>): Result<Option<Message>, RelayError> {
    match r
    case Ok(m) => Ok(Some(m))
    case Err(e) => Err(e)
  }

  // ----- exit -----

  // What the exit's connection task and its stream tasks share under one lock.
  class ExitCrypto {
    const circuitId: u32
    const cipher: CipherPair
    const forwardDigest: RunningDigest
    const backwardDigest: RunningDigest

    ghost predicate Valid() {
      forwardDigest != backwardDigest
    }

    constructor (circuitId: u32, cipher: CipherPair, tag: TagFn)
      ensures Valid() && this.circuitId == circuitId && this.cipher == cipher
      ensures fresh(forwardDigest) && forwardDigest.tag == tag && forwardDigest.absorbed == []
      ensures fresh(backwardDigest) && backwardDigest.tag == tag && backwardDigest.absorbed == []
    {
      this.circuitId, this.cipher := circuitId, cipher;
      var f := new RunningDigest(tag);
      var b := new RunningDigest(tag);
      forwardDigest, backwardDigest := f, b;
    }

    // Decrypt a forward cell and check its digest.
    method Open(m: Message) returns (r: Option<Plain>)
      requires Valid()
      modifies cipher, forwardDigest
      ensures var plain := Forward.PlainOf(Forward.PeeledCell(m, old(cipher.forward)));
              && forwardDigest.absorbed == old(forwardDigest.absorbed) + PlainFrame(plain)
              && r == if forwardDigest.tag(forwardDigest.absorbed) == m.digest then Some(plain) else None
      ensures cipher.forward == old(cipher.forward).(pos := old(cipher.forward).pos + |m.data|)
      ensures cipher.backward == old(cipher.backward)
    {
      hide XorStream, Frame;
      var decrypted := PeelForward(cipher, m.data);
      var ok := forwardDigest.Verify(m.streamId, m.command, decrypted, m.digest);
      var plain := Plain(m.streamId, m.command, decrypted);
      assert Forward.PlainOf(Forward.PeeledCell(m, old(cipher.forward))) == plain;
      r := if ok then Some(plain) else None;
    }

    // Digest and encrypt a backward cell.
    method Seal(p: Plain) returns (m: Message)
      requires Valid()
      modifies cipher, backwardDigest
      ensures m == Backward.SealedCell(circuitId, backwardDigest.tag, old(cipher.backward),
              old(backwardDigest.absorbed), p)
      ensures backwardDigest.absorbed == old(backwardDigest.absorbed) + PlainFrame(p)
      ensures cipher.backward == old(cipher.backward).(pos := old(cipher.backward).pos + |p.data|)
      ensures cipher.forward == old(cipher.forward)
    {
      hide XorStream, Frame;
      var digest := backwardDigest.Update(p.streamId, p.command, p.data);
      var encrypted := WrapBackward(cipher, p.data);
      m := Message(circuitId, p.streamId, p.command, encrypted, digest);
    }
  }

  // Everything the exit keeps for one circuit, as a value.
  datatype ExitView = ExitView(
    forward: Layer, heard: seq<byte>, out: Backward.ExitState, streams: map<u16, ES.ExitStream>)

  // What a verified BEGIN, DATA or END makes of it: the new state, the CONNECTED cell written at
  // once (if any), and the reply left to the connection task.
  datatype ExitAnswer = ExitAnswer(view: ExitView, written: Option<Message>, reply: Option<Message>)

  function Answered(circuitId: u32, tag: TagFn, v: ExitView, p: Plain, o: ES.Outcome): (a: ExitAnswer)
    ensures a.written.Some? ==> a.written.value.data == []
  {
    var w := v.(streams := ES.StreamsAfter(v.streams, p, o));
    if p.command == Begin && o.Works? then
      var c := Plain(p.streamId, Connected, []);
      ExitAnswer(w.(out := Backward.Sealed(v.out, c)),
                 Some(Backward.SealedCell(circuitId, tag, v.out.layer, v.out.digest, c)), None)
    else
      match ES.ReplyTo(v.streams, p, o)
      case None => ExitAnswer(w, None, None)
      case Some(e) =>
        ExitAnswer(w.(out := Backward.Sealed(v.out, e)), None,
                   Some(Backward.SealedCell(circuitId, tag, v.out.layer, v.out.digest, e)))
  }

  // The cell is decrypted and checked first; a bad digest or a BEGIN that is not text is an error,
  // after which the connection is closed.
  function ExitHandles(circuitId: u32, tag: TagFn, isText: TextTest, v: ExitView, m: Message, o: ES.Outcome)
    : (r: (ExitView, Result<ExitAnswer, RelayError>))
    ensures var x := Forward.ExitCheck(tag, isText, Forward.ExitState(v.heard, true, []), v.forward, m);
            r.0.heard == x.digest && (r.1.Ok? <==> x.reading)
  {
    var p := Forward.PlainOf(Forward.PeeledCell(m, v.forward));
    var w := v.(forward := v.forward.(pos := v.forward.pos + |m.data|), heard := v.heard + PlainFrame(p));
    if tag(w.heard) != m.digest then (w, Err(DigestMismatch))
    else if p.command == Begin && !isText(p.data) then (w, Err(DestinationNotText))
    else
      var a := Answered(circuitId, tag, w, p, o);
      (a.view, Ok(a))
  }

  class ExitHandler {
    const circuitId: u32
    const relay: T.Relay
    const tag: TagFn
    var shared: ExitCrypto?
    var streams: map<u16, ES.ExitStream>

    ghost predicate Valid()
      reads this
    {
      shared != null ==>
        && shared.Valid() && shared.circuitId == circuitId
        && shared.forwardDigest.tag == tag && shared.backwardDigest.tag == tag
    }

    constructor (circuitId: u32, relay: T.Relay, tag: TagFn)
      ensures Valid() && this.circuitId == circuitId && this.relay == relay && this.tag == tag
      ensures shared == null && streams == map[]
    {
      this.circuitId, this.relay, this.tag, shared, streams := circuitId, relay, tag, null, map[];
    }

    ghost function View(): ExitView
      requires shared != null
      reads this, shared.cipher, shared.forwardDigest, shared.backwardDigest
    {
      ExitView(shared.cipher.forward, shared.forwardDigest.absorbed,
               Backward.ExitState(shared.cipher.backward, shared.backwardDigest.absorbed, None), streams)
    }

    // CREATE: ciphers as at every relay, and two fresh digests.
    method HandleCreate(env: T.Env, y: Bytes32, m: Message) returns (r: Result<Message, RelayError>)
      requires Valid()
      modifies this`shared
      ensures Valid()
      ensures match T.HandleCreate(env, relay, y, m)
              case Err(e) => r == Err(Handshake(e)) && shared == old(shared)
              case Ok((hop, created)) =>
                && r == Ok(created) && shared != null && fresh(shared)
                && View() == ExitView(hop.forward, [], Backward.ExitState(hop.backward, [], None), streams)
    {
      var answer := T.HandleCreate(env, relay, y, m);
      if answer.Err? {
        return Err(Handshake(answer.error));
      }
      var reply := T.Reply(env, relay, m.data[..32], y);
      var cipher := new CipherPair(reply.key, env.ctr);
      shared := new ExitCrypto(circuitId, cipher, tag);
      r := Ok(CircuitMessage(m.circuitId, Created, reply.Y + reply.auth));
    }

    // Seal an END that the connection task will write.
    method SealEnd(streamId: u16, data: seq<byte>) returns (m: Message)
      requires Valid() && shared != null
      modifies shared.cipher, shared.backwardDigest
      ensures var v, e := old(View()), Plain(streamId, End, data);
              && m == Backward.SealedCell(circuitId, tag, v.out.layer, v.out.digest, e)
              && View() == v.(out := Backward.Sealed(v.out, e))
    {
      hide XorStream, Frame;
      m := shared.Seal(Plain(streamId, End, data));
    }

    method HandleBegin(p: Plain, o: ES.Outcome, writer: CellStream, padding: seq<byte>)
      returns (r: Option<Message>)
      requires Valid() && shared != null && p.command == Begin
      requires |padding| == MAX_PAYLOAD
      modifies this`streams, shared.cipher, shared.backwardDigest, writer
      ensures Valid() && shared == old(shared)
      ensures var a := Answered(circuitId, tag, old(View()), p, o);
              && View() == a.view && r == a.reply
              && writer.bytes == old(writer.bytes)
                   + (if a.written.Some? then Layout(a.written.value, padding) else [])
    {
      hide XorStream, Frame, Layout;
      match o
      case Works =>
        var connected := shared.Seal(Plain(p.streamId, Connected, []));
        var written := writer.Write(connected, padding);
        streams := streams[p.streamId := ES.ExitStream([], true)];
        r := None;
      case Fails(text) =>
        var m := SealEnd(p.streamId, text);
        r := Some(m);
    }

    method HandleData(p: Plain, o: ES.Outcome) returns (r: Option<Message>)
      requires Valid() && shared != null && p.command == Data
      modifies this`streams, shared.cipher, shared.backwardDigest
      ensures Valid() && shared == old(shared)
      ensures var a := Answered(circuitId, tag, old(View()), p, o);
              View() == a.view && r == a.reply && a.written == None
    {
      hide XorStream, Frame;
      if p.streamId in streams {
        var s := streams[p.streamId];
        if s.open && o.Works? {
          streams := streams[p.streamId := s.(queue := s.queue + p.data)];
          return None;
        }
        streams := streams[p.streamId := s.(open := false)];
        var m := SealEnd(p.streamId, ES.DESTINATION_CLOSED);
        return Some(m);
      }
      var m := SealEnd(p.streamId, ES.STREAM_NOT_FOUND);
      r := Some(m);
    }

    method HandleEnd(p: Plain) returns (r: Option<Message>)
      requires Valid() && shared != null && p.command == End
      modifies this`streams, shared.cipher, shared.backwardDigest
      ensures Valid() && shared == old(shared)
      ensures forall o :: var a := Answered(circuitId, tag, old(View()), p, o);
              View() == a.view && r == a.reply && a.written == None
    {
      hide XorStream, Frame;
      streams := streams - {p.streamId};
      var m := SealEnd(p.streamId, []);
      r := Some(m);
    }

    // BEGIN, DATA and END.
    method HandleStreamCell(m: Message, o: ES.Outcome, isText: TextTest, writer: CellStream, padding: seq<byte>)
      returns (r: Result<Option<Message>, RelayError>)
      requires Valid() && m.command in {Begin, Data, End}
      requires |padding| == MAX_PAYLOAD
      modifies this`streams, writer
      modifies if shared == null then {} else {shared.cipher, shared.forwardDigest, shared.backwardDigest}
      ensures Valid() && shared == old(shared)
      ensures shared == null ==> r == Err(NotEstablished)
      ensures shared != null ==>
                var (view, answer) := ExitHandles(circuitId, tag, isText, old(View()), m, o);
                && View() == view
                && match answer
                   case Err(e) => r == Err(e) && writer.bytes == old(writer.bytes)
                   case Ok(a) =>
                     && r == Ok(a.reply)
                     && writer.bytes == old(writer.bytes)
                          + (if a.written.Some? then Layout(a.written.value, padding) else [])
    {
      hide XorStream, Frame, Layout, ES.StreamsAfter, ES.ReplyTo, Answered;
      if shared == null {
        return Err(NotEstablished);
      }
      var plain := shared.Open(m);
      if plain == None {
        return Err(DigestMismatch);
      }
      var p := plain.value;
      if p.command == Begin && !isText(p.data) {
        return Err(DestinationNotText);
      }
      var reply: Option<Message>;
      if p.command == Begin {
        reply := HandleBegin(p, o, writer, padding);
      } else if p.command == Data {
        reply := HandleData(p, o);
      } else {
        reply := HandleEnd(p);
      }
      r := Ok(reply);
    }

    method Close()
      modifies this`shared, this`streams
      ensures shared == null && streams == map[] && Valid()
    {
      shared, streams := null, map[];
    }

    // Dispatch. Circuit-level commands other than CREATE, DESTROY and padding are errors that
    // leave everything as it was; in particular an exit never extends.
    method HandleMessage(env: T.Env, y: Bytes32, m: Message, o: ES.Outcome, isText: TextTest,
                         writer: CellStream, padding: seq<byte>) returns (r: Result<Option<Message>, RelayError>)
      requires Valid() && |padding| == MAX_PAYLOAD
      modifies this`shared, this`streams, writer
      modifies if shared == null then {} else {shared.cipher, shared.forwardDigest, shared.backwardDigest}
      ensures Valid()
      ensures m.command == Create ==>
                match T.HandleCreate(env, relay, y, m)
                case Err(e) => r == Err(Handshake(e)) && shared == old(shared)
                case Ok((hop, created)) =>
                  && r == Ok(Some(created)) && shared != null
                  && View() == ExitView(hop.forward, [], Backward.ExitState(hop.backward, [], None), streams)
      ensures m.command == Destroy ==> r == Ok(None) && shared == null && streams == map[]
      ensures m.command !in {Begin, Data, End} ==> writer.bytes == old(writer.bytes)
      ensures m.command in {Padding, Created, Extend, Extended, Connected} ==>
                && r == (if m.command == Padding then Ok(None) else Err(UnexpectedCommand(m.command)))
                && shared == old(shared) && streams == old(streams)
                && (shared != null ==> View() == old(View()))
      ensures m.command in {Begin, Data, End} ==>
                && shared == old(shared)
                && (shared == null ==> r == Err(NotEstablished))
                && (shared != null ==>
                      var (view, answer) := ExitHandles(circuitId, tag, isText, old(View()), m, o);
                      && View() == view
                      && r == (match answer case Err(e) => Err(e) case Ok(a) => Ok(a.reply))
                      && writer.bytes == old(writer.bytes)
                           + (if answer.Ok? && answer.value.written.Some?
                              then Layout(answer.value.written.value, padding) else []))
    {
      hide ExitHandles, Layout, T.HandleCreate;
      match m.command
      case Create =>
        var created := HandleCreate(env, y, m);
        r := Answer(created);
      case Begin => r := HandleStreamCell(m, o, isText, writer, padding);
      case Data => r := HandleStreamCell(m, o, isText, writer, padding);
      case End => r := HandleStreamCell(m, o, isText, writer, padding);
      case Destroy =>
        Close();
        r := Ok(None);
      case Padding => r := Ok(None);
      case _ => r := Err(UnexpectedCommand(m.command));
    }
  }
}
