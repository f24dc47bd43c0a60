// The fixed-size cell that every hop reads and writes (services/common/src/protocol.rs).
module Cell {
  import opened Bytes
  import opened Wrappers

  type u16 = n: nat | n < 0x1_0000
  type u32 = n: nat | n < 0x1_0000_0000
  type Digest = s: seq<byte> | |s| == 4 witness [0, 0, 0, 0]

  const CELL_SIZE := 514
  const DATA_START := 17
  const MAX_PAYLOAD := 497
  const NO_DIGEST: Digest := [0, 0, 0, 0]

  datatype Command =
    | Padding | Create | Created | Extend | Extended | Destroy
    | Begin | Connected | Data | End

  datatype Message = Message(circuitId: u32, streamId: u16, command: Command, data: seq<byte>, digest: Digest)

  datatype CellError =
    | TooShort(length: nat)
    | BadLengthField(length: nat)
    | UnknownCommand(code: byte)
    | PayloadTooLong(length: nat)

  datatype WriteError = PayloadTooLarge(size: nat)

  function CommandCode(c: Command): byte {
    match c
    case Padding => 0x00
    case Create => 0x01
    case Created => 0x02
    case Extend => 0x03
    case Extended => 0x04
    case Destroy => 0x05
    case Begin => 0x10
    case Connected => 0x11
    case Data => 0x12
    case End => 0x13
  }

  // The codes are the only bytes accepted, each naming its own command.
  function CommandOf(code: byte): (c: Option<Command>)
    ensures forall d: Command :: c == Some(d) <==> CommandCode(d) == code
  {
    match code
    case 0x00 => Some(Padding)
    case 0x01 => Some(Create)
    case 0x02 => Some(Created)
    case 0x03 => Some(Extend)
    case 0x04 => Some(Extended)
    case 0x05 => Some(Destroy)
    case 0x10 => Some(Begin)
    case 0x11 => Some(Connected)
    case 0x12 => Some(Data)
    case 0x13 => Some(End)
    case _ => None
  }

  // A circuit-level message: stream 0 and no digest.
  function CircuitMessage(circuitId: u32, command: Command, data: seq<byte>): Message {
    Message(circuitId, 0, command, data, NO_DIGEST)
  }

  function Truncated(data: seq<byte>): (t: seq<byte>)
    ensures |t| <= MAX_PAYLOAD
  {
    if |data| <= MAX_PAYLOAD then data else data[..MAX_PAYLOAD]
  }

  // ----- layout of a cell -----

  function Header(m: Message): (h: seq<byte>)
    ensures |h| == DATA_START
  {
    Be32(CELL_SIZE - 4) + Be32(m.circuitId) + Be16(m.streamId) + [CommandCode(m.command)]
    + Be16(|Truncated(m.data)|) + m.digest
  }

  // The cell, with the random bytes behind the payload as an argument.
  function Layout(m: Message, padding: seq<byte>): (cell: seq<byte>)
    requires |padding| == MAX_PAYLOAD - |Truncated(m.data)|
    ensures |cell| == CELL_SIZE
  {
    Header(m) + Truncated(m.data) + padding
  }

  // Serialise into a zeroed buffer, field by field, as the program does.
  method ToBytes(m: Message, padding: seq<byte>) returns (cell: array<byte>)
    requires |padding| == MAX_PAYLOAD - |Truncated(m.data)|
    ensures fresh(cell)
    ensures cell[..] == Layout(m, padding)
  {
    cell := new byte[CELL_SIZE](_ => 0);
    var dataLen := if |m.data| <= MAX_PAYLOAD then |m.data| else MAX_PAYLOAD;
    var at := WriteHeader(cell, m, dataLen);
    at := CopyInto(cell, at, m.data[..dataLen]);
    if dataLen < MAX_PAYLOAD {
      at := CopyInto(cell, at, padding);
    }
    assert cell[..at] == cell[..];
  }

  method WriteHeader(cell: array<byte>, m: Message, dataLen: nat) returns (at: nat)
    requires cell.Length == CELL_SIZE && dataLen == |Truncated(m.data)|
    modifies cell
    ensures at == DATA_START && cell[..at] == Header(m)
  {
    at := CopyInto(cell, 0, Be32(CELL_SIZE - 4));
    at := CopyInto(cell, at, Be32(m.circuitId));
    at := CopyInto(cell, at, Be16(m.streamId));
    at := CopyInto(cell, at, [CommandCode(m.command)]);
    at := CopyInto(cell, at, Be16(dataLen));
    at := CopyInto(cell, at, m.digest);
  }

  method CopyInto(cell: array<byte>, at: nat, src: seq<byte>) returns (end: nat)
    requires at + |src| <= cell.Length
    modifies cell
    ensures end == at + |src|
    ensures cell[..end] == old(cell[..at]) + src
    ensures cell[end..] == old(cell[end..])
  {
    end := at;
    for i := 0 to |src|
      invariant end == at + i
      invariant cell[..end] == old(cell[..at]) + src[..i]
      invariant cell[end..] == old(cell[at + i..])
    {
      cell[end] := src[i];
      end := end + 1;
    }
  }

  // Parse the first cell of `bytes`.
  function FromBytes(bytes: seq<byte>): (r: Result<Message, CellError>)
  {
    if |bytes| < CELL_SIZE then Err(TooShort(|bytes|)) else
    var length := FromBe32(bytes[0..4]);
    if length != CELL_SIZE - 4 then Err(BadLengthField(length)) else
    var circuitId := FromBe32(bytes[4..8]);
    var streamId := FromBe16(bytes[8..10]);
    var command := CommandOf(bytes[10]);
    if command.None? then Err(UnknownCommand(bytes[10])) else
    var payloadLen := FromBe16(bytes[11..13]);
    if payloadLen > MAX_PAYLOAD then Err(PayloadTooLong(payloadLen)) else
    Ok(Message(circuitId, streamId, command.value, bytes[DATA_START..DATA_START + payloadLen], bytes[13..17]))
  }

  // Decoding inverts encoding, up to the truncation of an oversize payload.
  lemma {:induction false} DecodeAfterEncode(m: Message, padding: seq<byte>, rest: seq<byte>)
    requires |padding| == MAX_PAYLOAD - |Truncated(m.data)|
    ensures FromBytes(Layout(m, padding) + rest) == Ok(m.(data := Truncated(m.data)))
    ensures |m.data| <= MAX_PAYLOAD ==> FromBytes(Layout(m, padding) + rest) == Ok(m)
  {
    var c := Layout(m, padding) + rest;
    var n := |Truncated(m.data)|;
    assert c[0..4] == Be32(CELL_SIZE - 4);
    assert c[4..8] == Be32(m.circuitId);
    assert c[8..10] == Be16(m.streamId);
    assert c[10] == CommandCode(m.command);
    assert c[11..13] == Be16(n);
    assert c[13..17] == m.digest;
    assert c[DATA_START..DATA_START + n] == Truncated(m.data);
    BigEndianRoundTrips(CELL_SIZE - 4);
    BigEndianRoundTrips(m.circuitId);
    BigEndianRoundTrips(m.streamId);
    BigEndianRoundTrips(n);
  }

  // Every accepted cell is the encoding of what it decodes to, its own tail being the padding.
  lemma {:induction false} EncodeAfterDecode(bytes: seq<byte>)
    requires FromBytes(bytes).Ok?
    ensures var m := FromBytes(bytes).value;
            |m.data| <= MAX_PAYLOAD
            && bytes[..CELL_SIZE] == Layout(m, bytes[DATA_START + |m.data|..CELL_SIZE])
  {
    var m := FromBytes(bytes).value;
    var n := |m.data|;
    assert Header(m) == bytes[0..4] + bytes[4..8] + bytes[8..10] + [bytes[10]] + bytes[11..13] + bytes[13..17];
    assert Header(m) == bytes[..DATA_START];
    assert bytes[..CELL_SIZE] == bytes[..DATA_START] + bytes[DATA_START..DATA_START + n]
           + bytes[DATA_START + n..CELL_SIZE];
  }

  // So a string of bytes is accepted exactly when its first cell is the encoding of some message.
  lemma {:induction false} AcceptedExactlyEncodings(bytes: seq<byte>)
    ensures FromBytes(bytes).Ok? <==>
            |bytes| >= CELL_SIZE
            && exists m: Message, padding: seq<byte> ::
                 |padding| == MAX_PAYLOAD - |Truncated(m.data)| && bytes[..CELL_SIZE] == Layout(m, padding)
  {
    if FromBytes(bytes).Ok? {
      EncodeAfterDecode(bytes);
    } else if |bytes| >= CELL_SIZE {
      forall m: Message, padding: seq<byte>
        | |padding| == MAX_PAYLOAD - |Truncated(m.data)| && bytes[..CELL_SIZE] == Layout(m, padding)
        ensures false
      {
        assert bytes == Layout(m, padding) + bytes[CELL_SIZE..];
        DecodeAfterEncode(m, padding, bytes[CELL_SIZE..]);
      }
    }
  }

  // ----- cells on a byte stream -----

  datatype ReadOutcome =
    | Got(message: Message)
    | Closed
    | Malformed(error: CellError)

  // What one read makes of the bytes that will ever arrive, and what it leaves unread. A short
  // read at the end of the stream consumes what is there and reports a close.
  function ReadStep(incoming: seq<byte>): (r: (ReadOutcome, seq<byte>))
    ensures |incoming| >= CELL_SIZE ==> |r.1| == |incoming| - CELL_SIZE
  {
    if |incoming| < CELL_SIZE then (Closed, [])
    else
      match FromBytes(incoming[..CELL_SIZE])
      case Ok(m) => (Got(m), incoming[CELL_SIZE..])
      case Err(e) => (Malformed(e), incoming[CELL_SIZE..])
  }

  // One direction of a connection.
  class CellStream {
    var bytes: seq<byte>

    constructor ()
      ensures bytes == []
    {
      bytes := [];
    }

    method Write(m: Message, padding: seq<byte>) returns (r: Result<(), WriteError>)
      requires |padding| == MAX_PAYLOAD - |Truncated(m.data)|
      modifies this
      ensures |m.data| <= MAX_PAYLOAD ==> r == Ok(()) && bytes == old(bytes) + Layout(m, padding)
      ensures |m.data| > MAX_PAYLOAD ==> r == Err(PayloadTooLarge(|m.data|)) && bytes == old(bytes)
    {
      if |m.data| > MAX_PAYLOAD {
        return Err(PayloadTooLarge(|m.data|));
      }
      var cell := ToBytes(m, padding);
      bytes := bytes + cell[..];
      r := Ok(());
    }

    method Read() returns (r: ReadOutcome)
      modifies this
      ensures (r, bytes) == ReadStep(old(bytes))
    {
      if |bytes| < CELL_SIZE {
        bytes := [];
        return Closed;
      }
      var parsed := FromBytes(bytes[..CELL_SIZE]);
      bytes := bytes[CELL_SIZE..];
      match parsed
      case Ok(m) => r := Got(m);
      case Err(e) => r := Malformed(e);
    }

    // The reader loop: take cells until the stream ends or a cell is malformed.
    method Drain() returns (messages: seq<Message>, last: ReadOutcome)
      modifies this
      ensures (messages, last) == ReadAll(old(bytes))
    {
      messages, last := [], Closed;
      var open := true;
      assert messages + ReadAll(bytes).0 == ReadAll(bytes).0;
      while open
        invariant open ==> ReadAll(old(bytes)) == (messages + ReadAll(bytes).0, ReadAll(bytes).1)
        invariant !open ==> ReadAll(old(bytes)) == (messages, last)
        decreases open, |bytes|
      {
        ghost var unread := ReadAll(bytes);
        last := Read();
        if last.Got? {
          assert messages + unread.0 == messages + [last.message] + ReadAll(bytes).0;
          messages := messages + [last.message];
        } else {
          assert messages + unread.0 == messages;
          open := false;
        }
      }
    }
  }

  function ReadAll(incoming: seq<byte>): (r: (seq<Message>, ReadOutcome))
    ensures !r.1.Got?
    decreases |incoming|
  {
    var (first, rest) := ReadStep(incoming);
    if first.Got? then
      var (more, last) := ReadAll(rest);
      ([first.message] + more, last)
    else ([], first)
  }

  // The bytes of a list of written cells, each with its own padding.
  ghost predicate Writable(messages: seq<Message>, paddings: seq<seq<byte>>) {
    && |paddings| == |messages|
    && forall k :: 0 <= k < |messages| ==>
         |messages[k].data| <= MAX_PAYLOAD && |paddings[k]| == MAX_PAYLOAD - |messages[k].data|
  }

  ghost function WrittenBytes(messages: seq<Message>, paddings: seq<seq<byte>>): seq<byte>
    requires Writable(messages, paddings)
  {
    if messages == [] then []
    else Layout(messages[0], paddings[0]) + WrittenBytes(messages[1..], paddings[1..])
  }

  // A FIFO byte stream carries messages: whatever was written is read back in order, and a
  // torn last cell reads as a close.
  lemma {:induction false} WrittenCellsReadBack(messages: seq<Message>, paddings: seq<seq<byte>>, torn: seq<byte>)
    requires Writable(messages, paddings)
    requires |torn| < CELL_SIZE
    ensures ReadAll(WrittenBytes(messages, paddings) + torn) == (messages, Closed)
  {
    hide Layout, FromBytes;
    if messages != [] {
      var cell := Layout(messages[0], paddings[0]);
      var rest := WrittenBytes(messages[1..], paddings[1..]) + torn;
      assert WrittenBytes(messages, paddings) + torn == cell + rest;
      assert (cell + rest)[..CELL_SIZE] == cell + [] && (cell + rest)[CELL_SIZE..] == rest;
      DecodeAfterEncode(messages[0], paddings[0], []);
      WrittenCellsReadBack(messages[1..], paddings[1..], torn);
      assert messages == [messages[0]] + messages[1..];
    }
  }
}
