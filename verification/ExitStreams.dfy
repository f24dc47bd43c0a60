// What the exit does with the cells it has decrypted and verified: its table of streams, and the
// replies it seals (services/relay-node/src/circuit/exit.rs:135-224, :399-460, :495-524).
module ExitStreams {
  import opened Bytes
  import opened Wrappers
  import opened Cell
  import opened Sequences
  import opened Transcript

  // A stream at the exit: the bytes queued for its destination, and whether its worker still takes
  // any. Once that ends, its channel stays closed.
  datatype ExitStream = ExitStream(queue: seq<byte>, open: bool)

  // What the outside world contributes to one cell: for BEGIN, whether the connection came up (or
  // the text of the error); for DATA, whether the worker of the stream is still running.
  datatype Outcome = Works | Fails(text: seq<byte>)

  const STREAM_NOT_FOUND := Text("Stream not found")
  const DESTINATION_CLOSED := Text("Destination closed")

  function Text(s: string): seq<byte> {
    seq(|s|, i requires 0 <= i < |s| => (s[i] as int) % 256)
  }

  function StreamsAfter(streams: map<u16, ExitStream>, p: Plain, o: Outcome): map<u16, ExitStream> {
    match p.command
    case Begin => if o.Works? then streams[p.streamId := ExitStream([], true)] else streams
    case Data =>
      if p.streamId !in streams then streams
      else
        var s := streams[p.streamId];
        streams[p.streamId := if s.open && o.Works? then s.(queue := s.queue + p.data) else s.(open := false)]
    case End => streams - {p.streamId}
    case _ => streams
  }

  // The END that answers a cell, if any; the connection task writes it later.
  function ReplyTo(streams: map<u16, ExitStream>, p: Plain, o: Outcome): Option<Plain> {
    match p.command
    case Begin => if o.Works? then None else Some(Plain(p.streamId, End, o.text))
    case Data =>
      if p.streamId !in streams then Some(Plain(p.streamId, End, STREAM_NOT_FOUND))
      else if streams[p.streamId].open && o.Works? then None
      else Some(Plain(p.streamId, End, DESTINATION_CLOSED))
    case End => Some(Plain(p.streamId, End, []))
    case _ => None
  }

  // The table after a list of cells, cell i meeting outcome i.
  function Streams(cells: seq<Plain>, outcomes: nat -> Outcome): map<u16, ExitStream> {
    if cells == [] then map[]
    else StreamsAfter(Streams(Init(cells), outcomes), Last(cells), outcomes(|cells| - 1))
  }

  // ----- the bytes of one stream -----

  // The payload of the DATA cells of one stream.
  function DataOf(cells: seq<Plain>, id: u16): seq<byte> {
    if cells == [] then []
    else if Last(cells).streamId == id && Last(cells).command == Data then DataOf(Init(cells), id) + Last(cells).data
    else DataOf(Init(cells), id)
  }

  // No cell of the stream comes before its BEGIN, and it has at most one.
  ghost predicate StartsOnce(cells: seq<Plain>, id: u16) {
    forall i :: 0 <= i < |cells| && cells[i].streamId == id && cells[i].command == Begin ==>
      forall j :: 0 <= j < i ==> cells[j].streamId != id
  }

  lemma {:induction false} DataOfAppend(cells: seq<Plain>, p: Plain, id: u16)
    ensures DataOf(cells + [p], id)
         == if p.streamId == id && p.command == Data then DataOf(cells, id) + p.data else DataOf(cells, id)
  {
    assert Init(cells + [p]) == cells;
  }

  lemma {:induction false} DataOfPrefix(cells: seq<Plain>, n: nat, id: u16)
    requires n <= |cells|
    ensures DataOf(cells[..n], id) <= DataOf(cells, id)
    decreases |cells|
  {
    if n < |cells| {
      assert Init(cells)[..n] == cells[..n];
      DataOfPrefix(Init(cells), n, id);
    } else {
      assert cells[..n] == cells;
    }
  }

  lemma {:induction false} NoDataOfAbsentStream(cells: seq<Plain>, id: u16)
    requires forall i :: 0 <= i < |cells| ==> cells[i].streamId != id
    ensures DataOf(cells, id) == []
  {
    if cells != [] {
      NoDataOfAbsentStream(Init(cells), id);
    }
  }

  // The queue of a stream in the table is a prefix of the data sent for it, and all of it while
  // the stream's task runs.
  lemma {:induction false} QueueIsStreamData(cells: seq<Plain>, outcomes: nat -> Outcome, id: u16)
    requires StartsOnce(cells, id)
    requires id in Streams(cells, outcomes)
    ensures var s := Streams(cells, outcomes)[id];
            s.queue <= DataOf(cells, id) && (s.open ==> s.queue == DataOf(cells, id))
  {
    var rest, p := Init(cells), Last(cells);
    var before := Streams(rest, outcomes);
    assert StartsOnce(rest, id);
    if p.streamId == id && p.command == Begin {
      if outcomes(|cells| - 1).Works? {
        NoDataOfAbsentStream(rest, id);
      } else {
        QueueIsStreamData(rest, outcomes, id);
      }
    } else {
      QueueIsStreamData(rest, outcomes, id);
    }
  }
}
