// What the directory knows about a relay (services/common/src/types.rs).
module Directory {
  import opened Bytes
  import opened Wrappers
  import opened Cell
  import opened Ntor
  import opened WeightedSampling

  type Segments = s: seq<u16> | |s| == 8 witness [0, 0, 0, 0, 0, 0, 0, 0]

  datatype Ip = V4(a: byte, b: byte, c: byte, d: byte) | V6(segments: Segments)

  // 127.0.0.0/8 and ::1.
  predicate Loopback(ip: Ip) {
    match ip
    case V4(a, _, _, _) => a == 127
    case V6(segments) => segments == [0, 0, 0, 0, 0, 0, 0, 1]
  }

  datatype Address = Address(ip: Ip, port: u16)

  datatype NodeType = EntryNode | MiddleNode | ExitNode

  datatype Descriptor = Descriptor(
    nodeId: string, nodeType: NodeType, address: Address, publicKey: Bytes32, fingerprint: seq<byte>,
    bandwidth: u64, operatorId: Option<string>)

  function Bandwidths(nodes: seq<Descriptor>): (w: seq<u64>)
    ensures |w| == |nodes|
  {
    seq(|nodes|, i requires 0 <= i < |nodes| => nodes[i].bandwidth)
  }

  ghost predicate DistinctIds(nodes: seq<Descriptor>) {
    forall i, j :: 0 <= i < j < |nodes| ==> nodes[i].nodeId != nodes[j].nodeId
  }
}
