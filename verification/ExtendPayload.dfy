// The payload of an EXTEND cell: address, zero, the client's ephemeral key, zero, and the TLS
// fingerprint of the next hop. Built by the client (services/tor-client/src/core/circuit.rs) and
// parsed by entry and middle relays (services/relay-node/src/circuit/entry.rs, middle.rs).
module ExtendPayload {
  import opened Bytes
  import opened Wrappers
  import opened Ntor

  datatype Extend = Extend(address: seq<byte>, clientKey: Bytes32, fingerprint: seq<byte>)

  datatype ExtendError =
    | PayloadTooShort
    | MissingAddressSeparator
    | AddressNotText
    | TooShortForKey
    | MissingFingerprintSeparator
    | FingerprintNotText

  function Build(e: Extend): (payload: seq<byte>)
    ensures |payload| == |e.address| + 34 + |e.fingerprint|
  {
    e.address + [0] + e.clientKey + [0] + e.fingerprint
  }

  // Position of the first zero byte at or after `from`, or the length if there is none.
  function FirstZero(bytes: seq<byte>, from: nat): (k: nat)
    requires from <= |bytes|
    ensures from <= k <= |bytes|
    ensures forall j :: from <= j < k ==> bytes[j] != 0
    ensures k < |bytes| ==> bytes[k] == 0
    decreases |bytes| - from
  {
    if from == |bytes| || bytes[from] == 0 then from else FirstZero(bytes, from + 1)
  }

  // The checks of both relays, in their order.
  function Parse(isText: TextTest, payload: seq<byte>): (r: Result<Extend, ExtendError>) {
    if |payload| < 33 then Err(PayloadTooShort) else
    var addressEnd := FirstZero(payload, 0);
    if addressEnd == |payload| then Err(MissingAddressSeparator) else
    if !isText(payload[..addressEnd]) then Err(AddressNotText) else
    var keyStart := addressEnd + 1;
    var keyEnd := keyStart + 32;
    if keyEnd > |payload| then Err(TooShortForKey) else
    if keyEnd == |payload| || payload[keyEnd] != 0 then Err(MissingFingerprintSeparator) else
    if !isText(payload[keyEnd + 1..]) then Err(FingerprintNotText) else
    Ok(Extend(payload[..addressEnd], payload[keyStart..keyEnd], payload[keyEnd + 1..]))
  }

  ghost predicate ZeroFree(s: seq<byte>) {
    forall i :: 0 <= i < |s| ==> s[i] != 0
  }

  // The parser undoes the builder for every key, zero bytes included; a zero in the address
  // is the one thing that breaks the round trip.
  lemma {:induction false} ParseAfterBuild(isText: TextTest, e: Extend)
    requires isText(e.address) && isText(e.fingerprint)
    ensures Parse(isText, Build(e)) == Ok(e) <==> ZeroFree(e.address)
  {
    var payload, n := Build(e), |e.address|;
    if ZeroFree(e.address) {
      assert payload[n] == 0;
      assert payload[..n] == e.address;
      assert payload[n + 1..n + 33] == e.clientKey;
      assert payload[n + 33] == 0 && payload[n + 34..] == e.fingerprint;
    } else {
      var i :| 0 <= i < n && e.address[i] == 0;
      assert payload[i] == 0;
      assert FirstZero(payload, 0) <= i;
    }
  }

  // An accepted payload is the payload built from its fields, and its address is zero-free.
  lemma {:induction false} BuildAfterParse(isText: TextTest, payload: seq<byte>)
    requires Parse(isText, payload).Ok?
    ensures Build(Parse(isText, payload).value) == payload
    ensures ZeroFree(Parse(isText, payload).value.address)
  {
    var k := FirstZero(payload, 0);
    assert payload == payload[..k] + [payload[k]] + payload[k + 1..k + 33] + [payload[k + 33]] + payload[k + 34..];
  }

  // So the accepted payloads are exactly the built ones with text fields and a zero-free address.
  lemma {:induction false} AcceptedExactlyBuilt(isText: TextTest, payload: seq<byte>)
    ensures Parse(isText, payload).Ok? <==>
            exists e: Extend :: isText(e.address) && isText(e.fingerprint) && ZeroFree(e.address) && Build(e) == payload
  {
    if Parse(isText, payload).Ok? {
      BuildAfterParse(isText, payload);
    }
    forall e: Extend | isText(e.address) && isText(e.fingerprint) && ZeroFree(e.address) && Build(e) == payload
      ensures Parse(isText, payload).Ok?
    {
      ParseAfterBuild(isText, e);
    }
  }
}
