// The ntor handshake of CREATE and EXTEND (services/common/src/crypto.rs). X25519 and
// HMAC-SHA256 are parameters; what is assumed of them is said where it is needed.
module Ntor {
  import opened Bytes
  import opened Wrappers
  import opened Crypto

  type Bytes32 = s: seq<byte> | |s| == 32 witness seq(32, _ => 0)

  datatype Primitives = Primitives(
    hmac: (seq<byte>, seq<byte>) -> Bytes32,  // key, data
    dh: (Bytes32, Bytes32) -> Bytes32,        // secret, public
    publicKey: Bytes32 -> Bytes32)            // secret

  // Both ends of an exchange reach the same secret (section 6.1 of RFC 7748).
  ghost predicate Commutes(p: Primitives) {
    forall a: Bytes32, b: Bytes32 :: p.dh(a, p.publicKey(b)) == p.dh(b, p.publicKey(a))
  }

  function Ascii(s: string): seq<byte> {
    seq(|s|, i requires 0 <= i < |s| => (s[i] as int) % 256)
  }

  const PROTOID := Ascii("ntor-curve25519-sha256-1")
  const T_KEY := PROTOID + Ascii(":key_extract")
  const T_VERIFY := PROTOID + Ascii(":verify")
  const T_MAC := PROTOID + Ascii(":mac")
  const M_EXPAND := PROTOID + Ascii(":key_expand")

  // exp1 | exp2 | B | X | Y | PROTOID
  function SecretInput(exp1: Bytes32, exp2: Bytes32, B: Bytes32, X: Bytes32, Y: Bytes32): seq<byte> {
    exp1 + (exp2 + (B + (X + (Y + PROTOID))))
  }

  // verify | B | Y | X | PROTOID | "Server"
  function AuthInput(verify: Bytes32, B: Bytes32, Y: Bytes32, X: Bytes32): seq<byte> {
    verify + (B + (Y + (X + (PROTOID + Ascii("Server")))))
  }

  function ExpandKeySeed(p: Primitives, keySeed: Bytes32): SessionKey {
    var material := p.hmac(M_EXPAND, keySeed);
    SessionKey(material[..16], material[16..])
  }

  function KeyFor(p: Primitives, secretInput: seq<byte>): SessionKey {
    ExpandKeySeed(p, p.hmac(T_KEY, secretInput))
  }

  function AuthFor(p: Primitives, secretInput: seq<byte>, B: Bytes32, Y: Bytes32, X: Bytes32): Bytes32 {
    p.hmac(T_MAC, AuthInput(p.hmac(T_VERIFY, secretInput), B, Y, X))
  }

  datatype ServerReply = ServerReply(Y: Bytes32, auth: Bytes32, key: SessionKey)

  function ServerSecrets(p: Primitives, b: Bytes32, B: Bytes32, X: Bytes32, y: Bytes32): seq<byte> {
    SecretInput(p.dh(y, X), p.dh(b, X), B, X, p.publicKey(y))
  }

  // The relay, with static secret b, static public B, and the ephemeral secret y it drew.
  function Server(p: Primitives, b: Bytes32, B: Bytes32, X: Bytes32, y: Bytes32): ServerReply {
    var si := ServerSecrets(p, b, B, X, y);
    ServerReply(p.publicKey(y), AuthFor(p, si, B, p.publicKey(y), X), KeyFor(p, si))
  }

  datatype HandshakeError = HandshakeAuthFailed

  function ClientSecrets(p: Primitives, x: Bytes32, X: Bytes32, B: Bytes32, Y: Bytes32): seq<byte> {
    SecretInput(p.dh(x, Y), p.dh(x, B), B, X, Y)
  }

  // The client, with ephemeral secret x and public X, told the relay's B and given Y and auth.
  function Client(p: Primitives, x: Bytes32, X: Bytes32, B: Bytes32, Y: Bytes32, auth: Bytes32)
    : Result<SessionKey, HandshakeError>
  {
    var si := ClientSecrets(p, x, X, B, Y);
    if auth != AuthFor(p, si, B, Y, X) then Err(HandshakeAuthFailed) else Ok(KeyFor(p, si))
  }

  // With matching key pairs the client accepts and both ends hold the same session key.
  lemma {:induction false} HonestHandshakeAgrees(p: Primitives, b: Bytes32, x: Bytes32, y: Bytes32)
    requires Commutes(p)
    ensures var B, X := p.publicKey(b), p.publicKey(x);
            var reply := Server(p, b, B, X, y);
            Client(p, x, X, B, reply.Y, reply.auth) == Ok(reply.key)
  {
    var B, X, Y := p.publicKey(b), p.publicKey(x), p.publicKey(y);
    assert p.dh(x, Y) == p.dh(y, X);
    assert p.dh(x, B) == p.dh(b, X);
  }

  // Two inputs under one key give different tags, unless they are the same input.
  ghost predicate NoCollision(p: Primitives, key: seq<byte>, m: seq<byte>, n: seq<byte>) {
    p.hmac(key, m) == p.hmac(key, n) ==> m == n
  }

  lemma {:induction false} SecretInputInjective(
    exp1: Bytes32, exp2: Bytes32, B: Bytes32, X: Bytes32, Y: Bytes32,
    exp1': Bytes32, exp2': Bytes32, B': Bytes32, X': Bytes32, Y': Bytes32)
    requires SecretInput(exp1, exp2, B, X, Y) == SecretInput(exp1', exp2', B', X', Y')
    ensures exp1 == exp1' && exp2 == exp2' && B == B' && X == X' && Y == Y'
  {
    var yy, yy' := Y + PROTOID, Y' + PROTOID;
    var xx, xx' := X + yy, X' + yy';
    var bb, bb' := B + xx, B' + xx';
    FieldsSplitUniquely(exp1, exp2 + bb, exp1', exp2' + bb');
    FieldsSplitUniquely(exp2, bb, exp2', bb');
    FieldsSplitUniquely(B, xx, B', xx');
    FieldsSplitUniquely(X, yy, X', yy');
    FieldsSplitUniquely(Y, PROTOID, Y', PROTOID);
  }

  lemma {:induction false} AuthInputInjective(v: Bytes32, B: Bytes32, Y: Bytes32, X: Bytes32,
                           v': Bytes32, B': Bytes32, Y': Bytes32, X': Bytes32)
    requires AuthInput(v, B, Y, X) == AuthInput(v', B', Y', X')
    ensures v == v' && B == B' && Y == Y' && X == X'
  {
    var end := PROTOID + Ascii("Server");
    var xx, xx' := X + end, X' + end;
    var yy, yy' := Y + xx, Y' + xx';
    FieldsSplitUniquely(v, B + yy, v', B' + yy');
    FieldsSplitUniquely(B, yy, B', yy');
    FieldsSplitUniquely(Y, xx, Y', xx');
    FieldsSplitUniquely(X, end, X', end);
  }

  // What AUTH authenticates: a client accepts a tag made by some relay exactly when the two
  // agree on B, X and Y and on both Diffie-Hellman secrets, and then they share the session key.
  lemma {:induction false} AcceptanceMeansAgreement(
    p: Primitives,
    b: Bytes32, B': Bytes32, X': Bytes32, y: Bytes32,  // the relay's run
    x: Bytes32, X: Bytes32, B: Bytes32, Y: Bytes32)    // the client's run
    requires var si, si' := ClientSecrets(p, x, X, B, Y), ServerSecrets(p, b, B', X', y);
             && NoCollision(p, T_VERIFY, si, si')
             && NoCollision(p, T_MAC, AuthInput(p.hmac(T_VERIFY, si), B, Y, X),
                            AuthInput(p.hmac(T_VERIFY, si'), B', p.publicKey(y), X'))
    ensures var reply := Server(p, b, B', X', y);
            var accepted := Client(p, x, X, B, Y, reply.auth);
            && (accepted.Ok? <==>
                  B == B' && X == X' && Y == reply.Y && p.dh(x, Y) == p.dh(y, X') && p.dh(x, B) == p.dh(b, X'))
            && (accepted.Ok? ==> accepted.value == reply.key)
  {
    var si, si' := ClientSecrets(p, x, X, B, Y), ServerSecrets(p, b, B', X', y);
    var reply := Server(p, b, B', X', y);
    if Client(p, x, X, B, Y, reply.auth).Ok? {
      AuthInputInjective(p.hmac(T_VERIFY, si), B, Y, X, p.hmac(T_VERIFY, si'), B', reply.Y, X');
      SecretInputInjective(p.dh(x, Y), p.dh(x, B), B, X, Y, p.dh(y, X'), p.dh(b, X'), B', X', reply.Y);
    }
  }
}
