/**
  The wire types of RFC 4251, section 5, as the forwarded agent reads and writes them, and the
  exact recognition of the data a user authentication request asks to have signed.
 */
module WireCodec {
  import opened Wrappers

  type byte = x: int | 0 <= x < 256

  const U32_MODULUS: nat := 0x1_0000_0000

  /** `to_be_bytes` of the low 32 bits of `n`. */
  function U32Bytes(n: nat): (b: seq<byte>)
    ensures |b| == 4
  {
    [n / 0x100_0000 % 256, n / 0x1_0000 % 256, n / 0x100 % 256, n % 256]
  }

  function U32Value(b: seq<byte>): nat
    requires |b| == 4
  {
    (((b[0] as int) * 256 + b[1]) * 256 + b[2]) * 256 + b[3]
  }

  /** A length-prefixed string; like the source, the prefix keeps the low 32 bits of the length. */
  function StringBytes(value: seq<byte>): seq<byte> {
    U32Bytes(|value|) + value
  }

  /** The value read off the front of `s` and what is left. */
  function TakeU32(s: seq<byte>): Option<(nat, seq<byte>)> {
    if |s| < 4 then None else Some((U32Value(s[..4]), s[4..]))
  }

  function TakeString(s: seq<byte>): Option<(seq<byte>, seq<byte>)> {
    var length := TakeU32(s);
    if length.None? then None
    else if |length.value.1| < length.value.0 then None
    else Some((length.value.1[..length.value.0], length.value.1[length.value.0..]))
  }

  lemma U32RoundTrip(n: nat)
    ensures U32Value(U32Bytes(n)) == n % U32_MODULUS
  {
    var a, b, c, d := n / 0x100_0000 % 256, n / 0x1_0000 % 256, n / 0x100 % 256, n % 256;
    assert n / 0x100 == (n / 0x1_0000) * 256 + c;
    assert n / 0x1_0000 == (n / 0x100_0000) * 256 + b;
    assert n / 0x100_0000 == (n / U32_MODULUS) * 256 + a;
  }

  lemma U32BytesOfValue(b: seq<byte>)
    requires |b| == 4
    ensures U32Value(b) < U32_MODULUS && U32Bytes(U32Value(b)) == b
  {
    var n := U32Value(b);
    assert n / 0x100 == ((b[0] as int) * 256 + b[1]) * 256 + b[2];
    assert n / 0x1_0000 == (b[0] as int) * 256 + b[1];
    assert n / 0x100_0000 == b[0];
  }

  lemma TakeU32Exact(s: seq<byte>, n: nat, rest: seq<byte>)
    ensures TakeU32(s) == Some((n, rest)) <==> n < U32_MODULUS && s == U32Bytes(n) + rest
  {
    if |s| >= 4 {
      U32BytesOfValue(s[..4]);
      assert s == s[..4] + s[4..];
    }
    if n < U32_MODULUS && s == U32Bytes(n) + rest {
      U32RoundTrip(n);
      assert s[..4] == U32Bytes(n) && s[4..] == rest;
    }
  }

  /** Reading a string succeeds exactly on an encoded string followed by the rest. */
  lemma TakeStringExact(s: seq<byte>, value: seq<byte>, rest: seq<byte>)
    ensures TakeString(s) == Some((value, rest)) <==> |value| < U32_MODULUS && s == StringBytes(value) + rest
  {
    if TakeString(s) == Some((value, rest)) {
      var length := TakeU32(s).value;
      TakeU32Exact(s, length.0, length.1);
      assert length.1 == value + rest;
      assert s == StringBytes(value) + rest;
    }
    if |value| < U32_MODULUS && s == StringBytes(value) + rest {
      assert s == U32Bytes(|value|) + (value + rest);
      TakeU32Exact(s, |value|, value + rest);
    }
  }

  /** A string and, behind it, this byte. */
  function TakeStringAndByte(s: seq<byte>, b: byte): Option<(seq<byte>, seq<byte>)> {
    match TakeString(s)
    case None => None
    case Some((value, rest)) => if rest == [] || rest[0] != b then None else Some((value, rest[1..]))
  }

  lemma TakeStringAndByteExact(s: seq<byte>, b: byte, value: seq<byte>, rest: seq<byte>)
    ensures TakeStringAndByte(s, b) == Some((value, rest))
       <==> |value| < U32_MODULUS && s == StringBytes(value) + ([b] + rest)
  {
    TakeStringExact(s, value, [b] + rest);
    if TakeStringAndByte(s, b) == Some((value, rest)) {
      assert TakeString(s).value.1 == [b] + rest;
    }
  }

  /** The mutable slice the source reads from. */
  class Cursor {
    var rest: seq<byte>

    constructor (bytes: seq<byte>)
      ensures rest == bytes
    {
      rest := bytes;
    }

    method ReadU32() returns (value: Option<nat>)
      modifies this
      ensures match TakeU32(old(rest))
              case None => value == None && rest == old(rest)
              case Some(taken) => value == Some(taken.0) && rest == taken.1
    {
      if |rest| < 4 {
        return None;
      }
      value := Some(U32Value(rest[..4]));
      rest := rest[4..];
    }

    /** A string that is too short leaves the cursor behind its length prefix. */
    method ReadString() returns (value: Option<seq<byte>>)
      modifies this
      ensures match TakeString(old(rest))
              case None => value == None && rest == (if |old(rest)| < 4 then old(rest) else old(rest)[4..])
              case Some(taken) => value == Some(taken.0) && rest == taken.1
    {
      var length := ReadU32();
      if length.None? || |rest| < length.value {
        return None;
      }
      value := Some(rest[..length.value]);
      rest := rest[length.value..];
    }

    method ReadByte() returns (value: Option<byte>)
      modifies this
      ensures if |old(rest)| == 0 then value == None && rest == old(rest)
              else value == Some(old(rest)[0]) && rest == old(rest)[1..]
    {
      if |rest| == 0 {
        return None;
      }
      value := Some(rest[0]);
      rest := rest[1..];
    }
  }

  function Ascii(s: string): (b: seq<byte>)
    ensures |b| == |s|
  {
    seq(|s|, i requires 0 <= i < |s| => (s[i] as int) % 256)
  }

  const SSH_CONNECTION: seq<byte> := Ascii("ssh-connection")
  const PUBLICKEY: seq<byte> := Ascii("publickey")
  const PUBLICKEY_HOSTBOUND: seq<byte> := Ascii("publickey-hostbound-v00@openssh.com")
  const USERAUTH_REQUEST: byte := 50

  predicate Continuation(b: byte) {
    0x80 <= b <= 0xBF
  }

  /** Well-formed UTF-8 as `std::str::from_utf8` accepts it: no overlong forms, no surrogates. */
  predicate ValidUtf8(s: seq<byte>) {
    if s == [] then true
    else if s[0] < 0x80 then ValidUtf8(s[1..])
    else if 0xC2 <= s[0] <= 0xDF then
      |s| >= 2 && Continuation(s[1]) && ValidUtf8(s[2..])
    else if 0xE0 <= s[0] <= 0xEF then
      && |s| >= 3 && Continuation(s[1]) && Continuation(s[2])
      && (s[0] == 0xE0 ==> s[1] >= 0xA0) && (s[0] == 0xED ==> s[1] <= 0x9F)
      && ValidUtf8(s[3..])
    else if 0xF0 <= s[0] <= 0xF4 then
      && |s| >= 4 && Continuation(s[1]) && Continuation(s[2]) && Continuation(s[3])
      && (s[0] == 0xF0 ==> s[1] >= 0x90) && (s[0] == 0xF4 ==> s[1] <= 0x8F)
      && ValidUtf8(s[4..])
    else false
  }

  /** The fields of a request, in the order of RFC 4252, section 7; a host-bound one ends in the server's host key. */
  datatype UserauthRequest = UserauthRequest(
    session: seq<byte>,
    user: seq<byte>,
    algorithm: seq<byte>,
    key: seq<byte>,
    hostKey: Option<seq<byte>>)
  {
    predicate Encodable() {
      && |session| < U32_MODULUS && |user| < U32_MODULUS && |algorithm| < U32_MODULUS && |key| < U32_MODULUS
      && (hostKey.Some? ==> |hostKey.value| < U32_MODULUS)
    }

    function Method(): seq<byte> {
      if hostKey.Some? then PUBLICKEY_HOSTBOUND else PUBLICKEY
    }

    function Trailer(): seq<byte> {
      if hostKey.Some? then StringBytes(hostKey.value) else []
    }

    function Encode(): seq<byte> {
      StringBytes(session) + ([USERAUTH_REQUEST] + UserFields())
    }

    function UserFields(): seq<byte> {
      StringBytes(user) + (StringBytes(SSH_CONNECTION) + MethodFields())
    }

    function MethodFields(): seq<byte> {
      StringBytes(Method()) + ([1] + KeyFields())
    }

    function KeyFields(): seq<byte> {
      StringBytes(algorithm) + (StringBytes(key) + Trailer())
    }
  }

  /** The fields of a request in order, written out; the host-bound form is an extension of OpenSSH. */
  lemma RequestLayout(request: UserauthRequest)
    ensures var meth := if request.hostKey.Some? then "publickey-hostbound-v00@openssh.com" else "publickey";
            request.Encode()
            == StringBytes(request.session) + [50] + StringBytes(request.user) + StringBytes(Ascii("ssh-connection"))
               + StringBytes(Ascii(meth)) + [1] + StringBytes(request.algorithm) + StringBytes(request.key)
               + if request.hostKey.Some? then StringBytes(request.hostKey.value) else []
  {
    hide StringBytes, Ascii;
  }

  /** `data` is the signed data of a request by `user` for this key and algorithm. */
  ghost predicate IsUserauthRequest(data: seq<byte>, key: seq<byte>, algorithm: seq<byte>, user: seq<byte>) {
    ValidUtf8(user) &&
    exists request: UserauthRequest ::
      && request.Encodable() && request.Encode() == data
      && request.user == user && request.key == key && request.algorithm == algorithm
  }

  /** The request `data` decodes to, with every field required to be in place and nothing left over. */
  function Decode(data: seq<byte>): Option<UserauthRequest> {
    match TakeStringAndByte(data, USERAUTH_REQUEST)
    case None => None
    case Some((session, rest)) => DecodeUser(session, rest)
  }

  function DecodeUser(session: seq<byte>, s: seq<byte>): Option<UserauthRequest> {
    match TakeString(s)
    case None => None
    case Some((user, rest)) =>
      match TakeString(rest)
      case None => None
      case Some((service, rest')) =>
        if service != SSH_CONNECTION then None else DecodeMethod(session, user, rest')
  }

  function DecodeMethod(session: seq<byte>, user: seq<byte>, s: seq<byte>): Option<UserauthRequest> {
    match TakeStringAndByte(s, 1)
    case None => None
    case Some((meth, rest)) => DecodeKey(session, user, meth, rest)
  }

  function DecodeKey(session: seq<byte>, user: seq<byte>, meth: seq<byte>, s: seq<byte>): Option<UserauthRequest> {
    match TakeString(s)
    case None => None
    case Some((algorithm, rest)) =>
      match TakeString(rest)
      case None => None
      case Some((key, rest')) => DecodeTrailer(session, user, meth, algorithm, key, rest')
  }

  function DecodeTrailer(session: seq<byte>, user: seq<byte>, meth: seq<byte>, algorithm: seq<byte>, key: seq<byte>,
                         rest: seq<byte>): Option<UserauthRequest> {
    if meth == PUBLICKEY then
      if rest == [] then Some(UserauthRequest(session, user, algorithm, key, None)) else None
    else if meth == PUBLICKEY_HOSTBOUND then
      match TakeString(rest)
      case None => None
      case Some(hostKey) =>
        if hostKey.1 == [] then Some(UserauthRequest(session, user, algorithm, key, Some(hostKey.0))) else None
    else None
  }

  lemma TrailerExact(request: UserauthRequest, session: seq<byte>, user: seq<byte>, meth: seq<byte>,
                     algorithm: seq<byte>, key: seq<byte>, s: seq<byte>)
    ensures DecodeTrailer(session, user, meth, algorithm, key, s) == Some(request)
       <==> && request == UserauthRequest(session, user, algorithm, key, request.hostKey)
            && (request.hostKey.Some? ==> |request.hostKey.value| < U32_MODULUS)
            && meth == request.Method() && s == request.Trailer()
  {
    if meth == PUBLICKEY_HOSTBOUND && TakeString(s).Some? {
      TakeStringExact(s, TakeString(s).value.0, TakeString(s).value.1);
    }
    if request.hostKey.Some? {
      TakeStringExact(s, request.hostKey.value, []);
    }
  }

  lemma KeyExact(request: UserauthRequest, session: seq<byte>, user: seq<byte>, meth: seq<byte>, s: seq<byte>)
    ensures DecodeKey(session, user, meth, s) == Some(request)
       <==> && request.session == session && request.user == user && meth == request.Method()
            && |request.algorithm| < U32_MODULUS && |request.key| < U32_MODULUS
            && (request.hostKey.Some? ==> |request.hostKey.value| < U32_MODULUS)
            && s == request.KeyFields()
  {
    var rest' := request.Trailer();
    var rest := StringBytes(request.key) + rest';
    TakeStringExact(s, request.algorithm, rest);
    TakeStringExact(rest, request.key, rest');
    TrailerExact(request, session, user, meth, request.algorithm, request.key, rest');
    if DecodeKey(session, user, meth, s).Some? {
      var (algorithm, r) := TakeString(s).value;
      var (key, r') := TakeString(r).value;
      TakeStringExact(s, algorithm, r);
      TakeStringExact(r, key, r');
      TrailerExact(request, session, user, meth, algorithm, key, r');
    }
  }

  lemma MethodExact(request: UserauthRequest, session: seq<byte>, user: seq<byte>, s: seq<byte>)
    ensures DecodeMethod(session, user, s) == Some(request)
       <==> && request.session == session && request.user == user
            && |request.algorithm| < U32_MODULUS && |request.key| < U32_MODULUS
            && (request.hostKey.Some? ==> |request.hostKey.value| < U32_MODULUS)
            && s == request.MethodFields()
  {
    hide DecodeKey, UserauthRequest.KeyFields, TakeStringAndByte;
    TakeStringAndByteExact(s, 1, request.Method(), request.KeyFields());
    KeyExact(request, session, user, request.Method(), request.KeyFields());
    if DecodeMethod(session, user, s).Some? {
      var (meth, rest) := TakeStringAndByte(s, 1).value;
      TakeStringAndByteExact(s, 1, meth, rest);
      KeyExact(request, session, user, meth, rest);
    }
  }

  lemma UserExact(request: UserauthRequest, session: seq<byte>, s: seq<byte>)
    ensures DecodeUser(session, s) == Some(request)
       <==> && request.session == session
            && |request.user| < U32_MODULUS && |request.algorithm| < U32_MODULUS && |request.key| < U32_MODULUS
            && (request.hostKey.Some? ==> |request.hostKey.value| < U32_MODULUS)
            && s == request.UserFields()
  {
    var rest' := request.MethodFields();
    var rest := StringBytes(SSH_CONNECTION) + rest';
    TakeStringExact(s, request.user, rest);
    TakeStringExact(rest, SSH_CONNECTION, rest');
    MethodExact(request, session, request.user, rest');
    if DecodeUser(session, s).Some? {
      var (user, r) := TakeString(s).value;
      var (service, r') := TakeString(r).value;
      TakeStringExact(s, user, r);
      TakeStringExact(r, service, r');
      MethodExact(request, session, user, r');
    }
  }

  /** Decoding inverts encoding in both directions, so it is total on encodings, unique, and accepts nothing else. */
  lemma DecodeExact(data: seq<byte>, request: UserauthRequest)
    ensures Decode(data) == Some(request) <==> request.Encodable() && data == request.Encode()
  {
    hide DecodeUser, UserauthRequest.UserFields;
    TakeStringAndByteExact(data, USERAUTH_REQUEST, request.session, request.UserFields());
    UserExact(request, request.session, request.UserFields());
    if Decode(data).Some? {
      var (session, rest) := TakeStringAndByte(data, USERAUTH_REQUEST).value;
      TakeStringAndByteExact(data, USERAUTH_REQUEST, session, rest);
      UserExact(request, session, rest);
    }
  }

  /** The user name the data asks a signature for, if it is exactly a request for this key and algorithm. */
  function RequestedUser(data: seq<byte>, key: seq<byte>, algorithm: seq<byte>): Option<seq<byte>> {
    var decoded := Decode(data);
    if decoded.Some? && decoded.value.key == key && decoded.value.algorithm == algorithm
       && ValidUtf8(decoded.value.user)
    then Some(decoded.value.user) else None
  }

  /** A user name is returned if and only if the data is the whole encoding of a request by that user. */
  lemma RequestedUserExact(data: seq<byte>, key: seq<byte>, algorithm: seq<byte>, user: seq<byte>)
    ensures RequestedUser(data, key, algorithm) == Some(user) <==> IsUserauthRequest(data, key, algorithm, user)
  {
    if RequestedUser(data, key, algorithm) == Some(user) {
      DecodeExact(data, Decode(data).value);
    }
    if IsUserauthRequest(data, key, algorithm, user) {
      var request: UserauthRequest :|
        request.Encodable() && request.Encode() == data
        && request.user == user && request.key == key && request.algorithm == algorithm;
      DecodeExact(data, request);
    }
  }

  method ParseUserauthSignatureRequest(data: seq<byte>, expectedKey: seq<byte>, expectedAlgorithm: seq<byte>)
    returns (user: Option<seq<byte>>)
    ensures user == RequestedUser(data, expectedKey, expectedAlgorithm)
    ensures user.Some? ==> IsUserauthRequest(data, expectedKey, expectedAlgorithm, user.value)
    ensures user.None? ==> forall u :: !IsUserauthRequest(data, expectedKey, expectedAlgorithm, u)
  {
    user := ParseFields(data, expectedKey, expectedAlgorithm);
    forall u ensures user == Some(u) <==> IsUserauthRequest(data, expectedKey, expectedAlgorithm, u) {
      RequestedUserExact(data, expectedKey, expectedAlgorithm, u);
    }
  }

  method ParseFields(data: seq<byte>, expectedKey: seq<byte>, expectedAlgorithm: seq<byte>)
    returns (user: Option<seq<byte>>)
    ensures user == RequestedUser(data, expectedKey, expectedAlgorithm)
  {
    hide TakeString, DecodeMethod, ValidUtf8;
    var cursor := new Cursor(data);
    var session := cursor.ReadString();
    if session.None? { return None; }
    var message := cursor.ReadByte();
    if message != Some(USERAUTH_REQUEST) { return None; }
    ghost var fields := cursor.rest;
    var name := cursor.ReadString();
    if name.None? { return None; }
    DecodeKeepsUser(session.value, fields);
    if !ValidUtf8(name.value) { return None; }
    var service := cursor.ReadString();
    if service != Some(SSH_CONNECTION) { return None; }
    var accepted := AcceptMethod(cursor, session.value, name.value, expectedKey, expectedAlgorithm);
    return if accepted then Some(name.value) else None;
  }

  /** The fields from the method name on; `session` and `user` are what was read before. */
  method AcceptMethod(cursor: Cursor, ghost session: seq<byte>, ghost user: seq<byte>,
                      expectedKey: seq<byte>, expectedAlgorithm: seq<byte>) returns (accepted: bool)
    modifies cursor
    ensures var decoded := DecodeMethod(session, user, old(cursor.rest));
            && (accepted <==> decoded.Some? && decoded.value.key == expectedKey
                              && decoded.value.algorithm == expectedAlgorithm)
  {
    hide TakeString;
    var meth := cursor.ReadString();
    if meth.None? { return false; }
    var hasSignature := cursor.ReadByte();
    if hasSignature != Some(1) { return false; }
    var algorithm := cursor.ReadString();
    if algorithm != Some(expectedAlgorithm) { return false; }
    var key := cursor.ReadString();
    if key != Some(expectedKey) { return false; }
    if meth.value == PUBLICKEY && cursor.rest == [] { return true; }
    if meth.value != PUBLICKEY_HOSTBOUND { return false; }
    var hostKey := cursor.ReadString();
    return hostKey.Some? && cursor.rest == [];
  }

  lemma DecodeKeepsUser(session: seq<byte>, s: seq<byte>)
    ensures DecodeUser(session, s).Some?
            ==> TakeString(s).Some? && DecodeUser(session, s).value.user == TakeString(s).value.0
  {
    hide TakeString;
  }
}
