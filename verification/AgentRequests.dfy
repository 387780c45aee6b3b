/** Which payloads of a forwarded agent channel may lead to a signature, decided before the user is asked. */
module AgentRequests {
  import opened Wrappers
  import opened WireCodec

  datatype SignatureHash = Sha1 | Sha256 | Sha512

  /** The forwarded key; `blob` is its public half as sent on the wire. */
  datatype KeyPair =
    | Rsa(blob: seq<byte>, hash: SignatureHash)
    | Other(blob: seq<byte>, name: seq<byte>)
  {
    function Algorithm(): seq<byte> {
      match this
      case Rsa(_, Sha1) => Ascii("ssh-rsa")
      case Rsa(_, Sha256) => Ascii("rsa-sha2-256")
      case Rsa(_, Sha512) => Ascii("rsa-sha2-512")
      case Other(_, name) => name
    }
  }

  /** The key to sign with, or `None` where the flags ask for something else. */
  function KeyForFlags(key: KeyPair, flags: nat): Option<KeyPair> {
    if key.Rsa? then
      if flags == 0 || flags == 2 then Some(key.(hash := Sha256))
      else if flags == 4 then Some(key.(hash := Sha512))
      else None
    else if flags == 0 then Some(key)
    else None
  }

  const REQUEST_IDENTITIES: byte := 11
  const IDENTITIES_ANSWER: byte := 12
  const SIGN_REQUEST: byte := 13
  const SIGN_RESPONSE: byte := 14

  datatype Disposition =
    | Identities
    | Refuse
    | AskToSign(user: seq<byte>, data: seq<byte>, signingKey: KeyPair)

  function SignRequestFields(key: seq<byte>, data: seq<byte>, flags: nat): seq<byte> {
    StringBytes(key) + (StringBytes(data) + U32Bytes(flags))
  }

  /** The flags ask for this key: of RSA keys, flag 2 or none asks for SHA-256 and flag 4 for SHA-512, so SHA-1 is never
      signed with; other keys take no flags. */
  predicate Select(key: KeyPair, flags: nat, signingKey: KeyPair) {
    match key
    case Rsa(blob, _) =>
      || ((flags == 0 || flags == 2) && signingKey == Rsa(blob, Sha256))
      || (flags == 4 && signingKey == Rsa(blob, Sha512))
    case Other(_, _) => flags == 0 && signingKey == key
  }

  lemma FlagsSelect(key: KeyPair, flags: nat, signingKey: KeyPair)
    ensures KeyForFlags(key, flags) == Some(signingKey) <==> Select(key, flags, signingKey)
  {
  }

  /** The algorithm of the selected key has the name that RFC 8332 section 3 gives it. */
  lemma SelectedAlgorithm(key: KeyPair, flags: nat, signingKey: KeyPair)
    requires Select(key, flags, signingKey)
    ensures signingKey.Algorithm()
         == if key.Other? then key.name else if flags == 4 then Ascii("rsa-sha2-512") else Ascii("rsa-sha2-256")
  {
  }

  /** `fields` is a whole sign request for this key, by this user, with flags that select `signingKey`. */
  ghost predicate IsSignRequest(key: KeyPair, fields: seq<byte>, user: seq<byte>, data: seq<byte>,
                                signingKey: KeyPair) {
    exists flags: nat ::
      && flags < U32_MODULUS && |key.blob| < U32_MODULUS && |data| < U32_MODULUS
      && fields == SignRequestFields(key.blob, data, flags)
      && Select(key, flags, signingKey)
      && IsUserauthRequest(data, key.blob, signingKey.Algorithm(), user)
  }

  /** Splits the fields of a sign request: key, data and flags, with nothing left over. */
  function SplitSignRequest(fields: seq<byte>): Option<(seq<byte>, seq<byte>, nat)> {
    match TakeString(fields)
    case None => None
    case Some((key, rest)) =>
      match TakeString(rest)
      case None => None
      case Some((data, rest')) =>
        match TakeU32(rest')
        case None => None
        case Some((flags, end)) => if end == [] then Some((key, data, flags)) else None
  }

  lemma SplitExact(fields: seq<byte>, key: seq<byte>, data: seq<byte>, flags: nat)
    ensures SplitSignRequest(fields) == Some((key, data, flags))
       <==> && flags < U32_MODULUS && |key| < U32_MODULUS && |data| < U32_MODULUS
            && fields == SignRequestFields(key, data, flags)
  {
    TakeStringExact(fields, key, StringBytes(data) + U32Bytes(flags));
    TakeStringExact(StringBytes(data) + U32Bytes(flags), data, U32Bytes(flags));
    TakeU32Exact(U32Bytes(flags), flags, []);
    assert U32Bytes(flags) + [] == U32Bytes(flags);
    if SplitSignRequest(fields) == Some((key, data, flags)) {
      var rest := TakeString(fields).value.1;
      var rest' := TakeString(rest).value.1;
      TakeStringExact(fields, key, rest);
      TakeStringExact(rest, data, rest');
      TakeU32Exact(rest', flags, []);
      assert rest' == U32Bytes(flags);
    }
  }

  function SignDisposition(key: KeyPair, fields: seq<byte>): Disposition {
    match SplitSignRequest(fields)
    case None => Refuse
    case Some((requested, data, flags)) =>
      if requested != key.blob || KeyForFlags(key, flags).None? then Refuse else
        var signingKey := KeyForFlags(key, flags).value;
        match RequestedUser(data, key.blob, signingKey.Algorithm())
        case None => Refuse
        case Some(user) => AskToSign(user, data, signingKey)
  }

  function Dispose(key: KeyPair, payload: seq<byte>): Disposition {
    if payload == [] then Refuse
    else if payload[0] == REQUEST_IDENTITIES then Identities
    else if payload[0] == SIGN_REQUEST then SignDisposition(key, payload[1..])
    else Refuse
  }

  /** The agent considers signing `data` for `user` if and only if the payload is exactly such a sign request. */
  lemma SignDispositionExact(key: KeyPair, fields: seq<byte>, user: seq<byte>, data: seq<byte>, signingKey: KeyPair)
    ensures SignDisposition(key, fields) == AskToSign(user, data, signingKey)
       <==> IsSignRequest(key, fields, user, data, signingKey)
  {
    hide SignDisposition, IsSignRequest;
    OnlySignRequests(key, fields, user, data, signingKey);
    AcceptedSignRequest(key, fields, user, data, signingKey);
  }

  lemma OnlySignRequests(key: KeyPair, fields: seq<byte>, user: seq<byte>, data: seq<byte>, signingKey: KeyPair)
    ensures SignDisposition(key, fields) == AskToSign(user, data, signingKey)
            ==> IsSignRequest(key, fields, user, data, signingKey)
  {
    hide KeyForFlags, Select, RequestedUser, SplitSignRequest, SignRequestFields, IsUserauthRequest, KeyPair.Algorithm;
    if SignDisposition(key, fields) == AskToSign(user, data, signingKey) {
      var flags := SplitSignRequest(fields).value.2;
      FlagsSelect(key, flags, signingKey);
      SplitExact(fields, key.blob, data, flags);
      RequestedUserExact(data, key.blob, signingKey.Algorithm(), user);
    }
  }

  lemma AcceptedSignRequest(key: KeyPair, fields: seq<byte>, user: seq<byte>, data: seq<byte>, signingKey: KeyPair)
    ensures IsSignRequest(key, fields, user, data, signingKey)
            ==> SignDisposition(key, fields) == AskToSign(user, data, signingKey)
  {
    if IsSignRequest(key, fields, user, data, signingKey) {
      var flags: nat :|
        && flags < U32_MODULUS && |key.blob| < U32_MODULUS && |data| < U32_MODULUS
        && fields == SignRequestFields(key.blob, data, flags)
        && Select(key, flags, signingKey)
        && IsUserauthRequest(data, key.blob, signingKey.Algorithm(), user);
      FlagsSelect(key, flags, signingKey);
      SplitExact(fields, key.blob, data, flags);
      RequestedUserExact(data, key.blob, signingKey.Algorithm(), user);
    }
  }

  method DisposeOfPayload(key: KeyPair, payload: seq<byte>) returns (disposition: Disposition)
    ensures disposition == Dispose(key, payload)
    ensures disposition == Refuse
       <==> && (payload != [] ==> payload[0] != 11)
            && !(payload != [] && payload[0] == 13
                 && exists user, data, signingKey :: IsSignRequest(key, payload[1..], user, data, signingKey))
    ensures disposition == Identities <==> payload != [] && payload[0] == 11
    ensures disposition.AskToSign?
            ==> payload != [] && payload[0] == 13
                && IsSignRequest(key, payload[1..], disposition.user, disposition.data, disposition.signingKey)
  {
    if payload == [] { return Refuse; }
    if payload[0] == REQUEST_IDENTITIES { return Identities; }
    if payload[0] != SIGN_REQUEST { return Refuse; }
    disposition := DisposeOfSignRequest(key, payload[1..]);
    if disposition.AskToSign? {
      SignDispositionExact(key, payload[1..], disposition.user, disposition.data, disposition.signingKey);
    } else {
      forall user, data, signingKey ensures !IsSignRequest(key, payload[1..], user, data, signingKey) {
        SignDispositionExact(key, payload[1..], user, data, signingKey);
      }
    }
  }

  method DisposeOfSignRequest(key: KeyPair, fields: seq<byte>) returns (disposition: Disposition)
    ensures disposition == SignDisposition(key, fields)
  {
    hide TakeString, RequestedUser;
    var cursor := new Cursor(fields);
    var requested := cursor.ReadString();
    if requested.None? { return Refuse; }
    var data := cursor.ReadString();
    if data.None? { return Refuse; }
    var flags := cursor.ReadU32();
    if flags.None? || cursor.rest != [] || requested.value != key.blob { return Refuse; }
    var signingKey := KeyForFlags(key, flags.value);
    if signingKey.None? { return Refuse; }
    var user := ParseUserauthSignatureRequest(data.value, key.blob, signingKey.value.Algorithm());
    if user.None? { return Refuse; }
    return AskToSign(user.value, data.value, signingKey.value);
  }

  function IdentitiesReply(key: KeyPair): seq<byte> {
    [IDENTITIES_ANSWER] + (U32Bytes(1) + (StringBytes(key.blob) + StringBytes(Ascii("zync-forwarded-key"))))
  }

  function SignatureReply(algorithm: seq<byte>, signature: seq<byte>): seq<byte> {
    [SIGN_RESPONSE] + StringBytes(StringBytes(algorithm) + StringBytes(signature))
  }

  /** A client reads one identity, the forwarded public key, out of the identities reply. */
  lemma IdentitiesReplyNamesTheKey(key: KeyPair)
    requires |key.blob| < U32_MODULUS
    ensures var reply := IdentitiesReply(key);
            && reply[0] == 12
            && TakeU32(reply[1..]).Some? && TakeU32(reply[1..]).value.0 == 1
            && TakeString(TakeU32(reply[1..]).value.1)
               == Some((key.blob, StringBytes(Ascii("zync-forwarded-key"))))
  {
    var rest := StringBytes(key.blob) + StringBytes(Ascii("zync-forwarded-key"));
    assert IdentitiesReply(key)[1..] == U32Bytes(1) + rest;
    TakeU32Exact(U32Bytes(1) + rest, 1, rest);
    TakeStringExact(rest, key.blob, StringBytes(Ascii("zync-forwarded-key")));
  }

  /** A client reads the algorithm and the signature back out of the signature reply, and nothing else. */
  lemma SignatureReplyReads(algorithm: seq<byte>, signature: seq<byte>)
    requires |algorithm| + |signature| + 8 < U32_MODULUS
    ensures var body := TakeString(SignatureReply(algorithm, signature)[1..]);
            && SignatureReply(algorithm, signature)[0] == 14
            && body.Some? && body.value.1 == []
            && TakeString(body.value.0) == Some((algorithm, StringBytes(signature)))
            && TakeString(StringBytes(signature)) == Some((signature, []))
  {
    var blob := StringBytes(algorithm) + StringBytes(signature);
    assert SignatureReply(algorithm, signature)[1..] == StringBytes(blob) + [];
    TakeStringExact(StringBytes(blob) + [], blob, []);
    TakeStringExact(blob, algorithm, StringBytes(signature));
    assert StringBytes(signature) + [] == StringBytes(signature);
    TakeStringExact(StringBytes(signature), signature, []);
  }
}
