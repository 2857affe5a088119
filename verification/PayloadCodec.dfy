/** Envelope payload codecs: the identity codec, and encryption to a recipient bound to its envelope.

    Key agreement, AEAD, hashing, hexadecimal and lenient base64 parsing and identifier syntax are
    functions of a library record. */
module PayloadCodec {
  import opened Strings
  import opened Base64Url
  import opened Json

  const PLAINTEXT := "plaintext"
  const ENCRYPTED := "encrypted"
  const IDENTITY := "identity"
  const SUITE := "x25519-hkdf-sha256-chacha20poly1305"
  const AAD_PROFILE := "envelope-payload-v1"

  type Members = map<string, Json>

  datatype Library = Library(
    encrypt: (Bytes, Bytes, Bytes, Bytes) -> Bytes,
    decrypt: (Bytes, Bytes, Bytes, Bytes) -> Option<Bytes>,
    agree: (Bytes, Bytes, Bytes) -> Option<Bytes>,
    exchangeKey: Bytes -> Bytes,
    sign: (Bytes, Bytes) -> Bytes,
    verify: (Bytes, Bytes, Bytes) -> bool,
    signingKey: Bytes -> Bytes,
    hash: Bytes -> string,
    hexadecimal: string -> bool,
    lenient: string -> Option<Bytes>,
    identifier: (string, string) -> bool)

  /** What the round trips rely on. */
  ghost predicate Sound(lib: Library) {
    && (forall k, n, p, a :: lib.decrypt(k, n, lib.encrypt(k, n, p, a), a) == Some(p))
    && (forall k, n, p, a :: lib.encrypt(k, n, p, a) != [])
    && (forall a, b, c :: lib.agree(a, lib.exchangeKey(b), c) == lib.agree(b, lib.exchangeKey(a), c))
    && (forall b :: |lib.exchangeKey(b)| == 32)
    && (forall b :: |lib.hash(b)| == 64 && lib.hexadecimal(lib.hash(b)) && Lowercase(lib.hash(b)))
    && (forall b :: lib.lenient(Encode(b)) == Some(b))
  }

  /** A ciphertext is accepted only with the associated data it was made with. */
  ghost predicate BindsData(lib: Library) {
    forall k, n, p, a, k', n', a' :: lib.decrypt(k', n', lib.encrypt(k, n, p, a), a').Some? ==> a' == a
  }

  predicate Lowercase(s: string) { forall i :: 0 <= i < |s| ==> !('A' <= s[i] <= 'Z') }

  /** Equal to 1 as Python compares: also `true` and `1.0`. */
  predicate IsOne(v: Option<Json>) { v in {Some(Int(1)), Some(Bool(true)), Some(Float(ONE))} }

  predicate IsText(v: Option<Json>) { v.Some? && v.value.Str? && v.value.value != "" }

  // ---- codec metadata -------------------------------------------------------------------------------------

  datatype Context = Context(
    envelopeId: string, source: string, destination: string, transaction: string,
    envelopeVersion: int, protocolVersion: int)

  datatype Codec = Codec(
    mode: string, algorithm: string, context: Option<Context>,
    recipientNode: string, recipientKey: Bytes, recipientFingerprint: string,
    localPrivate: Bytes, localPublic: Bytes, encryption: Option<Members>)

  predicate IsCodec(c: Codec) {
    (c.mode == PLAINTEXT && c.algorithm == IDENTITY) || (c.mode == ENCRYPTED && c.algorithm == SUITE)
  }

  function Metadata(mode: string, algorithm: string): Members {
    map["version" := Int(1), "mode" := Str(mode), "algorithm" := Str(algorithm)]
  }

  predicate CodecMetadataOk(m: Members, expected: Option<string>) {
    && IsOne(Get(m, "version"))
    && (|| (Get(m, "mode") == Some(Str(PLAINTEXT)) && Get(m, "algorithm") == Some(Str(IDENTITY)))
        || (Get(m, "mode") == Some(Str(ENCRYPTED)) && Get(m, "algorithm") == Some(Str(SUITE))))
    && (expected.Some? ==> Get(m, "mode") == Some(Str(expected.value)))
  }

  /** The codec metadata of a payload. */
  function CodecOf(payload: Members): Option<Members> {
    var m := Get(payload, "codec");
    if m.Some? && m.value.Obj? then Some(m.value.members) else None
  }

  /** The bytes a payload commits to. */
  function DataOf(lib: Library, payload: Members): Option<Bytes> {
    var data := Get(payload, "data_b64");
    if Get(payload, "encoding") != Some(Str("base64url")) || !IsText(data) then None else lib.lenient(data.value.value)
  }

  function EncodedBytes(lib: Library, payload: Members): Option<Bytes> {
    var m := CodecOf(payload);
    if m.None? || !CodecMetadataOk(m.value, None) then None else DataOf(lib, payload)
  }

  function Payload(codec: Members, data: Bytes): Members {
    map["codec" := Obj(codec), "encoding" := Str("base64url"), "data_b64" := Str(Encode(data))]
  }

  lemma MetadataOk(c: Codec)
    requires IsCodec(c)
    ensures CodecMetadataOk(Metadata(c.mode, c.algorithm), Some(c.mode))
    ensures CodecMetadataOk(Metadata(c.mode, c.algorithm), None)
  {
    var m := Metadata(c.mode, c.algorithm);
    assert Get(m, "version") == Some(Int(1)) && Get(m, "mode") == Some(Str(c.mode)) &&
      Get(m, "algorithm") == Some(Str(c.algorithm));
  }

  /** A payload record gives back its codec and its bytes. */
  lemma PayloadFields(lib: Library, c: Codec, data: Bytes)
    requires IsCodec(c) && data != [] && lib.lenient(Encode(data)) == Some(data)
    ensures var p := Payload(Metadata(c.mode, c.algorithm), data);
      CodecOf(p) == Some(Metadata(c.mode, c.algorithm)) && DataOf(lib, p) == Some(data) &&
        EncodedBytes(lib, p) == Some(data)
  {
    var p := Payload(Metadata(c.mode, c.algorithm), data);
    assert Get(p, "codec") == Some(Obj(Metadata(c.mode, c.algorithm))) && Get(p, "encoding") == Some(Str("base64url"));
    assert Get(p, "data_b64") == Some(Str(Encode(data)));
    RoundTrip(data);
    MetadataOk(c);
  }

  // ---- encryption metadata --------------------------------------------------------------------------------

  predicate EncryptionMetadataOk(lib: Library, m: Members, recipient: string) {
    && IsOne(Get(m, "version")) && Get(m, "algorithm") == Some(Str(SUITE))
    && Get(m, "aad_profile") == Some(Str(AAD_PROFILE))
    && recipient != "" && Get(m, "recipient_node_id") == Some(Str(recipient))
    && IsText(Get(m, "recipient_key_fingerprint")) && FingerprintOk(lib, m["recipient_key_fingerprint"].value)
    && IsText(Get(m, "ephemeral_public_key")) && SizeIs(Decode(m["ephemeral_public_key"].value), 32)
    && IsText(Get(m, "nonce")) && SizeIs(Decode(m["nonce"].value), 12)
  }

  predicate FingerprintOk(lib: Library, s: string) { |s| == 64 && lib.hexadecimal(s) && Lowercase(s) }

  predicate SizeIs(b: Option<Bytes>, n: nat) { b.Some? && |b.value| == n }

  const BOUND_KEYS := {"version", "algorithm", "recipient_node_id", "recipient_key_fingerprint",
    "ephemeral_public_key", "aad_profile"}

  /** What validation keeps, and what of it is bound into key and associated data. */
  function Kept(m: Members): Members { map k | k in m && (k in BOUND_KEYS || k == "nonce") :: m[k] }

  function WithoutNonce(m: Members): Members { map k | k in m && k in BOUND_KEYS :: m[k] }

  function BoundMetadata(recipient: string, fingerprint: string, ephemeral: Bytes): Members {
    map["version" := Int(1), "algorithm" := Str(SUITE), "recipient_node_id" := Str(recipient),
        "recipient_key_fingerprint" := Str(fingerprint), "ephemeral_public_key" := Str(Encode(ephemeral)),
        "aad_profile" := Str(AAD_PROFILE)]
  }

  function AssociatedData(t: Text, c: Context, codec: Members, encryption: Members): Bytes {
    t.print_(Obj(Described(c, codec, encryption)))
  }

  function KeyContext(t: Text, c: Context, codec: Members, encryption: Members): Bytes {
    t.print_(Obj(map[
      "purpose" := Str("secrets-kit.envelope-payload-key"), "codec" := Obj(codec),
      "encryption_metadata" := Obj(encryption), "envelope_id" := Str(c.envelopeId),
      "source_node_id" := Str(c.source), "destination_node_id" := Str(c.destination),
      "transaction_id" := Str(c.transaction)]))
  }

  // ---- encoding and decoding ------------------------------------------------------------------------------

  datatype Record = Record(payload: Members, data: Bytes, encryption: Option<Members>)

  /** The full metadata of an encrypted record: its fields, and its bound part without the nonce. */
  function FullMetadata(recipient: string, fingerprint: string, ephemeral: Bytes, nonce: Bytes): Members {
    BoundMetadata(recipient, fingerprint, ephemeral)["nonce" := Str(Encode(nonce))]
  }

  /** Agree on a key bound to the envelope and encrypt with the envelope as associated data. */
  function Encrypt(
      lib: Library, t: Text, c: Context, codec: Members, bound: Members, ephemeral: Bytes, recipient: Bytes,
      nonce: Bytes, plain: Bytes): Option<Bytes>
  {
    var key := lib.agree(ephemeral, recipient, KeyContext(t, c, codec, bound));
    if key.None? then None else Some(lib.encrypt(key.value, nonce, plain, AssociatedData(t, c, codec, bound)))
  }

  function Decrypt(
      lib: Library, t: Text, c: Context, codec: Members, bound: Members, local: Bytes, point: Bytes,
      nonce: Bytes, data: Bytes): Option<Bytes>
  {
    var key := lib.agree(local, point, KeyContext(t, c, codec, bound));
    if key.None? then None else lib.decrypt(key.value, nonce, data, AssociatedData(t, c, codec, bound))
  }

  lemma DecryptsEncrypted(
      lib: Library, t: Text, c: Context, codec: Members, bound: Members, ephemeral: Bytes, receiver: Bytes,
      nonce: Bytes, plain: Bytes)
    requires Sound(lib) && Encrypt(lib, t, c, codec, bound, ephemeral, lib.exchangeKey(receiver), nonce, plain).Some?
    ensures var data := Encrypt(lib, t, c, codec, bound, ephemeral, lib.exchangeKey(receiver), nonce, plain).value;
      data != [] && Decrypt(lib, t, c, codec, bound, receiver, lib.exchangeKey(ephemeral), nonce, data) == Some(plain)
  {
  }

  function EncodeEncrypted(
      lib: Library, t: Text, c: Codec, plain: Bytes, ephemeral: Bytes, nonce: Bytes): Result<Record>
  {
    var codec := Metadata(c.mode, c.algorithm);
    if c.context.None? then Err("encrypted envelope payload context is required")
    else if |c.recipientKey| != 32 then Err("recipient_public_key must be 32 raw bytes")
    else if c.recipientNode != c.context.value.destination then Err("recipient_node_id must match destination_node_id")
    else
      var context, fingerprint := c.context.value, lib.hash(c.recipientKey);
      if c.recipientFingerprint != "" && c.recipientFingerprint != fingerprint
      then Err("recipient key fingerprint mismatch")
      else
        var point := lib.exchangeKey(ephemeral);
        var data := Encrypt(lib, t, context, codec, BoundMetadata(context.destination, fingerprint, point), ephemeral,
          c.recipientKey, nonce, plain);
        if data.None? then Err("key agreement failed")
        else Ok(Record(Payload(codec, data.value), data.value,
          Some(FullMetadata(context.destination, fingerprint, point, nonce))))
  }

  /** Outbound: the canonical payload bytes as a payload record. The ephemeral key and nonce are drawn at random. */
  function EncodePayload(
      lib: Library, t: Text, c: Codec, plain: Bytes, ephemeral: Bytes, nonce: Bytes): Result<Record>
  {
    if c.mode == ENCRYPTED then EncodeEncrypted(lib, t, c, plain, ephemeral, nonce)
    else Ok(Record(Payload(Metadata(c.mode, c.algorithm), plain), plain, None))
  }

  function DecodeEncrypted(lib: Library, t: Text, c: Codec, data: Bytes): Result<Bytes> {
    if c.context.None? then Err("encrypted envelope payload context is required")
    else if c.encryption.None? || !EncryptionMetadataOk(lib, c.encryption.value, c.context.value.destination)
    then Err("encryption_metadata is invalid")
    else
      var m, context, codec := c.encryption.value, c.context.value, Metadata(c.mode, c.algorithm);
      if |c.localPublic| != 32 then Err("local_public_key must be 32 raw bytes")
      else if m["recipient_key_fingerprint"] != Str(lib.hash(c.localPublic))
      then Err("recipient key fingerprint mismatch")
      else
        var plain := Decrypt(lib, t, context, codec, WithoutNonce(Kept(m)), c.localPrivate,
          Decode(m["ephemeral_public_key"].value).value, Decode(m["nonce"].value).value, data);
        if plain.None? || data == [] then Err("encrypted envelope payload authentication failed") else Ok(plain.value)
  }

  /** Inbound: the canonical payload bytes of a payload record. */
  function DecodePayload(lib: Library, t: Text, c: Codec, payload: Members): Result<Bytes> {
    var m, data := CodecOf(payload), DataOf(lib, payload);
    if m.None? || !CodecMetadataOk(m.value, Some(c.mode)) then Err("payload codec metadata is unsupported")
    else if data.None? then Err("envelope payload data_b64 is invalid")
    else if c.mode == ENCRYPTED then DecodeEncrypted(lib, t, c, data.value)
    else Ok(data.value)
  }

  // ---- round trips ----------------------------------------------------------------------------------------

  /** The identity codec gives back what it was given. */
  lemma PlaintextRoundTrip(lib: Library, t: Text, c: Codec, d: Codec, plain: Bytes, ephemeral: Bytes, nonce: Bytes)
    requires c.mode == d.mode == PLAINTEXT && c.algorithm == d.algorithm == IDENTITY && plain != [] && Sound(lib)
    ensures EncodePayload(lib, t, c, plain, ephemeral, nonce).Ok?
    ensures DecodePayload(lib, t, d, EncodePayload(lib, t, c, plain, ephemeral, nonce).value.payload) == Ok(plain)
  {
    PayloadFields(lib, c, plain);
    MetadataOk(c);
  }

  lemma FullMetadataFields(recipient: string, fingerprint: string, ephemeral: Bytes, nonce: Bytes)
    ensures var m := FullMetadata(recipient, fingerprint, ephemeral, nonce);
      && Get(m, "version") == Some(Int(1)) && Get(m, "algorithm") == Some(Str(SUITE))
      && Get(m, "aad_profile") == Some(Str(AAD_PROFILE))
      && Get(m, "recipient_node_id") == Some(Str(recipient))
      && Get(m, "recipient_key_fingerprint") == Some(Str(fingerprint))
      && Get(m, "ephemeral_public_key") == Some(Str(Encode(ephemeral))) && Get(m, "nonce") == Some(Str(Encode(nonce)))
    ensures Kept(FullMetadata(recipient, fingerprint, ephemeral, nonce)) ==
      FullMetadata(recipient, fingerprint, ephemeral, nonce)
    ensures WithoutNonce(FullMetadata(recipient, fingerprint, ephemeral, nonce)) ==
      BoundMetadata(recipient, fingerprint, ephemeral)
  {
  }

  lemma FullMetadataOk(lib: Library, recipient: string, key: Bytes, ephemeral: Bytes, nonce: Bytes)
    requires Sound(lib) && recipient != "" && |nonce| == 12
    ensures EncryptionMetadataOk(lib, FullMetadata(recipient, lib.hash(key), lib.exchangeKey(ephemeral), nonce),
      recipient)
  {
    FullMetadataFields(recipient, lib.hash(key), lib.exchangeKey(ephemeral), nonce);
    RoundTrip(lib.exchangeKey(ephemeral));
    RoundTrip(nonce);
  }

  /** The two ends of an encrypted payload: same envelope, and the receiver holds the key it was made for. */
  predicate Matching(lib: Library, c: Codec, d: Codec, receiver: Bytes) {
    && c.mode == d.mode == ENCRYPTED && c.algorithm == d.algorithm == SUITE
    && c.context.Some? && c.context == d.context && c.context.value.destination != ""
    && c.recipientKey == d.localPublic == lib.exchangeKey(receiver) && d.localPrivate == receiver
  }

  /** The receiver of an encrypted payload gets back what was encrypted. */
  lemma EncryptedRoundTrip(
      lib: Library, t: Text, c: Codec, d: Codec, receiver: Bytes, plain: Bytes, ephemeral: Bytes, nonce: Bytes)
    requires Sound(lib) && Matching(lib, c, d, receiver) && |nonce| == 12
    requires EncodePayload(lib, t, c, plain, ephemeral, nonce).Ok?
    requires d.encryption == EncodePayload(lib, t, c, plain, ephemeral, nonce).value.encryption
    ensures DecodePayload(lib, t, d, EncodePayload(lib, t, c, plain, ephemeral, nonce).value.payload) == Ok(plain)
  {
    var r := EncodePayload(lib, t, c, plain, ephemeral, nonce).value;
    PayloadFields(lib, c, r.data);
    MetadataOk(c);
    DecryptsRecord(lib, t, c, d, receiver, plain, ephemeral, nonce);
  }

  lemma DecryptsRecord(
      lib: Library, t: Text, c: Codec, d: Codec, receiver: Bytes, plain: Bytes, ephemeral: Bytes, nonce: Bytes)
    requires Sound(lib) && Matching(lib, c, d, receiver) && |nonce| == 12
    requires EncodeEncrypted(lib, t, c, plain, ephemeral, nonce).Ok?
    requires d.encryption == EncodeEncrypted(lib, t, c, plain, ephemeral, nonce).value.encryption
    ensures DecodeEncrypted(lib, t, d, EncodeEncrypted(lib, t, c, plain, ephemeral, nonce).value.data) == Ok(plain)
  {
    var destination, point := c.context.value.destination, lib.exchangeKey(ephemeral);
    FullMetadataFields(destination, lib.hash(c.recipientKey), point, nonce);
    FullMetadataOk(lib, destination, c.recipientKey, ephemeral, nonce);
    RoundTrip(point);
    RoundTrip(nonce);
    DecryptsEncrypted(lib, t, c.context.value, Metadata(c.mode, c.algorithm),
      BoundMetadata(destination, lib.hash(c.recipientKey), point), ephemeral, receiver, nonce, plain);
  }

  // ---- binding --------------------------------------------------------------------------------------------

  lemma SameAssociatedData(
      t: Text, c: Context, codec: Members, bound: Members, c': Context, codec': Members, bound': Members)
    requires Faithful(t) && AssociatedData(t, c, codec, bound) == AssociatedData(t, c', codec', bound')
    ensures c == c' && codec == codec' && bound == bound'
  {
    var m, m' := Described(c, codec, bound), Described(c', codec', bound');
    assert t.parse(t.print_(Obj(m))) == Some(Obj(m)) && t.parse(t.print_(Obj(m'))) == Some(Obj(m'));
    assert m == m';
    DescribedFields(c, codec, bound);
    DescribedFields(c', codec', bound');
  }

  function Described(c: Context, codec: Members, encryption: Members): Members {
    map["aad_profile" := Str(AAD_PROFILE), "codec" := Obj(codec), "encryption_metadata" := Obj(encryption),
      "envelope_id" := Str(c.envelopeId), "envelope_version" := Int(c.envelopeVersion),
      "protocol_version" := Int(c.protocolVersion), "source_node_id" := Str(c.source),
      "destination_node_id" := Str(c.destination), "transaction_id" := Str(c.transaction)]
  }

  lemma DescribedFields(c: Context, codec: Members, encryption: Members)
    ensures var m := Described(c, codec, encryption);
      && Get(m, "codec") == Some(Obj(codec)) && Get(m, "encryption_metadata") == Some(Obj(encryption))
      && Get(m, "envelope_id") == Some(Str(c.envelopeId)) && Get(m, "source_node_id") == Some(Str(c.source))
      && Get(m, "destination_node_id") == Some(Str(c.destination))
      && Get(m, "transaction_id") == Some(Str(c.transaction))
      && Get(m, "envelope_version") == Some(Int(c.envelopeVersion))
      && Get(m, "protocol_version") == Some(Int(c.protocolVersion))
  {
  }

  /** Whoever decodes an encrypted payload, with whatever keys and nonce, does so in the envelope context,
      codec and bound metadata it was encrypted for. */
  lemma DecodingBindsContext(lib: Library, t: Text, c: Codec, d: Codec, plain: Bytes, ephemeral: Bytes, nonce: Bytes)
    requires Faithful(t) && BindsData(lib) && EncodeEncrypted(lib, t, c, plain, ephemeral, nonce).Ok?
    requires DecodeEncrypted(lib, t, d, EncodeEncrypted(lib, t, c, plain, ephemeral, nonce).value.data).Ok?
    ensures d.context == c.context && Metadata(d.mode, d.algorithm) == Metadata(c.mode, c.algorithm)
    ensures WithoutNonce(Kept(d.encryption.value))
         == BoundMetadata(c.context.value.destination, lib.hash(c.recipientKey), lib.exchangeKey(ephemeral))
  {
    var bound := BoundMetadata(c.context.value.destination, lib.hash(c.recipientKey), lib.exchangeKey(ephemeral));
    var bound' := WithoutNonce(Kept(d.encryption.value));
    var m := d.encryption.value;
    DecryptingBinds(lib, t, c.context.value, Metadata(c.mode, c.algorithm), bound, ephemeral, c.recipientKey, nonce,
      plain,
      d.context.value, Metadata(d.mode, d.algorithm), bound', d.localPrivate,
      Decode(m["ephemeral_public_key"].value).value, Decode(m["nonce"].value).value);
  }

  lemma DecryptingBinds(
    lib: Library, t: Text, c: Context, codec: Members, bound: Members, ephemeral: Bytes, recipient: Bytes,
    nonce: Bytes, plain: Bytes,
    c': Context, codec': Members, bound': Members, local: Bytes, point: Bytes, nonce': Bytes)
    requires Faithful(t) && BindsData(lib) && Encrypt(lib, t, c, codec, bound, ephemeral, recipient, nonce, plain).Some?
    requires Decrypt(lib, t, c', codec', bound', local, point, nonce',
      Encrypt(lib, t, c, codec, bound, ephemeral, recipient, nonce, plain).value).Some?
    ensures c == c' && codec == codec' && bound == bound'
  {
    BindsHere(lib, lib.agree(ephemeral, recipient, KeyContext(t, c, codec, bound)).value, nonce, plain,
      AssociatedData(t, c, codec, bound),
      lib.agree(local, point, KeyContext(t, c', codec', bound')).value, nonce', AssociatedData(t, c', codec', bound'));
    SameAssociatedData(t, c, codec, bound, c', codec', bound');
  }

  lemma BindsHere(lib: Library, k: Bytes, n: Bytes, p: Bytes, a: Bytes, k': Bytes, n': Bytes, a': Bytes)
    requires BindsData(lib) && lib.decrypt(k', n', lib.encrypt(k, n, p, a), a').Some?
    ensures a' == a
  {
  }
}
