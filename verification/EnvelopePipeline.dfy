/** From a transaction to a signed envelope on the wire and back. */
module EnvelopePipeline {
  import opened Strings
  import opened Base64Url
  import opened Json
  import opened PayloadCodec
  import opened Envelope
  import opened EnvelopeSigning

  /** What the envelope layer reads of a transaction; `body` is its canonical payload. */
  datatype Transaction = Transaction(id: string, origin: string, protocolVersion: int, body: Json)

  /** What accompanies a transaction into an envelope. */
  datatype Addressing = Addressing(
    destination: string, envelopeId: string, createdAt: string, routing: Members, expiresAt: Option<string>)

  function ContextOf(e: Envelope): Context {
    Context(e.envelopeId, e.source, e.destination, e.transaction, 1, e.protocolVersion)
  }

  function Build(
      lib: Library, t: Text, x: Transaction, a: Addressing, c: Codec, ephemeral: Bytes, nonce: Bytes): Result<Envelope>
  {
    if x.origin == "" || x.id == "" then Err("transaction field must be a non-empty string")
    else if || !lib.identifier("node", x.origin) || !lib.identifier("node", a.destination)
            || !lib.identifier("transaction", x.id) then
      Err("identifier is invalid")
    else
      var context := Context(a.envelopeId, x.origin, a.destination, x.id, 1, x.protocolVersion);
      var record := EncodePayload(lib, t, c.(context := Some(context)), t.print_(x.body), ephemeral, nonce);
      if record.Err? then Err(record.reason)
      else
        Ok(Envelope(a.envelopeId, x.origin, a.destination, x.id, record.value.payload, a.createdAt,
                    lib.hash(record.value.data),
                    x.protocolVersion, a.routing, a.expiresAt, None, record.value.encryption))
  }

  /** The addressing the parser will accept. */
  predicate AddressingOk(lib: Library, x: Transaction, a: Addressing) {
    && a.envelopeId != "" && lib.identifier("envelope", a.envelopeId) && a.destination != ""
    && x.protocolVersion >= 1 && a.createdAt != "" && a.expiresAt != Some("")
  }

  lemma RecordEncrypted(lib: Library, c: Codec, data: Bytes)
    requires IsCodec(c) && data != [] && lib.lenient(Encode(data)) == Some(data)
    ensures IsEncrypted(Payload(Metadata(c.mode, c.algorithm), data)) <==> c.mode == ENCRYPTED
  {
    PayloadFields(lib, c, data);
    var m := Metadata(c.mode, c.algorithm);
    assert Get(m, "mode") == Some(Str(c.mode));
  }

  lemma RecordPayloadOk(lib: Library, c: Codec, data: Bytes)
    requires Sound(lib) && IsCodec(c) && data != []
    ensures PayloadOk(lib, Obj(Payload(Metadata(c.mode, c.algorithm), data)), Str(lib.hash(data)))
  {
    PayloadFields(lib, c, data);
  }

  lemma EncryptedRecord(lib: Library, t: Text, c: Codec, plain: Bytes, ephemeral: Bytes, nonce: Bytes)
    requires c.mode == ENCRYPTED && EncodePayload(lib, t, c, plain, ephemeral, nonce).Ok?
    ensures var r := EncodePayload(lib, t, c, plain, ephemeral, nonce).value;
      && c.context.Some? && r.payload == Payload(Metadata(c.mode, c.algorithm), r.data)
      && r.encryption ==
        Some(FullMetadata(c.context.value.destination, lib.hash(c.recipientKey), lib.exchangeKey(ephemeral), nonce))
    ensures Sound(lib) ==> EncodePayload(lib, t, c, plain, ephemeral, nonce).value.data != []
  {
  }

  /** A record carries its own bytes, and encryption metadata exactly when encrypted. */
  lemma RecordOk(lib: Library, t: Text, c: Codec, plain: Bytes, ephemeral: Bytes, nonce: Bytes)
    requires Sound(lib) && IsCodec(c) && plain != [] && |nonce| == 12
    requires EncodePayload(lib, t, c, plain, ephemeral, nonce).Ok?
    requires c.context.Some? && c.context.value.destination != ""
    ensures var r := EncodePayload(lib, t, c, plain, ephemeral, nonce).value;
      && PayloadOk(lib, Obj(r.payload), Str(lib.hash(r.data)))
      && EncryptionOk(lib, ObjectOrNull(r.encryption), r.payload, c.context.value.destination)
      && (r.encryption.Some? ==> Kept(r.encryption.value) == r.encryption.value)
  {
    if c.mode == ENCRYPTED {
      EncryptedRecordOk(lib, t, c, plain, ephemeral, nonce);
    } else {
      RecordPayloadOk(lib, c, plain);
      RecordEncrypted(lib, c, plain);
    }
  }

  lemma EncryptedRecordOk(lib: Library, t: Text, c: Codec, plain: Bytes, ephemeral: Bytes, nonce: Bytes)
    requires Sound(lib) && IsCodec(c) && c.mode == ENCRYPTED && |nonce| == 12
    requires EncodePayload(lib, t, c, plain, ephemeral, nonce).Ok?
    requires c.context.Some? && c.context.value.destination != ""
    ensures var r := EncodePayload(lib, t, c, plain, ephemeral, nonce).value;
      && PayloadOk(lib, Obj(r.payload), Str(lib.hash(r.data)))
      && EncryptionOk(lib, ObjectOrNull(r.encryption), r.payload, c.context.value.destination)
      && (r.encryption.Some? ==> Kept(r.encryption.value) == r.encryption.value)
  {
    var data, destination := EncodePayload(lib, t, c, plain, ephemeral, nonce).value.data, c.context.value.destination;
    EncryptedRecord(lib, t, c, plain, ephemeral, nonce);
    RecordPayloadOk(lib, c, data);
    RecordEncrypted(lib, c, data);
    FullMetadataOk(lib, destination, c.recipientKey, ephemeral, nonce);
    FullMetadataFields(destination, lib.hash(c.recipientKey), lib.exchangeKey(ephemeral), nonce);
  }

  /** Built envelopes are valid. */
  lemma BuiltIsValid(lib: Library, t: Text, x: Transaction, a: Addressing, c: Codec, ephemeral: Bytes, nonce: Bytes)
    requires Sound(lib) && IsCodec(c) && AddressingOk(lib, x, a) && |nonce| == 12 && t.print_(x.body) != []
    requires Build(lib, t, x, a, c, ephemeral, nonce).Ok?
    ensures Valid(lib, Build(lib, t, x, a, c, ephemeral, nonce).value)
  {
    var context := Context(a.envelopeId, x.origin, a.destination, x.id, 1, x.protocolVersion);
    RecordOk(lib, t, c.(context := Some(context)), t.print_(x.body), ephemeral, nonce);
  }

  /** Received bytes: parsed, verified against the sender's key, and decoded in the envelope's own context. */
  function Receive(
      lib: Library, t: Text, data: Bytes, sender: string, senderKey: Bytes, fingerprint: Option<string>,
      c: Codec): Result<Bytes>
  {
    var v := t.parse(data);
    if v.None? then Err("envelope json is invalid")
    else
      var e := Parse(lib, v.value);
      if e.Err? then Err(e.reason)
      else if !Verifies(lib, t, e.value, sender, senderKey, fingerprint) then Err("envelope signature is invalid")
      else DecodePayload(lib, t, c.(context := Some(ContextOf(e.value)), encryption := e.value.encryption),
        e.value.payload)
  }

  function Send(
      lib: Library, t: Text, x: Transaction, a: Addressing, c: Codec, ephemeral: Bytes, nonce: Bytes,
      privateKey: Bytes): Result<Bytes>
  {
    var e := Build(lib, t, x, a, c, ephemeral, nonce);
    if e.Err? then Err(e.reason)
    else
      var s := Sign(lib, t, e.value, x.origin, privateKey, lib.signingKey(privateKey));
      if s.Err? then Err(s.reason) else Ok(t.print_(Obj(Dictionary(s.value))))
  }

  /** The two ends agree: both plaintext, or the receiver holds the key the sender encrypted to. */
  predicate Ends(lib: Library, c: Codec, d: Codec, receiver: Bytes) {
    IsCodec(c) && d.mode == c.mode && d.algorithm == c.algorithm
    && (c.mode == ENCRYPTED ==>
          c.recipientKey == d.localPublic == lib.exchangeKey(receiver) && d.localPrivate == receiver)
  }

  lemma BuiltDecodes(
      lib: Library, t: Text, x: Transaction, a: Addressing, c: Codec, d: Codec, receiver: Bytes,
      ephemeral: Bytes, nonce: Bytes)
    requires Sound(lib) && AddressingOk(lib, x, a) && |nonce| == 12 && t.print_(x.body) != []
    requires Ends(lib, c, d, receiver)
    requires Build(lib, t, x, a, c, ephemeral, nonce).Ok?
    ensures var e := Build(lib, t, x, a, c, ephemeral, nonce).value;
      DecodePayload(lib, t, d.(context := Some(ContextOf(e)), encryption := e.encryption), e.payload) ==
        Ok(t.print_(x.body))
  {
    var e := Build(lib, t, x, a, c, ephemeral, nonce).value;
    var c', d' := c.(context := Some(ContextOf(e))), d.(context := Some(ContextOf(e)), encryption := e.encryption);
    if c.mode == ENCRYPTED {
      EncryptedRoundTrip(lib, t, c', d', receiver, t.print_(x.body), ephemeral, nonce);
    } else {
      PlaintextRoundTrip(lib, t, c', d', t.print_(x.body), ephemeral, nonce);
    }
  }

  /** Whatever is built, signed and sent is parsed, verified and decoded to the original canonical payload. */
  lemma SentIsReceived(
    lib: Library, t: Text, x: Transaction, a: Addressing, c: Codec, d: Codec, receiver: Bytes, ephemeral: Bytes,
    nonce: Bytes, privateKey: Bytes)
    requires Sound(lib) && SignsSoundly(lib) && Faithful(t) && AddressingOk(lib, x, a) && |nonce| == 12
    requires t.print_(x.body) != [] && Ends(lib, c, d, receiver)
    requires Send(lib, t, x, a, c, ephemeral, nonce, privateKey).Ok?
    ensures var key := lib.signingKey(privateKey);
      var sent := Send(lib, t, x, a, c, ephemeral, nonce, privateKey).value;
      Receive(lib, t, sent, x.origin, key, Some(lib.hash(key)), d) == Ok(t.print_(x.body))
  {
    var e := Build(lib, t, x, a, c, ephemeral, nonce).value;
    var s := Sign(lib, t, e, x.origin, privateKey, lib.signingKey(privateKey)).value;
    BuiltIsValid(lib, t, x, a, c, ephemeral, nonce);
    SignedVerifies(lib, t, e, x.origin, privateKey);
    assert t.parse(t.print_(Obj(Dictionary(s)))) == Some(Obj(Dictionary(s)));
    ParseIff(lib, Obj(Dictionary(s)), s);
    BuiltDecodes(lib, t, x, a, c, d, receiver, ephemeral, nonce);
    assert s.payload == e.payload && s.encryption == e.encryption && ContextOf(s) == ContextOf(e);
  }
}
