/** Signing canonical envelopes and verifying them. */
module EnvelopeSigning {
  import opened Strings
  import opened Base64Url
  import opened Json
  import opened PayloadCodec
  import opened Envelope

  ghost predicate SignsSoundly(lib: Library) {
    && (forall k, m :: lib.verify(lib.signingKey(k), m, lib.sign(k, m)))
    && (forall k, m :: |lib.sign(k, m)| == 64)
  }

  function SignatureMembers(signer: string, fingerprint: string, signature: Json): Members {
    map["version" := Int(1), "algorithm" := Str(ED25519), "signer_node_id" := Str(signer),
        "key_fingerprint" := Str(fingerprint), "signature" := signature]
  }

  /** The bytes that are signed: the envelope with its signature metadata, the signature itself null. */
  function SigningBytes(t: Text, e: Envelope, metadata: Members): Bytes {
    t.print_(Obj(Dictionary(e.(signature := Some(metadata["signature" := Null])))))
  }

  function Sign(
      lib: Library, t: Text, e: Envelope, signer: string, privateKey: Bytes, publicKey: Bytes): Result<Envelope>
  {
    if !lib.identifier("node", signer) then Err("signer_node_id is invalid")
    else if e.source != signer then Err("signer_node_id must match envelope source_node_id")
    else if e.signature.Some? then Err("envelope is already signed")
    else if |publicKey| != 32 || |privateKey| != 32 then Err("signing keys must be 32 raw bytes")
    else
      var metadata := SignatureMembers(signer, lib.hash(publicKey), Null);
      var signature := lib.sign(privateKey, SigningBytes(t, e, metadata));
      Ok(e.(signature := Some(metadata["signature" := Str(Encode(signature))])))
  }

  /** Verification succeeds; `fingerprint` is the admitted one, if known. */
  predicate Verifies(
      lib: Library, t: Text, e: Envelope, signer: string, publicKey: Bytes, fingerprint: Option<string>)
  {
    && lib.identifier("node", signer) && e.source == signer
    && e.signature.Some? && SignatureMetadataOk(lib, e.signature.value)
    && var m := SignatureKept(e.signature.value);
      && Get(m, "signer_node_id") == Some(Str(signer)) && |publicKey| == 32
      && Get(m, "key_fingerprint") == Some(Str(lib.hash(publicKey)))
      && (fingerprint.Some? ==> Get(m, "key_fingerprint") == Some(Str(fingerprint.value)))
      && IsText(Get(m, "signature")) && SizeIs(Decode(m["signature"].value), 64)
      && lib.verify(publicKey, SigningBytes(t, e, m), Decode(m["signature"].value).value)
  }

  lemma SignatureFields(lib: Library, signer: string, fingerprint: string, signature: Json)
    ensures var m := SignatureMembers(signer, fingerprint, signature);
      && Get(m, "version") == Some(Int(1)) && Get(m, "algorithm") == Some(Str(ED25519))
      && Get(m, "signer_node_id") == Some(Str(signer)) && Get(m, "key_fingerprint") == Some(Str(fingerprint))
      && Get(m, "signature") == Some(signature)
    ensures SignatureKept(SignatureMembers(signer, fingerprint, signature)) ==
      SignatureMembers(signer, fingerprint, signature)
    ensures SignatureMembers(signer, fingerprint, Null)["signature" := signature] ==
      SignatureMembers(signer, fingerprint, signature)
    ensures SignatureMembers(signer, fingerprint, signature)["signature" := Null] ==
      SignatureMembers(signer, fingerprint, Null)
  {
  }

  lemma SignatureMembersOk(lib: Library, signer: string, key: Bytes, signature: Bytes)
    requires Sound(lib) && signer != "" && lib.identifier("node", signer) && signature != []
    ensures SignatureMetadataOk(lib, SignatureMembers(signer, lib.hash(key), Str(Encode(signature))))
  {
    SignatureFields(lib, signer, lib.hash(key), Str(Encode(signature)));
    RoundTrip(signature);
  }

  /** A signed envelope verifies under the signer's key, and is valid if the unsigned one was. */
  lemma SignedVerifies(lib: Library, t: Text, e: Envelope, signer: string, privateKey: Bytes)
    requires Sound(lib) && SignsSoundly(lib) && signer != ""
    requires Sign(lib, t, e, signer, privateKey, lib.signingKey(privateKey)).Ok?
    ensures var s := Sign(lib, t, e, signer, privateKey, lib.signingKey(privateKey)).value;
      && Verifies(lib, t, s, signer, lib.signingKey(privateKey), None)
      && Verifies(lib, t, s, signer, lib.signingKey(privateKey), Some(lib.hash(lib.signingKey(privateKey))))
      && s.(signature := None) == e && (Valid(lib, e) ==> Valid(lib, s))
  {
    var key := lib.signingKey(privateKey);
    var unsigned := SignatureMembers(signer, lib.hash(key), Null);
    var signature := lib.sign(privateKey, SigningBytes(t, e, unsigned));
    var members := SignatureMembers(signer, lib.hash(key), Str(Encode(signature)));
    SignatureFields(lib, signer, lib.hash(key), Str(Encode(signature)));
    SignatureFields(lib, signer, lib.hash(key), Null);
    SignatureMembersOk(lib, signer, key, signature);
    RoundTrip(signature);
    var s := e.(signature := Some(members));
    assert SigningBytes(t, s, members) == SigningBytes(t, e, unsigned);
  }

  /** The signed bytes determine the whole envelope but for the signature text: no field can change
      without changing what was signed. */
  lemma SigningBytesBind(t: Text, e: Envelope, e': Envelope, m: Members, m': Members)
    requires Faithful(t) && SigningBytes(t, e, m) == SigningBytes(t, e', m')
    ensures e.(signature := None) == e'.(signature := None) && m["signature" := Null] == m'["signature" := Null]
  {
    var d, d' := e.(signature := Some(m["signature" := Null])), e'.(signature := Some(m'["signature" := Null]));
    assert t.parse(t.print_(Obj(Dictionary(d)))) == Some(Obj(Dictionary(d)));
    assert t.parse(t.print_(Obj(Dictionary(d')))) == Some(Obj(Dictionary(d')));
    DictionaryInjective(d, d');
  }

  /** Different envelopes have different dictionary forms. */
  lemma DictionaryInjective(e: Envelope, e': Envelope)
    requires Dictionary(e) == Dictionary(e')
    ensures e == e'
  {
    DictionaryFields(e);
    DictionaryFields(e');
    OptionalInjective(e, e');
  }

  lemma OptionalInjective(e: Envelope, e': Envelope)
    requires TextOrNull(e.expiresAt) == TextOrNull(e'.expiresAt)
    requires ObjectOrNull(e.signature) == ObjectOrNull(e'.signature)
    requires ObjectOrNull(e.encryption) == ObjectOrNull(e'.encryption)
    ensures e.expiresAt == e'.expiresAt && e.signature == e'.signature && e.encryption == e'.encryption
  {
  }
}
