/** Canonical envelopes: their dictionary form, and the parser that takes exactly those forms. */
module Envelope {
  import opened Strings
  import opened Base64Url
  import opened Json
  import opened PayloadCodec

  const TRANSACTION := "transaction"

  datatype Envelope = Envelope(
    envelopeId: string, source: string, destination: string, transaction: string,
    payload: Members, createdAt: string, payloadHash: string, protocolVersion: int,
    routing: Members, expiresAt: Option<string>, signature: Option<Members>, encryption: Option<Members>)

  function TextOrNull(v: Option<string>): Json { if v.None? then Null else Str(v.value) }

  function ObjectOrNull(v: Option<Members>): Json { if v.None? then Null else Obj(v.value) }

  /** The identifying half and the content half of the dictionary form. */
  function Heading(e: Envelope): Members {
    map["version" := Int(1), "envelope_version" := Int(1), "message_type" := Str(TRANSACTION),
        "envelope_id" := Str(e.envelopeId), "message_id" := Str(e.envelopeId), "source_node_id" := Str(e.source),
        "destination_node_id" := Str(e.destination), "transaction_id" := Str(e.transaction)]
  }

  function Content(e: Envelope): Members {
    map["protocol_version" := Int(e.protocolVersion), "created_at" := Str(e.createdAt),
        "expires_at" := TextOrNull(e.expiresAt),
        "routing" := Obj(e.routing), "payload" := Obj(e.payload), "payload_hash" := Str(e.payloadHash),
        "signature_metadata" := ObjectOrNull(e.signature), "encryption_metadata" := ObjectOrNull(e.encryption)]
  }

  function Dictionary(e: Envelope): Members { Heading(e) + Content(e) }

  const HEADING_FIELDS := {"version", "envelope_version", "message_type", "envelope_id", "message_id",
    "source_node_id", "destination_node_id", "transaction_id"}
  const CONTENT_FIELDS := {"protocol_version", "created_at", "expires_at", "routing", "payload", "payload_hash",
    "signature_metadata", "encryption_metadata"}

  lemma HeadingFields(e: Envelope)
    ensures Heading(e).Keys == HEADING_FIELDS && HEADING_FIELDS !! CONTENT_FIELDS
    ensures var h := Heading(e);
      && h["version"] == Int(1) && h["envelope_version"] == Int(1) && h["message_type"] == Str(TRANSACTION)
      && h["envelope_id"] == Str(e.envelopeId) && h["message_id"] == Str(e.envelopeId)
      && h["source_node_id"] == Str(e.source)
      && h["destination_node_id"] == Str(e.destination) && h["transaction_id"] == Str(e.transaction)
  {
  }

  lemma ContentFields(e: Envelope)
    ensures Content(e).Keys == CONTENT_FIELDS
    ensures var c := Content(e);
      && c["protocol_version"] == Int(e.protocolVersion) && c["created_at"] == Str(e.createdAt)
      && c["expires_at"] == TextOrNull(e.expiresAt) && c["routing"] == Obj(e.routing)
      && c["payload"] == Obj(e.payload)
      && c["payload_hash"] == Str(e.payloadHash) && c["signature_metadata"] == ObjectOrNull(e.signature)
      && c["encryption_metadata"] == ObjectOrNull(e.encryption)
  {
  }

  // ---- signature metadata ---------------------------------------------------------------------------------

  const ED25519 := "ed25519"

  predicate SignatureMetadataOk(lib: Library, m: Members) {
    && IsOne(Get(m, "version")) && Get(m, "algorithm") == Some(Str(ED25519))
    && IsText(Get(m, "signer_node_id")) && lib.identifier("node", m["signer_node_id"].value)
    && IsText(Get(m, "key_fingerprint")) && FingerprintOk(lib, m["key_fingerprint"].value)
    && (Get(m, "signature").None? || m["signature"].Null? || IsText(Get(m, "signature")))
  }

  const SIGNATURE_KEYS := {"version", "algorithm", "signer_node_id", "key_fingerprint", "signature"}

  /** What validation keeps: the five known members, an absent signature as null. */
  function SignatureKept(m: Members): Members {
    map k | k in SIGNATURE_KEYS && (k in m || k == "signature") :: if k in m then m[k] else Null
  }

  // ---- parsing --------------------------------------------------------------------------------------------

  function Field(m: Members, key: string): Json { if key in m then m[key] else Null }

  predicate Text1(v: Json) { v.Str? && v.value != "" }

  predicate HeadingOk(lib: Library, m: Members) {
    && Field(m, "version") == Int(1) && Field(m, "envelope_version") == Int(1)
    && Field(m, "message_type") == Str(TRANSACTION)
    && Text1(Field(m, "envelope_id")) && Field(m, "message_id") == Field(m, "envelope_id")
    && Text1(Field(m, "source_node_id")) && Text1(Field(m, "destination_node_id"))
    && Text1(Field(m, "transaction_id"))
    && lib.identifier("envelope", Field(m, "envelope_id").value)
    && lib.identifier("node", Field(m, "source_node_id").value)
    && lib.identifier("node", Field(m, "destination_node_id").value)
    && lib.identifier("transaction", Field(m, "transaction_id").value)
  }

  /** The payload is a record of a known codec, and the hash is the hash of its bytes. */
  predicate PayloadOk(lib: Library, payload: Json, hash: Json) {
    && payload.Obj? && hash.Str? && |hash.value| == 64 && lib.hexadecimal(hash.value) && Lowercase(hash.value)
    && EncodedBytes(lib, payload.members).Some? && hash.value == lib.hash(EncodedBytes(lib, payload.members).value)
  }

  predicate IsEncrypted(payload: Members) {
    CodecOf(payload).Some? && Get(CodecOf(payload).value, "mode") == Some(Str(ENCRYPTED))
  }

  predicate SignatureOk(lib: Library, v: Json) { v.Null? || (v.Obj? && SignatureMetadataOk(lib, v.members)) }

  /** Encryption metadata accompanies encrypted payloads and no others, and names the destination. */
  predicate EncryptionOk(lib: Library, v: Json, payload: Members, destination: string) {
    if IsEncrypted(payload) then v.Obj? && EncryptionMetadataOk(lib, v.members, destination) else v.Null?
  }

  predicate ContentOk(lib: Library, m: Members) {
    && Field(m, "protocol_version").Int? && Field(m, "protocol_version").number >= 1
    && Text1(Field(m, "created_at")) && (Field(m, "expires_at").Null? || Text1(Field(m, "expires_at")))
    && Field(m, "routing").Obj? && PayloadOk(lib, Field(m, "payload"), Field(m, "payload_hash"))
    && SignatureOk(lib, Field(m, "signature_metadata"))
    && Field(m, "destination_node_id").Str?
    && EncryptionOk(lib, Field(m, "encryption_metadata"), Field(m, "payload").members,
      Field(m, "destination_node_id").value)
  }

  /** Every field has the right kind of value. */
  predicate Shaped(m: Members) {
    && Field(m, "envelope_id").Str? && Field(m, "source_node_id").Str? && Field(m, "destination_node_id").Str?
    && Field(m, "transaction_id").Str? && Field(m, "payload").Obj? && Field(m, "created_at").Str?
    && Field(m, "payload_hash").Str?
    && Field(m, "protocol_version").Int? && Field(m, "routing").Obj?
    && (Field(m, "expires_at").Null? || Field(m, "expires_at").Str?)
    && (Field(m, "signature_metadata").Null? || Field(m, "signature_metadata").Obj?)
    && (Field(m, "encryption_metadata").Null? || Field(m, "encryption_metadata").Obj?)
  }

  /** The envelope in a mapping that passed the checks. */
  function Extracted(m: Members): Envelope
    requires Shaped(m)
  {
    Envelope(
      Field(m, "envelope_id").value, Field(m, "source_node_id").value, Field(m, "destination_node_id").value,
      Field(m, "transaction_id").value, Field(m, "payload").members, Field(m, "created_at").value,
      Field(m, "payload_hash").value, Field(m, "protocol_version").number,
      Field(m, "routing").members, TextIn(Field(m, "expires_at")), SignatureIn(Field(m, "signature_metadata")),
      EncryptionIn(Field(m, "encryption_metadata")))
  }

  function TextIn(v: Json): Option<string>
    requires v.Null? || v.Str?
  {
    if v.Null? then None else Some(v.value)
  }

  function SignatureIn(v: Json): Option<Members>
    requires v.Null? || v.Obj?
  {
    if v.Null? then None else Some(SignatureKept(v.members))
  }

  function EncryptionIn(v: Json): Option<Members>
    requires v.Null? || v.Obj?
  {
    if v.Null? then None else Some(Kept(v.members))
  }

  function Parse(lib: Library, v: Json): Result<Envelope> {
    if !v.Obj? then Err("envelope must be a JSON object")
    else if v.members.Keys != HEADING_FIELDS + CONTENT_FIELDS then Err("unknown or missing envelope field")
    else if !HeadingOk(lib, v.members) || !ContentOk(lib, v.members) then Err("envelope field is invalid")
    else if Dictionary(Extracted(v.members)) != v.members then Err("envelope is not in canonical protocol shape")
    else Ok(Extracted(v.members))
  }

  // ---- valid envelopes ------------------------------------------------------------------------------------

  predicate ValidHeading(lib: Library, e: Envelope) {
    && e.envelopeId != "" && e.source != "" && e.destination != "" && e.transaction != ""
    && lib.identifier("envelope", e.envelopeId) && lib.identifier("node", e.source)
    && lib.identifier("node", e.destination) && lib.identifier("transaction", e.transaction)
  }

  predicate ValidContent(lib: Library, e: Envelope) {
    && e.protocolVersion >= 1 && e.createdAt != "" && e.expiresAt != Some("")
    && PayloadOk(lib, Obj(e.payload), Str(e.payloadHash))
    && (e.signature.Some? ==>
          SignatureMetadataOk(lib, e.signature.value) && SignatureKept(e.signature.value) == e.signature.value)
    && EncryptionOk(lib, ObjectOrNull(e.encryption), e.payload, e.destination)
    && (e.encryption.Some? ==> Kept(e.encryption.value) == e.encryption.value)
  }

  predicate Valid(lib: Library, e: Envelope) { ValidHeading(lib, e) && ValidContent(lib, e) }

  lemma DictionaryFields(e: Envelope)
    ensures Dictionary(e).Keys == HEADING_FIELDS + CONTENT_FIELDS
    ensures var d := Dictionary(e);
      && Field(d, "version") == Int(1) && Field(d, "envelope_version") == Int(1)
      && Field(d, "message_type") == Str(TRANSACTION)
      && Field(d, "envelope_id") == Str(e.envelopeId) && Field(d, "message_id") == Str(e.envelopeId)
      && Field(d, "source_node_id") == Str(e.source)
      && Field(d, "destination_node_id") == Str(e.destination) && Field(d, "transaction_id") == Str(e.transaction)
    ensures var d := Dictionary(e);
      && Field(d, "protocol_version") == Int(e.protocolVersion) && Field(d, "created_at") == Str(e.createdAt)
      && Field(d, "expires_at") == TextOrNull(e.expiresAt) && Field(d, "routing") == Obj(e.routing)
      && Field(d, "payload") == Obj(e.payload)
      && Field(d, "payload_hash") == Str(e.payloadHash) && Field(d, "signature_metadata") == ObjectOrNull(e.signature)
      && Field(d, "encryption_metadata") == ObjectOrNull(e.encryption)
  {
    HeadingFields(e);
    ContentFields(e);
  }

  lemma ValidIffOk(lib: Library, e: Envelope)
    requires SignatureKeptSame(e) && EncryptionKeptSame(e)
    ensures Valid(lib, e) <==> HeadingOk(lib, Dictionary(e)) && ContentOk(lib, Dictionary(e))
  {
    DictionaryFields(e);
  }

  predicate SignatureKeptSame(e: Envelope) {
    e.signature.Some? ==> SignatureKept(e.signature.value) == e.signature.value
  }

  predicate EncryptionKeptSame(e: Envelope) { e.encryption.Some? ==> Kept(e.encryption.value) == e.encryption.value }

  lemma ExtractedDictionary(e: Envelope)
    requires SignatureKeptSame(e) && EncryptionKeptSame(e)
    ensures Shaped(Dictionary(e)) && Extracted(Dictionary(e)) == e
  {
    DictionaryFields(e);
    DictionaryShaped(e);
    OptionalParts(e);
    var x := Extracted(Dictionary(e));
    assert x.expiresAt == e.expiresAt && x.signature == e.signature && x.encryption == e.encryption;
    assert x.payload == e.payload && x.routing == e.routing;
  }

  lemma DictionaryShaped(e: Envelope)
    ensures Shaped(Dictionary(e))
  {
    DictionaryFields(e);
  }

  lemma OptionalParts(e: Envelope)
    requires SignatureKeptSame(e) && EncryptionKeptSame(e)
    ensures TextIn(TextOrNull(e.expiresAt)) == e.expiresAt && SignatureIn(ObjectOrNull(e.signature)) == e.signature
    ensures EncryptionIn(ObjectOrNull(e.encryption)) == e.encryption
  {
  }

  /** The parser takes exactly the dictionary forms of valid envelopes, and gives back the envelope. */
  lemma ParseIff(lib: Library, v: Json, e: Envelope)
    ensures Parse(lib, v) == Ok(e) <==> v == Obj(Dictionary(e)) && Valid(lib, e)
  {
    if v == Obj(Dictionary(e)) && Valid(lib, e) {
      ParseOfDictionary(lib, e);
    }
    if Parse(lib, v) == Ok(e) {
      ParsedIsValid(lib, v.members, e);
    }
  }

  lemma ParseOfDictionary(lib: Library, e: Envelope)
    requires Valid(lib, e)
    ensures Parse(lib, Obj(Dictionary(e))) == Ok(e)
  {
    ValidIffOk(lib, e);
    ExtractedDictionary(e);
    DictionaryFields(e);
  }

  lemma ParsedIsValid(lib: Library, m: Members, e: Envelope)
    requires HeadingOk(lib, m) && ContentOk(lib, m) && e == Extracted(m) && Dictionary(e) == m
    ensures Valid(lib, e)
  {
    DictionaryFields(e);
    ValidIffOk(lib, e);
  }

  // ---- objects with repeated members ----------------------------------------------------------------------

  /** The first `n` members have different names. */
  predicate Distinct(pairs: seq<(string, Json)>, n: nat)
    requires n <= |pairs|
  {
    forall i, j :: 0 <= i < j < n ==> pairs[i].0 != pairs[j].0
  }

  predicate Named(pairs: seq<(string, Json)>, n: nat, key: string)
    requires n <= |pairs|
  {
    exists i :: 0 <= i < n && pairs[i].0 == key
  }

  /** Exactly the first `n` members. */
  ghost predicate Holds(m: Members, pairs: seq<(string, Json)>, n: nat)
    requires n <= |pairs|
  {
    && (forall i :: 0 <= i < n ==> pairs[i].0 in m && m[pairs[i].0] == pairs[i].1)
    && (forall key :: key in m ==> Named(pairs, n, key))
  }

  /** Collect the members of an object, refusing a repeated name. */
  method RejectDuplicates(pairs: seq<(string, Json)>) returns (r: Result<Members>)
    ensures r.Ok? <==> Distinct(pairs, |pairs|)
    ensures r.Ok? ==> Holds(r.value, pairs, |pairs|)
  {
    var seen: set<string>, result: Members := {}, map[];
    var i := 0;
    while i < |pairs|
      invariant 0 <= i <= |pairs| && Distinct(pairs, i) && Holds(result, pairs, i) && seen == result.Keys
    {
      var key, value := pairs[i].0, pairs[i].1;
      if key in seen {
        assert Named(pairs, i, key);
        return Err("duplicate envelope field");
      }
      HoldsNext(result, pairs, i);
      seen := seen + {key};
      result := result[key := value];
      i := i + 1;
    }
    return Ok(result);
  }

  lemma HoldsNext(m: Members, pairs: seq<(string, Json)>, n: nat)
    requires n < |pairs| && Distinct(pairs, n) && Holds(m, pairs, n) && pairs[n].0 !in m
    ensures Distinct(pairs, n + 1) && Holds(m[pairs[n].0 := pairs[n].1], pairs, n + 1)
  {
    var m' := m[pairs[n].0 := pairs[n].1];
    forall key | key in m' ensures Named(pairs, n + 1, key) {
      if key != pairs[n].0 { assert Named(pairs, n, key); }
    }
  }
}
