/** Sealed invitation frames: signed, encrypted, opened again, and their sizes.

    Primitives are a record of functions. `Ideal` states what is relied on: decryption inverts encryption
    and adds 16 bytes, signatures have 64 bytes and verify under the signer's public key. */
module InvitationFrames {
  import opened Strings
  import opened Base64Url
  import opened Json
  import opened InvitationCode

  const PROTOCOL := "peer_invitation/v1"
  const ALGORITHM := "chacha20poly1305"
  const MAX_BYTES := 32768
  const MAX_LIFETIME := 900

  datatype Crypto = Crypto(
    encrypt: (Bytes, Bytes, Bytes, Bytes) -> Bytes,
    decrypt: (Bytes, Bytes, Bytes, Bytes) -> Option<Bytes>,
    sign: (Bytes, Bytes) -> Bytes,
    verify: (Bytes, Bytes, Bytes) -> bool,
    publicKey: Bytes -> Bytes,
    hash: Bytes -> Bytes,
    derive: (Bytes, string) -> Bytes)

  ghost predicate Ideal(c: Crypto) {
    && (forall k, n, p, a :: c.decrypt(k, n, c.encrypt(k, n, p, a), a) == Some(p))
    && (forall k, n, p, a :: |c.encrypt(k, n, p, a)| == |p| + 16)
    && (forall k, m :: |c.sign(k, m)| == 64)
    && (forall k, m :: c.verify(c.publicKey(k), m, c.sign(k, m)))
  }

  // ---- encrypted blobs ------------------------------------------------------------------------------------

  datatype Blob = Blob(algorithm: string, keyId: string, context: string, nonce: Bytes, ciphertext: Bytes)

  /** Printable without an escape. */
  predicate Unescaped(s: string) {
    forall i :: 0 <= i < |s| ==> ' ' <= s[i] <= '~' && s[i] != '\"' && s[i] != '\\'
  }

  predicate ValidBlob(b: Blob) { b.algorithm != "" && b.nonce != [] && b.ciphertext != [] }

  /** The deterministic JSON text of a blob, version 1, its keys sorted. */
  function BlobText(b: Blob): string {
    "{\"ciphertext\":\"" + Encode(b.ciphertext) + "\",\"header\":{\"algorithm\":\"" + b.algorithm +
    "\",\"context\":\"" + b.context + "\",\"key_id\":\"" + b.keyId + "\",\"version\":1},\"nonce\":\"" +
    Encode(b.nonce) + "\"}"
  }

  function BlobJson(b: Blob): Json {
    Obj(map["ciphertext" := Str(Encode(b.ciphertext)), "nonce" := Str(Encode(b.nonce)),
            "header" := Obj(HeaderJson(Header(b.algorithm, b.keyId, b.context)))])
  }

  /** The JSON parser reads blob texts as what they say. */
  ghost predicate ReadsBlobs(read: string -> Option<Json>) {
    forall b: Blob :: Unescaped(b.algorithm) && Unescaped(b.context) && Unescaped(b.keyId) ==>
      read(BlobText(b)) == Some(BlobJson(b))
  }

  function RequiredText(o: map<string, Json>, key: string): Option<string> {
    var v := Get(o, key);
    if v.Some? && v.value.Str? && v.value.value != "" then Some(v.value.value) else None
  }

  function OptionalText(o: map<string, Json>, key: string): Option<string> {
    var v := Get(o, key);
    if v.None? then Some("") else if v.value.Str? then Some(v.value.value) else None
  }

  function RequiredBytes(o: map<string, Json>, key: string): Option<Bytes> {
    var text := RequiredText(o, key);
    if text.None? then None else Decode(text.value)
  }

  datatype Header = Header(algorithm: string, keyId: string, context: string)

  function DecodeHeader(h: map<string, Json>): Option<Header> {
    var algorithm, keyId, context :=
      RequiredText(h, "algorithm"), OptionalText(h, "key_id"), OptionalText(h, "context");
    if Get(h, "version") != Some(Int(1)) || algorithm.None? || keyId.None? || context.None? then None
    else Some(Header(algorithm.value, keyId.value, context.value))
  }

  function DecodeBlob(v: Json): Option<Blob> {
    if !v.Obj? then None
    else
      var header := Get(v.members, "header");
      if header.None? || !header.value.Obj? then None
      else
        var h := DecodeHeader(header.value.members);
        var nonce, ciphertext := RequiredBytes(v.members, "nonce"), RequiredBytes(v.members, "ciphertext");
        if h.None? || nonce.None? || ciphertext.None? || nonce.value == [] || ciphertext.value == [] then None
        else Some(Blob(h.value.algorithm, h.value.keyId, h.value.context, nonce.value, ciphertext.value))
  }

  function HeaderJson(h: Header): map<string, Json> {
    map["algorithm" := Str(h.algorithm), "context" := Str(h.context), "key_id" := Str(h.keyId), "version" := Int(1)]
  }

  lemma HeaderRoundTrip(h: Header)
    requires h.algorithm != ""
    ensures DecodeHeader(HeaderJson(h)) == Some(h)
  {
    var o := HeaderJson(h);
    assert Get(o, "algorithm") == Some(Str(h.algorithm)) && Get(o, "version") == Some(Int(1));
    assert Get(o, "key_id") == Some(Str(h.keyId)) && Get(o, "context") == Some(Str(h.context));
  }

  /** Decoding a blob's JSON gives the blob. */
  lemma BlobRoundTrip(b: Blob)
    requires ValidBlob(b)
    ensures DecodeBlob(BlobJson(b)) == Some(b)
  {
    var o := BlobJson(b).members;
    HeaderRoundTrip(Header(b.algorithm, b.keyId, b.context));
    RequiredBytesOf(o, "nonce", b.nonce);
    RequiredBytesOf(o, "ciphertext", b.ciphertext);
  }

  lemma RequiredBytesOf(o: map<string, Json>, key: string, b: Bytes)
    requires key in o && o[key] == Str(Encode(b)) && b != []
    ensures RequiredBytes(o, key) == Some(b)
  {
    RoundTrip(b);
    assert Encode(b) != "";
  }

  // ---- messages -------------------------------------------------------------------------------------------

  /** Which side writes each stage. */
  function Role(stage: string): Option<string> {
    if stage == "offer" || stage == "approve" then Some("source")
    else if stage == "join" || stage == "complete" then Some("target")
    else None
  }

  function Context(c: Crypto, secret: Secret, stage: string, role: string): map<string, Json> {
    map["protocol" := Str(PROTOCOL), "session_id" := Str(Encode(c.derive(secret.root, "session"))),
        "role" := Str(role), "stage" := Str(stage)]
  }

  function Payload(context: map<string, Json>, issued: int, expires: int, body: map<string, Json>): map<string, Json> {
    context["issued_at" := Int(issued)]["expires_at" := Int(expires)]["body" := Obj(body)]
  }

  function Signed(payload: map<string, Json>, signer: Bytes, signature: Bytes): map<string, Json> {
    map["payload" := Obj(payload), "signing_public_key" := Str(Encode(signer)), "signature" := Str(Encode(signature))]
  }

  /** The signed message of one phase. */
  function Message(
    c: Crypto, t: Text, context: map<string, Json>, body: map<string, Json>, privateKey: Bytes, signer: Bytes,
    issued: int, expires: int): Json
  {
    var payload := Payload(context, issued, expires, body);
    Obj(Signed(payload, signer, c.sign(privateKey, t.print_(Obj(payload)))))
  }

  function Encrypted(
      c: Crypto, t: Text, secret: Secret, stage: string, context: map<string, Json>, message: Json,
      nonce: Bytes): Blob
  {
    Blob(ALGORITHM, "", PROTOCOL, nonce,
      c.encrypt(c.derive(secret.root, "encrypt:" + stage), nonce, t.print_(message), t.print_(Obj(context))))
  }

  /** Sign and encrypt one phase; the nonce is drawn at random. */
  function Seal(
    c: Crypto, t: Text, secret: Secret, stage: string, body: map<string, Json>,
    privateKey: Bytes, signer: Bytes, expires: int, now: int, nonce: Bytes): Result<string>
  {
    var role := Role(stage);
    if !(now < expires <= now + MAX_LIFETIME) then Err("invitation lifetime is invalid")
    else if role.None? then Err("invitation stage is invalid")
    else if |privateKey| != 32 then Err("private_key must be 32 raw bytes")
    else
      var context := Context(c, secret, stage, role.value);
      var message := Message(c, t, context, body, privateKey, signer, now, expires);
      if |t.print_(message)| > MAX_BYTES / 2 then Err("invitation message is too large")
      else Ok(BlobText(Encrypted(c, t, secret, stage, context, message, nonce)))
  }

  datatype Opened = Opened(body: map<string, Json>, signer: Bytes, expires: int)

  /** What the opener knows beforehand. */
  datatype Expected = Expected(signer: Option<Bytes>, expires: Option<int>)

  const FAILED := "invitation verification failed"

  /** The deadline of a payload is acceptable now. */
  predicate TimelyIn(issued: int, expires: int, now: int, expected: Expected) {
    && issued <= now + 30 && 0 < expires - issued <= MAX_LIFETIME && now < expires
    && (expected.expires.Some? ==> expires == expected.expires.value)
  }

  predicate SignerFits(c: Crypto, secret: Secret, stage: string, signer: Bytes, expected: Expected) {
    && (stage == "offer" || stage == "approve" ==> c.hash(signer) == secret.issuer)
    && (expected.signer.Some? ==> signer == expected.signer.value)
    && (stage == "complete" ==> expected.signer.Some?)
  }

  /** Checks on the decrypted and parsed message. */
  function CheckSigned(
    c: Crypto, t: Text, secret: Secret, stage: string, context: map<string, Json>, v: Json, now: int,
    expected: Expected): Result<Opened>
  {
    if || !v.Obj? || v.members.Keys != {"payload", "signing_public_key", "signature"}
       || !v.members["payload"].Obj? then Err(FAILED)
    else
      var payload := v.members["payload"].members;
      if payload.Keys != context.Keys + {"issued_at", "expires_at", "body"} then Err(FAILED)
      else if (exists key :: key in context && payload[key] != context[key]) || !payload["body"].Obj? then Err(FAILED)
      else if !payload["issued_at"].Int? || !payload["expires_at"].Int? then Err(FAILED)
      else
        var issued, expires := payload["issued_at"].number, payload["expires_at"].number;
        var key, sig := v.members["signing_public_key"], v.members["signature"];
        if !TimelyIn(issued, expires, now, expected) || (stage != "offer" && expected.expires.None?) then Err(FAILED)
        else if !key.Str? || !sig.Str? then Err(FAILED)
        else
          var signer, signature := KeyBytes(key.value), Decode(sig.value);
          if signer.None? || !SignerFits(c, secret, stage, signer.value, expected) then Err(FAILED)
          else if signature.None? || |signature.value| != 64 then Err(FAILED)
          else if !c.verify(signer.value, t.print_(Obj(payload)), signature.value) then Err(FAILED)
          else Ok(Opened(payload["body"].members, signer.value, expires))
  }

  /** Decrypt and parse a blob's content. */
  function Content(
      c: Crypto, t: Text, secret: Secret, stage: string, context: map<string, Json>, blob: Blob): Option<Json>
  {
    if blob.context != PROTOCOL || blob.algorithm != ALGORITHM || |blob.nonce| != 12 then None
    else
      var raw := c.decrypt(c.derive(secret.root, "encrypt:" + stage), blob.nonce, blob.ciphertext,
        t.print_(Obj(context)));
      if raw.Some? then t.parse(raw.value) else None
  }

  function Open(
    c: Crypto, t: Text, read: string -> Option<Json>, secret: Secret, stage: string, data: string, now: int,
    expected: Expected): Result<Opened>
  {
    var role, value := Role(stage), read(data);
    if |data| > MAX_BYTES || role.None? || value.None? then Err(FAILED)
    else
      var blob, context := DecodeBlob(value.value), Context(c, secret, stage, role.value);
      var content := if blob.None? then None else Content(c, t, secret, stage, context, blob.value);
      if content.None? then Err(FAILED) else CheckSigned(c, t, secret, stage, context, content.value, now, expected)
  }

  // ---- sizes ----------------------------------------------------------------------------------------------

  /** The size of a frame depends only on the size of what it seals. */
  lemma BlobSize(nonce: Bytes, ciphertext: Bytes)
    requires |nonce| == 12
    ensures |BlobText(Blob(ALGORITHM, "", PROTOCOL, nonce, ciphertext))| == (4 * |ciphertext| + 2) / 3 + 141
  {
    RoundTrip(nonce);
    RoundTrip(ciphertext);
  }

  lemma EncryptedSize(
      c: Crypto, t: Text, secret: Secret, stage: string, context: map<string, Json>, message: Json,
      nonce: Bytes)
    requires Ideal(c) && |nonce| == 12 && |t.print_(message)| <= MAX_BYTES / 2
    ensures 0 < |BlobText(Encrypted(c, t, secret, stage, context, message, nonce))| <= 22008
    ensures ValidBlob(Encrypted(c, t, secret, stage, context, message, nonce))
  {
    BlobSize(nonce, Encrypted(c, t, secret, stage, context, message, nonce).ciphertext);
  }

  /** Whatever is sealed stays within the frame limit. */
  lemma SealedFits(
    c: Crypto, t: Text, secret: Secret, stage: string, body: map<string, Json>,
    privateKey: Bytes, signer: Bytes, expires: int, now: int, nonce: Bytes)
    requires Ideal(c) && |nonce| == 12
    requires Seal(c, t, secret, stage, body, privateKey, signer, expires, now, nonce).Ok?
    ensures 0 < |Seal(c, t, secret, stage, body, privateKey, signer, expires, now, nonce).value| <= 22008 < MAX_BYTES
  {
    var context := Context(c, secret, stage, Role(stage).value);
    EncryptedSize(c, t, secret, stage, context, Message(c, t, context, body, privateKey, signer, now, expires), nonce);
  }

  // ---- opening what was sealed ----------------------------------------------------------------------------

  /** Opening conditions a caller can check: the time, the expectations and the signer's key. */
  predicate Opens(
      c: Crypto, secret: Secret, stage: string, signer: Bytes, issued: int, expires: int, now: int,
      expected: Expected)
  {
    && issued - 30 <= now < expires
    && (if expected.expires.Some? then expected.expires.value == expires else stage == "offer")
    && |signer| == 32 && SignerFits(c, secret, stage, signer, expected)
  }

  lemma PayloadFields(context: map<string, Json>, issued: int, expires: int, body: map<string, Json>)
    requires context.Keys == {"protocol", "session_id", "role", "stage"}
    ensures var p := Payload(context, issued, expires, body);
      && p.Keys == context.Keys + {"issued_at", "expires_at", "body"}
      && (forall key :: key in context ==> p[key] == context[key])
      && p["issued_at"] == Int(issued) && p["expires_at"] == Int(expires) && p["body"] == Obj(body)
  {
  }

  lemma SignedFields(payload: map<string, Json>, signer: Bytes, signature: Bytes)
    ensures var s := Signed(payload, signer, signature);
      && s.Keys == {"payload", "signing_public_key", "signature"}
      && s["payload"] == Obj(payload) && s["signing_public_key"] == Str(Encode(signer))
      && s["signature"] == Str(Encode(signature))
  {
  }

  lemma KeyOf(signer: Bytes)
    ensures KeyBytes(Encode(signer)) == if |signer| == 32 then Some(signer) else None
  {
    KeyBytesIff(Encode(signer), signer);
    if |signer| != 32 && KeyBytes(Encode(signer)).Some? {
      var key := KeyBytes(Encode(signer)).value;
      RoundTrip(signer);
      KeyBytesIff(Encode(signer), key);
      RoundTrip(key);
    }
  }

  lemma ChecksSigned(
    c: Crypto, t: Text, secret: Secret, stage: string, context: map<string, Json>, body: map<string, Json>,
    privateKey: Bytes, signer: Bytes, issued: int, expires: int, now: int, expected: Expected)
    requires Ideal(c) && context.Keys == {"protocol", "session_id", "role", "stage"} &&
      issued < expires <= issued + MAX_LIFETIME
    ensures var payload := Payload(context, issued, expires, body);
      var signature := c.sign(privateKey, t.print_(Obj(payload)));
      CheckSigned(c, t, secret, stage, context, Message(c, t, context, body, privateKey, signer, issued, expires),
        now, expected)
      == if Opens(c, secret, stage, signer, issued, expires, now, expected) &&
        c.verify(signer, t.print_(Obj(payload)), signature)
         then Ok(Opened(body, signer, expires)) else Err(FAILED)
  {
    var payload := Payload(context, issued, expires, body);
    var signature := c.sign(privateKey, t.print_(Obj(payload)));
    PayloadFields(context, issued, expires, body);
    SignedFields(payload, signer, signature);
    KeyOf(signer);
    RoundTrip(signature);
  }

  /** Everything that seals opens to the same body, signer and expiry, from 30 seconds before issue up to
      but not including expiry, exactly for the fitting expectations; otherwise opening fails. */
  lemma SealedOpensIff(
    c: Crypto, t: Text, read: string -> Option<Json>, secret: Secret, stage: string, body: map<string, Json>,
    privateKey: Bytes, expires: int, issued: int, nonce: Bytes, now: int, expected: Expected)
    requires Ideal(c) && Faithful(t) && ReadsBlobs(read) && |nonce| == 12
    requires Seal(c, t, secret, stage, body, privateKey, c.publicKey(privateKey), expires, issued, nonce).Ok?
    ensures var signer := c.publicKey(privateKey);
      Open(c, t, read, secret, stage,
        Seal(c, t, secret, stage, body, privateKey, signer, expires, issued, nonce).value, now, expected)
      == if Opens(c, secret, stage, signer, issued, expires, now, expected)
        then Ok(Opened(body, signer, expires)) else Err(FAILED)
  {
    var signer := c.publicKey(privateKey);
    var context := Context(c, secret, stage, Role(stage).value);
    var message := Message(c, t, context, body, privateKey, signer, issued, expires);
    var blob := Encrypted(c, t, secret, stage, context, message, nonce);
    EncryptedSize(c, t, secret, stage, context, message, nonce);
    ReadsFrame(read, blob);
    Decrypts(c, t, secret, stage, context, message, nonce);
    OpensTo(c, t, read, secret, stage, context, blob, message, now, expected);
    ChecksSigned(c, t, secret, stage, context, body, privateKey, signer, issued, expires, now, expected);
  }

  lemma OpensTo(
      c: Crypto, t: Text, read: string -> Option<Json>, secret: Secret, stage: string, context: map<string,
      Json>, blob: Blob, message: Json, now: int, expected: Expected)
    requires Role(stage).Some? && context == Context(c, secret, stage, Role(stage).value)
    requires |BlobText(blob)| <= MAX_BYTES
    requires read(BlobText(blob)).Some? && DecodeBlob(read(BlobText(blob)).value) == Some(blob)
    requires Content(c, t, secret, stage, context, blob) == Some(message)
    ensures Open(c, t, read, secret, stage, BlobText(blob), now, expected) ==
      CheckSigned(c, t, secret, stage, context, message, now, expected)
  {
  }

  lemma Decrypts(
      c: Crypto, t: Text, secret: Secret, stage: string, context: map<string, Json>, message: Json,
      nonce: Bytes)
    requires Ideal(c) && Faithful(t) && |nonce| == 12
    ensures Content(c, t, secret, stage, context, Encrypted(c, t, secret, stage, context, message, nonce)) ==
      Some(message)
  {
    assert t.parse(t.print_(message)) == Some(message);
  }

  lemma ReadsFrame(read: string -> Option<Json>, blob: Blob)
    requires ReadsBlobs(read) && ValidBlob(blob) && blob.algorithm == ALGORITHM && blob.context == PROTOCOL
    requires blob.keyId == ""
    ensures read(BlobText(blob)).Some? && DecodeBlob(read(BlobText(blob)).value) == Some(blob)
  {
    HeaderIsPlain();
    BlobRoundTrip(blob);
    assert read(BlobText(blob)) == Some(BlobJson(blob));
  }

  lemma HeaderIsPlain()
    ensures Unescaped(ALGORITHM) && Unescaped(PROTOCOL) && Unescaped("")
  {
  }

  // ---- the mailbox ----------------------------------------------------------------------------------------

  const MAX_REPLY := 43700
  const MAX_REQUEST := 65536

  /** Padded URL-safe base64. */
  function Padded(data: Bytes): string {
    Encode(data) + seq((4 - |Encode(data)| % 4) % 4, _ => '=')
  }

  function Frame(data: Bytes): Result<string> {
    if 0 < |data| <= MAX_BYTES then Ok(Padded(data)) else Err("invitation frame is invalid")
  }

  lemma PaddedSize(data: Bytes)
    ensures |Padded(data)| == (|data| + 2) / 3 * 4
  {
    RoundTrip(data);
    PadArithmetic(|data|);
  }

  lemma PadArithmetic(n: nat)
    ensures var m := (4 * n + 2) / 3; m + (4 - m % 4) % 4 == (n + 2) / 3 * 4
  {
    var k, r := n / 3, n % 3;
    assert n == 3 * k + r;
    assert (4 * n + 2) / 3 == 4 * k + (4 * r + 2) / 3;
    assert (n + 2) / 3 == k + (r + 2) / 3;
  }

  /** Every frame fits a reply. */
  lemma FrameFitsReply(data: Bytes)
    requires Frame(data).Ok?
    ensures |Frame(data).value| <= 43692 < MAX_REPLY
  {
    PaddedSize(data);
  }

  /** Decoding of replies, which skips characters outside the alphabet, inverts padded encoding. */
  ghost predicate Inverts(lenient: string -> Option<Bytes>) {
    forall data :: lenient(Padded(data)) == Some(data)
  }

  /** One stage of a reply: absent, except for the offer, or a frame in its one spelling. */
  function ReplyFrame(lenient: string -> Option<Bytes>, stage: string, v: Json): Result<Option<Bytes>> {
    if v.Null? && stage != "offer" then Ok(None)
    else if !v.Str? || |v.value| > MAX_REPLY then Err("invitation service reply is invalid")
    else
      var data := lenient(v.value);
      if data.None? || Frame(data.value) != Ok(v.value) then Err("invitation service reply is invalid") else Ok(data)
  }

  /** A reply is taken exactly when it is some frame's encoding, and then gives that frame. */
  lemma ReplyFrameIff(lenient: string -> Option<Bytes>, stage: string, text: string, data: Bytes)
    requires Inverts(lenient)
    ensures ReplyFrame(lenient, stage, Str(text)) == Ok(Some(data)) <==> Frame(data) == Ok(text)
  {
    if Frame(data) == Ok(text) { FrameFitsReply(data); }
  }

  const STAGES := ["offer", "join", "approve", "complete"]

  /** Read all stages of a reply. */
  method ReadStages(
      lenient: string -> Option<Bytes>, value: map<string, Json>)
    returns (r: Result<map<string, Option<Bytes>>>)
    requires forall stage :: stage in STAGES ==> stage in value
    ensures r.Ok? <==> forall stage :: stage in STAGES ==> ReplyFrame(lenient, stage, value[stage]).Ok?
    ensures r.Ok? ==> r.value.Keys == set stage | stage in STAGES
    ensures r.Ok? ==> forall stage :: stage in STAGES ==>
      stage in r.value && Ok(r.value[stage]) == ReplyFrame(lenient, stage, value[stage])
  {
    var result: map<string, Option<Bytes>> := map[];
    var i := 0;
    while i < |STAGES|
      invariant 0 <= i <= |STAGES| && result.Keys == set stage | stage in STAGES[..i]
      invariant forall stage :: stage in STAGES[..i] ==> Ok(result[stage]) == ReplyFrame(lenient, stage, value[stage])
    {
      var stage := STAGES[i];
      assert stage in STAGES;
      var frame := ReplyFrame(lenient, stage, value[stage]);
      if frame.Err? { return Err(frame.reason); }
      result := result[stage := frame.value];
      assert STAGES[..i + 1] == STAGES[..i] + [stage];
      i := i + 1;
    }
    assert STAGES[..i] == STAGES;
    return Ok(result);
  }

  function CreateText(
      session: string, source: string, read: string, join: string, ciphertext: string, expires: string): string
  {
    "{\"action\":\"create\",\"ciphertext\":\"" + ciphertext + "\",\"expires_at\":" + expires +
    ",\"join_cap\":\"" + join + "\",\"read_cap\":\"" + read + "\",\"session_id\":\"" + session +
    "\",\"source_cap\":\"" + source + "\"}"
  }

  function PutText(session: string, stage: string, write: string, claim: Option<string>, ciphertext: string): string {
    "{\"action\":\"put\",\"ciphertext\":\"" + ciphertext + "\",\"claim_cap\":" +
    (if claim.Some? then "\"" + claim.value + "\"" else "null") +
    ",\"session_id\":\"" + session + "\",\"stage\":\"" + stage + "\",\"write_cap\":\"" + write + "\"}"
  }

  function ClaimSize(claim: Option<string>): nat { if claim.Some? then |claim.value| else 0 }

  /** Every frame fits a request whose other fields take at most 21000 characters together, which
      capabilities of 43 characters do by far. */
  lemma FrameFitsRequest(
      data: Bytes, session: string, read: string, join: string, source: string, expires: string, stage: string,
      claim: Option<string>)
    requires Frame(data).Ok?
    ensures |session| + |read| + |join| + |source| + |expires| <= 21000 ==>
      |CreateText(session, source, read, join, Frame(data).value, expires)| <= MAX_REQUEST
    ensures |session| + |stage| + |join| + ClaimSize(claim) <= 21000 ==>
      |PutText(session, stage, join, claim, Frame(data).value)| <= MAX_REQUEST
  {
    FrameFitsReply(data);
  }
}
