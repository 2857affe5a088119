/** The assumptions on cryptographic libraries can be met: toy libraries that satisfy them all at once. */
module Assumptions {
  import opened Strings
  import opened Base64Url
  import P = PayloadCodec
  import S = EnvelopeSigning
  import I = InvitationFrames

  function Repeat(b: Byte, n: nat): Bytes { seq(n, _ => b) }

  /** Associated data in front, its length in unary. */
  function Lead(a: Bytes): Bytes { Repeat(1, |a|) + [0] + a }

  function Wrap(k: Bytes, n: Bytes, p: Bytes, a: Bytes): Bytes { Lead(a) + p }

  function Unwrap(k: Bytes, n: Bytes, c: Bytes, a: Bytes): Option<Bytes> {
    if Lead(a) <= c then Some(c[|Lead(a)|..]) else None
  }

  lemma LeadBinds(a: Bytes, a': Bytes, p: Bytes)
    requires Lead(a') <= Lead(a) + p
    ensures a' == a
  {
    var c := Lead(a) + p;
    forall i | 0 <= i < |a'| ensures c[i] == 1 { assert Lead(a')[i] == 1; }
    forall i | 0 <= i < |a| ensures c[i] == 1 { assert Lead(a)[i] == 1; }
    assert Lead(a')[|a'|] == 0 && Lead(a)[|a|] == 0;
    assert c[|a'|] == 0 && c[|a|] == 0;
    assert |a'| == |a|;
    assert c[|a| + 1..2 * |a| + 1] == a && Lead(a')[|a| + 1..] == a';
  }

  const ZEROS := seq(64, _ => '0')

  const ENVELOPES := P.Library(
    (k: Bytes, n: Bytes, p: Bytes, a: Bytes) => Wrap(k, n, p, a),
    (k: Bytes, n: Bytes, c: Bytes, a: Bytes) => Unwrap(k, n, c, a),
    (a: Bytes, b: Bytes, c: Bytes) => Some(c),
    (k: Bytes) => Repeat(0, 32),
    (k: Bytes, m: Bytes) => Repeat(0, 64),
    (k: Bytes, m: Bytes, s: Bytes) => true,
    (k: Bytes) => k,
    (b: Bytes) => ZEROS,
    (s: string) => true,
    (s: string) => Decode(s),
    (kind: string, s: string) => true)

  /** Encryption that decrypts, binds its associated data, agrees on keys and signs. */
  lemma EnvelopeAssumptionsHold()
    ensures P.Sound(ENVELOPES) && P.BindsData(ENVELOPES) && S.SignsSoundly(ENVELOPES)
  {
    forall b: Bytes ensures ENVELOPES.lenient(Encode(b)) == Some(b) { RoundTrip(b); }
    forall k, n, p, a: Bytes ensures Unwrap(k, n, Wrap(k, n, p, a), a) == Some(p) {
      assert (Lead(a) + p)[|Lead(a)|..] == p;
    }
    forall k, n, p, a, k', n', a': Bytes | ENVELOPES.decrypt(k', n', ENVELOPES.encrypt(k, n, p, a), a').Some?
      ensures a' == a
    {
      LeadBinds(a, a', p);
    }
  }

  const INVITATIONS := I.Crypto(
    (k: Bytes, n: Bytes, p: Bytes, a: Bytes) => p + Repeat(0, 16),
    (k: Bytes, n: Bytes, c: Bytes, a: Bytes) => if |c| < 16 then None else Some(c[..|c| - 16]),
    (k: Bytes, m: Bytes) => Repeat(0, 64),
    (k: Bytes, m: Bytes, s: Bytes) => true,
    (k: Bytes) => k,
    (b: Bytes) => b,
    (k: Bytes, purpose: string) => k)

  /** Encryption that decrypts and adds 16 bytes, and signatures of 64 bytes that verify. */
  lemma InvitationAssumptionsHold()
    ensures I.Ideal(INVITATIONS)
  {
    forall p: Bytes ensures (p + Repeat(0, 16))[..|p + Repeat(0, 16)| - 16] == p {}
  }
}
