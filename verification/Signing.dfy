/** The device-local tag of queued rows: which bytes it covers, and what an equal tag means. */
module Signing {
  import opened Wrappers
  import opened Utf8

  /** The cryptographic and base64url primitives, left uninterpreted. */
  datatype Crypto = Crypto(
    hmac: (Bytes, Bytes) -> Bytes,
    sha256: Bytes -> Bytes,
    encode: Bytes -> Text,
    decode: Text -> Option<Bytes>)

  /** What the primitives promise: base64url round-trips and SHA-256 yields 32 bytes. */
  ghost predicate Lawful(c: Crypto) {
    && (forall tag :: c.decode(c.encode(tag)) == Some(tag))
    && (forall b :: |c.sha256(b)| == DIGEST_BYTES)
  }

  const DIGEST_BYTES := 32

  /** The SHA-256 digests of the captures queued with a row; `None` for a kind the row never had. */
  datatype CaptureDigests = CaptureDigests(screen: Option<Bytes>, thumb: Option<Bytes>)

  predicate WellSized(d: CaptureDigests) {
    && (d.screen.Some? ==> |d.screen.value| == DIGEST_BYTES)
    && (d.thumb.Some? ==> |d.thumb.value| == DIGEST_BYTES)
  }

  function Slot(digest: Option<Bytes>): Bytes {
    match digest
    case Some(d) => [1] + d
    case None => [0]
  }

  /** The signed bytes: payload, a NUL, and one slot per capture kind (screen, thumb). */
  function MacInput(payload: Bytes, d: CaptureDigests): Bytes {
    payload + [0] + Slot(d.screen) + Slot(d.thumb)
  }

  /** The bytes `v2_mac` feeds, in the order it feeds them. */
  method FeedV2(payload: Bytes, d: CaptureDigests) returns (fed: Bytes)
    ensures fed == MacInput(payload, d)
    ensures fed == payload + [0]
                   + (if d.screen.Some? then [1] + d.screen.value else [0])
                   + (if d.thumb.Some? then [1] + d.thumb.value else [0])
  {
    fed := payload;
    fed := fed + [0];
    var slots := [d.screen, d.thumb];
    for i := 0 to |slots|
      invariant i == 0 ==> fed == payload + [0]
      invariant i == 1 ==> fed == payload + [0] + Slot(d.screen)
      invariant i == 2 ==> fed == MacInput(payload, d)
    {
      match slots[i] {
        case Some(digest) =>
          fed := fed + [1];
          fed := fed + digest;
        case None =>
          fed := fed + [0];
      }
      assert i == 0 ==> fed == payload + [0] + Slot(d.screen);
      assert i == 1 ==> fed == MacInput(payload, d);
    }
  }

  function SignV2(c: Crypto, key: Bytes, payload: Bytes, d: CaptureDigests): Text {
    c.encode(c.hmac(key, MacInput(payload, d)))
  }

  predicate VerifyV2(c: Crypto, key: Bytes, payload: Bytes, d: CaptureDigests, signature: Text) {
    match c.decode(signature)
    case None => false
    case Some(tag) => c.hmac(key, MacInput(payload, d)) == tag
  }

  /** The tag of a row: keyed over its payload, a NUL, and for screen and thumb a one and the digest, or a zero. */
  lemma SignsExactly(c: Crypto, key: Bytes, payload: Bytes, d: CaptureDigests)
    ensures SignV2(c, key, payload, d)
         == c.encode(c.hmac(key, payload + [0]
                                 + (if d.screen.Some? then [1] + d.screen.value else [0])
                                 + (if d.thumb.Some? then [1] + d.thumb.value else [0])))
  {
  }

  /** A v1 tag covers the envelope's canonical JSON. */
  function SignPayload(c: Crypto, key: Bytes, json: Bytes): Text {
    c.encode(c.hmac(key, json))
  }

  predicate VerifyPayload(c: Crypto, key: Bytes, json: Bytes, signature: Text) {
    match c.decode(signature)
    case None => false
    case Some(tag) => c.hmac(key, json) == tag
  }

  /** A v1 tag verifies for its own JSON, and for any other text exactly if that has the same tag; a v2 input
      among them is an HMAC collision, never the same bytes. */
  lemma V1TagVerifies(c: Crypto, key: Bytes, json: Bytes, other: Bytes, payload: Bytes, d: CaptureDigests)
    requires Lawful(c) && NoNul(json)
    ensures VerifyPayload(c, key, json, SignPayload(c, key, json))
    ensures VerifyPayload(c, key, other, SignPayload(c, key, json)) <==> c.hmac(key, other) == c.hmac(key, json)
    ensures VerifyV2(c, key, payload, d, SignPayload(c, key, json)) ==> HmacCollision(c, key, MacInput(payload, d), json)
  {
    var tag := c.hmac(key, json);
    assert c.decode(c.encode(tag)) == Some(tag);
    NeverAV1Input(payload, d, json);
  }

  /** JSON text never contains a raw NUL (RFC 8259, section 7). */
  predicate NoNul(payload: Bytes) {
    0 !in payload
  }

  /** Two texts without a NUL that end at the same NUL are the same. */
  lemma FirstNul(p: Bytes, rest: Bytes, q: Bytes, other: Bytes)
    requires 0 !in p && 0 !in q && p + ([0] + rest) == q + ([0] + other)
    ensures p == q && rest == other
  {
    var (m, n) := (p + ([0] + rest), q + ([0] + other));
    NotBefore(p, rest, q, other);
    NotBefore(q, other, p, rest);
    assert p == m[..|p|] && q == n[..|q|];
    assert rest == m[|p| + 1..] && other == n[|q| + 1..];
  }

  lemma NotBefore(p: Bytes, rest: Bytes, q: Bytes, other: Bytes)
    requires 0 !in q && p + ([0] + rest) == q + ([0] + other)
    ensures |q| <= |p|
  {
    var m := q + ([0] + other);
    assert m[|p|] == (p + ([0] + rest))[|p|] == 0;
    assert forall k | 0 <= k < |q| :: m[k] in q;
  }

  /** Without a NUL in the payload, the first NUL of the input is the separator. */
  lemma SeparatorIsFirstNul(payload: Bytes, d: CaptureDigests, other: Bytes, e: CaptureDigests)
    requires NoNul(payload) && NoNul(other)
    requires MacInput(payload, d) == MacInput(other, e)
    ensures payload == other
    ensures Slot(d.screen) + Slot(d.thumb) == Slot(e.screen) + Slot(e.thumb)
  {
    InputParts(payload, d);
    InputParts(other, e);
    FirstNul(payload, Slot(d.screen) + Slot(d.thumb), other, Slot(e.screen) + Slot(e.thumb));
  }

  lemma InputParts(payload: Bytes, d: CaptureDigests)
    ensures MacInput(payload, d) == payload + ([0] + (Slot(d.screen) + Slot(d.thumb)))
  {
  }

  /** A slot is as long as its first byte says, so two slots in a row split only one way. */
  lemma SlotsSplitUniquely(a: Option<Bytes>, b: Option<Bytes>, x: Option<Bytes>, y: Option<Bytes>)
    requires WellSized(CaptureDigests(a, b)) && WellSized(CaptureDigests(x, y))
    requires Slot(a) + Slot(b) == Slot(x) + Slot(y)
    ensures a == x && b == y
  {
    var s := Slot(a) + Slot(b);
    assert s[0] == Slot(a)[0] && s[0] == Slot(x)[0];
    assert |Slot(a)| == |Slot(x)|;
    assert Slot(a) == s[..|Slot(a)|] && Slot(x) == s[..|Slot(x)|];
    assert Slot(b) == s[|Slot(a)|..] && Slot(y) == s[|Slot(x)|..];
    SlotInjective(a, x);
    SlotInjective(b, y);
  }

  lemma SlotInjective(a: Option<Bytes>, b: Option<Bytes>)
    requires Slot(a) == Slot(b)
    ensures a == b
  {
    assert Slot(a)[0] == Slot(b)[0];
    assert a.Some? ==> a.value == Slot(a)[1..];
    assert b.Some? ==> b.value == Slot(b)[1..];
  }

  /** The signed bytes determine the payload and both slots. */
  lemma MacInputInjective(payload: Bytes, d: CaptureDigests, other: Bytes, e: CaptureDigests)
    requires NoNul(payload) && NoNul(other) && WellSized(d) && WellSized(e)
    requires MacInput(payload, d) == MacInput(other, e)
    ensures payload == other && d == e
  {
    SeparatorIsFirstNul(payload, d, other, e);
    SlotsSplitUniquely(d.screen, d.thumb, e.screen, e.thumb);
  }

  /** A v1 tag covers the canonical JSON alone, so a v2 tag never covers the same bytes. */
  lemma NeverAV1Input(payload: Bytes, d: CaptureDigests, v1: Bytes)
    requires NoNul(v1)
    ensures MacInput(payload, d) != v1
  {
    assert MacInput(payload, d)[|payload|] == 0;
  }

  /** Two different inputs with the same HMAC-SHA256 tag. */
  ghost predicate HmacCollision(c: Crypto, key: Bytes, a: Bytes, b: Bytes) {
    a != b && c.hmac(key, a) == c.hmac(key, b)
  }

  /** Two different captures with the same SHA-256 digest. */
  ghost predicate ShaCollision(c: Crypto, a: Bytes, b: Bytes) {
    a != b && c.sha256(a) == c.sha256(b)
  }

  /** A row verifies exactly when the tag it carries is the tag of what it holds. */
  lemma VerifiesOwnSignature(c: Crypto, key: Bytes, payload: Bytes, d: CaptureDigests, other: Bytes, e: CaptureDigests)
    requires Lawful(c)
    ensures VerifyV2(c, key, payload, d, SignV2(c, key, payload, d))
    ensures VerifyV2(c, key, other, e, SignV2(c, key, payload, d))
       <==> SignV2(c, key, other, e) == SignV2(c, key, payload, d)
  {
    var tag := c.hmac(key, MacInput(payload, d));
    var otherTag := c.hmac(key, MacInput(other, e));
    assert c.decode(c.encode(tag)) == Some(tag);
    assert c.decode(c.encode(otherTag)) == Some(otherTag);
  }

  /** Anything else that verifies under the tag is an HMAC collision one can point at. */
  lemma TamperedRowNeedsCollision(c: Crypto, key: Bytes, payload: Bytes, d: CaptureDigests, other: Bytes, e: CaptureDigests)
    requires Lawful(c)
    requires NoNul(payload) && NoNul(other) && WellSized(d) && WellSized(e)
    requires VerifyV2(c, key, other, e, SignV2(c, key, payload, d))
    ensures (payload == other && d == e)
         || HmacCollision(c, key, MacInput(payload, d), MacInput(other, e))
  {
    var tag := c.hmac(key, MacInput(payload, d));
    assert c.decode(c.encode(tag)) == Some(tag);
    if MacInput(payload, d) == MacInput(other, e) {
      MacInputInjective(payload, d, other, e);
    }
  }
}
