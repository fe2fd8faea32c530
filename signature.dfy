/**
 * The pure half of the callback verifier: the text that is signed, the lowercase
 * hexadecimal rendering of the HMAC-SHA256 digest (RFC 2104 section 2 over SHA-256
 * of FIPS 180-4 section 6.2; base 16 as in section 8 of RFC 4648), and the check
 * that compares it with the signature the browser relays.
 */
module Signature {
  import opened Wrappers

  type byte = x: int | 0 <= x < 256

  /**
   * The cryptographic primitives the verifier calls but whose insides are not part
   * of this model: `TextEncoder.encode` (UTF-8) and `crypto.subtle.sign("HMAC", …)`
   * with SHA-256, as functions from (key, message) to digest.
   */
  datatype Crypto = Crypto(utf8: string -> seq<byte>, hmacSha256: (seq<byte>, seq<byte>) -> seq<byte>)

  /** HMAC-SHA256 always yields a 32-byte digest. */
  ghost predicate ProducesSha256Digests(c: Crypto) {
    forall key, msg :: |c.hmacSha256(key, msg)| == 32
  }

  /** The signed text: the gateway order id, a '|', then the gateway payment id. */
  function SignedMessage(razorpayOrderId: string, razorpayPaymentId: string): (m: string)
    ensures |m| == |razorpayOrderId| + 1 + |razorpayPaymentId|
    ensures m[..|razorpayOrderId|] == razorpayOrderId
    ensures m[|razorpayOrderId|] == '|'
    ensures m[|razorpayOrderId| + 1..] == razorpayPaymentId
  {
    razorpayOrderId + "|" + razorpayPaymentId
  }

  /**
   * When the order id contains no '|' (gateway ids are alphanumeric with '_'), the
   * signed text determines both ids: no two callbacks sign the same text.
   */
  lemma SignedMessageInjective(o1: string, p1: string, o2: string, p2: string)
    requires '|' !in o1 && '|' !in o2
    requires SignedMessage(o1, p1) == SignedMessage(o2, p2)
    ensures o1 == o2 && p1 == p2
  {
  }

  predicate IsLowerHex(c: char) {
    '0' <= c <= '9' || 'a' <= c <= 'f'
  }

  /** The digit `n` in base 16, as JavaScript prints it (lowercase). */
  function HexDigit(n: nat): (c: char)
    requires n < 16
    ensures IsLowerHex(c)
  {
    if n < 10 then ('0' as int + n) as char else ('a' as int + n - 10) as char
  }

  /** The value of a lowercase hexadecimal digit. */
  function DigitValue(c: char): (n: nat)
    requires IsLowerHex(c)
    ensures n < 16 && HexDigit(n) == c
  {
    if c <= '9' then c as int - '0' as int else c as int - 'a' as int + 10
  }

  lemma DigitValueOfDigit(n: nat)
    requires n < 16
    ensures DigitValue(HexDigit(n)) == n
  {
  }

  /** `n.toString(16)`: the shortest base-16 rendering, most significant digit first. */
  function ToBase16(n: nat): (s: string)
    ensures 1 <= |s|
    ensures forall i :: 0 <= i < |s| ==> IsLowerHex(s[i])
    decreases n
  {
    if n < 16 then [HexDigit(n)] else ToBase16(n / 16) + [HexDigit(n % 16)]
  }

  /** `s.padStart(width, fill)` for a one-character filler. */
  function PadStart(s: string, width: nat, fill: char): (r: string)
    ensures |r| == if |s| < width then width else |s|
    ensures r[|r| - |s|..] == s
    ensures forall i :: 0 <= i < |r| - |s| ==> r[i] == fill
  {
    if |s| >= width then s else seq(width - |s|, _ => fill) + s
  }

  /**
   * `b.toString(16).padStart(2, '0')`: every byte becomes exactly two digits, the
   * high nibble first, so bytes below 16 get a leading '0'.
   */
  function ByteToHex(b: byte): (s: string)
    ensures s == [HexDigit(b / 16), HexDigit(b % 16)]
  {
    assert b >= 16 ==> ToBase16(b / 16) == [HexDigit(b / 16)];
    PadStart(ToBase16(b), 2, '0')
  }

  /** `.map(b => b.toString(16).padStart(2, '0')).join('')` over the digest bytes. */
  function HexEncode(digest: seq<byte>): (s: string)
    ensures |s| == 2 * |digest|
    ensures forall i :: 0 <= i < |s| ==> IsLowerHex(s[i])
  {
    if digest == [] then "" else ByteToHex(digest[0]) + HexEncode(digest[1..])
  }

  lemma HexEncodeCons(digest: seq<byte>)
    requires digest != []
    ensures HexEncode(digest) == ByteToHex(digest[0]) + HexEncode(digest[1..])
  {
  }

  /** Character 2k and 2k+1 of the encoding are the two digits of byte k. */
  lemma {:induction false} HexEncodeAt(digest: seq<byte>, k: nat)
    requires k < |digest|
    ensures HexEncode(digest)[2 * k] == HexDigit(digest[k] / 16)
    ensures HexEncode(digest)[2 * k + 1] == HexDigit(digest[k] % 16)
  {
    HexEncodeCons(digest);
    if k > 0 {
      HexEncodeAt(digest[1..], k - 1);
      assert digest[1..][k - 1] == digest[k];
      IndexPastPair(ByteToHex(digest[0]), HexEncode(digest[1..]), 2 * k);
      IndexPastPair(ByteToHex(digest[0]), HexEncode(digest[1..]), 2 * k + 1);
    }
  }

  lemma IndexPastPair(h: string, t: string, j: nat)
    requires |h| == 2 && 2 <= j < 2 + |t|
    ensures (h + t)[j] == t[j - 2]
  {
  }

  /** The byte whose high and low digits are `hi` and `lo`: the one that renders as them. */
  function PairValue(hi: char, lo: char): (b: byte)
    requires IsLowerHex(hi) && IsLowerHex(lo)
    ensures ByteToHex(b) == [hi, lo]
  {
    var b := DigitValue(hi) * 16 + DigitValue(lo);
    assert b / 16 == DigitValue(hi) && b % 16 == DigitValue(lo);
    b
  }

  /** One byte's two digits read back as that byte. */
  lemma ByteRoundTrip(b: byte)
    ensures PairValue(ByteToHex(b)[0], ByteToHex(b)[1]) == b
  {
    DigitValueOfDigit(b / 16);
    DigitValueOfDigit(b % 16);
    assert b / 16 * 16 + b % 16 == b;
  }

  /** Reads a string of lowercase hexadecimal digit pairs back into bytes; anything else (upper case included) has none. */
  function HexDecode(s: string): (r: Option<seq<byte>>)
    ensures r.Some? ==> |s| == 2 * |r.value|
  {
    if s == [] then Some([])
    else if |s| == 1 || !IsLowerHex(s[0]) || !IsLowerHex(s[1]) then None
    else
      var rest := HexDecode(s[2..]);
      if rest.None? then None else Some([PairValue(s[0], s[1])] + rest.value)
  }

  /** Decoding a pair of digits followed by a decodable string. */
  lemma HexDecodeCons(h: string, t: string)
    requires |h| == 2 && IsLowerHex(h[0]) && IsLowerHex(h[1]) && HexDecode(t).Some?
    ensures HexDecode(h + t) == Some([PairValue(h[0], h[1])] + HexDecode(t).value)
  {
    var s := h + t;
    assert s[0] == h[0] && s[1] == h[1] && s[2..] == t;
  }

  /** Decoding the encoding gives back the digest. */
  lemma {:induction false} HexRoundTrip(digest: seq<byte>)
    ensures HexDecode(HexEncode(digest)) == Some(digest)
  {
    if digest != [] {
      HexEncodeCons(digest);
      ByteRoundTrip(digest[0]);
      HexRoundTrip(digest[1..]);
      HexDecodeCons(ByteToHex(digest[0]), HexEncode(digest[1..]));
      assert [digest[0]] + digest[1..] == digest;
    }
  }

  /** Every string that decodes is the rendering of what it decodes to. */
  lemma {:induction false} HexDecodeRoundTrip(s: string)
    requires HexDecode(s).Some?
    ensures HexEncode(HexDecode(s).value) == s
  {
    if s != [] {
      var b, rest := PairValue(s[0], s[1]), HexDecode(s[2..]).value;
      HexDecodeRoundTrip(s[2..]);
      var d := [b] + rest;
      assert HexDecode(s) == Some(d);
      HexEncodeCons(d);
      assert d[0] == b && d[1..] == rest;
      assert s == [s[0], s[1]] + s[2..];
    }
  }

  /** A string equals the rendering of a digest exactly when it decodes to that digest. */
  lemma RenderingMatchesIffDecodes(digest: seq<byte>, received: string)
    ensures HexEncode(digest) == received <==> HexDecode(received) == Some(digest)
  {
    HexRoundTrip(digest);
    if HexDecode(received) == Some(digest) {
      HexDecodeRoundTrip(received);
    }
  }

  /** The signature the verifier expects for a callback, computed with the shared secret. */
  function ExpectedSignature(c: Crypto, secret: string, razorpayOrderId: string, razorpayPaymentId: string): (sig: string)
    ensures ProducesSha256Digests(c) ==> |sig| == 64
    ensures forall i :: 0 <= i < |sig| ==> IsLowerHex(sig[i])
  {
    HexEncode(c.hmacSha256(c.utf8(secret), c.utf8(SignedMessage(razorpayOrderId, razorpayPaymentId))))
  }

  /** `expectedSignature === receivedSignature`: exact, case-sensitive, whole-string equality. */
  predicate SignatureMatches(c: Crypto, secret: string, razorpayOrderId: string, razorpayPaymentId: string, received: string) {
    ExpectedSignature(c, secret, razorpayOrderId, razorpayPaymentId) == received
  }

  /**
   * A received signature is accepted exactly when it is the lowercase hex rendering of
   * the HMAC of the signed text; in particular an upper-case rendering, a truncated
   * one or one with any other character is refused.
   */
  lemma AcceptedIffDecodesToDigest(c: Crypto, secret: string, razorpayOrderId: string, razorpayPaymentId: string, received: string)
    ensures SignatureMatches(c, secret, razorpayOrderId, razorpayPaymentId, received)
        <==> HexDecode(received) == Some(c.hmacSha256(c.utf8(secret), c.utf8(SignedMessage(razorpayOrderId, razorpayPaymentId))))
  {
    RenderingMatchesIffDecodes(c.hmacSha256(c.utf8(secret), c.utf8(SignedMessage(razorpayOrderId, razorpayPaymentId))), received);
  }

  /** An accepted signature is 64 lowercase hexadecimal characters. */
  lemma AcceptedSignatureShape(c: Crypto, secret: string, razorpayOrderId: string, razorpayPaymentId: string, received: string)
    requires ProducesSha256Digests(c)
    requires SignatureMatches(c, secret, razorpayOrderId, razorpayPaymentId, received)
    ensures |received| == 64
    ensures forall i :: 0 <= i < |received| ==> IsLowerHex(received[i])
  {
  }
}
