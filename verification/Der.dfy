/** Raw ECDSA signatures as ASN.1 DER (packages/crypto/src/webauthn.ts, section 8.3 of ITU-T X.690). */
module Der {
  import opened Wrappers
  import opened Bytes

  /** A DER INTEGER body: two's complement, at least one byte, no redundant leading byte, and not negative. */
  predicate MinimalPositive(body: ByteString) {
    && |body| >= 1
    && body[0] < 0x80
    && (|body| >= 2 && body[0] == 0 ==> body[1] >= 0x80)
  }

  /** The contents of the INTEGER for an unsigned big-endian number. */
  method EncodeInt(bytes: ByteString) returns (v: ByteString)
    requires |bytes| >= 1
    ensures MinimalPositive(v)
    ensures Value(v) == Value(bytes)
    ensures |v| <= |bytes| + 1
  {
    var i := 0;
    while i < |bytes| - 1 && bytes[i] == 0
      invariant 0 <= i < |bytes|
      invariant Value(bytes[i..]) == Value(bytes)
    {
      LeadingZero(bytes[i..]);
      assert bytes[i..][1..] == bytes[i + 1..];
      i := i + 1;
    }
    v := bytes[i..];
    if v[0] >= 0x80 {
      LeadingZero([0] + v);
      assert ([0] + v)[1..] == v;
      v := [0] + v;
    }
  }

  lemma {:induction false} LeadingZero(s: ByteString)
    requires |s| >= 1 && s[0] == 0
    ensures Value(s[1..]) == Value(s)
  {
    if |s| > 1 {
      var n := |s| - 1;
      LeadingZero(s[..n]);
      assert s[..n][1..] == s[1..][..n - 1];
    } else {
      assert s[..0] == [];
    }
  }

  // ── Decoding ───────────────────────────────────────────────────────────────

  /** One INTEGER at the front: its number and what follows. */
  function DecodeInt(s: ByteString): (r: Option<(nat, ByteString)>) {
    if |s| < 2 || s[0] != 0x02 || s[1] >= 0x80 || |s| < 2 + s[1] then None
    else
      var body := s[2..2 + s[1]];
      if MinimalPositive(body) then Some((Value(body), s[2 + s[1]..])) else None
  }

  /** A SEQUENCE of exactly two INTEGERs. */
  function DecodeSignature(s: ByteString): (r: Option<(nat, nat)>) {
    if |s| < 2 || s[0] != 0x30 || s[1] >= 0x80 || |s| != 2 + s[1] then None
    else match DecodeInt(s[2..])
      case None => None
      case Some((r, rest)) =>
        match DecodeInt(rest)
        case None => None
        case Some((t, rest')) => if rest' == [] then Some((r, t)) else None
  }

  lemma IntRoundTrip(body: ByteString, rest: ByteString)
    requires MinimalPositive(body) && |body| < 0x80
    ensures DecodeInt([0x02, |body|] + body + rest) == Some((Value(body), rest))
  {
    var s := [0x02, |body|] + body + rest;
    assert s[2..2 + |body|] == body && s[2 + |body|..] == rest;
  }

  /** For every 64-byte input the output is minimal DER that decodes to the same r and s. */
  method RawSigToDer(raw: ByteString) returns (der: Option<ByteString>)
    ensures der.Some? <==> |raw| == 64
    ensures der.Some? ==> DecodeSignature(der.value) == Some((Value(raw[..32]), Value(raw[32..])))
  {
    if |raw| != 64 {
      return None;
    }
    var r := EncodeInt(raw[..32]);
    var s := EncodeInt(raw[32..]);
    var rTlv: ByteString := [0x02, |r|] + r;
    var sTlv: ByteString := [0x02, |s|] + s;
    var out: ByteString := [0x30, |rTlv| + |sTlv|] + rTlv + sTlv;
    assert out[2..] == [0x02, |r|] + r + sTlv;
    IntRoundTrip(r, sTlv);
    assert sTlv == [0x02, |s|] + s + [];
    IntRoundTrip(s, []);
    return Some(out);
  }

  lemma {:induction false} MinimalPositiveIsUnique(a: ByteString, b: ByteString)
    requires MinimalPositive(a) && MinimalPositive(b) && Value(a) == Value(b)
    ensures a == b
  {
    if |a| >= 2 && a[0] == 0 { LeadingZero(a); }
    if |b| >= 2 && b[0] == 0 { LeadingZero(b); }
    var ma := if |a| >= 2 && a[0] == 0 then a[1..] else a;
    var mb := if |b| >= 2 && b[0] == 0 then b[1..] else b;
    MinimalUnique(ma);
    MinimalUnique(mb);
    hide Value;
    assert ma == mb;
    assert |a| >= 2 && a[0] == 0 ==> a == [0] + ma;
    assert |b| >= 2 && b[0] == 0 ==> b == [0] + mb;
  }

  /** The DER form is canonical: what decodes to a given r and s is one byte string. */
  lemma SignatureIsCanonical(x: ByteString, y: ByteString)
    requires DecodeSignature(x).Some? && DecodeSignature(x) == DecodeSignature(y)
    ensures x == y
  {
    var (_, restX) := DecodeInt(x[2..]).value;
    var (_, restY) := DecodeInt(y[2..]).value;
    IntIsCanonical(restX, restY);
    IntIsCanonical(x[2..], y[2..]);
    assert x == [x[0], x[1]] + x[2..] && y == [y[0], y[1]] + y[2..];
  }

  lemma IntIsCanonical(x: ByteString, y: ByteString)
    requires DecodeInt(x).Some? && DecodeInt(x) == DecodeInt(y)
    ensures x == y
  {
    var bx, by' := x[2..2 + x[1]], y[2..2 + y[1]];
    MinimalPositiveIsUnique(bx, by');
    assert x == [x[0], x[1]] + bx + x[2 + x[1]..];
    assert y == [y[0], y[1]] + by' + y[2 + y[1]..];
  }
}
