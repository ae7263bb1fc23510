/** The attestation CBOR writer and a decoder that inverts it (packages/crypto/src/webauthn.ts, section 3 of RFC 8949). */
module Cbor {
  import opened Wrappers
  import opened Arithmetic
  import opened Bytes

  /** Text is carried as its UTF-8 bytes; a map as its entries in insertion order. */
  datatype Value =
    | Int(n: int)
    | Text(utf8: ByteString)
    | Data(bytes: ByteString)
    | Map(entries: seq<(Value, Value)>)

  const LIMIT := 0x1_0000_0000

  /** Integers and lengths below 2^32. */
  predicate Encodable(v: Value)
    decreases v, 0
  {
    match v
    case Int(n) => -LIMIT <= n < LIMIT
    case Text(s) => |s| < LIMIT
    case Data(s) => |s| < LIMIT
    case Map(es) => |es| < LIMIT && forall i :: 0 <= i < |es| ==> Encodable(es[i].0) && Encodable(es[i].1)
  }

  /** The shifts keep the low 32 bits of a length. */
  function Head(major: nat, length: nat): (s: ByteString)
    requires major < 8
    ensures |s| >= 1
  {
    if length < 24 then [major * 32 + length]
    else if length < 0x100 then [major * 32 + 24, length]
    else if length < 0x1_0000 then [major * 32 + 25, length / 256, length % 256]
    else [major * 32 + 26, length / 0x100_0000 % 256, length / 0x1_0000 % 256, length / 256 % 256, length % 256]
  }

  function Encode(v: Value): (s: ByteString)
    decreases v, 0
    ensures |s| >= 1
  {
    match v
    case Int(n) => if n >= 0 then Head(0, n) else Head(1, -n - 1)
    case Text(t) => Head(3, |t|) + t
    case Data(d) => Head(2, |d|) + d
    case Map(es) => Head(5, |es|) + EncodeFrom(v, 0)
  }

  /** The entries of a map from the `i`-th on, keys and values alternating. */
  function EncodeFrom(v: Value, i: nat): ByteString
    requires v.Map? && i <= |v.entries|
    decreases v, 0, |v.entries| - i
  {
    if i == |v.entries| then []
    else Encode(v.entries[i].0) + (Encode(v.entries[i].1) + EncodeFrom(v, i + 1))
  }

  /** The growing output of the recursive writer. */
  class Writer {
    var out: ByteString

    constructor ()
      ensures out == []
    {
      out := [];
    }

    method EncodeInto(v: Value)
      modifies this
      ensures out == old(out) + Encode(v)
      decreases v, 0
    {
      hide Head;
      match v
      case Int(n) =>
        if n >= 0 {
          out := out + Head(0, n);
        } else {
          out := out + Head(1, -n - 1);
        }
      case Text(t) =>
        out := out + Head(3, |t|) + t;
        assert out == old(out) + (Head(3, |t|) + t);
      case Data(d) =>
        out := out + Head(2, |d|) + d;
        assert out == old(out) + (Head(2, |d|) + d);
      case Map(es) =>
        out := out + Head(5, |es|);
        for i := 0 to |es|
          invariant out + EncodeFrom(v, i) == old(out) + Encode(v)
        {
          ghost var before, key, item, tail := out, Encode(es[i].0), Encode(es[i].1), EncodeFrom(v, i + 1);
          EncodeInto(es[i].0);
          EncodeInto(es[i].1);
          Regroup(before, key, item, tail);
        }
    }
  }

  lemma Regroup(a: ByteString, b: ByteString, c: ByteString, d: ByteString)
    ensures a + b + c + d == a + (b + (c + d))
  {
  }

  // ── Decoding ───────────────────────────────────────────────────────────────

  datatype Header = Header(major: nat, length: nat, rest: ByteString)

  function DecodeHead(s: ByteString): (r: Option<Header>)
    ensures r.Some? ==> |r.value.rest| < |s|
  {
    if s == [] then None
    else
      var major, info := s[0] / 32, s[0] % 32;
      if info < 24 then Some(Header(major, info, s[1..]))
      else if info == 24 && |s| >= 2 then Some(Header(major, s[1], s[2..]))
      else if info == 25 && |s| >= 3 then Some(Header(major, Bytes.Value(s[1..3]), s[3..]))
      else if info == 26 && |s| >= 5 then Some(Header(major, Bytes.Value(s[1..5]), s[5..]))
      else None
  }

  function Decode(s: ByteString): (r: Option<(Value, ByteString)>)
    decreases |s|, 0
    ensures r.Some? ==> |r.value.1| < |s|
  {
    match DecodeHead(s)
    case None => None
    case Some(Header(major, n, rest)) =>
      if major == 0 then Some((Int(n), rest))
      else if major == 1 then Some((Int(-1 - n), rest))
      else if major == 2 && n <= |rest| then Some((Data(rest[..n]), rest[n..]))
      else if major == 3 && n <= |rest| then Some((Text(rest[..n]), rest[n..]))
      else if major == 5 then
        match DecodeEntries(rest, n)
        case None => None
        case Some((es, rest')) => Some((Map(es), rest'))
      else None
  }

  function DecodeEntries(s: ByteString, n: nat): (r: Option<(seq<(Value, Value)>, ByteString)>)
    decreases |s|, 1, n
    ensures r.Some? ==> |r.value.1| <= |s|
  {
    if n == 0 then Some(([], s))
    else match Decode(s)
      case None => None
      case Some((key, s1)) =>
        match Decode(s1)
        case None => None
        case Some((item, s2)) =>
          match DecodeEntries(s2, n - 1)
          case None => None
          case Some((es, s3)) => Some(([(key, item)] + es, s3))
  }

  lemma HeadRoundTrip(major: nat, length: nat, rest: ByteString)
    requires major < 8 && length < LIMIT
    ensures DecodeHead(Head(major, length) + rest) == Some(Header(major, length, rest))
  {
    var h := Head(major, length);
    var s := h + rest;
    assert s[|h|..] == rest;
    assert s[0] == h[0];
    if length < 24 {
    } else if length < 0x100 {
      assert s[1] == h[1];
    } else if length < 0x1_0000 {
      assert s[1..3] == BigEndian(length, 2) by { TwoBytes(length); }
      PowersOf256();
      BigEndianRoundTrip(length, 2);
    } else {
      assert s[1..5] == BigEndian(length, 4) by { FourBytes(length); }
      PowersOf256();
      BigEndianRoundTrip(length, 4);
    }
  }

  lemma TwoBytes(n: nat)
    requires n < 0x1_0000
    ensures BigEndian(n, 2) == [n / 256, n % 256]
  {
  }

  lemma FourBytes(n: nat)
    requires n < LIMIT
    ensures BigEndian(n, 4) == [n / 0x100_0000, n / 0x1_0000 % 256, n / 256 % 256, n % 256]
  {
    assert n / 256 / 256 == n / 0x1_0000;
    TwoBytes(n / 0x1_0000);
    assert n / 0x1_0000 / 256 == n / 0x100_0000;
    assert BigEndian(n / 256, 3) == BigEndian(n / 256 / 256, 2) + [n / 256 % 256];
  }

  /** Decoding what was encoded gives the value and the leftover bytes back. */
  lemma {:induction false} RoundTrip(v: Value, rest: ByteString)
    requires Encodable(v)
    ensures Decode(Encode(v) + rest) == Some((v, rest))
    decreases v, 0
  {
    hide Head, DecodeHead;
    match v
    case Int(n) =>
      if n >= 0 { HeadRoundTrip(0, n, rest); } else { HeadRoundTrip(1, -n - 1, rest); }
    case Text(t) =>
      HeadRoundTrip(3, |t|, t + rest);
      assert Encode(v) + rest == Head(3, |t|) + (t + rest);
      assert (t + rest)[..|t|] == t && (t + rest)[|t|..] == rest;
    case Data(d) =>
      HeadRoundTrip(2, |d|, d + rest);
      assert Encode(v) + rest == Head(2, |d|) + (d + rest);
      assert (d + rest)[..|d|] == d && (d + rest)[|d|..] == rest;
    case Map(es) =>
      HeadRoundTrip(5, |es|, EncodeFrom(v, 0) + rest);
      assert Encode(v) + rest == Head(5, |es|) + (EncodeFrom(v, 0) + rest);
      EntriesRoundTrip(v, 0, rest);
      assert es[0..] == es;
  }

  lemma {:induction false} EntriesRoundTrip(v: Value, i: nat, rest: ByteString)
    requires v.Map? && Encodable(v) && i <= |v.entries|
    ensures DecodeEntries(EncodeFrom(v, i) + rest, |v.entries| - i) == Some((v.entries[i..], rest))
    decreases v, 0, |v.entries| - i
  {
    hide Encode, Decode, Encodable, EncodeFrom, DecodeEntries;
    var es, s := v.entries[i..], EncodeFrom(v, i) + rest;
    if i == |v.entries| {
      NoEntries(v, rest);
    } else {
      var (key, item) := v.entries[i];
      EncodeFromStep(v, i, key, item, rest);
      var tail := EncodeFrom(v, i + 1) + rest;
      var s1 := Encode(item) + tail;
      RoundTrip(key, s1);
      RoundTrip(item, tail);
      EntriesRoundTrip(v, i + 1, rest);
      assert es == [(key, item)] + v.entries[i + 1..];
      DecodeEntriesStep(s, |v.entries| - i, key, s1, item, tail, v.entries[i + 1..], es, rest);
    }
  }

  lemma NoEntries(v: Value, rest: ByteString)
    requires v.Map? && Encodable(v)
    ensures DecodeEntries(EncodeFrom(v, |v.entries|) + rest, 0) == Some((v.entries[|v.entries|..], rest))
  {
    assert EncodeFrom(v, |v.entries|) + rest == rest;
    assert v.entries[|v.entries|..] == [];
  }

  lemma EncodeFromStep(v: Value, i: nat, key: Value, item: Value, rest: ByteString)
    requires v.Map? && Encodable(v) && i < |v.entries| && v.entries[i] == (key, item)
    ensures Encodable(key) && Encodable(item)
    ensures EncodeFrom(v, i) + rest == Encode(key) + (Encode(item) + (EncodeFrom(v, i + 1) + rest))
  {
    assert Encodable(key) && Encodable(item);
    hide Encode, Encodable;
    Reassociate(Encode(key), Encode(item), EncodeFrom(v, i + 1), rest);
  }

  lemma Reassociate(a: ByteString, b: ByteString, c: ByteString, d: ByteString)
    ensures (a + (b + c)) + d == a + (b + (c + d))
  {
  }

  lemma DecodeEntriesStep(s: ByteString, n: nat, key: Value, s1: ByteString, item: Value, s2: ByteString,
                          rest: seq<(Value, Value)>, es: seq<(Value, Value)>, s3: ByteString)
    requires es == [(key, item)] + rest
    requires n > 0 && Decode(s) == Some((key, s1)) && Decode(s1) == Some((item, s2)) && DecodeEntries(s2, n - 1) == Some((rest, s3))
    ensures DecodeEntries(s, n) == Some((es, s3))
  {
    hide Decode;
  }

  /** No encoding is a prefix of another, so a concatenation reads back in one way only. */
  lemma PrefixFree(v: Value, w: Value, r: ByteString, s: ByteString)
    requires Encodable(v) && Encodable(w)
    requires Encode(v) + r == Encode(w) + s
    ensures v == w && r == s
  {
    RoundTrip(v, r);
    RoundTrip(w, s);
  }

  /** The attestation object: fmt "none", an empty statement, and the authenticator data. */
  function AttestationObject(authData: ByteString): Value {
    Map([(Text([102, 109, 116]), Text([110, 111, 110, 101])),
         (Text([97, 116, 116, 83, 116, 109, 116]), Map([])),
         (Text([97, 117, 116, 104, 68, 97, 116, 97]), Data(authData))])
  }

  // ── Beyond the limit ───────────────────────────────────────────────────────

  lemma HeaderIsBelowLimit(s: ByteString)
    requires DecodeHead(s).Some?
    ensures DecodeHead(s).value.length < LIMIT
  {
    PowersOf256();
    if |s| >= 3 { ValueBigEndian(s[1..3]); }
    if |s| >= 5 { ValueBigEndian(s[1..5]); }
  }

  /** Whatever a decoder reads is below the limit. */
  lemma {:induction false} DecodedIsEncodable(s: ByteString)
    requires Decode(s).Some?
    ensures Encodable(Decode(s).value.0)
    decreases |s|, 0
  {
    HeaderIsBelowLimit(s);
    hide DecodeHead;
    var h := DecodeHead(s).value;
    if h.major == 5 {
      EntriesAreEncodable(h.rest, h.length);
    }
  }

  lemma {:induction false} EntriesAreEncodable(s: ByteString, n: nat)
    requires DecodeEntries(s, n).Some?
    ensures var es := DecodeEntries(s, n).value.0;
            |es| == n && forall i :: 0 <= i < |es| ==> Encodable(es[i].0) && Encodable(es[i].1)
    decreases |s|, 1, n
  {
    hide Encodable, Decode;
    if n > 0 {
      var (_, s1) := Decode(s).value;
      var (_, s2) := Decode(s1).value;
      DecodedIsEncodable(s);
      DecodedIsEncodable(s1);
      EntriesAreEncodable(s2, n - 1);
    }
  }

  /** The encoding of a value can be read back exactly when its integers and lengths are below 2^32. */
  lemma ReadableIff(v: Value, rest: ByteString)
    ensures Decode(Encode(v) + rest) == Some((v, rest)) <==> Encodable(v)
  {
    hide Encode, Decode, Encodable;
    if Encodable(v) {
      RoundTrip(v, rest);
    }
    if Decode(Encode(v) + rest) == Some((v, rest)) {
      DecodedIsEncodable(Encode(v) + rest);
    }
  }

  /** From 2^32 on every head, of any major type, is also the head of another length; so are whole integers. */
  lemma AmbiguousBeyondLimit(major: nat, n: nat)
    requires major < 8 && n >= LIMIT
    ensures Head(major, n) == Head(major, n + LIMIT)
    ensures Encode(Int(n)) == Encode(Int(n + LIMIT)) && Encode(Int(-1 - n)) == Encode(Int(-1 - (n + LIMIT)))
  {
    LowBytes(n);
  }

  lemma LowBytes(n: nat)
    ensures var m := n + LIMIT;
            && m / 0x100_0000 % 256 == n / 0x100_0000 % 256 && m / 0x1_0000 % 256 == n / 0x1_0000 % 256
            && m / 256 % 256 == n / 256 % 256 && m % 256 == n % 256
  {
    TopByte(n);
    ThirdByte(n);
    SecondByte(n);
  }

  lemma TopByte(n: nat)
    ensures (n + LIMIT) / 0x100_0000 % 256 == n / 0x100_0000 % 256
  {
    assert (n + LIMIT) / 0x100_0000 == n / 0x100_0000 + 256;
  }

  lemma ThirdByte(n: nat)
    ensures (n + LIMIT) / 0x1_0000 % 256 == n / 0x1_0000 % 256
  {
    assert (n + LIMIT) / 0x1_0000 == n / 0x1_0000 + 0x1_0000;
  }

  lemma SecondByte(n: nat)
    ensures (n + LIMIT) / 256 % 256 == n / 256 % 256 && (n + LIMIT) % 256 == n % 256
  {
    assert (n + LIMIT) / 256 == n / 256 + 0x100_0000;
  }

  /** The object reads back as its three entries exactly when the authenticator data is below the limit. */
  method BuildAttestationObject(authData: ByteString) returns (out: ByteString)
    ensures Decode(out) == Some((AttestationObject(authData), [])) <==> |authData| < LIMIT
  {
    var w := new Writer();
    w.EncodeInto(AttestationObject(authData));
    out := w.out;
    assert out == Encode(AttestationObject(authData)) + [];
    AttestationIsEncodable(authData);
    ReadableIff(AttestationObject(authData), []);
  }

  lemma AttestationIsEncodable(authData: ByteString)
    ensures Encodable(AttestationObject(authData)) <==> |authData| < LIMIT
  {
    var es := AttestationObject(authData).entries;
    assert Encodable(es[0].0) && Encodable(es[0].1) && Encodable(es[1].0) && Encodable(es[1].1) && Encodable(es[2].0);
    assert Encodable(es[2].1) <==> |authData| < LIMIT;
  }
}
