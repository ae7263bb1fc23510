/** UTF-8 (section 3 of RFC 3629), as TextEncoder produces it. */
module Utf8 {
  import opened Bytes

  function EncodeChar(c: char): (s: ByteString)
    ensures 1 <= |s| <= 4
  {
    var n := c as int;
    if n < 0x80 then [n]
    else if n < 0x800 then [0xC0 + n / 64, 0x80 + n % 64]
    else if n < 0x1_0000 then [0xE0 + n / 4096, 0x80 + n / 64 % 64, 0x80 + n % 64]
    else [0xF0 + n / 262144, 0x80 + n / 4096 % 64, 0x80 + n / 64 % 64, 0x80 + n % 64]
  }

  function Encode(s: string): (bytes: ByteString)
    ensures |bytes| >= |s|
  {
    if s == "" then [] else EncodeChar(s[0]) + Encode(s[1..])
  }

  lemma {:induction false} EncodeWidth(s: string)
    ensures |Encode(s)| <= 4 * |s|
  {
    if s != "" {
      EncodeWidth(s[1..]);
    }
  }

  /** Width of the sequence a leading byte announces. */
  function Width(lead: Byte): (w: nat) {
    if lead < 0x80 then 1 else if lead < 0xE0 then 2 else if lead < 0xF0 then 3 else 4
  }

  /** The scalar value of one encoded character. */
  function Scalar(s: ByteString): (n: int)
    requires 1 <= |s| <= 4
  {
    var d: seq<int> := s;
    if |s| == 1 then d[0]
    else if |s| == 2 then (d[0] - 0xC0) * 64 + (d[1] - 0x80)
    else if |s| == 3 then (d[0] - 0xE0) * 4096 + (d[1] - 0x80) * 64 + (d[2] - 0x80)
    else (d[0] - 0xF0) * 262144 + (d[1] - 0x80) * 4096 + (d[2] - 0x80) * 64 + (d[3] - 0x80)
  }

  lemma EncodeCharDecodes(c: char)
    ensures Width(EncodeChar(c)[0]) == |EncodeChar(c)|
    ensures Scalar(EncodeChar(c)) == c as int
  {
    var n := c as int;
    assert n / 64 / 64 == n / 4096;
    assert n / 4096 / 64 == n / 262144;
  }

  /** Distinct strings have distinct encodings. */
  lemma {:induction false} EncodeInjective(s: string, t: string)
    requires Encode(s) == Encode(t)
    ensures s == t
  {
    if s != "" && t != "" {
      var a, b := EncodeChar(s[0]), EncodeChar(t[0]);
      EncodeCharDecodes(s[0]);
      EncodeCharDecodes(t[0]);
      assert Encode(s)[0] == a[0] && Encode(t)[0] == b[0];
      SplitEqual(a, Encode(s[1..]), b, Encode(t[1..]));
      EncodeInjective(s[1..], t[1..]);
      assert s == [s[0]] + s[1..] && t == [t[0]] + t[1..];
    }
  }
}
