/**
 * Byte strings: big-endian integers of fixed and of minimal width, UUIDs as
 * their 16 bytes, and the splitting facts every canonical encoding rests on.
 */
module Bytes {
  import opened Arithmetic

  type Byte = b: int | 0 <= b < 256

  type ByteString = seq<Byte>

  /** A UUID compared as its 16 bytes; letter case and dashes are gone. */
  type Uuid = s: ByteString | |s| == 16 witness seq(16, _ => 0)

  /** The number a big-endian byte string denotes. */
  function Value(s: ByteString): (n: nat) {
    if s == [] then 0 else Value(s[..|s| - 1]) * 256 + s[|s| - 1]
  }

  /** Big-endian in exactly `width` bytes; high bytes that do not fit are cut. */
  function BigEndian(n: nat, width: nat): (s: ByteString)
    ensures |s| == width
  {
    if width == 0 then [] else BigEndian(n / 256, width - 1) + [n % 256]
  }

  lemma {:induction false} BigEndianRoundTrip(n: nat, width: nat)
    requires n < Pow(256, width)
    ensures Value(BigEndian(n, width)) == n
  {
    if width > 0 {
      BigEndianRoundTrip(n / 256, width - 1);
      var s := BigEndian(n, width);
      assert s[..|s| - 1] == BigEndian(n / 256, width - 1);
    }
  }

  lemma {:induction false} ValueBigEndian(s: ByteString)
    ensures Value(s) < Pow(256, |s|)
    ensures BigEndian(Value(s), |s|) == s
  {
    if s != [] {
      var front := s[..|s| - 1];
      ValueBigEndian(front);
      assert Value(s) / 256 == Value(front) && Value(s) % 256 == s[|s| - 1];
      assert s == front + [s[|s| - 1]];
    }
  }

  lemma PowersOf256()
    ensures Pow(256, 1) == 0x100
    ensures Pow(256, 2) == 0x1_0000
    ensures Pow(256, 4) == 0x1_0000_0000
    ensures Pow(256, 8) == 0x1_0000_0000_0000_0000
  {
  }

  /** Big-endian without leading zeros, except that zero is one zero byte. */
  function Minimal(n: nat): (s: ByteString)
    ensures |s| >= 1
    ensures |s| == 1 || s[0] != 0
    ensures Value(s) == n
  {
    if n < 256 then
      [n]
    else
      var s := Minimal(n / 256) + [n % 256];
      assert s[..|s| - 1] == Minimal(n / 256);
      s
  }

  /** Minimal bytes are the only minimal encoding: decoding and re-encoding is the identity. */
  lemma {:induction false} MinimalUnique(s: ByteString)
    requires |s| >= 1
    requires |s| == 1 || s[0] != 0
    ensures Minimal(Value(s)) == s
  {
    if |s| > 1 {
      var front, last := s[..|s| - 1], s[|s| - 1];
      MinimalUnique(front);
      assert s == front + [last];
      var v := Value(front);
      assert v > 0 by { assert Minimal(0) == [0]; }
      assert Value(s) == 256 * v + last;
      hide Value;
      assert Value(s) / 256 == v && Value(s) % 256 == last;
    } else {
      assert s == [s[0]] && s[..0] == [];
    }
  }

  /** Two concatenations with equally long heads agree piece by piece. */
  lemma SplitEqual(a: ByteString, b: ByteString, c: ByteString, d: ByteString)
    requires a + b == c + d
    requires |a| == |c|
    ensures a == c && b == d
  {
    assert a == (a + b)[..|a|] && c == (c + d)[..|c|];
    assert b == (a + b)[|a|..] && d == (c + d)[|c|..];
  }
}
