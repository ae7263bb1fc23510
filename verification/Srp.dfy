/**
 * SRP-6a client arithmetic (packages/crypto/src/srp-client.ts) and its
 * agreement with the server formula of section 2.6 of RFC 5054.
 */
module Srp {
  import opened Wrappers
  import opened Arithmetic
  import opened Bytes
  import Utf8

  // ── Congruence ─────────────────────────────────────────────────────────────

  lemma {:induction false} ModAddMultiple(x: int, k: int, m: int)
    requires m > 0
    ensures (x + k * m) % m == x % m
    decreases if k >= 0 then k else -k
  {
    if k > 0 {
      ModAddMultiple(x, k - 1, m);
      ModAddOnce(x + (k - 1) * m, m);
      assert x + (k - 1) * m + m == x + k * m;
    } else if k < 0 {
      ModAddMultiple(x, k + 1, m);
      ModAddOnce(x + k * m, m);
      assert x + k * m + m == x + (k + 1) * m;
    } else {
      assert k * m == 0;
    }
  }

  lemma ModAddOnce(x: int, m: int)
    requires m > 0
    ensures (x + m) % m == x % m
  {
    var q, r := x / m, x % m;
    assert x + m == (q + 1) * m + r;
    DivisionIsUnique(x + m, q + 1, r, m);
  }

  lemma DivisionIsUnique(x: int, q: int, r: int, m: int)
    requires m > 0 && 0 <= r < m && x == q * m + r
    ensures x % m == r
  {
    var q', r' := x / m, x % m;
    assert x == q' * m + r';
    assert (q - q') * m == r' - r;
    assert q - q' >= 1 ==> (q - q') * m >= m;
    assert q - q' <= -1 ==> (q - q') * m <= -m;
  }

  /** A factor may be replaced by a congruent one. */
  lemma MulMod(a: int, b: int, c: int, m: int)
    requires m > 0 && a % m == b % m
    ensures (a * c) % m == (b * c) % m
  {
    var k := a / m - b / m;
    assert a == b + k * m by {
      assert a == (a / m) * m + a % m && b == (b / m) * m + b % m;
    }
    assert a * c == b * c + (k * c) * m;
    ModAddMultiple(b * c, k * c, m);
  }

  lemma SubMod(a: int, b: int, c: int, m: int)
    requires m > 0 && b % m == c % m
    ensures (a - b) % m == (a - c) % m
  {
    var k := c / m - b / m;
    assert c == b + k * m by {
      assert c == (c / m) * m + c % m && b == (b / m) * m + b % m;
    }
    assert a - b == a - c + k * m;
    ModAddMultiple(a - c, k, m);
  }

  lemma AddMod(a: int, b: int, c: int, m: int)
    requires m > 0 && a % m == b % m
    ensures (a + c) % m == (b + c) % m
  {
    SubMod(a, -c, -c, m);
    var k := a / m - b / m;
    assert a == b + k * m by {
      assert a == (a / m) * m + a % m && b == (b / m) * m + b % m;
    }
    ModAddMultiple(b + c, k, m);
  }

  lemma ModMod(a: int, m: int)
    requires m > 0
    ensures (a % m) % m == a % m
  {
  }

  lemma {:induction false} PowMod(a: int, b: int, n: nat, m: int)
    requires m > 0 && a % m == b % m
    ensures Pow(a, n) % m == Pow(b, n) % m
  {
    if n > 0 {
      PowMod(a, b, n - 1, m);
      MulMod(a, b, Pow(a, n - 1), m);
      MulMod(Pow(a, n - 1), Pow(b, n - 1), b, m);
      assert b * Pow(a, n - 1) == Pow(a, n - 1) * b;
      assert Pow(b, n - 1) * b == b * Pow(b, n - 1);
    }
  }

  // ── modPow ─────────────────────────────────────────────────────────────────

  /** Remainder with the sign of the dividend, as BigInt has it. */
  function Rem(a: int, m: int): int
    requires m > 0
  {
    if a >= 0 then a % m else -((-a) % m)
  }

  /** ((a % m) + m) % m is the non-negative residue. */
  lemma Normalised(a: int, m: int)
    requires m > 0
    ensures Rem(Rem(a, m) + m, m) == a % m
  {
    if a >= 0 {
      ModMod(a, m);
      ModAddOnce(a % m, m);
    } else {
      var n := -a;
      var q, r := n / m, n % m;
      assert n == q * m + r;
      assert a == -q * m - r;
      if r == 0 {
        DivisionIsUnique(a, -q, 0, m);
        ModAddOnce(0, m);
      } else {
        assert a == (-q - 1) * m + (m - r) by {
          assert (-q - 1) * m == -q * m - m;
        }
        DivisionIsUnique(a, -q - 1, m - r, m);
        DivisionIsUnique(m - r, 0, m - r, m);
      }
    }
  }

  lemma SquareStep(b: int, e: nat, m: int)
    requires m > 0
    ensures Pow((b * b) % m, e) % m == Pow(b, 2 * e) % m
  {
    ModMod(b * b, m);
    PowMod((b * b) % m, b * b, e, m);
    PowMul(b, 2, e);
    assert Pow(b, 2) == b * b by {
      assert Pow(b, 1) == b * Pow(b, 0);
    }
  }

  /** One round of square-and-multiply keeps result * b^e the same residue. */
  lemma RoundKeepsResidue(result: int, b: int, e: nat, m: int)
    requires m > 0 && e > 0
    ensures var result' := if e % 2 == 1 then (result * b) % m else result;
            (result' * Pow((b * b) % m, e / 2)) % m == (result * Pow(b, e)) % m
  {
    var half := e / 2;
    var sq := Pow((b * b) % m, half);
    SquareStep(b, half, m);
    if e % 2 == 1 {
      var x := result * b;
      ModMod(x, m);
      MulMod(x % m, x, sq, m);
      MulMod(sq, Pow(b, 2 * half), x, m);
      assert x * sq == sq * x;
      assert Pow(b, 2 * half) * x == result * (b * Pow(b, 2 * half));
      assert e == 2 * half + 1;
    } else {
      MulMod(sq, Pow(b, 2 * half), result, m);
      assert sq * result == result * sq;
      assert Pow(b, 2 * half) * result == result * Pow(b, 2 * half);
    }
  }

  /** What square-and-multiply returns; only an exponent of zero or less escapes the reduction. */
  function Residue(b: int, exp: int, m: int): int
    requires m > 0
  {
    if exp <= 0 then 1 else Pow(b, exp) % m
  }

  /** The loop's invariant: what is left to multiply completes the power. */
  ghost predicate Completes(result: int, base: int, e: nat, m: int, target: int)
    requires m > 0
  {
    (result * Pow(base, e)) % m == target
  }

  lemma RoundCompletes(result: int, base: int, e: nat, m: int, target: int)
    requires m > 0 && e > 0
    requires Completes(result, base, e, m, target)
    ensures Completes(if e % 2 == 1 then (result * base) % m else result, (base * base) % m, e / 2, m, target)
  {
    RoundKeepsResidue(result, base, e, m);
  }

  lemma Started(b: int, base: int, exp: nat, m: int)
    requires m > 0 && base == b % m
    ensures Completes(1, base, exp, m, Pow(b, exp) % m)
  {
    ModMod(b, m);
    PowMod(base, b, exp, m);
  }

  lemma Finished(result: int, base: int, m: int, target: int)
    requires m > 0 && 0 <= result < m
    requires Completes(result, base, 0, m, target)
    ensures result == target
  {
    DivisionIsUnique(result, 0, result, m);
  }

  method ModPow(b: int, exp: int, m: int) returns (result: int)
    requires m > 0
    ensures result == Residue(b, exp, m)
  {
    hide Completes;
    result := 1;
    var base := Rem(Rem(b, m) + m, m);
    Normalised(b, m);
    if exp <= 0 {
      return;
    }
    var e := exp;
    Started(b, base, e, m);
    while e > 0
      invariant 0 <= e
      invariant Completes(result, base, e, m, Pow(b, exp) % m)
      invariant e == 0 ==> 0 <= result < m
    {
      RoundCompletes(result, base, e, m, Pow(b, exp) % m);
      if e % 2 == 1 {
        result := (result * base) % m;
      }
      e := e / 2;
      base := (base * base) % m;
    }
    Finished(result, base, m, Pow(b, exp) % m);
  }

  /** modPow is base^exp mod m exactly when it is not asked for a zeroth power modulo 1. */
  lemma ModPowIsPower(b: int, exp: nat, m: int)
    requires m > 0
    ensures Residue(b, exp, m) == Pow(b, exp) % m <==> !(exp == 0 && m == 1)
  {
  }

  // ── Protocol ───────────────────────────────────────────────────────────────

  /** v = g^x, registered with the server. */
  function Verifier(g: int, x: nat, n: int): int
    requires n > 1
  {
    Pow(g, x) % n
  }

  /** B = k*v + g^b, as section 2.5.3 of RFC 5054 has it. */
  function ServerPublic(g: int, k: int, v: int, b: nat, n: int): int
    requires n > 1
  {
    (k * v + Pow(g, b)) % n
  }

  /** S = (A * v^u)^b, as section 2.6 of RFC 5054 has it. */
  function ServerSecret(A: int, v: int, u: nat, b: nat, n: int): int
    requires n > 1
  {
    Pow(A * Pow(v, u), b) % n
  }

  /** The client's S, over the straight-line arithmetic of its code. */
  function ClientSecret(g: int, k: int, B: int, a: nat, x: nat, u: nat, n: int): int
    requires n > 1
  {
    var kgx := Rem(k * Residue(g, x, n), n);
    Residue(Rem(Rem(B - kgx, n) + n, n), a + u * x, n)
  }

  /** x = H(salt | H(identity ":" password)) */
  function DeriveX(hash: ByteString -> ByteString, salt: ByteString, identity: string, password: string): nat {
    Value(hash(salt + hash(Utf8.Encode(identity + ":" + password))))
  }

  function Scrambler(hash: ByteString -> ByteString, A: nat, B: nat): nat {
    Value(hash(Minimal(A) + Minimal(B)))
  }

  /** M1 = H(A | B | S) */
  function ClientProof(hash: ByteString -> ByteString, A: nat, B: nat, secret: nat): ByteString {
    hash(Minimal(A) + Minimal(B) + Minimal(secret))
  }

  /** M2 = H(A | M1 | S) */
  function ServerProof(hash: ByteString -> ByteString, A: nat, m1: ByteString, secret: nat): ByteString {
    hash(Minimal(A) + m1 + Minimal(secret))
  }

  datatype Step2 = InvalidB | Proof(secret: nat, m1: ByteString)

  /** `hash` stands for SHA-256. */
  method SrpStep2(g: int, k: nat, n: int, hash: ByteString -> ByteString, identity: string, password: string, salt: ByteString,
                  A: nat, a: nat, B: nat)
    returns (r: Step2)
    requires n > 1
    ensures r.InvalidB? <==> B % n == 0
    ensures r.Proof? ==>
            && r.secret == ClientSecret(g, k, B, a, DeriveX(hash, salt, identity, password), Scrambler(hash, A, B), n)
            && r.m1 == ClientProof(hash, A, B, r.secret)
  {
    hide Pow, Minimal, Value;
    if B % n == 0 {
      return InvalidB;
    }
    var x := DeriveX(hash, salt, identity, password);
    var u := Scrambler(hash, A, B);
    var gx := ModPow(g, x, n);
    var kgx := Rem(k * gx, n);
    var base := Rem(Rem(B - kgx, n) + n, n);
    var s := ModPow(base, a + u * x, n);
    ResidueIsNatural(base, a + u * x, n);
    hide Residue, Rem;
    return Proof(s, ClientProof(hash, A, B, s));
  }

  lemma ResidueIsNatural(b: int, exp: int, m: int)
    requires m > 0
    ensures Residue(b, exp, m) >= 0
  {
  }

  /** The comparison that never stops early accepts exactly the expected proof; `diff` is whether a bit has differed. */
  method VerifyServerProof(expected: ByteString, received: ByteString) returns (ok: bool)
    ensures ok <==> received == expected
  {
    var diff := |received| != |expected|;
    for i := 0 to |expected|
      invariant !diff <==> |received| == |expected| && received[..i] == expected[..i]
    {
      var byte := if i < |received| then received[i] else 0;
      assert |received| == |expected| ==>
          received[..i + 1] == received[..i] + [received[i]] && expected[..i + 1] == expected[..i] + [expected[i]];
      diff := diff || expected[i] != byte;
    }
    assert expected[..|expected|] == expected;
    assert |received| == |expected| ==> received[..|expected|] == received;
    return !diff;
  }

  /** B minus k*g^x leaves g^b. */
  lemma UnblindsToPower(g: int, k: nat, b: nat, x: nat, n: int)
    requires n > 1
    ensures var B := ServerPublic(g, k, Verifier(g, x, n), b, n);
            var kgx := Rem(k * Residue(g, x, n), n);
            Rem(Rem(B - kgx, n) + n, n) == Pow(g, b) % n
  {
    var v := Verifier(g, x, n);
    var B := ServerPublic(g, k, v, b, n);
    ModPowIsPower(g, x, n);
    assert Residue(g, x, n) == v >= 0;
    var kv := k * v;
    assert kv >= 0;
    var kgx := kv % n;
    Normalised(B - kgx, n);
    ModMod(kv, n);
    SubMod(B, kgx, kv, n);
    ModMod(kv + Pow(g, b), n);
    AddMod(B, kv + Pow(g, b), -kv, n);
  }

  /** For all exponents, both sides compute the same premaster secret. */
  lemma SecretsAgree(g: int, k: nat, a: nat, b: nat, x: nat, u: nat, n: int)
    requires n > 1
    ensures var v := Verifier(g, x, n);
            ClientSecret(g, k, ServerPublic(g, k, v, b, n), a, x, u, n)
            == ServerSecret(Residue(g, a, n), v, u, b, n)
  {
    var v, A := Verifier(g, x, n), Residue(g, a, n);
    var e := a + u * x;
    UnblindsToPower(g, k, b, x, n);
    ModPowIsPower(g, a, n);
    ModPowIsPower(Pow(g, b) % n, e, n);
    calc {
      ClientSecret(g, k, ServerPublic(g, k, v, b, n), a, x, u, n);
      Pow(Pow(g, b) % n, e) % n;
      { ModMod(Pow(g, b), n); PowMod(Pow(g, b) % n, Pow(g, b), e, n); }
      Pow(Pow(g, b), e) % n;
      { PowMul(g, b, e); PowMul(g, e, b); assert b * e == e * b; }
      Pow(Pow(g, e), b) % n;
      { PowAdd(g, a, u * x); PowMul(g, x, u); assert u * x == x * u; }
      Pow(Pow(g, a) * Pow(Pow(g, x), u), b) % n;
      { ServerBase(g, a, x, u, n); PowMod(Pow(g, a) * Pow(Pow(g, x), u), A * Pow(v, u), b, n); }
      ServerSecret(A, v, u, b, n);
    }
  }

  /**
   * Mutual authentication: with the verifier of the password typed and any
   * ephemerals, the server computes the M1 the client sent, and the M2 it
   * answers with is the one the client expects.
   */
  lemma ProofsAgree(g: int, k: nat, n: int, hash: ByteString -> ByteString, identity: string, password: string, salt: ByteString,
                    a: nat, b: nat)
    requires n > 1
    ensures var x := DeriveX(hash, salt, identity, password);
            var v, A := Verifier(g, x, n), Residue(g, a, n);
            var B := ServerPublic(g, k, v, b, n);
            && A >= 0 && B >= 0
            && var u := Scrambler(hash, A, B);
               var mine, theirs := ClientSecret(g, k, B, a, x, u, n), ServerSecret(A, v, u, b, n);
               && mine >= 0 && theirs >= 0
               && ClientProof(hash, A, B, mine) == ClientProof(hash, A, B, theirs)
               && ServerProof(hash, A, ClientProof(hash, A, B, mine), mine) ==
                  ServerProof(hash, A, ClientProof(hash, A, B, theirs), theirs)
  {
    var x := DeriveX(hash, salt, identity, password);
    var v := Verifier(g, x, n);
    ModPowIsPower(g, a, n);
    var A, B := Residue(g, a, n), ServerPublic(g, k, v, b, n);
    SecretsAgree(g, k, a, b, x, Scrambler(hash, A, B), n);
  }

  lemma ServerBase(g: int, a: nat, x: nat, u: nat, n: int)
    requires n > 1
    ensures (Pow(g, a) * Pow(Pow(g, x), u)) % n == (Residue(g, a, n) * Pow(Verifier(g, x, n), u)) % n
  {
    var v, A := Verifier(g, x, n), Residue(g, a, n);
    ModPowIsPower(g, a, n);
    ModMod(Pow(g, a), n);
    ModMod(Pow(g, x), n);
    PowMod(Pow(g, x), v, u, n);
    MulMod(Pow(g, a), A, Pow(Pow(g, x), u), n);
    MulMod(Pow(Pow(g, x), u), Pow(v, u), A, n);
    assert A * Pow(Pow(g, x), u) == Pow(Pow(g, x), u) * A;
    assert Pow(v, u) * A == A * Pow(v, u);
  }

  // ── What the hashed values pin down ────────────────────────────────────────

  /** A hash without collisions whose values do not start with a zero byte. */
  ghost predicate Ideal(hash: ByteString -> ByteString) {
    && (forall s, t :: hash(s) == hash(t) ==> s == t)
    && (forall s :: hash(s) != [] && hash(s)[0] != 0)
  }

  lemma HashedNumber(hash: ByteString -> ByteString, s: ByteString, t: ByteString)
    requires Ideal(hash) && Value(hash(s)) == Value(hash(t))
    ensures s == t
  {
    MinimalUnique(hash(s));
    MinimalUnique(hash(t));
  }

  /** Equal private keys come from the same salt and the same identity and password text. */
  lemma PrivateKeyPinsPassword(hash: ByteString -> ByteString, salt: ByteString, identity: string, password: string,
                               salt': ByteString, identity': string, password': string)
    requires Ideal(hash) && |salt| == |salt'|
    requires DeriveX(hash, salt, identity, password) == DeriveX(hash, salt', identity', password')
    ensures salt == salt' && identity + ":" + password == identity' + ":" + password'
    ensures identity == identity' ==> password == password'
  {
    var s, t := Utf8.Encode(identity + ":" + password), Utf8.Encode(identity' + ":" + password');
    HashedNumber(hash, salt + hash(s), salt' + hash(t));
    SplitEqual(salt, hash(s), salt', hash(t));
    Utf8.EncodeInjective(identity + ":" + password, identity' + ":" + password');
    if identity == identity' {
      var n := |identity + ":"|;
      assert password == (identity + ":" + password)[n..] && password' == (identity' + ":" + password')[n..];
    }
  }

  /** The scrambling number pins both public keys, and M1 the secret as well; M2 pins A, M1 and the secret. */
  lemma ProofsPinSecrets(hash: ByteString -> ByteString, A: nat, B: nat, secret: nat, A': nat, B': nat, secret': nat)
    requires Ideal(hash) && |Minimal(A)| == |Minimal(A')| && |Minimal(B)| == |Minimal(B')|
    ensures Scrambler(hash, A, B) == Scrambler(hash, A', B') ==> A == A' && B == B'
    ensures ClientProof(hash, A, B, secret) == ClientProof(hash, A', B', secret') ==> A == A' && B == B' && secret == secret'
  {
    hide Minimal;
    if Scrambler(hash, A, B) == Scrambler(hash, A', B') {
      HashedNumber(hash, Minimal(A) + Minimal(B), Minimal(A') + Minimal(B'));
      SplitEqual(Minimal(A), Minimal(B), Minimal(A'), Minimal(B'));
    }
    if ClientProof(hash, A, B, secret) == ClientProof(hash, A', B', secret') {
      SplitEqual(Minimal(A) + Minimal(B), Minimal(secret), Minimal(A') + Minimal(B'), Minimal(secret'));
      SplitEqual(Minimal(A), Minimal(B), Minimal(A'), Minimal(B'));
    }
  }

  lemma ServerProofPinsSecret(hash: ByteString -> ByteString, A: nat, m1: ByteString, secret: nat, A': nat, m1': ByteString, secret': nat)
    requires Ideal(hash) && |Minimal(A)| == |Minimal(A')| && |m1| == |m1'|
    requires ServerProof(hash, A, m1, secret) == ServerProof(hash, A', m1', secret')
    ensures A == A' && m1 == m1' && secret == secret'
  {
    hide Minimal;
    SplitEqual(Minimal(A) + m1, Minimal(secret), Minimal(A') + m1', Minimal(secret'));
    SplitEqual(Minimal(A), m1, Minimal(A'), m1');
  }
}
