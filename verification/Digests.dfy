/** Domain-separated digests of canonical text. The hash is a parameter; what is assumed of it is
    stated where it is used. */
module Digests {
  import opened Canonical
  import opened CanonicalReading
  import opened Characters
  import opened JsonText

  type Byte = n: int | 0 <= n < 256

  type Hash = string -> seq<Byte>

  const ACTION_DOMAIN: string := "vea\0action\0v1\0"
  const POLICY_DOMAIN: string := "vea\0policy\0v1\0"
  const BINDING_DOMAIN: string := "vea\0approval-binding\0v1\0"

  function HexOf(bytes: seq<Byte>): (r: string)
    ensures |r| == 2 * |bytes|
  {
    if bytes == [] then "" else [DIGITS[bytes[0] / 16], DIGITS[bytes[0] % 16]] + HexOf(bytes[1..])
  }

  function DomainDigest(hash: Hash, domain: string, canonical: string): string {
    "sha256:" + HexOf(hash(domain + canonical))
  }

  /** Always 32 bytes. */
  ghost predicate Sha256Sized(hash: Hash) {
    forall s :: |hash(s)| == 32
  }

  /** No two of these inputs collide. */
  ghost predicate CollisionFree(hash: Hash, inputs: set<string>) {
    forall s, t :: s in inputs && t in inputs && hash(s) == hash(t) ==> s == t
  }

  lemma {:induction false} HexIsLowerHex(bytes: seq<Byte>)
    ensures forall i :: 0 <= i < |HexOf(bytes)| ==> LowerHex(HexOf(bytes)[i])
  {
    if bytes == [] {
    } else {
      HexIsLowerHex(bytes[1..]);
      HexDigitIs(bytes[0] / 16);
      HexDigitIs(bytes[0] % 16);
    }
  }

  lemma {:induction false} HexIsInjective(a: seq<Byte>, b: seq<Byte>)
    requires HexOf(a) == HexOf(b)
    ensures a == b
  {
    if a == [] {
    } else {
      assert |HexOf(a)| == |HexOf(b)|;
      assert HexOf(a)[..2] == [DIGITS[a[0] / 16], DIGITS[a[0] % 16]];
      assert HexOf(b)[..2] == [DIGITS[b[0] / 16], DIGITS[b[0] % 16]];
      assert HexOf(a)[2..] == HexOf(a[1..]) && HexOf(b)[2..] == HexOf(b[1..]);
      SameByte(a[0], b[0]);
      HexIsInjective(a[1..], b[1..]);
      assert a == [a[0]] + a[1..] && b == [b[0]] + b[1..];
    }
  }

  lemma SameByte(m: Byte, n: Byte)
    requires [DIGITS[m / 16], DIGITS[m % 16]] == [DIGITS[n / 16], DIGITS[n % 16]]
    ensures m == n
  {
    var p, q := [DIGITS[m / 16], DIGITS[m % 16]], [DIGITS[n / 16], DIGITS[n % 16]];
    assert p[0] == q[0] && p[1] == q[1];
    HexDigitsDiffer(m / 16, n / 16);
    HexDigitsDiffer(m % 16, n % 16);
  }

  /** Every digest has the textual form that validation demands. */
  lemma DigestsAreValid(hash: Hash, domain: string, canonical: string)
    requires Sha256Sized(hash)
    ensures Sha256Text(DomainDigest(hash, domain, canonical))
  {
    var bytes := hash(domain + canonical);
    HexIsLowerHex(bytes);
    var d := DomainDigest(hash, domain, canonical);
    assert d[..7] == "sha256:";
    assert forall i :: 7 <= i < 71 ==> d[i] == HexOf(bytes)[i-7];
  }

  /** d is the prefix and then the hash of the input, two hexadecimal digits a byte, the more
      significant one first. */
  ghost predicate IsDigestOf(d: string, hash: Hash, input: string) {
    var bytes := hash(input);
    && |d| == 7 + 2 * |bytes| && d[..7] == "sha256:"
    && forall i :: 0 <= i < |bytes| ==> HexPair(d[7 + 2 * i], d[8 + 2 * i], bytes[i])
  }

  ghost predicate HexPair(high: char, low: char, b: Byte) {
    HexValue(high).Some? && HexValue(low).Some? && 16 * HexValue(high).value + HexValue(low).value == b
  }

  lemma {:induction false} HexIsRead(bytes: seq<Byte>)
    ensures |HexOf(bytes)| == 2 * |bytes|
    ensures forall i :: 0 <= i < |bytes| ==> HexPair(HexOf(bytes)[2 * i], HexOf(bytes)[2 * i + 1], bytes[i])
  {
    if bytes == [] {
    } else {
      var rest := HexOf(bytes[1..]);
      HexIsRead(bytes[1..]);
      HexDigitIs(bytes[0] / 16);
      HexDigitIs(bytes[0] % 16);
      assert HexPair(HexOf(bytes)[0], HexOf(bytes)[1], bytes[0]);
      assert HexOf(bytes)[2..] == rest;
      hide HexOf, HexPair;
      forall i | 0 <= i < |bytes| ensures HexPair(HexOf(bytes)[2 * i], HexOf(bytes)[2 * i + 1], bytes[i]) {
        if i > 0 {
          assert bytes[i] == bytes[1..][i-1];
          assert HexPair(rest[2 * (i - 1)], rest[2 * (i - 1) + 1], bytes[1..][i-1]);
        }
      }
    }
  }

  lemma DigestIsRead(hash: Hash, domain: string, canonical: string)
    ensures IsDigestOf(DomainDigest(hash, domain, canonical), hash, domain + canonical)
  {
    hide HexOf, HexPair;
    var bytes := hash(domain + canonical);
    HexIsRead(bytes);
    var d := DomainDigest(hash, domain, canonical);
    forall i | 0 <= i < |bytes| ensures HexPair(d[7 + 2 * i], d[8 + 2 * i], bytes[i]) {
      assert d[7 + 2 * i] == HexOf(bytes)[2 * i] && d[8 + 2 * i] == HexOf(bytes)[2 * i + 1];
    }
  }

  /** Equal digests of inputs that do not collide come from equal inputs. */
  lemma DigestDeterminesInput(hash: Hash, inputs: set<string>, d: string, s: string, e: string, t: string)
    requires CollisionFree(hash, inputs) && d + s in inputs && e + t in inputs
    requires DomainDigest(hash, d, s) == DomainDigest(hash, e, t)
    ensures d + s == e + t
  {
    var x, y := hash(d + s), hash(e + t);
    assert ("sha256:" + HexOf(x))[7..] == HexOf(x) && ("sha256:" + HexOf(y))[7..] == HexOf(y);
    HexIsInjective(x, y);
  }

  predicate IsDomain(d: string) {
    d == ACTION_DOMAIN || d == POLICY_DOMAIN || d == BINDING_DOMAIN
  }

  /** No text hashed under one domain is also hashed under another. */
  lemma DomainsAreSeparate(d: string, s: string, e: string, t: string)
    requires IsDomain(d) && IsDomain(e) && d + s == e + t
    ensures d == e && s == t
  {
    assert (d + s)[4] == d[4] && (e + t)[4] == e[4];
    assert (d + s)[5] == d[5] && (e + t)[5] == e[5];
    assert d == e;
    assert s == (d + s)[|d|..] && t == (e + t)[|e|..];
  }
}
