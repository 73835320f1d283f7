/** The byte encodings that the platform feeds to SHA-256.

A Go string or byte slice is written as a Dafny `string` whose characters stand for bytes.
Both encodings are self-delimiting lists of fields; this module proves that they are injective, so
that a digest over them pins every field. */
module Encoding {

  predicate IsDigits(s: string) {
    forall i :: 0 <= i < |s| ==> '0' <= s[i] <= '9'
  }

  /** strconv.Itoa on a non-negative number. */
  function Itoa(n: nat): (s: string)
    ensures |s| > 0 && IsDigits(s)
  {
    if n < 10 then [('0' as int + n) as char] else Itoa(n / 10) + [('0' as int + n % 10) as char]
  }

  /** strconv.FormatInt(n, 10). */
  function FormatInt(n: int): (s: string)
    ensures n < 0 ==> |s| > 1 && s[0] == '-' && IsDigits(s[1..])
    ensures n >= 0 ==> |s| > 0 && IsDigits(s)
  {
    if n < 0 then "-" + Itoa(-n) else Itoa(n)
  }

  /** The value a decimal numeral denotes: the inverse of Itoa. */
  function Atoi(s: string): nat
    requires IsDigits(s)
  {
    if s == "" then 0 else 10 * Atoi(s[..|s| - 1]) + (s[|s| - 1] as int - '0' as int)
  }

  lemma {:induction false} AtoiItoa(n: nat)
    ensures Atoi(Itoa(n)) == n
  {
    if n >= 10 {
      AtoiItoa(n / 10);
      assert Itoa(n)[..|Itoa(n)| - 1] == Itoa(n / 10);
    } else {
      assert Itoa(n)[..0] == "";
    }
  }

  lemma ItoaInjective(a: nat, b: nat)
    requires Itoa(a) == Itoa(b)
    ensures a == b
  {
    AtoiItoa(a);
    AtoiItoa(b);
  }

  lemma FormatIntInjective(a: int, b: int)
    requires FormatInt(a) == FormatInt(b)
    ensures a == b
  {
    assert a < 0 <==> FormatInt(a)[0] == '-';
    assert b < 0 <==> FormatInt(b)[0] == '-';
    if a < 0 {
      assert FormatInt(a)[1..] == Itoa(-a) && FormatInt(b)[1..] == Itoa(-b);
      ItoaInjective(-a, -b);
    } else {
      ItoaInjective(a, b);
    }
  }

  /** One field of an audit hash: length in decimal, ':', the value, '|'. */
  function AuditPart(v: string): string {
    Itoa(|v|) + ":" + v + "|"
  }

  function AuditParts(vs: seq<string>): string {
    if vs == [] then "" else AuditPart(vs[0]) + AuditParts(vs[1..])
  }

  /** A decimal run followed by ':' can be split off in one way only. */
  lemma DigitsPrefix(a: string, b: string, s: string, t: string)
    requires IsDigits(a) && IsDigits(b)
    requires a + ":" + s == b + ":" + t
    ensures a == b && s == t
  {
    var u := a + ":" + s;
    var w := b + ":" + t;
    assert u[|a|] == ':' && w[|b|] == ':';
    assert forall i :: 0 <= i < |a| ==> u[i] == a[i] != ':';
    assert forall i :: 0 <= i < |b| ==> w[i] == b[i] != ':';
    assert a == u[..|a|] && b == w[..|b|];
    assert s == u[|a| + 1..] && t == w[|b| + 1..];
  }

  lemma AuditPartPrefix(v: string, w: string, s: string, t: string)
    requires AuditPart(v) + s == AuditPart(w) + t
    ensures v == w && s == t
  {
    var x, y := v + "|" + s, w + "|" + t;
    assert AuditPart(v) + s == Itoa(|v|) + ":" + x;
    assert AuditPart(w) + t == Itoa(|w|) + ":" + y;
    DigitsPrefix(Itoa(|v|), Itoa(|w|), x, y);
    AtoiItoa(|v|);
    AtoiItoa(|w|);
    assert v == x[..|v|] && w == y[..|w|];
    assert s == x[|v| + 1..] && t == y[|w| + 1..];
  }

  /** The audit field encoding is injective on lists of any lengths. */
  lemma {:induction false} AuditPartsInjective(vs: seq<string>, ws: seq<string>)
    requires AuditParts(vs) == AuditParts(ws)
    ensures vs == ws
  {
    if vs != [] && ws != [] {
      AuditPartPrefix(vs[0], ws[0], AuditParts(vs[1..]), AuditParts(ws[1..]));
      AuditPartsInjective(vs[1..], ws[1..]);
      assert vs == [vs[0]] + vs[1..] && ws == [ws[0]] + ws[1..];
    }
  }

  const BYTE: nat := 256

  /** The k low-order bytes of n, most significant first (binary.BigEndian for k = 8). */
  function BigEndian(n: nat, k: nat): (s: string)
    ensures |s| == k
  {
    if k == 0 then "" else BigEndian(n / BYTE, k - 1) + [(n % BYTE) as char]
  }

  function Pow256(k: nat): (r: nat)
    ensures r > 0
  {
    if k == 0 then 1 else BYTE * Pow256(k - 1)
  }

  lemma {:induction false} BigEndianInjective(a: nat, b: nat, k: nat)
    requires a < Pow256(k) && b < Pow256(k)
    requires BigEndian(a, k) == BigEndian(b, k)
    ensures a == b
  {
    if k > 0 {
      assert BigEndian(a, k)[..k - 1] == BigEndian(a / BYTE, k - 1);
      assert BigEndian(b, k)[..k - 1] == BigEndian(b / BYTE, k - 1);
      assert BigEndian(a, k)[k - 1] == BigEndian(b, k)[k - 1];
      BigEndianInjective(a / BYTE, b / BYTE, k - 1);
    }
  }

  /** One field of a message hash: eight big-endian length bytes, then the value. */
  function SizedPart(v: string): string {
    BigEndian(|v|, 8) + v
  }

  function SizedParts(vs: seq<string>): string {
    if vs == [] then "" else SizedPart(vs[0]) + SizedParts(vs[1..])
  }

  /** Go slices are shorter than 2^63 bytes, so their length fits the eight bytes. */
  predicate Addressable(v: string) {
    |v| < 0x8000_0000_0000_0000
  }

  lemma SizedPartPrefix(v: string, w: string, s: string, t: string)
    requires Addressable(v) && Addressable(w)
    requires SizedPart(v) + s == SizedPart(w) + t
    ensures v == w && s == t
  {
    var x, y := SizedPart(v) + s, SizedPart(w) + t;
    assert x[..8] == BigEndian(|v|, 8) && y[..8] == BigEndian(|w|, 8);
    assert Pow256(8) == 0x1_0000_0000_0000_0000 by { assert Pow256(4) == 0x1_0000_0000; }
    BigEndianInjective(|v|, |w|, 8);
    assert v == x[8..8 + |v|] && w == y[8..8 + |w|];
    assert s == x[8 + |v|..] && t == y[8 + |w|..];
  }

  lemma {:induction false} SizedPartsInjective(vs: seq<string>, ws: seq<string>)
    requires forall v :: v in vs + ws ==> Addressable(v)
    requires SizedParts(vs) == SizedParts(ws)
    ensures vs == ws
  {
    if vs != [] && ws != [] {
      assert vs[0] in vs + ws && ws[0] in vs + ws;
      SizedPartPrefix(vs[0], ws[0], SizedParts(vs[1..]), SizedParts(ws[1..]));
      SizedPartsInjective(vs[1..], ws[1..]);
      assert vs == [vs[0]] + vs[1..] && ws == [ws[0]] + ws[1..];
    }
  }
}
