/** Unpadded base64url (section 5 of RFC 4648) as Go's RawURLEncoding implements it: the decoder
skips carriage returns and newlines and ignores the unused low bits of the last character. */
module Base64Url {

  import opened Wrappers

  /** A string whose characters are bytes. */
  predicate IsBytes(s: string) {
    forall i :: 0 <= i < |s| ==> s[i] as int < 256
  }

  function Digit(k: nat): (c: char)
    requires k < 64
    ensures c != '\n' && c != '\r'
  {
    if k < 26 then ('A' as int + k) as char
    else if k < 52 then ('a' as int + k - 26) as char
    else if k < 62 then ('0' as int + k - 52) as char
    else if k == 62 then '-' else '_'
  }

  function Value(c: char): (v: int)
    ensures -1 <= v < 64
  {
    if 'A' <= c <= 'Z' then c as int - 'A' as int
    else if 'a' <= c <= 'z' then c as int - 'a' as int + 26
    else if '0' <= c <= '9' then c as int - '0' as int + 52
    else if c == '-' then 62 else if c == '_' then 63 else -1
  }

  lemma ValueDigit(k: nat)
    requires k < 64
    ensures Value(Digit(k)) == k
  {
  }

  /** The four six-bit groups of three bytes, and the three bytes of four groups. */
  function G0(a: nat): nat { a / 4 }
  function G1(a: nat, b: nat): nat { a % 4 * 16 + b / 16 }
  function G2(b: nat, c: nat): nat { b % 16 * 4 + c / 64 }
  function G3(c: nat): nat { c % 64 }
  function B0(v: nat, w: nat): nat { v * 4 + w / 16 }
  function B1(w: nat, x: nat): nat { w % 16 * 16 + x / 4 }
  function B2(x: nat, y: nat): nat { x % 4 * 64 + y }

  lemma Regroup(a: nat, b: nat, c: nat)
    requires a < 256 && b < 256 && c < 256
    ensures G0(a) < 64 && G1(a, b) < 64 && G2(b, c) < 64 && G3(c) < 64
    ensures B0(G0(a), G1(a, b)) == a && B1(G1(a, b), G2(b, c)) == b && B2(G2(b, c), G3(c)) == c
  {
  }

  function Encode(b: string): (s: string)
    requires IsBytes(b)
    ensures forall i :: 0 <= i < |s| ==> s[i] != '\n' && s[i] != '\r'
  {
    if |b| == 0 then ""
    else if |b| == 1 then
      [Digit(G0(b[0] as int)), Digit(G1(b[0] as int, 0))]
    else if |b| == 2 then
      [Digit(G0(b[0] as int)), Digit(G1(b[0] as int, b[1] as int)), Digit(G2(b[1] as int, 0))]
    else
      [Digit(G0(b[0] as int)), Digit(G1(b[0] as int, b[1] as int)),
       Digit(G2(b[1] as int, b[2] as int)), Digit(G3(b[2] as int))] + Encode(b[3..])
  }

  /** Values from the RFC, and the two characters in which base64url differs from base64. */
  lemma KnownEncodings()
    ensures Encode("") == "" && Encode("f") == "Zg" && Encode("fo") == "Zm8" && Encode("foo") == "Zm9v"
    ensures Encode("foob") == "Zm9vYg" && Encode("fooba") == "Zm9vYmE" && Encode("foobar") == "Zm9vYmFy"
    ensures Encode([251 as char, 239 as char, 190 as char]) == "----" && Encode([255 as char, 255 as char, 255 as char]) == "____"
  {
  }

  function WithoutNewlines(s: string): string {
    if s == "" then ""
    else if s[0] == '\n' || s[0] == '\r' then WithoutNewlines(s[1..])
    else [s[0]] + WithoutNewlines(s[1..])
  }

  function Decode(s: string): Option<string> {
    DecodeQuanta(WithoutNewlines(s))
  }

  function DecodeQuanta(s: string): Option<string> {
    if |s| == 0 then Some("")
    else if |s| == 1 || Value(s[0]) < 0 || Value(s[1]) < 0 then None
    else
      var x := B0(Value(s[0]), Value(s[1])) as char;
      if |s| == 2 then Some([x])
      else if Value(s[2]) < 0 then None
      else
        var y := B1(Value(s[1]), Value(s[2])) as char;
        if |s| == 3 then Some([x, y])
        else if Value(s[3]) < 0 then None
        else
          var z := B2(Value(s[2]), Value(s[3])) as char;
          match DecodeQuanta(s[4..])
          case None => None
          case Some(rest) => Some([x, y, z] + rest)
  }

  lemma {:induction false} NothingToSkip(s: string)
    requires forall i :: 0 <= i < |s| ==> s[i] != '\n' && s[i] != '\r'
    ensures WithoutNewlines(s) == s
  {
    if s != "" {
      NothingToSkip(s[1..]);
      assert s == [s[0]] + s[1..];
    }
  }

  lemma DecodeFour(s: string)
    requires |s| >= 4 && Value(s[0]) >= 0 && Value(s[1]) >= 0 && Value(s[2]) >= 0 && Value(s[3]) >= 0
    requires DecodeQuanta(s[4..]).Some?
    ensures DecodeQuanta(s) ==
            Some([B0(Value(s[0]), Value(s[1])) as char, B1(Value(s[1]), Value(s[2])) as char, B2(Value(s[2]), Value(s[3])) as char]
                 + DecodeQuanta(s[4..]).value)
  {
  }

  lemma DecodeStep(b: string, tail: string)
    requires IsBytes(b) && |b| >= 3 && tail == Encode(b[3..]) && DecodeQuanta(tail) == Some(b[3..])
    ensures DecodeQuanta(Encode(b)) == Some(b)
  {
    var x, y, z := b[0] as int, b[1] as int, b[2] as int;
    Regroup(x, y, z);
    var e := [Digit(G0(x)), Digit(G1(x, y)), Digit(G2(y, z)), Digit(G3(z))] + tail;
    ValueDigit(G0(x));
    ValueDigit(G1(x, y));
    ValueDigit(G2(y, z));
    ValueDigit(G3(z));
    assert e[4..] == tail;
    DecodeFour(e);
    assert b == [b[0], b[1], b[2]] + b[3..];
  }

  lemma DecodeLastTwo(b: string)
    requires IsBytes(b) && |b| == 2
    ensures DecodeQuanta(Encode(b)) == Some(b)
  {
    var x, y := b[0] as int, b[1] as int;
    Regroup(x, y, 0);
    ValueDigit(G0(x));
    ValueDigit(G1(x, y));
    ValueDigit(G2(y, 0));
    assert b == [b[0], b[1]];
  }

  lemma DecodePair(x: nat, y: nat)
    requires x < 256 && y < 256 && G0(x) < 64 && G1(x, y) < 64
    ensures DecodeQuanta([Digit(G0(x)), Digit(G1(x, y))]) == Some([x as char])
  {
  }

  lemma DecodeLastOne(b: string)
    requires IsBytes(b) && |b| == 1
    ensures DecodeQuanta(Encode(b)) == Some(b)
  {
    DecodePair(b[0] as int, 0);
    assert b == [b[0]];
  }

  /** Any byte string survives encoding and decoding, whatever its length modulo three. */
  lemma {:induction false} QuantaRoundTrip(b: string)
    requires IsBytes(b)
    ensures DecodeQuanta(Encode(b)) == Some(b)
  {
    if |b| >= 3 {
      QuantaRoundTrip(b[3..]);
      DecodeStep(b, Encode(b[3..]));
    } else if |b| == 2 {
      DecodeLastTwo(b);
    } else if |b| == 1 {
      DecodeLastOne(b);
    }
  }

  lemma RoundTrip(b: string)
    requires IsBytes(b)
    ensures Decode(Encode(b)) == Some(b)
  {
    NothingToSkip(Encode(b));
    QuantaRoundTrip(b);
  }
}
