/** Well-formed UTF-8 is what encoding scalar values gives (section 3 of RFC 3629). */
module Utf8 {
  import opened WireCodec

  /** A Unicode scalar value: a code point that is no surrogate. */
  predicate IsScalar(n: nat) {
    n < 0xD800 || 0xE000 <= n <= 0x10_FFFF
  }

  /** The last six bits of a code point, in a continuation byte. */
  function Tail(n: nat): byte {
    128 + n % 64
  }

  function EncodeScalar(n: nat): (b: seq<byte>)
    requires IsScalar(n)
    ensures b != []
  {
    if n < 128 then [n]
    else if n < 2048 then [192 + n / 64, Tail(n)]
    else if n < 65536 then [224 + n / 4096, Tail(n / 64), Tail(n)]
    else [240 + n / 262144, Tail(n / 4096), Tail(n / 64), Tail(n)]
  }

  predicate AreScalars(text: seq<nat>) {
    forall i :: 0 <= i < |text| ==> IsScalar(text[i])
  }

  function EncodeAll(text: seq<nat>): seq<byte>
    requires AreScalars(text)
  {
    if text == [] then [] else EncodeScalar(text[0]) + EncodeAll(text[1..])
  }

  lemma AfterTwo(a: byte, b: byte, rest: seq<byte>)
    requires 194 <= a <= 223 && 128 <= b <= 191
    ensures ValidUtf8([a, b] + rest) == ValidUtf8(rest)
  {
    assert ([a, b] + rest)[2..] == rest;
  }

  lemma AfterThree(a: byte, b: byte, c: byte, rest: seq<byte>)
    requires 224 <= a <= 239 && 128 <= b <= 191 && 128 <= c <= 191 && (a == 224 ==> b >= 160) && (a == 237 ==> b <= 159)
    ensures ValidUtf8([a, b, c] + rest) == ValidUtf8(rest)
  {
    assert ([a, b, c] + rest)[3..] == rest;
  }

  lemma AfterFour(a: byte, b: byte, c: byte, d: byte, rest: seq<byte>)
    requires 240 <= a <= 244 && 128 <= b <= 191 && 128 <= c <= 191 && 128 <= d <= 191
    requires (a == 240 ==> b >= 144) && (a == 244 ==> b <= 143)
    ensures ValidUtf8([a, b, c, d] + rest) == ValidUtf8(rest)
  {
    assert ([a, b, c, d] + rest)[4..] == rest;
  }

  lemma EncodedFirst(n: nat, rest: seq<byte>)
    requires IsScalar(n)
    ensures ValidUtf8(EncodeScalar(n) + rest) == ValidUtf8(rest)
  {
    if n < 128 {
      assert (EncodeScalar(n) + rest)[1..] == rest;
    } else {
      hide ValidUtf8;
      if n < 2048 {
        AfterTwo(192 + n / 64, Tail(n), rest);
      } else if n < 65536 {
        AfterThree(224 + n / 4096, Tail(n / 64), Tail(n), rest);
      } else {
        AfterFour(240 + n / 262144, Tail(n / 4096), Tail(n / 64), Tail(n), rest);
      }
    }
  }

  lemma {:induction false} EncodedIsValid(text: seq<nat>)
    requires AreScalars(text)
    ensures ValidUtf8(EncodeAll(text))
  {
    if text != [] {
      EncodedIsValid(text[1..]);
      EncodedFirst(text[0], EncodeAll(text[1..]));
    }
  }

  /** Digits to the base 64. */
  lemma Digits(x: nat, y: nat, z: nat)
    requires y < 64 && z < 64
    ensures (x * 64 + z) / 64 == x && (x * 64 + z) % 64 == z
    ensures var n := x * 4096 + y * 64 + z; n / 4096 == x && n / 64 % 64 == y && n % 64 == z
  {
    var n := x * 4096 + y * 64 + z;
    assert n / 64 == x * 64 + y;
  }

  lemma FourDigits(w: nat, x: nat, y: nat, z: nat)
    requires x < 64 && y < 64 && z < 64
    ensures var n := w * 262144 + x * 4096 + y * 64 + z;
            n / 262144 == w && n / 4096 % 64 == x && n / 64 % 64 == y && n % 64 == z
  {
    Digits(w * 64 + x, y, z);
    Digits(w, 0, x);
    assert (w * 64 + x) * 4096 == w * 262144 + x * 4096;
  }

  /** The first scalar value of a valid text, and how many bytes it takes. */
  lemma FirstScalar(s: seq<byte>) returns (n: nat, k: nat)
    requires s != [] && ValidUtf8(s)
    ensures IsScalar(n) && 0 < k <= |s| && s[..k] == EncodeScalar(n) && ValidUtf8(s[k..])
  {
    var a: int := s[0];
    if a < 128 {
      n, k := a, 1;
    } else if a < 224 {
      var b: int := s[1];
      n, k := (a - 192) * 64 + (b - 128), 2;
      Digits(a - 192, 0, b - 128);
    } else if a < 240 {
      var b: int, c: int := s[1], s[2];
      n, k := (a - 224) * 4096 + (b - 128) * 64 + (c - 128), 3;
      Digits(a - 224, b - 128, c - 128);
    } else {
      var b: int, c: int, d: int := s[1], s[2], s[3];
      n, k := (a - 240) * 262144 + (b - 128) * 4096 + (c - 128) * 64 + (d - 128), 4;
      FourDigits(a - 240, b - 128, c - 128, d - 128);
    }
  }

  lemma {:induction false} ValidIsEncoded(s: seq<byte>) returns (text: seq<nat>)
    requires ValidUtf8(s)
    ensures AreScalars(text) && EncodeAll(text) == s
    decreases |s|
  {
    if s == [] {
      text := [];
    } else {
      var n, k := FirstScalar(s);
      var rest := ValidIsEncoded(s[k..]);
      text := [n] + rest;
      assert text[1..] == rest && s == s[..k] + s[k..];
    }
  }

  /** A user name is accepted exactly when it is the encoding of a text. */
  lemma ValidUtf8Exactly(s: seq<byte>)
    ensures ValidUtf8(s) <==> exists text :: AreScalars(text) && EncodeAll(text) == s
  {
    if ValidUtf8(s) {
      var text := ValidIsEncoded(s);
    }
    if text :| AreScalars(text) && EncodeAll(text) == s {
      EncodedIsValid(text);
    }
  }
}
