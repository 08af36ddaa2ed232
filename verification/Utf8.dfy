/** UTF-8 as the request canonicalization uses it: strict encoding, decoding with replacement of maximal ill-formed parts. */
module Utf8 {

  const REPLACEMENT: char := '\U{FFFD}'

  /** Bytes are integers from 0 to 255. */
  function EncodeChar(c: char): (bytes: seq<int>)
    ensures 1 <= |bytes| <= 4
    ensures forall i :: 0 <= i < |bytes| ==> 0 <= bytes[i] < 256
  {
    var n := c as int;
    if n < 0x80 then [n]
    else if n < 0x800 then [0xC0 + n / 64, 0x80 + n % 64]
    else if n < 0x1_0000 then [0xE0 + n / 4096, 0x80 + n / 64 % 64, 0x80 + n % 64]
    else [0xF0 + n / 262144, 0x80 + n / 4096 % 64, 0x80 + n / 64 % 64, 0x80 + n % 64]
  }

  function Encode(s: string): seq<int> {
    if s == [] then [] else EncodeChar(s[0]) + Encode(s[1..])
  }

  predicate Continuation(b: int) {
    0x80 <= b <= 0xBF
  }

  predicate SecondOfThree(lead: int, b: int) {
    if lead == 0xE0 then 0xA0 <= b <= 0xBF else if lead == 0xED then 0x80 <= b <= 0x9F else Continuation(b)
  }

  predicate SecondOfFour(lead: int, b: int) {
    if lead == 0xF0 then 0x90 <= b <= 0xBF else if lead == 0xF4 then 0x80 <= b <= 0x8F else Continuation(b)
  }

  datatype Decoded = Decoded(c: char, used: nat)

  function DecodeOne(b: seq<int>): (d: Decoded)
    requires b != []
    ensures 1 <= d.used <= |b|
  {
    if 0 <= b[0] < 0x80 then Decoded(b[0] as char, 1)
    else if 0xC2 <= b[0] < 0xE0 then
      if |b| < 2 || !Continuation(b[1]) then Decoded(REPLACEMENT, 1)
      else Decoded(((b[0] - 0xC0) * 64 + b[1] - 0x80) as char, 2)
    else if 0xE0 <= b[0] < 0xF0 then
      if |b| < 2 || !SecondOfThree(b[0], b[1]) then Decoded(REPLACEMENT, 1)
      else if |b| < 3 || !Continuation(b[2]) then Decoded(REPLACEMENT, 2)
      else Decoded(((b[0] - 0xE0) * 4096 + (b[1] - 0x80) * 64 + b[2] - 0x80) as char, 3)
    else if 0xF0 <= b[0] < 0xF5 then
      if |b| < 2 || !SecondOfFour(b[0], b[1]) then Decoded(REPLACEMENT, 1)
      else if |b| < 3 || !Continuation(b[2]) then Decoded(REPLACEMENT, 2)
      else if |b| < 4 || !Continuation(b[3]) then Decoded(REPLACEMENT, 3)
      else Decoded(((b[0] - 0xF0) * 262144 + (b[1] - 0x80) * 4096 + (b[2] - 0x80) * 64 + b[3] - 0x80) as char, 4)
    else Decoded(REPLACEMENT, 1)
  }

  function Decode(b: seq<int>): string
    decreases |b|
  {
    if b == [] then [] else [DecodeOne(b).c] + Decode(b[DecodeOne(b).used..])
  }

  lemma {:induction false} ThreeBytes(c: char, rest: seq<int>)
    requires 0x800 <= c as int < 0x1_0000
    ensures DecodeOne(EncodeChar(c) + rest) == Decoded(c, 3)
  {
    var n, b := c as int, EncodeChar(c) + rest;
    SplitThree(n);
    assert b[0] == 0xE0 + n / 4096 && b[1] == 0x80 + n / 64 % 64 && b[2] == 0x80 + n % 64;
  }

  lemma {:induction false} FourBytes(c: char, rest: seq<int>)
    requires 0x1_0000 <= c as int
    ensures DecodeOne(EncodeChar(c) + rest) == Decoded(c, 4)
  {
    var n, b := c as int, EncodeChar(c) + rest;
    SplitFour(n);
    assert b[0] == 0xF0 + n / 262144 && b[1] == 0x80 + n / 4096 % 64 && b[2] == 0x80 + n / 64 % 64 && b[3] == 0x80 + n % 64;
  }

  lemma {:induction false} CharRoundTrip(c: char, rest: seq<int>)
    ensures DecodeOne(EncodeChar(c) + rest) == Decoded(c, |EncodeChar(c)|)
  {
    if c as int >= 0x1_0000 {
      FourBytes(c, rest);
    } else if c as int >= 0x800 {
      ThreeBytes(c, rest);
    }
  }

  lemma {:induction false} SplitThree(n: int)
    ensures n == n / 4096 * 4096 + n / 64 % 64 * 64 + n % 64
  {
    assert n / 64 / 64 == n / 4096;
  }

  lemma {:induction false} SplitFour(n: int)
    ensures n == n / 262144 * 262144 + n / 4096 % 64 * 4096 + n / 64 % 64 * 64 + n % 64
  {
    SplitThree(n);
    assert n / 4096 / 64 == n / 262144;
  }

  /** Decoding undoes encoding for every text. */
  lemma {:induction false} RoundTrip(s: string)
    ensures Decode(Encode(s)) == s
  {
    if s != [] {
      var rest := Encode(s[1..]);
      CharRoundTrip(s[0], rest);
      RoundTrip(s[1..]);
      assert (EncodeChar(s[0]) + rest)[|EncodeChar(s[0])|..] == rest;
      assert s == [s[0]] + s[1..];
    }
  }

  lemma {:induction false} EncodesBytes(s: string)
    ensures forall i :: 0 <= i < |Encode(s)| ==> 0 <= Encode(s)[i] < 256
  {
    if s != [] {
      EncodesBytes(s[1..]);
    }
  }
}
