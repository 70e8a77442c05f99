/** UTF-8 (section 3 of RFC 3629): the encoding that Rust's `String` stores, and the validator behind
    `str::from_utf8` and `str::chars`.  Dafny's `char` ranges over the Unicode scalar values, as Rust's does. */
module Utf8 {
  import opened Basics

  function EncodeChar(c: char): (r: seq<byte>)
    ensures 1 <= |r| <= 4
  {
    var n := c as int;
    var six, twelve, eighteen := n / 64, n / 64 / 64, n / 64 / 64 / 64;
    if n < 0x80 then [n]
    else if n < 0x800 then [0xC0 + six, 0x80 + n % 64]
    else if n < 0x10000 then [0xE0 + twelve, 0x80 + six % 64, 0x80 + n % 64]
    else [0xF0 + eighteen, 0x80 + twelve % 64, 0x80 + six % 64, 0x80 + n % 64]
  }

  function Encode(cs: seq<char>): seq<byte> {
    if cs == [] then [] else EncodeChar(cs[0]) + Encode(cs[1..])
  }

  predicate IsContinuation(b: byte) { 0x80 <= b < 0xC0 }

  /** The byte ranges of section 4 of RFC 3629: which second bytes may follow a three- or four-byte lead. */
  predicate SecondOk(b0: byte, b1: byte) {
    && IsContinuation(b1)
    && (b0 == 0xE0 ==> 0xA0 <= b1)
    && (b0 == 0xED ==> b1 < 0xA0)
    && (b0 == 0xF0 ==> 0x90 <= b1)
    && (b0 == 0xF4 ==> b1 < 0x90)
  }

  /** Number of bytes of the well-formed sequence that `s` starts with, 0 if it starts with none. */
  function FirstLength(s: seq<byte>): (k: nat)
    ensures k <= |s| && k <= 4
  {
    if s == [] then 0
    else if s[0] < 0x80 then 1
    else if 0xC2 <= s[0] < 0xE0 then
      if |s| >= 2 && IsContinuation(s[1]) then 2 else 0
    else if 0xE0 <= s[0] < 0xF0 then
      if |s| >= 3 && SecondOk(s[0], s[1]) && IsContinuation(s[2]) then 3 else 0
    else if 0xF0 <= s[0] < 0xF5 then
      if |s| >= 4 && SecondOk(s[0], s[1]) && IsContinuation(s[2]) && IsContinuation(s[3]) then 4 else 0
    else 0
  }

  /** The scalar value that four bytes of a sequence of length `k` spell. */
  function Scalar(k: nat, b0: int, b1: int, b2: int, b3: int): int {
    if k == 1 then b0
    else if k == 2 then (b0 - 0xC0) * 64 + (b1 - 0x80)
    else if k == 3 then (b0 - 0xE0) * 4096 + (b1 - 0x80) * 64 + (b2 - 0x80)
    else (b0 - 0xF0) * 262144 + (b1 - 0x80) * 4096 + (b2 - 0x80) * 64 + (b3 - 0x80)
  }

  function FirstScalar(s: seq<byte>): int
    requires FirstLength(s) > 0
  {
    var k := FirstLength(s);
    Scalar(k, s[0], if k > 1 then s[1] else 0, if k > 2 then s[2] else 0, if k > 3 then s[3] else 0)
  }

  function FirstChar(s: seq<byte>): char
    requires FirstLength(s) > 0
  {
    FirstScalar(s) as char
  }

  /** `str::from_utf8`: the characters of a well-formed byte string, `None` for any other. */
  function Decode(s: seq<byte>): Option<seq<char>> {
    if s == [] then Some([])
    else
      var k := FirstLength(s);
      if k == 0 then None
      else match Decode(s[k..])
        case None => None
        case Some(cs) => Some([FirstChar(s)] + cs)
  }

  lemma FirstOfEncoded(c: char, rest: seq<byte>)
    ensures FirstLength(EncodeChar(c) + rest) == |EncodeChar(c)|
    ensures FirstChar(EncodeChar(c) + rest) == c
  {
    var n := c as int;
    var e := EncodeChar(c);
    var s := e + rest;
    assert forall i :: 0 <= i < |e| ==> s[i] == e[i];
    assert n == n / 64 * 64 + n % 64;
    assert FirstLength(s) == |e|;
    assert FirstScalar(s) == n;
  }

  lemma JoinSix(high: nat, low: nat)
    requires low < 64
    ensures (high * 64 + low) / 64 == high && (high * 64 + low) % 64 == low
  {
  }

  lemma ScalarDigits(k: nat, b0: int, b1: int, b2: int, b3: int)
    requires 2 <= k <= 4 && (if k == 2 then 0xC0 else if k == 3 then 0xE0 else 0xF0) <= b0
    requires 0x80 <= b1 < 0xC0 && (k > 2 ==> 0x80 <= b2 < 0xC0) && (k > 3 ==> 0x80 <= b3 < 0xC0)
    ensures var n := Scalar(k, b0, b1, b2, b3);
            if k == 2 then n / 64 == b0 - 0xC0 && n % 64 == b1 - 0x80
            else if k == 3 then n / 64 / 64 == b0 - 0xE0 && n / 64 % 64 == b1 - 0x80 && n % 64 == b2 - 0x80
            else n / 64 / 64 / 64 == b0 - 0xF0 && n / 64 / 64 % 64 == b1 - 0x80
                 && n / 64 % 64 == b2 - 0x80 && n % 64 == b3 - 0x80
  {
    if k == 2 {
      JoinSix(b0 - 0xC0, b1 - 0x80);
    } else if k == 3 {
      JoinSix(b0 - 0xE0, b1 - 0x80);
      JoinSix((b0 - 0xE0) * 64 + (b1 - 0x80), b2 - 0x80);
    } else {
      var top := (b0 - 0xF0) * 64 + (b1 - 0x80);
      JoinSix(b0 - 0xF0, b1 - 0x80);
      JoinSix(top, b2 - 0x80);
      JoinSix(top * 64 + (b2 - 0x80), b3 - 0x80);
    }
  }

  lemma FirstIsEncoded(s: seq<byte>)
    requires FirstLength(s) > 0
    ensures s[..FirstLength(s)] == EncodeChar(FirstChar(s))
  {
    var k := FirstLength(s);
    if k > 1 {
      ScalarDigits(k, s[0], s[1], if k > 2 then s[2] else 0, if k > 3 then s[3] else 0);
    }
  }

  lemma {:induction false} DecodeEncode(cs: seq<char>)
    ensures Decode(Encode(cs)) == Some(cs)
  {
    if cs == [] {
    } else {
      var s := Encode(cs);
      FirstOfEncoded(cs[0], Encode(cs[1..]));
      DecodeEncode(cs[1..]);
      assert s[|EncodeChar(cs[0])|..] == Encode(cs[1..]);
      assert cs == [cs[0]] + cs[1..];
    }
  }

  lemma {:induction false} EncodeDecode(s: seq<byte>)
    requires Decode(s).Some?
    ensures Encode(Decode(s).value) == s
  {
    hide FirstLength, FirstChar, EncodeChar;
    if s == [] {
    } else {
      var k := FirstLength(s);
      FirstIsEncoded(s);
      EncodeDecode(s[k..]);
      assert Decode(s).value[1..] == Decode(s[k..]).value;
    }
  }

  /** The validator accepts exactly the encodings, and its answer is the only text with that encoding. */
  lemma DecodeIsInverse(s: seq<byte>, cs: seq<char>)
    ensures Decode(s) == Some(cs) <==> Encode(cs) == s
  {
    if Decode(s) == Some(cs) { EncodeDecode(s); }
    if Encode(cs) == s { DecodeEncode(cs); }
  }

  lemma {:induction false} EncodeAppend(a: seq<char>, b: seq<char>)
    ensures Encode(a + b) == Encode(a) + Encode(b)
  {
    if a == [] {
      assert a + b == b;
    } else {
      assert (a + b)[1..] == a[1..] + b;
      EncodeAppend(a[1..], b);
    }
  }

  /** `str::is_char_boundary`. */
  predicate IsBoundary(s: seq<byte>, i: nat) {
    i == 0 || i == |s| || (i < |s| && !IsContinuation(s[i]))
  }

  lemma EncodedPrefixIsBoundary(a: seq<char>, b: seq<char>)
    ensures IsBoundary(Encode(a + b), |Encode(a)|)
    ensures Encode(a + b)[..|Encode(a)|] == Encode(a) && Encode(a + b)[|Encode(a)|..] == Encode(b)
  {
    EncodeAppend(a, b);
    if b != [] {
      assert Encode(b)[0] == EncodeChar(b[0])[0];
    }
  }

  /** What the decoder sees first in an encoding. */
  lemma EncodedHead(cs: seq<char>)
    ensures cs == [] ==> FirstLength(Encode(cs)) == 0
    ensures cs != [] ==> var w := FirstLength(Encode(cs));
                         w > 0 && Encode(cs)[..w] == EncodeChar(cs[0]) && Encode(cs)[w..] == Encode(cs[1..])
  {
    if cs != [] {
      FirstOfEncoded(cs[0], Encode(cs[1..]));
    }
  }

  lemma {:induction false} AsciiEncode(cs: seq<char>)
    requires forall i :: 0 <= i < |cs| ==> cs[i] < 0x80 as char
    ensures |Encode(cs)| == |cs| && forall i :: 0 <= i < |cs| ==> Encode(cs)[i] == cs[i] as int
  {
    if cs != [] {
      AsciiEncode(cs[1..]);
    }
  }

  /** The table of section 3 of RFC 3629: the lead byte tells the length, and the bits of the scalar value follow each
      other, six in each byte after the lead. */
  lemma EncodesByTable(c: char)
    ensures var n, b := c as int, EncodeChar(c);
            if n <= 0x7f then b == [n]
            else if n <= 0x7ff then
              |b| == 2 && 0xc0 <= b[0] <= 0xdf && 0x80 <= b[1] <= 0xbf && n == (b[0] as int - 0xc0) * 0x40 + (b[1] as int - 0x80)
            else if n <= 0xffff then
              && |b| == 3 && 0xe0 <= b[0] <= 0xef && 0x80 <= b[1] <= 0xbf && 0x80 <= b[2] <= 0xbf
              && n == (b[0] as int - 0xe0) * 0x1000 + (b[1] as int - 0x80) * 0x40 + (b[2] as int - 0x80)
            else
              && |b| == 4 && 0xf0 <= b[0] <= 0xf7 && 0x80 <= b[1] <= 0xbf && 0x80 <= b[2] <= 0xbf && 0x80 <= b[3] <= 0xbf
              && n == (b[0] as int - 0xf0) * 0x4_0000 + (b[1] as int - 0x80) * 0x1000 + (b[2] as int - 0x80) * 0x40 + (b[3] as int - 0x80)
  {
    var n := c as int;
    var six, twelve := n / 64, n / 64 / 64;
    assert n == 64 * six + n % 64 && six == 64 * twelve + six % 64 && twelve == 64 * (twelve / 64) + twelve % 64;
  }
}
