/** OSC 7 working-directory reports: `parse_osc7`, `percent_decode` and `hex_digit` of src/passthrough.rs. */
module Osc7 {
  import opened Basics
  import Utf8

  const PERCENT: byte := 0x25
  const SLASH: byte := 0x2F
  const REPORT: seq<byte> := [0x37, 0x3B]                                       // "7;"
  const FILE_SCHEME: seq<byte> := [0x66, 0x69, 0x6C, 0x65, 0x3A, 0x2F, 0x2F]     // "file://"

  function HexDigit(b: byte): (r: Option<nat>)
    ensures r.Some? ==> r.value < 16
  {
    if 0x30 <= b <= 0x39 then Some(b - 0x30)
    else if 0x61 <= b <= 0x66 then Some(b - 0x61 + 10)
    else if 0x41 <= b <= 0x46 then Some(b - 0x41 + 10)
    else None
  }

  const LOWER := "0123456789abcdef"
  const UPPER := "0123456789ABCDEF"

  /** The byte is the hexadecimal digit, of either case, for a value. */
  predicate DigitFor(b: byte, v: nat) { v < 16 && (b as char == LOWER[v] || b as char == UPPER[v]) }

  lemma DigitsAreSpelled(v: nat)
    requires v < 16
    ensures LOWER[v] as int == (if v < 10 then 0x30 + v else 0x57 + v)
    ensures UPPER[v] as int == (if v < 10 then 0x30 + v else 0x37 + v)
  {
    assert v < 8 || v >= 8;
    assert v % 8 == 0 || v % 8 == 1 || v % 8 == 2 || v % 8 == 3 || v % 8 == 4 || v % 8 == 5 || v % 8 == 6 || v % 8 == 7;
  }

  lemma HexDigitIff(b: byte, v: nat)
    ensures HexDigit(b) == Some(v) <==> DigitFor(b, v)
  {
    if v < 16 { DigitsAreSpelled(v); }
  }

  /** An escape `%hh` starts here; the source looks two bytes ahead before reading the digits. */
  predicate IsEscape(s: seq<byte>) {
    |s| > 2 && s[0] == PERCENT && HexDigit(s[1]).Some? && HexDigit(s[2]).Some?
  }

  function EscapedByte(s: seq<byte>): byte
    requires IsEscape(s)
  {
    HexDigit(s[1]).value * 16 + HexDigit(s[2]).value
  }

  function PercentDecode(s: seq<byte>): string {
    if s == [] then []
    else if IsEscape(s) then [EscapedByte(s) as char] + PercentDecode(s[3..])
    else [s[0] as char] + PercentDecode(s[1..])
  }

  lemma DecodeFrom(s: seq<byte>, i: nat)
    requires i < |s|
    ensures IsEscape(s[i..]) ==>
              PercentDecode(s[i..]) == [(HexDigit(s[i + 1]).value * 16 + HexDigit(s[i + 2]).value) as char]
                                       + PercentDecode(s[i + 3..])
    ensures !IsEscape(s[i..]) ==> PercentDecode(s[i..]) == [s[i] as char] + PercentDecode(s[i + 1..])
  {
    if IsEscape(s[i..]) {
      assert s[i..][3..] == s[i + 3..];
    } else {
      assert s[i..][1..] == s[i + 1..];
    }
  }

  method PercentDecodeLoop(bytes: seq<byte>) returns (out: string)
    ensures out == PercentDecode(bytes)
  {
    hide PercentDecode, HexDigit;
    out := "";
    var i := 0;
    assert bytes[0..] == bytes;
    while i < |bytes|
      invariant i <= |bytes|
      invariant out + PercentDecode(bytes[i..]) == PercentDecode(bytes)
    {
      DecodeFrom(bytes, i);
      if bytes[i] == PERCENT && i + 2 < |bytes| {
        var h, l := HexDigit(bytes[i + 1]), HexDigit(bytes[i + 2]);
        if h.Some? && l.Some? {
          out := out + [(h.value * 16 + l.value) as char];
          i := i + 3;
          continue;
        }
      }
      out := out + [bytes[i] as char];
      i := i + 1;
    }
    DecodeNothing();
    assert bytes[i..] == [];
  }

  lemma DecodeNothing()
    ensures PercentDecode([]) == []
  {
  }

  /** `s` is one of the percent-encodings of `text`: each byte is either written as an escape, with digits
      of either case, or written as itself; a literal percent sign is always escaped. */
  ghost predicate Escapes(text: seq<byte>, s: seq<byte>) {
    if s == [] then text == []
    else if s[0] as char == '%' then
      && |s| > 2 && text != [] && DigitFor(s[1], text[0] / 16) && DigitFor(s[2], text[0] % 16)
      && Escapes(text[1..], s[3..])
    else
      text != [] && text[0] == s[0] && Escapes(text[1..], s[1..])
  }

  function Latin1(text: seq<byte>): string {
    seq(|text|, i requires 0 <= i < |text| => text[i] as char)
  }

  lemma {:induction false} DecodesEveryEncoding(text: seq<byte>, s: seq<byte>)
    requires Escapes(text, s)
    ensures PercentDecode(s) == Latin1(text)
    decreases |s|
  {
    if s != [] {
      assert Latin1(text) == [text[0] as char] + Latin1(text[1..]);
      if s[0] == PERCENT {
        HexDigitIff(s[1], text[0] / 16);
        HexDigitIff(s[2], text[0] % 16);
      }
      DecodesEveryEncoding(text[1..], if s[0] == PERCENT then s[3..] else s[1..]);
    }
  }

  /** A percent sign without two digits after it stays a percent sign. */
  lemma StrayPercentStays(s: seq<byte>)
    requires s != [] && s[0] as char == '%'
    requires forall u, v :: !(|s| > 2 && DigitFor(s[1], u) && DigitFor(s[2], v))
    ensures PercentDecode(s) == "%" + PercentDecode(s[1..])
  {
    if IsEscape(s) {
      HexDigitIff(s[1], HexDigit(s[1]).value);
      HexDigitIff(s[2], HexDigit(s[2]).value);
    }
  }

  ghost predicate IsAscii(cs: string) { forall i :: 0 <= i < |cs| ==> cs[i] < 0x80 as char }

  lemma {:induction false} EncodedLength(cs: string)
    ensures |Utf8.Encode(cs)| >= |cs|
    ensures !IsAscii(cs) ==> |Utf8.Encode(cs)| > |cs|
  {
    if cs != [] {
      EncodedLength(cs[1..]);
      assert cs == [cs[0]] + cs[1..];
    }
  }

  /** A path that a shell percent-encodes from its UTF-8 bytes comes back unchanged exactly when it is ASCII:
      each decoded or copied byte becomes a character of its own, so multi-byte characters are not left intact. */
  lemma PathIntactIffAscii(path: string, s: seq<byte>)
    requires Escapes(Utf8.Encode(path), s)
    ensures PercentDecode(s) == path <==> IsAscii(path)
  {
    DecodesEveryEncoding(Utf8.Encode(path), s);
    EncodedLength(path);
    if IsAscii(path) {
      Utf8.AsciiEncode(path);
    }
  }

  function FindSlash(s: seq<byte>): (r: Option<nat>)
    ensures r.Some? ==> r.value < |s| && s[r.value] == SLASH && SLASH !in s[..r.value]
    ensures r.None? ==> SLASH !in s
  {
    if s == [] then None
    else if s[0] == SLASH then Some(0)
    else
      var tail := FindSlash(s[1..]);
      assert s == [s[0]] + s[1..];
      match tail
      case None => None
      case Some(i) => assert s[..i + 1] == [s[0]] + s[1..][..i]; Some(i + 1)
  }

  function ParseOsc7(body: seq<byte>): Option<string> {
    if Utf8.Decode(body).None? || !(REPORT <= body) then None
    else
      var rest := body[|REPORT|..];
      if FILE_SCHEME <= rest then
        var uri := rest[|FILE_SCHEME|..];
        match FindSlash(uri)
        case None => None
        case Some(slash) => Some(PercentDecode(uri[slash..]))
      else if rest != [] && rest[0] == SLASH then Some(PercentDecode(rest))
      else None
  }

  /** `body` reads `7;file://host/path` for a host without slashes, or `7;/path`. */
  ghost predicate ReportsPath(body: seq<byte>, host: seq<byte>, path: seq<byte>) {
    && path != [] && path[0] == SLASH
    && ((SLASH !in host && body == REPORT + FILE_SCHEME + host + path) || (host == [] && body == REPORT + path))
  }

  /** `ParseOsc7` accepts exactly the UTF-8 bodies of the two documented shapes, and its answer is the decoded
      path of the only way to read the body as one of them. */
  lemma ParseOsc7Exact(body: seq<byte>, p: string)
    ensures ParseOsc7(body) == Some(p) <==>
            Utf8.Decode(body).Some? && exists host, path :: ReportsPath(body, host, path) && p == PercentDecode(path)
  {
    if ParseOsc7(body) == Some(p) {
      var rest := body[|REPORT|..];
      if FILE_SCHEME <= rest {
        var uri := rest[|FILE_SCHEME|..];
        var slash := FindSlash(uri).value;
        assert body == REPORT + FILE_SCHEME + uri[..slash] + uri[slash..];
        assert ReportsPath(body, uri[..slash], uri[slash..]);
      } else {
        assert body == REPORT + rest;
        assert ReportsPath(body, [], rest);
      }
    }
    if Utf8.Decode(body).Some? {
      forall host, path | ReportsPath(body, host, path) && p == PercentDecode(path)
        ensures ParseOsc7(body) == Some(p)
      {
        ReadsReport(body, host, path);
      }
    }
  }

  lemma ReadsReport(body: seq<byte>, host: seq<byte>, path: seq<byte>)
    requires ReportsPath(body, host, path) && Utf8.Decode(body).Some?
    ensures ParseOsc7(body) == Some(PercentDecode(path))
  {
    var rest := body[|REPORT|..];
    if SLASH !in host && body == REPORT + FILE_SCHEME + host + path {
      assert rest == FILE_SCHEME + (host + path);
      var uri := rest[|FILE_SCHEME|..];
      assert uri == host + path && uri[|host|] == SLASH;
      var slash := FindSlash(uri).value;
      assert uri[slash..] == path;
    } else {
      assert rest == path;
    }
  }
}
