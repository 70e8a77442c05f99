/** Key events and the bytes a terminal program receives for them, src/client/input.rs:436-506. */
module Keys {
  import opened Basics
  import Utf8

  datatype KeyCode =
    | Char(c: char) | F(n: byte) | Enter | Esc | Backspace | HorizontalTab | BackTab | Up | Down | Left | Right
    | Home | End | Delete | Insert | PageUp | PageDown | OtherKey

  datatype Key = Key(code: KeyCode, ctrl: bool, alt: bool, shift: bool, repeated: bool)

  /** A key pressed once, without modifiers. */
  function Bare(code: KeyCode): Key { Key(code, false, false, false, false) }

  const ESC: seq<byte> := [0x1b]

  predicate IsChar(k: Key, c: char) { k.code == Char(c) }

  predicate IsDigit(k: Key) { k.code.Char? && '0' <= k.code.c <= '9' }

  function EncodeCtrlChar(c: char): seq<byte> {
    if 'a' <= c <= 'z' then [c as int - 'a' as int + 1]
    else if 'A' <= c <= 'Z' then [c as int - 'A' as int + 1]
    else if c == ' ' || c == '@' then [0x00]
    else if c == '[' then [0x1b]
    else if c == '\\' then [0x1c]
    else if c == ']' then [0x1d]
    else if c == '^' then [0x1e]
    else if c == '_' then [0x1f]
    else if c == '?' then [0x7f]
    else []
  }

  /** `CSI <number> ~` for a two-digit number. */
  function Tilde(tens: byte, ones: byte): seq<byte>
    requires tens < 10 && ones < 10
  {
    [0x1b, 0x5b, 0x30 + tens, 0x30 + ones, 0x7e]
  }

  function EncodeFunctionKey(n: byte): seq<byte> {
    if 1 <= n <= 4 then [0x1b, 0x4f, 0x4f + n]
    else if n == 5 then Tilde(1, 5)
    else if 6 <= n <= 8 then Tilde(1, n + 1)
    else if 9 <= n <= 10 then Tilde(2, n - 9)
    else if 11 <= n <= 12 then Tilde(2, n - 8)
    else []
  }

  function EncodePlain(k: Key): seq<byte> {
    match k.code
    case Enter => [0x0d]
    case Backspace => [0x7f]
    case HorizontalTab => [0x09]
    case BackTab => [0x1b, 0x5b, 0x5a]
    case Up => [0x1b, 0x5b, 0x41]
    case Down => [0x1b, 0x5b, 0x42]
    case Right => [0x1b, 0x5b, 0x43]
    case Left => [0x1b, 0x5b, 0x44]
    case Home => [0x1b, 0x5b, 0x48]
    case End => [0x1b, 0x5b, 0x46]
    case Delete => [0x1b, 0x5b, 0x33, 0x7e]
    case Insert => [0x1b, 0x5b, 0x32, 0x7e]
    case PageUp => [0x1b, 0x5b, 0x35, 0x7e]
    case PageDown => [0x1b, 0x5b, 0x36, 0x7e]
    case F(n) => EncodeFunctionKey(n)
    case Char(c) => if k.ctrl then EncodeCtrlChar(c) else Utf8.EncodeChar(c)
    case _ => []
  }

  function EncodeContentKey(k: Key): seq<byte> {
    var bytes := EncodePlain(k);
    if k.alt && bytes != [] then ESC + bytes else bytes
  }

  // ---- telling keys apart ----

  /** Some keys other than characters send the single byte of a control character. */
  function AsChar(code: KeyCode): Option<char> {
    match code
    case Char(c) => Some(c)
    case Enter => Some('\r')
    case HorizontalTab => Some('\t')
    case Backspace => Some('\U{7f}')
    case _ => None
  }

  /** The others send an escape sequence. */
  lemma EscapeSequences(k: Key)
    requires AsChar(k.code).None? && EncodePlain(k) != []
    ensures |EncodePlain(k)| >= 3 && EncodePlain(k)[0] == 0x1b
  {
  }

  lemma CharBytes(k: Key)
    requires AsChar(k.code).Some? && !k.ctrl
    ensures EncodePlain(k) == Utf8.EncodeChar(AsChar(k.code).value)
  {
  }

  lemma SequencesArePrefixFree(a: Key, b: Key)
    requires AsChar(a.code).None? && AsChar(b.code).None? && EncodePlain(a) != [] && EncodePlain(a) <= EncodePlain(b)
    ensures a.code == b.code
  {
    var x, y := EncodePlain(a), EncodePlain(b);
    EscapeSequences(a);
    assert x[1] == y[1] && x[2] == y[2];
    assert |x| > 3 ==> x[3] == y[3];
  }

  lemma CharsArePrefixFree(c: char, d: char)
    requires Utf8.EncodeChar(c) <= Utf8.EncodeChar(d)
    ensures c == d
  {
    hide Utf8.EncodeChar;
    var rest := Utf8.EncodeChar(d)[|Utf8.EncodeChar(c)|..];
    assert Utf8.EncodeChar(c) + rest == Utf8.EncodeChar(d) == Utf8.EncodeChar(d) + [];
    Utf8.FirstOfEncoded(c, rest);
    Utf8.FirstOfEncoded(d, []);
  }

  lemma BeginsWithEsc(c: char)
    requires Utf8.EncodeChar(c)[0] == 0x1b
    ensures c == '\U{1b}'
  {
  }

  /** Unmodified keys can be told apart, and where one ends: apart from Esc itself, no encoding is the beginning of
      another's, and equal encodings come from the same key or the same character. */
  lemma KeysArePrefixFree(a: Key, b: Key)
    requires !a.ctrl && !b.ctrl && EncodePlain(a) != [] && EncodePlain(a) <= EncodePlain(b)
    ensures a.code == b.code || a.code == Char('\U{1b}') || (AsChar(a.code).Some? && AsChar(a.code) == AsChar(b.code))
  {
    hide EncodePlain, Utf8.EncodeChar;
    assert EncodePlain(a)[0] == EncodePlain(b)[0];
    if AsChar(a.code).None? && AsChar(b.code).None? {
      SequencesArePrefixFree(a, b);
    } else if AsChar(a.code).None? {
      EscapeSequences(a);
      CharBytes(b);
      BeginsWithEsc(AsChar(b.code).value);
      OneByte();
    } else if AsChar(b.code).None? {
      CharBytes(a);
      EscapeSequences(b);
      BeginsWithEsc(AsChar(a.code).value);
    } else {
      CharBytes(a);
      CharBytes(b);
      CharsArePrefixFree(AsChar(a.code).value, AsChar(b.code).value);
    }
  }

  lemma OneByte()
    ensures |Utf8.EncodeChar('\U{1b}')| == 1
  {
  }

  // ---- what a program reads ----

  /** xterm's name for the key that sends `CSI <letter>`. */
  function Lettered(c: char): Option<KeyCode> {
    match c
    case 'A' => Some(Up)
    case 'B' => Some(Down)
    case 'C' => Some(Right)
    case 'D' => Some(Left)
    case 'F' => Some(End)
    case 'H' => Some(Home)
    case 'Z' => Some(BackTab)
    case _ => None
  }

  /** And for the key that sends `CSI <digits> ~`. */
  function Numbered(digits: string): Option<KeyCode> {
    if digits == "2" then Some(Insert)
    else if digits == "3" then Some(Delete)
    else if digits == "5" then Some(PageUp)
    else if digits == "6" then Some(PageDown)
    else if digits == "15" then Some(F(5))
    else if digits == "17" then Some(F(6))
    else if digits == "18" then Some(F(7))
    else if digits == "19" then Some(F(8))
    else if digits == "20" then Some(F(9))
    else if digits == "21" then Some(F(10))
    else if digits == "23" then Some(F(11))
    else if digits == "24" then Some(F(12))
    else None
  }

  /** `SS3 P` to `SS3 S` are the first four function keys; a lone control character may be a key of its own. */
  function ReadSequence(s: string): Option<KeyCode> {
    if |s| == 1 then if s == "\r" then Some(Enter) else if s == "\t" then Some(HorizontalTab)
                     else if s == "\U{7f}" then Some(Backspace) else None
    else if |s| == 3 && s[..2] == "\U{1b}O" then
      if s[2] == 'P' then Some(F(1)) else if s[2] == 'Q' then Some(F(2)) else if s[2] == 'R' then Some(F(3))
      else if s[2] == 'S' then Some(F(4)) else None
    else if |s| == 3 && s[..2] == "\U{1b}[" then Lettered(s[2])
    else if |s| > 3 && s[..2] == "\U{1b}[" && s[|s| - 1] == '~' then Numbered(s[2..|s| - 1])
    else None
  }

  /** Ctrl keeps the five low bits of a letter, of either case, or of one of `@ [ \ ] ^ _`; a space counts as `@`, and
      `?` sends the deletion character. */
  predicate ControlOf(b: byte, c: char) {
    || ((('@' <= c <= '_') || ('a' <= c <= 'z')) && b < 32 && c as int % 32 == b)
    || (c == ' ' && b == 0)
    || (c == '?' && b == 127)
  }

  /** The bytes are what a program takes for the key; a character comes in UTF-8, and Alt puts an ESC before. */
  predicate Means(bytes: seq<byte>, k: Key) {
    if k.alt then bytes != [] && bytes[0] == 0x1b && MeansPlain(bytes[1..], k) else MeansPlain(bytes, k)
  }

  predicate MeansPlain(bytes: seq<byte>, k: Key) {
    if k.code.Char? && k.ctrl then |bytes| == 1 && ControlOf(bytes[0], k.code.c)
    else if k.code.Char? then Utf8.Decode(bytes) == Some([k.code.c])
    else ReadSequence(Chars(bytes)) == Some(k.code)
  }

  /** The keys that a program cannot be told of. */
  predicate Silent(k: Key) {
    || k.code.OtherKey? || k.code.Esc? || (k.code.F? && !(1 <= k.code.n <= 12))
    || (k.code.Char? && k.ctrl && forall b: byte :: !ControlOf(b, k.code.c))
  }

  lemma CtrlKeyReads(k: Key)
    requires k.code.Char? && k.ctrl
    ensures if Silent(k) then EncodePlain(k) == [] else MeansPlain(EncodePlain(k), k)
  {
    var c := k.code.c;
    if EncodeCtrlChar(c) != [] {
      assert ControlOf(EncodeCtrlChar(c)[0], c);
    } else {
      forall b: byte ensures !ControlOf(b, c) {
      }
    }
  }

  function Chars(bytes: seq<byte>): string { seq(|bytes|, i requires 0 <= i < |bytes| => bytes[i] as char) }

  lemma FunctionKeyReads(n: byte)
    ensures if 1 <= n <= 12 then ReadSequence(Chars(EncodeFunctionKey(n))) == Some(F(n)) else EncodeFunctionKey(n) == []
  {
    var s := Chars(EncodeFunctionKey(n));
    if |s| > 3 {
      assert s[..2] == [s[0], s[1]] && s[2..|s| - 1] == [s[2], s[3]];
    } else if |s| == 3 {
      assert s[..2] == [s[0], s[1]];
    }
  }

  lemma SequenceReads(k: Key)
    requires !k.code.Char?
    ensures if Silent(k) then EncodePlain(k) == [] else MeansPlain(EncodePlain(k), k)
  {
    if k.code.F? {
      FunctionKeyReads(k.code.n);
      hide EncodeFunctionKey, ReadSequence;
    } else {
      var s := Chars(EncodePlain(k));
      if |s| > 3 {
        assert s[..2] == [s[0], s[1]] && s[2..|s| - 1] == [s[2]];
      } else if |s| == 3 {
        assert s[..2] == [s[0], s[1]];
      } else if |s| == 1 {
        assert s == [s[0]];
      }
    }
  }

  /** A program reads every key as itself, unless there is no way to send it. */
  lemma ProgramReadsKey(k: Key)
    ensures if Silent(k) then EncodeContentKey(k) == [] else Means(EncodeContentKey(k), k)
  {
    if !k.code.Char? {
      SequenceReads(k);
    } else if k.ctrl {
      CtrlKeyReads(k);
    } else {
      assert Utf8.Encode([k.code.c]) == Utf8.EncodeChar(k.code.c);
      Utf8.DecodeIsInverse(Utf8.EncodeChar(k.code.c), [k.code.c]);
    }
    assert k.alt && !Silent(k) ==> EncodeContentKey(k)[1..] == EncodePlain(k);
  }
}
