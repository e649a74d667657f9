/** DecodeUserData: instance user data that may be plain text or base64 in several dialects. */
module UserData {
  import opened Wrappers
  import opened GoStrings

  type Byte = b: nat | b < 256
  type Sextet = v: nat | v < 64

  // ---------------------------------------------------------------- base64, sections 4 and 5 of RFC 4648

  datatype Alphabet = Std | Url

  function Digit(al: Alphabet, v: Sextet): char {
    if v < 26 then 'A' + v as char
    else if v < 52 then 'a' + (v - 26) as char
    else if v < 62 then '0' + (v - 52) as char
    else if v == 62 then (if al.Std? then '+' else '-')
    else (if al.Std? then '/' else '_')
  }

  function Value(al: Alphabet, c: char): Option<Sextet> {
    if 'A' <= c <= 'Z' then Some((c - 'A') as int)
    else if 'a' <= c <= 'z' then Some((c - 'a') as int + 26)
    else if '0' <= c <= '9' then Some((c - '0') as int + 52)
    else if c == (if al.Std? then '+' else '-') then Some(62)
    else if c == (if al.Std? then '/' else '_') then Some(63)
    else None
  }

  /** The six-bit groups of one, two or three bytes. */
  function Sextets(b: seq<Byte>): (v: seq<Sextet>)
    requires 1 <= |b| <= 3
    ensures |v| == |b| + 1
  {
    if |b| == 1 then [b[0] / 4, b[0] % 4 * 16]
    else if |b| == 2 then [b[0] / 4, b[0] % 4 * 16 + b[1] / 16, b[1] % 16 * 4]
    else [b[0] / 4, b[0] % 4 * 16 + b[1] / 16, b[1] % 16 * 4 + b[2] / 64, b[2] % 64]
  }

  function Digits(al: Alphabet, v: seq<Sextet>): (s: string)
    ensures |s| == |v| && forall i | 0 <= i < |v| :: s[i] == Digit(al, v[i])
  {
    seq(|v|, i requires 0 <= i < |v| => Digit(al, v[i]))
  }

  function Padding(padded: bool, n: nat): string {
    if !padded || n == 3 then "" else if n == 1 then "==" else "="
  }

  function Encode(al: Alphabet, padded: bool, b: seq<Byte>): string {
    if b == [] then ""
    else if |b| < 3 then Digits(al, Sextets(b)) + Padding(padded, |b|)
    else Digits(al, Sextets(b[..3])) + Encode(al, padded, b[3..])
  }

  /** The bytes of a quantum of two, three or four digits; spare bits are ignored. */
  function Quantum(v: seq<Sextet>): seq<Byte>
    requires 2 <= |v| <= 4
  {
    First(v[0], v[1]) + (if |v| > 2 then Second(v[1], v[2]) else []) + (if |v| > 3 then Third(v[2], v[3]) else [])
  }

  function First(a: int, b: int): seq<Byte>
    requires 0 <= a < 64 && 0 <= b < 64
  {
    [a * 4 + b / 16]
  }

  function Second(a: int, b: int): seq<Byte>
    requires 0 <= a < 64 && 0 <= b < 64
  {
    [a % 16 * 16 + b / 4]
  }

  function Third(a: int, b: int): seq<Byte>
    requires 0 <= a < 64 && 0 <= b < 64
  {
    [a % 4 * 64 + b]
  }

  function Values(al: Alphabet, s: string): (r: Option<seq<Sextet>>)
    ensures r.Some? ==> |r.value| == |s|
  {
    if s == [] then Some([])
    else
      var v := Value(al, s[0]);
      var rest := Values(al, s[1..]);
      if v.Some? && rest.Some? then Some([v.value] + rest.value) else None
  }

  function QuantumOf(al: Alphabet, s: string): Option<seq<Byte>>
    requires 2 <= |s| <= 4
  {
    var v := Values(al, s);
    if v.Some? then Some(Quantum(v.value)) else None
  }

  /** The decoder of Go's encoding/base64 on text without line breaks: the last quantum is padded or, in the raw
      dialects, short. */
  function DecodeLine(al: Alphabet, padded: bool, s: string): Option<seq<Byte>>
    decreases |s|
  {
    if s == [] then Some([])
    else if |s| < 4 then
      if padded || |s| == 1 then None else QuantumOf(al, s)
    else if padded && |s| == 4 && s[3] == '=' then
      QuantumOf(al, if s[2] == '=' then s[..2] else s[..3])
    else
      var q := QuantumOf(al, s[..4]);
      var rest := DecodeLine(al, padded, s[4..]);
      if q.Some? && rest.Some? then Some(q.value + rest.value) else None
  }

  function WithoutBreaks(s: string): string {
    if s == [] then [] else (if s[0] == '\r' || s[0] == '\n' then [] else [s[0]]) + WithoutBreaks(s[1..])
  }

  /** DecodeString of StdEncoding, URLEncoding (padded) and RawStdEncoding (not padded). */
  function DecodeString(al: Alphabet, padded: bool, s: string): Option<seq<Byte>> {
    DecodeLine(al, padded, WithoutBreaks(s))
  }

  // ---------------------------------------------------------------- the decoder of user data

  predicate ContainsAny(s: string, a: char, b: char) {
    a in s || b in s
  }

  function TrimBlanks(s: string): string {
    if s != [] && (s[0] == ' ' || s[0] == '\t') then TrimBlanks(s[1..]) else s
  }

  /** utf8 is the conversion of bytes to text, None for bytes that are not valid UTF-8. */
  function TryBase64UserData(raw: string, utf8: seq<Byte> -> Option<string>): Option<string> {
    if HasPrefix(TrimBlanks(raw), "#!") then None
    else
      var b := DecodeCandidate(TrimSpace(raw));
      if b.None? || b.value == [] then None else utf8(b.value)
  }

  function DecodeCandidate(candidate: string): Option<seq<Byte>> {
    var al := if ContainsAny(candidate, '-', '_') && !ContainsAny(candidate, '+', '/') then Url else Std;
    var first := DecodeString(al, true, candidate);
    if first.Some? then first else DecodeString(Std, false, candidate)
  }

  function DecodeUserData(raw: string, utf8: seq<Byte> -> Option<string>): string {
    if TrimSpace(raw) == "" then ""
    else
      var decoded := TryBase64UserData(raw, utf8);
      if decoded.Some? then decoded.value else raw
  }

  // ---------------------------------------------------------------- encodings as text

  /** A digit of the alphabet, or padding. */
  predicate IsCode(al: Alphabet, c: char) {
    Value(al, c).Some? || c == '='
  }

  lemma DigitValue(al: Alphabet, v: Sextet)
    ensures Value(al, Digit(al, v)) == Some(v)
    ensures v < 62 ==> Digit(Url, v) == Digit(Std, v)
    ensures v >= 62 ==> Digit(Url, v) == '-' || Digit(Url, v) == '_'
  {
  }

  lemma {:induction false} EncodeIsCode(al: Alphabet, padded: bool, b: seq<Byte>)
    ensures forall c | c in Encode(al, padded, b) :: IsCode(al, c)
    ensures b != [] ==> Encode(al, padded, b) != []
  {
    if b != [] {
      var v := Sextets(if |b| < 3 then b else b[..3]);
      forall i | 0 <= i < |v| ensures IsCode(al, Digits(al, v)[i]) {
        DigitValue(al, v[i]);
      }
    }
    if |b| >= 3 {
      EncodeIsCode(al, padded, b[3..]);
    }
  }

  lemma CodeIsPlain(al: Alphabet, c: char)
    requires IsCode(al, c)
    ensures !IsSpace(c) && c != '#'
    ensures al.Std? ==> c != '-' && c != '_'
    ensures al.Url? ==> c != '+' && c != '/'
  {
  }

  lemma {:induction false} PlainHasNoBreaks(s: string)
    requires forall c | c in s :: !IsSpace(c)
    ensures WithoutBreaks(s) == s
  {
    if s != [] {
      PlainHasNoBreaks(s[1..]);
      assert s[0] in s && s == [s[0]] + s[1..];
    }
  }

  lemma CodesArePlain(al: Alphabet, code: string)
    requires forall c | c in code :: IsCode(al, c)
    ensures forall c | c in code :: !IsSpace(c) && c != '#'
    ensures al.Std? ==> !ContainsAny(code, '-', '_')
    ensures al.Url? ==> !ContainsAny(code, '+', '/')
  {
    forall c | c in code
      ensures !IsSpace(c) && c != '#' && (al.Std? ==> c != '-' && c != '_') && (al.Url? ==> c != '+' && c != '/')
    {
      CodeIsPlain(al, c);
    }
  }

  ghost predicate Plain(code: string) {
    code != [] && forall c | c in code :: !IsSpace(c) && c != '#'
  }

  lemma PlainTrimmed(code: string)
    requires Plain(code)
    ensures Trimmed(code)
  {
    assert code[0] in code && code[|code| - 1] in code;
  }

  /** User data that surrounds an encoding with white space: what the decoder extracts from it. */
  lemma CandidateOf(ws: string, code: string, ws': string)
    requires AllSpace(ws) && AllSpace(ws') && Plain(code)
    ensures TrimSpace(ws + code + ws') == code && WithoutBreaks(code) == code
  {
    PlainTrimmed(code);
    TrimSpaceOf(ws, code, ws');
    PlainHasNoBreaks(code);
  }

  /** Decoding an encoding, told without its white space. */
  lemma DecodeCode(ws: string, al: Alphabet, code: string, ws': string, utf8: seq<Byte> -> Option<string>)
    requires AllSpace(ws) && AllSpace(ws') && code != [] && forall c | c in code :: IsCode(al, c)
    ensures var first := DecodeLine(if ContainsAny(code, '-', '_') then Url else Std, true, code);
            var b := if first.Some? then first else DecodeLine(Std, false, code);
            TryBase64UserData(ws + code + ws', utf8) == if b.None? || b.value == [] then None else utf8(b.value)
    ensures TrimSpace(ws + code + ws') != ""
  {
    CodesArePlain(al, code);
    CandidateOf(ws, code, ws');
    CandidateNoShebang(ws, code, ws');
    CandidateAlphabet(al, code);
  }

  lemma CandidateAlphabet(al: Alphabet, code: string)
    requires WithoutBreaks(code) == code
    requires al.Std? ==> !ContainsAny(code, '-', '_')
    requires al.Url? ==> !ContainsAny(code, '+', '/')
    ensures var first := DecodeLine(if ContainsAny(code, '-', '_') then Url else Std, true, code);
            DecodeCandidate(code) == if first.Some? then first else DecodeLine(Std, false, code)
  {
  }

  lemma CandidateNoShebang(ws: string, code: string, ws': string)
    requires AllSpace(ws) && Plain(code)
    ensures !HasPrefix(TrimBlanks(ws + code + ws'), "#!")
  {
    assert (code + ws')[0] == code[0] && code[0] in code;
    NoShebang(ws, code + ws');
    assert ws + (code + ws') == ws + code + ws';
  }

  lemma {:induction false} NoShebang(ws: string, s: string)
    requires AllSpace(ws) && s != [] && s[0] != '#' && !IsSpace(s[0])
    ensures !HasPrefix(TrimBlanks(ws + s), "#!")
  {
    if ws == [] {
      assert ws + s == s;
    } else {
      assert (ws + s)[0] == ws[0] && ws[0] in ws;
      assert (ws + s)[1..] == ws[1..] + s;
      NoShebang(ws[1..], s);
    }
  }

  // ---------------------------------------------------------------- decoding undoes encoding

  lemma FirstByte(a: Byte, b: Byte)
    ensures First(a / 4, a % 4 * 16 + b / 16) == [a]
  {
  }

  lemma SecondByte(a: Byte, b: Byte, c: Byte)
    ensures Second(a % 4 * 16 + b / 16, b % 16 * 4 + c / 64) == [b]
  {
    assert (a % 4 * 16 + b / 16) % 16 == b / 16;
    assert (b % 16 * 4 + c / 64) / 4 == b % 16;
  }

  lemma ThirdByte(b: Byte, c: Byte)
    ensures Third(b % 16 * 4 + c / 64, c % 64) == [c]
  {
    assert (b % 16 * 4 + c / 64) % 4 == c / 64;
  }

  lemma SextetsQuantum(b: seq<Byte>)
    requires 1 <= |b| <= 3
    ensures Quantum(Sextets(b)) == b
  {
    var v := Sextets(b);
    if |b| == 1 {
      FirstByte(b[0], 0);
      assert v[1] == b[0] % 4 * 16 + 0 / 16;
    } else if |b| == 2 {
      FirstByte(b[0], b[1]);
      SecondByte(b[0], b[1], 0);
      assert v[2] == b[1] % 16 * 4 + 0 / 64;
      assert Quantum(v) == [b[0]] + [b[1]];
    } else {
      FirstByte(b[0], b[1]);
      SecondByte(b[0], b[1], b[2]);
      ThirdByte(b[1], b[2]);
      assert Quantum(v) == [b[0]] + [b[1]] + [b[2]];
    }
  }

  lemma {:induction false} DigitsValues(al: Alphabet, v: seq<Sextet>)
    ensures Values(al, Digits(al, v)) == Some(v)
  {
    if v != [] {
      DigitsValues(al, v[1..]);
      DigitValue(al, v[0]);
      assert Digits(al, v)[1..] == Digits(al, v[1..]);
      assert v == [v[0]] + v[1..];
    }
  }

  /** A full quantum is decoded on its own. */
  lemma FullQuantum(al: Alphabet, padded: bool, v: seq<Sextet>, rest: string)
    requires |v| == 4
    ensures var tail := DecodeLine(al, padded, rest);
            DecodeLine(al, padded, Digits(al, v) + rest) == if tail.Some? then Some(Quantum(v) + tail.value) else None
  {
    var s := Digits(al, v) + rest;
    DigitsValues(al, v);
    DigitValue(al, v[3]);
    assert s[..4] == Digits(al, v) && s[4..] == rest;
    assert s[3] == Digit(al, v[3]);
  }

  /** A short quantum needs its padding, or a raw decoder. */
  lemma ShortQuantum(al: Alphabet, padded: bool, v: seq<Sextet>)
    requires 2 <= |v| <= 3
    ensures DecodeLine(al, padded, Digits(al, v) + Padding(padded, |v| - 1)) == Some(Quantum(v))
    ensures DecodeLine(al, true, Digits(al, v)).None?
  {
    var s := Digits(al, v) + Padding(padded, |v| - 1);
    DigitsValues(al, v);
    DigitValue(al, v[|v| - 1]);
    assert s[..|v|] == Digits(al, v);
    if padded {
      assert |s| == 4 && s[3] == '=' && (s[2] == '=' <==> |v| == 2);
    } else {
      assert s == Digits(al, v);
    }
  }

  lemma {:induction false} DecodeEncode(al: Alphabet, padded: bool, b: seq<Byte>)
    ensures DecodeLine(al, padded, Encode(al, padded, b)) == Some(b)
  {
    if 0 < |b| < 3 {
      SextetsQuantum(b);
      ShortQuantum(al, padded, Sextets(b));
    } else if b != [] {
      DecodeEncode(al, padded, b[3..]);
      SextetsQuantum(b[..3]);
      FullQuantum(al, padded, Sextets(b[..3]), Encode(al, padded, b[3..]));
      assert b == b[..3] + b[3..];
    }
  }

  /** Without padding the padded decoder takes exactly the encodings that need none. */
  lemma {:induction false} UnpaddedWhole(al: Alphabet, b: seq<Byte>)
    requires |b| % 3 == 0
    ensures Encode(al, false, b) == Encode(al, true, b)
  {
    if b != [] {
      UnpaddedWhole(al, b[3..]);
    }
  }

  lemma {:induction false} UnpaddedShort(al: Alphabet, b: seq<Byte>)
    requires |b| % 3 != 0
    ensures DecodeLine(al, true, Encode(al, false, b)).None?
  {
    if |b| < 3 {
      ShortQuantum(al, false, Sextets(b));
      assert Digits(al, Sextets(b)) + "" == Digits(al, Sextets(b));
    } else {
      UnpaddedShort(al, b[3..]);
      FullQuantum(al, true, Sextets(b[..3]), Encode(al, false, b[3..]));
    }
  }

  lemma UnpaddedByPadded(al: Alphabet, b: seq<Byte>)
    ensures DecodeLine(al, true, Encode(al, false, b)) == if |b| % 3 == 0 then Some(b) else None
  {
    if |b| % 3 == 0 {
      UnpaddedWhole(al, b);
      DecodeEncode(al, true, b);
    } else {
      UnpaddedShort(al, b);
    }
  }

  /** The two alphabets differ in the last two digits only. */
  lemma {:induction false} UrlWithoutSpecials(padded: bool, b: seq<Byte>)
    requires !ContainsAny(Encode(Url, padded, b), '-', '_')
    ensures Encode(Url, padded, b) == Encode(Std, padded, b)
  {
    if b != [] {
      var code := Encode(Url, padded, b);
      var v := Sextets(if |b| < 3 then b else b[..3]);
      forall i | 0 <= i < |v| ensures Digits(Url, v)[i] == Digits(Std, v)[i] {
        assert code[i] == Digits(Url, v)[i] && code[i] in code;
        DigitValue(Url, v[i]);
      }
      assert Digits(Url, v) == Digits(Std, v);
      if |b| >= 3 {
        assert forall c | c in Encode(Url, padded, b[3..]) :: c in code;
        UrlWithoutSpecials(padded, b[3..]);
      }
    }
  }

  lemma {:induction false} ForeignDigit(al: Alphabet, padded: bool, s: string, i: nat)
    requires i < |s| && s[i] != '=' && Value(al, s[i]).None?
    ensures DecodeLine(al, padded, s).None?
    decreases |s|
  {
    if |s| < 4 {
      if |s| > 1 { ForeignValue(al, s, i); }
    } else if padded && |s| == 4 && s[3] == '=' {
      if s[2] == '=' { ForeignValue(al, s[..2], i); } else { ForeignValue(al, s[..3], i); }
    } else if i < 4 {
      ForeignValue(al, s[..4], i);
    } else {
      ForeignDigit(al, padded, s[4..], i - 4);
    }
  }

  lemma {:induction false} ForeignValue(al: Alphabet, s: string, i: nat)
    requires i < |s| && Value(al, s[i]).None?
    ensures Values(al, s).None?
  {
    if i > 0 {
      ForeignValue(al, s[1..], i - 1);
    }
  }

  // ---------------------------------------------------------------- what user data decodes to

  /** Main result: the padded standard, unpadded standard and padded URL-safe encodings of any non-empty valid
      UTF-8 byte string decode back to it under any surrounding white space. */
  lemma DecodesBack(
    ws: string, al: Alphabet, padded: bool, b: seq<Byte>, ws': string, utf8: seq<Byte> -> Option<string>)
    requires AllSpace(ws) && AllSpace(ws') && b != [] && utf8(b).Some?
    requires al.Std? || padded
    ensures DecodeUserData(ws + Encode(al, padded, b) + ws', utf8) == utf8(b).value
  {
    var code := Encode(al, padded, b);
    EncodeIsCode(al, padded, b);
    CodesArePlain(al, code);
    DecodeCode(ws, al, code, ws', utf8);
    if al.Std? {
      if padded {
        DecodeEncode(Std, true, b);
      } else {
        UnpaddedByPadded(Std, b);
        DecodeEncode(Std, true, b);
        DecodeEncode(Std, false, b);
      }
    } else {
      DecodeEncode(Url, true, b);
      if !ContainsAny(code, '-', '_') {
        UrlWithoutSpecials(true, b);
        DecodeEncode(Std, true, b);
      }
    }
  }

  lemma SpecialsAreForeign(padded: bool, code: string)
    requires ContainsAny(code, '-', '_')
    ensures DecodeLine(Std, padded, code).None?
  {
    var c: char := if '-' in code then '-' else '_';
    var i :| 0 <= i < |code| && code[i] == c;
    ForeignDigit(Std, padded, code, i);
  }

  /** The unpadded URL-safe dialect is decoded exactly when it needs no padding or uses neither special digit;
      otherwise it passes for plain text. */
  lemma UnpaddedUrlSafe(ws: string, b: seq<Byte>, ws': string, utf8: seq<Byte> -> Option<string>)
    requires AllSpace(ws) && AllSpace(ws') && b != [] && utf8(b).Some?
    ensures var code := Encode(Url, false, b);
            TryBase64UserData(ws + code + ws', utf8)
              == if |b| % 3 == 0 || !ContainsAny(code, '-', '_') then utf8(b) else None
  {
    var code := Encode(Url, false, b);
    EncodeIsCode(Url, false, b);
    DecodeCode(ws, Url, code, ws', utf8);
    UnpaddedByPadded(Url, b);
    if ContainsAny(code, '-', '_') {
      SpecialsAreForeign(false, code);
    } else {
      UrlWithoutSpecials(false, b);
      UnpaddedByPadded(Std, b);
      DecodeEncode(Std, false, b);
    }
  }

  lemma {:induction false} TrimBlanksOf(blanks: string, s: string)
    requires (forall c | c in blanks :: c == ' ' || c == '\t') && s != [] && s[0] != ' ' && s[0] != '\t'
    ensures TrimBlanks(blanks + s) == s
  {
    if blanks == [] {
      assert blanks + s == s;
    } else {
      assert blanks[0] in blanks && (blanks + s)[1..] == blanks[1..] + s;
      assert forall c | c in blanks[1..] :: c in blanks;
      TrimBlanksOf(blanks[1..], s);
    }
  }

  /** Main result: a script that starts with a shebang, also after blanks, is returned unchanged. */
  lemma ScriptUnchanged(blanks: string, s: string, utf8: seq<Byte> -> Option<string>)
    requires (forall c | c in blanks :: c == ' ' || c == '\t') && HasPrefix(s, "#!")
    ensures DecodeUserData(blanks + s, utf8) == blanks + s
  {
    assert s[0] == '#';
    TrimBlanksOf(blanks, s);
    var raw := blanks + s;
    if TrimSpace(raw) == "" {
      NotAllSpace(raw, |blanks|);
    }
  }

  /** A text with a visible character does not trim away. */
  lemma NotAllSpace(s: string, i: nat)
    requires i < |s| && !IsSpace(s[i])
    ensures TrimSpace(s) != ""
  {
    var l := TrimLeft(s);
    assert i >= |s| - |l|;
    assert l[i - (|s| - |l|)] == s[i];
  }

  /** An instance: four question marks need padding and use a special digit, and are not decoded. */
  lemma UnpaddedUrlSafeFails(utf8: seq<Byte> -> Option<string>)
    requires utf8([63, 63, 63, 63]).Some?
    ensures TryBase64UserData(Encode(Url, false, [63, 63, 63, 63]), utf8).None?
  {
    var b: seq<Byte> := [63, 63, 63, 63];
    var code := Encode(Url, false, b);
    assert b[..3] == [63, 63, 63];
    assert code[3] == Digit(Url, Sextets(b[..3])[3]) == '_';
    assert code[3] in code;
    assert [] + code + [] == code;
    UnpaddedUrlSafe([], b, [], utf8);
  }

  /** Blank user data is empty. */
  lemma BlankIsEmpty(raw: string, utf8: seq<Byte> -> Option<string>)
    requires AllSpace(raw)
    ensures DecodeUserData(raw, utf8) == ""
  {
    assert raw + [] + [] == raw;
    TrimSpaceOf(raw, [], []);
  }

  /** An encoding of bytes that are not text is returned unchanged. */
  lemma BinaryUnchanged(ws: string, b: seq<Byte>, ws': string, utf8: seq<Byte> -> Option<string>)
    requires AllSpace(ws) && AllSpace(ws') && b != [] && utf8(b).None?
    ensures var raw := ws + Encode(Std, true, b) + ws'; DecodeUserData(raw, utf8) == raw
  {
    var code := Encode(Std, true, b);
    EncodeIsCode(Std, true, b);
    CodesArePlain(Std, code);
    DecodeCode(ws, Std, code, ws', utf8);
    DecodeEncode(Std, true, b);
  }
}
