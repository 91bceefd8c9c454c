/** Bounding an event payload to 4096 bytes of serialised JSON: strings are
    sequences of UTF-16 code units, as the program sees them. */
module PayloadBound {
  import opened Keys
  import TranscriptTail

  type Text = seq<int>

  const LIMIT := 4_096
  const SHORT_PREVIEW := 64

  // ----------------------------------------------------------------- UTF-8 length

  predicate IsHigh(u: int) {
    0xD800 <= u <= 0xDBFF
  }

  predicate IsLow(u: int) {
    0xDC00 <= u <= 0xDFFF
  }

  predicate StartsWithPair(text: Text) {
    |text| >= 2 && IsHigh(text[0]) && IsLow(text[1])
  }

  function UnitBytes(u: int): nat {
    if u < 0x80 then 1 else if u < 0x800 then 2 else 3
  }

  /** A surrogate pair is four bytes; a lone surrogate becomes U+FFFD, three. */
  function ByteLength(text: Text): nat {
    if text == [] then 0
    else if StartsWithPair(text) then 4 + ByteLength(text[2..])
    else UnitBytes(text[0]) + ByteLength(text[1..])
  }

  // ---------------------------------------------------------------- serialisation

  function HexDigit(d: int): int {
    if d < 10 then 0x30 + d else 0x57 + d
  }

  /** Backslash, u and four hexadecimal digits. */
  function UnicodeEscape(u: int): Text {
    [0x5C, 0x75, HexDigit(u / 4096 % 16), HexDigit(u / 256 % 16), HexDigit(u / 16 % 16), HexDigit(u % 16)]
  }

  function EscapeUnit(u: int): Text {
    if u == 0x22 then [0x5C, 0x22]
    else if u == 0x5C then [0x5C, 0x5C]
    else if u == 8 then [0x5C, 0x62]
    else if u == 9 then [0x5C, 0x74]
    else if u == 10 then [0x5C, 0x6E]
    else if u == 12 then [0x5C, 0x66]
    else if u == 13 then [0x5C, 0x72]
    else if u < 0x20 || IsHigh(u) || IsLow(u) then UnicodeEscape(u)
    else [u]
  }

  /** QuoteJSONString of ECMA-262, without the quotes: pairs stay, lone surrogates
      and control characters are escaped. */
  function Escape(text: Text): Text {
    if text == [] then []
    else if StartsWithPair(text) then text[..2] + Escape(text[2..])
    else EscapeUnit(text[0]) + Escape(text[1..])
  }

  /** {"truncated":true,"preview":" */
  const OPENING: Text := [
    0x7B, 0x22, 0x74, 0x72, 0x75, 0x6E, 0x63, 0x61, 0x74, 0x65, 0x64, 0x22, 0x3A, 0x74, 0x72, 0x75, 0x65, 0x2C,
    0x22, 0x70, 0x72, 0x65, 0x76, 0x69, 0x65, 0x77, 0x22, 0x3A, 0x22]

  /** "} */
  const CLOSING: Text := [0x22, 0x7D]

  /** A newline, an ellipsis, the word TRUNCATED in brackets and an ellipsis. */
  const NOTE: Text := [
    10, 0x2026, 0x20, 0x5B, 0x54, 0x52, 0x55, 0x4E, 0x43, 0x41, 0x54, 0x45, 0x44, 0x5D, 0x20, 0x2026]

  function Truncation(preview: Text): Text {
    OPENING + Escape(preview + NOTE) + CLOSING
  }

  // ------------------------------------------------------------------- the length

  /** No surrogate stands alone. */
  predicate WellFormed(text: Text) {
    text == [] ||
    (if StartsWithPair(text) then WellFormed(text[2..])
     else !IsHigh(text[0]) && !IsLow(text[0]) && WellFormed(text[1..]))
  }

  lemma {:induction false} ByteLengthOfJoined(a: Text, b: Text)
    requires WellFormed(a)
    ensures ByteLength(a + b) == ByteLength(a) + ByteLength(b)
  {
    if a == [] {
      assert a + b == b;
    } else if StartsWithPair(a) {
      ByteLengthOfJoined(a[2..], b);
      assert (a + b)[0] == a[0] && (a + b)[1] == a[1] && (a + b)[2..] == a[2..] + b;
    } else {
      ByteLengthOfJoined(a[1..], b);
      assert (a + b)[0] == a[0] && (a + b)[1..] == a[1..] + b;
    }
  }

  predicate Plain(text: Text) {
    forall i :: 0 <= i < |text| ==> !IsHigh(text[i]) && !IsLow(text[i])
  }

  lemma {:induction false} PlainIsWellFormed(text: Text)
    requires Plain(text)
    ensures WellFormed(text)
  {
    if text != [] {
      PlainIsWellFormed(text[1..]);
    }
  }

  lemma {:induction false} AsciiIsOneByteEach(text: Text)
    requires forall i :: 0 <= i < |text| ==> text[i] < 0x80
    ensures ByteLength(text) == |text| && WellFormed(text)
  {
    if text != [] {
      AsciiIsOneByteEach(text[1..]);
    }
  }

  /** Escaping costs at most six bytes for a unit. */
  lemma UnitCostsAtMostSix(u: int)
    requires 0 <= u < 0x10000
    ensures WellFormed(EscapeUnit(u)) && ByteLength(EscapeUnit(u)) <= 6
  {
    var escaped := EscapeUnit(u);
    if |escaped| > 1 {
      AsciiIsOneByteEach(escaped);
    } else {
      assert escaped[1..] == [];
    }
  }

  predicate IsText(text: Text) {
    forall i :: 0 <= i < |text| ==> 0 <= text[i] < 0x10000
  }

  lemma PairCostsFour(text: Text)
    requires StartsWithPair(text)
    ensures ByteLength(Escape(text)) == 4 + ByteLength(Escape(text[2..]))
  {
    var escaped := Escape(text);
    assert escaped == text[..2] + Escape(text[2..]);
    assert escaped[2..] == Escape(text[2..]) && StartsWithPair(escaped);
  }

  lemma FirstUnitCostsAtMostSix(text: Text)
    requires text != [] && !StartsWithPair(text) && 0 <= text[0] < 0x10000
    ensures ByteLength(Escape(text)) <= 6 + ByteLength(Escape(text[1..]))
  {
    UnitCostsAtMostSix(text[0]);
    ByteLengthOfJoined(EscapeUnit(text[0]), Escape(text[1..]));
  }

  lemma RestIsText(text: Text, n: nat)
    requires IsText(text) && n <= |text|
    ensures IsText(text[n..])
  {
    assert forall i :: 0 <= i < |text[n..]| ==> text[n..][i] == text[n + i];
  }

  lemma {:induction false} EscapedLength(text: Text)
    requires IsText(text)
    ensures ByteLength(Escape(text)) <= 6 * |text|
  {
    if text == [] {
    } else if StartsWithPair(text) {
      RestIsText(text, 2);
      EscapedLength(text[2..]);
      PairCostsFour(text);
    } else {
      RestIsText(text, 1);
      EscapedLength(text[1..]);
      FirstUnitCostsAtMostSix(text);
    }
  }

  // ------------------------------------------------------------------ the program

  /** What is stored: the payload itself, or a preview of its serialised form. */
  datatype Outcome = Whole | Preview(text: Text)

  /** The serialised form of what is stored. */
  function Serialised(serialized: Text, outcome: Outcome): Text {
    if outcome.Whole? then serialized else Truncation(outcome.text)
  }

  /** `floor(length * 0.8)`. */
  function Cut(length: nat): (r: nat)
    ensures r <= length && (length > 0 ==> r < length) && 10 * r <= 8 * length < 10 * (r + 1)
  {
    length * 4 / 5
  }

  function TruncationBytes(serialized: Text, length: nat): nat
    requires length <= |serialized|
  {
    ByteLength(Truncation(serialized[..length]))
  }

  /** Where the cuts stop: at the first preview that fits or is short. */
  function PreviewLength(serialized: Text, length: nat): (r: nat)
    requires length <= |serialized|
    ensures r <= length
    decreases length
  {
    if TruncationBytes(serialized, length) > LIMIT && length > SHORT_PREVIEW then PreviewLength(serialized, Cut(length))
    else length
  }

  function Sanitized(serialized: Text): Outcome {
    if ByteLength(serialized) <= LIMIT then Whole else Preview(serialized[..PreviewLength(serialized, |serialized|)])
  }

  lemma {:induction false} EscapeIsWellFormed(text: Text)
    requires IsText(text)
    ensures WellFormed(Escape(text))
  {
    if text == [] {
    } else if StartsWithPair(text) {
      EscapeIsWellFormed(text[2..]);
      var escaped := Escape(text);
      assert escaped[2..] == Escape(text[2..]) && StartsWithPair(escaped);
    } else {
      EscapeIsWellFormed(text[1..]);
      UnitCostsAtMostSix(text[0]);
      JoinedIsWellFormed(EscapeUnit(text[0]), Escape(text[1..]));
    }
  }

  lemma {:induction false} JoinedIsWellFormed(a: Text, b: Text)
    requires WellFormed(a) && WellFormed(b)
    ensures WellFormed(a + b)
  {
    if a == [] {
      assert a + b == b;
    } else if StartsWithPair(a) {
      JoinedIsWellFormed(a[2..], b);
      assert (a + b)[0] == a[0] && (a + b)[1] == a[1] && (a + b)[2..] == a[2..] + b;
    } else {
      JoinedIsWellFormed(a[1..], b);
      assert (a + b)[0] == a[0] && (a + b)[1..] == a[1..] + b;
    }
  }

  predicate IsAscii(text: Text) {
    forall i :: 0 <= i < |text| ==> 0 <= text[i] < 0x80
  }

  lemma ByteLengthOfThree(a: Text, b: Text, c: Text)
    requires WellFormed(a) && WellFormed(b)
    ensures ByteLength(a + b + c) == ByteLength(a) + ByteLength(b) + ByteLength(c)
  {
    ByteLengthOfJoined(b, c);
    ByteLengthOfJoined(a, b + c);
    assert a + b + c == a + (b + c);
  }

  lemma FramedLength(opening: Text, content: Text, closing: Text)
    requires IsAscii(opening) && IsText(content) && IsAscii(closing)
    ensures ByteLength(opening + Escape(content) + closing) <= |opening| + 6 * |content| + |closing|
  {
    AsciiIsOneByteEach(opening);
    AsciiIsOneByteEach(closing);
    EscapedLength(content);
    EscapeIsWellFormed(content);
    ByteLengthOfThree(opening, Escape(content), closing);
  }

  /** A truncation costs its frame and at most six bytes a unit. */
  lemma TruncationCosts(preview: Text)
    requires IsText(preview)
    ensures ByteLength(Truncation(preview)) <= 31 + 6 * (|preview| + 16)
  {
    assert IsText(preview + NOTE) by { assert IsText(NOTE); }
    assert |OPENING| == 29 && |NOTE| == 16 && |CLOSING| == 2;
    FramedLength(OPENING, preview + NOTE, CLOSING);
  }

  // --------------------------------------------------------- what the length measures

  /** The UTF-8 encoding of a text (section 3 of RFC 3629); a lone surrogate is
      written as U+FFFD. */
  function Utf8(text: Text): seq<TranscriptTail.Byte> {
    if text == [] then []
    else if StartsWithPair(text) then Utf8OfPair(text[0] - 0xD800, text[1] - 0xDC00) + Utf8(text[2..])
    else Utf8OfUnit(text[0]) + Utf8(text[1..])
  }

  function Utf8OfUnit(u: int): seq<TranscriptTail.Byte> {
    if u <= 0x7F then [u]
    else if u <= 0x7FF then [0xC0 + u / 64, 0x80 + u % 64]
    else if 0xD800 <= u <= 0xDFFF then [0xEF, 0xBF, 0xBD]
    else [0xE0 + u / 4096, 0x80 + u / 64 % 64, 0x80 + u % 64]
  }

  function Utf8OfPair(high: int, low: int): seq<TranscriptTail.Byte> {
    var point := 0x10000 + high * 0x400 + low;
    [0xF0 + point / 0x40000, 0x80 + point / 0x1000 % 64, 0x80 + point / 64 % 64, 0x80 + point % 64]
  }

  lemma CharacterInFront(bytes: seq<TranscriptTail.Byte>, rest: seq<TranscriptTail.Byte>)
    requires bytes != [] && TranscriptTail.IsCharacter(bytes) && TranscriptTail.Taken(bytes) == |bytes|
    requires TranscriptTail.WellFormed(rest)
    ensures TranscriptTail.WellFormed(bytes + rest)
  {
    assert forall i :: 0 <= i < |bytes| ==> (bytes + rest)[i] == bytes[i];
    assert TranscriptTail.Taken(bytes + rest) == |bytes|;
    assert (bytes + rest)[|bytes|..] == rest;
  }

  lemma UnitIsACharacter(u: int)
    requires 0 <= u < 0x10000
    ensures var bytes := Utf8OfUnit(u);
            TranscriptTail.IsCharacter(bytes) && TranscriptTail.Taken(bytes) == |bytes|
    ensures |Utf8OfUnit(u)| == UnitBytes(u)
  {
  }

  lemma PairIsACharacter(high: int, low: int)
    requires 0 <= high < 0x400 && 0 <= low < 0x400
    ensures var bytes := Utf8OfPair(high, low);
            TranscriptTail.IsCharacter(bytes) && TranscriptTail.Taken(bytes) == |bytes| == 4
  {
    var point := 0x10000 + high * 0x400 + low;
    assert 0x10000 <= point < 0x110000;
    assert point / 0x40000 == 0 ==> point / 0x1000 % 64 >= 16;
    assert point / 0x40000 == 4 ==> point / 0x1000 % 64 < 16;
  }

  /** The measured length is that of the encoding, which is well-formed UTF-8. */
  lemma {:induction false} ByteLengthMeasuresUtf8(text: Text)
    requires IsText(text)
    ensures |Utf8(text)| == ByteLength(text) && TranscriptTail.WellFormed(Utf8(text))
  {
    if text == [] {
    } else if StartsWithPair(text) {
      RestIsText(text, 2);
      ByteLengthMeasuresUtf8(text[2..]);
      PairIsACharacter(text[0] - 0xD800, text[1] - 0xDC00);
      CharacterInFront(Utf8OfPair(text[0] - 0xD800, text[1] - 0xDC00), Utf8(text[2..]));
    } else {
      RestIsText(text, 1);
      ByteLengthMeasuresUtf8(text[1..]);
      UnitIsACharacter(text[0]);
      CharacterInFront(Utf8OfUnit(text[0]), Utf8(text[1..]));
    }
  }

  /** The units that one well-formed character stands for. */
  function FromCharacter(c: seq<TranscriptTail.Byte>): Text
    requires 1 <= |c| <= 4
  {
    if |c| == 1 then [c[0]]
    else if |c| == 2 then [(c[0] - 0xC0) * 64 + (c[1] - 0x80)]
    else if |c| == 3 then [(c[0] - 0xE0) * 4096 + (c[1] - 0x80) * 64 + (c[2] - 0x80)]
    else
      var point := (c[0] - 0xF0) * 0x40000 + (c[1] - 0x80) * 0x1000 + (c[2] - 0x80) * 64 + (c[3] - 0x80) - 0x10000;
      [0xD800 + point / 0x400, 0xDC00 + point % 0x400]
  }

  function FromUtf8(bytes: seq<TranscriptTail.Byte>): Text {
    if bytes == [] then []
    else
      var n := TranscriptTail.Taken(bytes);
      if n <= 4 then FromCharacter(bytes[..n]) + FromUtf8(bytes[n..]) else []
  }

  lemma TwoBytesReturn(c: seq<TranscriptTail.Byte>)
    requires |c| == 2 && TranscriptTail.Taken(c) == 2 && TranscriptTail.IsCharacter(c)
    ensures var u := FromCharacter(c)[0]; 0x80 <= u < 0x800 && Utf8OfUnit(u) == c
  {
    var u := FromCharacter(c)[0];
    assert u / 64 == c[0] - 0xC0 && u % 64 == c[1] - 0x80;
  }

  lemma ThreeBytesReturn(c: seq<TranscriptTail.Byte>)
    requires |c| == 3 && TranscriptTail.Taken(c) == 3 && TranscriptTail.IsCharacter(c)
    ensures var u := FromCharacter(c)[0];
            0x800 <= u < 0x10000 && !IsHigh(u) && !IsLow(u) && Utf8OfUnit(u) == c
  {
    var x, y, u := c[1] - 0x80, c[2] - 0x80, FromCharacter(c)[0];
    assert 0 <= x < 64 && 0 <= y < 64 && u == (c[0] - 0xE0) * 4096 + x * 64 + y;
    assert u / 64 == (c[0] - 0xE0) * 64 + x && u % 64 == y;
    assert u / 4096 == c[0] - 0xE0 && u / 64 % 64 == x;
  }

  lemma ShortCharacterReturns(c: seq<TranscriptTail.Byte>)
    requires 1 <= |c| <= 3 && TranscriptTail.Taken(c) == |c| && TranscriptTail.IsCharacter(c)
    ensures var u := FromCharacter(c)[0];
            0 <= u < 0x10000 && !IsHigh(u) && !IsLow(u) && Utf8OfUnit(u) == c
  {
    if |c| == 2 {
      TwoBytesReturn(c);
    } else if |c| == 3 {
      ThreeBytesReturn(c);
    }
  }

  lemma LongCharacterReturns(c: seq<TranscriptTail.Byte>)
    requires |c| == 4 && TranscriptTail.Taken(c) == |c| && TranscriptTail.IsCharacter(c)
    ensures var text := FromCharacter(c);
            IsHigh(text[0]) && IsLow(text[1]) && Utf8OfPair(text[0] - 0xD800, text[1] - 0xDC00) == c
  {
    var x, y, z := c[1] - 0x80, c[2] - 0x80, c[3] - 0x80;
    assert 0 <= x < 64 && 0 <= y < 64 && 0 <= z < 64;
    var point := (c[0] - 0xF0) * 0x40000 + x * 0x1000 + y * 64 + z;
    assert 0x10000 <= point < 0x110000;
    FourParts(c[0] - 0xF0, x, y, z);
    var rest := point - 0x10000;
    assert 0x10000 + rest / 0x400 * 0x400 + rest % 0x400 == point;
  }

  lemma FourParts(w: int, x: int, y: int, z: int)
    requires 0 <= w && 0 <= x < 64 && 0 <= y < 64 && 0 <= z < 64
    ensures var point := w * 0x40000 + x * 0x1000 + y * 64 + z;
            point / 0x40000 == w && point / 0x1000 % 64 == x && point / 64 % 64 == y && point % 64 == z
  {
    var point := w * 0x40000 + x * 0x1000 + y * 64 + z;
    assert point / 64 == w * 4096 + x * 64 + y;
    assert point / 0x1000 == w * 64 + x;
  }

  lemma ReturnedInFront(c: seq<TranscriptTail.Byte>, t: Text)
    requires 1 <= |c| <= 4 && TranscriptTail.Taken(c) == |c| && TranscriptTail.IsCharacter(c)
    requires IsText(t) && WellFormed(t)
    ensures var text := FromCharacter(c) + t; IsText(text) && WellFormed(text) && Utf8(text) == c + Utf8(t)
  {
    var text := FromCharacter(c) + t;
    if |c| < 4 {
      ShortCharacterReturns(c);
      assert text[0] == FromCharacter(c)[0] && text[1..] == t;
    } else {
      LongCharacterReturns(c);
      assert text[0] == FromCharacter(c)[0] && text[1] == FromCharacter(c)[1] && text[2..] == t;
    }
  }

  lemma FirstCharacter(bytes: seq<TranscriptTail.Byte>)
      returns (c: seq<TranscriptTail.Byte>, rest: seq<TranscriptTail.Byte>)
    requires bytes != [] && TranscriptTail.WellFormed(bytes)
    ensures bytes == c + rest && 1 <= |c| <= 4 && TranscriptTail.Taken(c) == |c| && TranscriptTail.IsCharacter(c)
    ensures TranscriptTail.WellFormed(rest) && FromUtf8(bytes) == FromCharacter(c) + FromUtf8(rest)
  {
    var n := TranscriptTail.Taken(bytes);
    c, rest := bytes[..n], bytes[n..];
    assert forall i :: 0 <= i < n ==> c[i] == bytes[i];
    assert TranscriptTail.Taken(c) == n;
  }

  /** And the other way: the decoder's well-formed bytes are the encoding of a text. */
  lemma {:induction false} WellFormedBytesAreUtf8(bytes: seq<TranscriptTail.Byte>)
    requires TranscriptTail.WellFormed(bytes)
    ensures IsText(FromUtf8(bytes)) && WellFormed(FromUtf8(bytes)) && Utf8(FromUtf8(bytes)) == bytes
    decreases |bytes|
  {
    if bytes != [] {
      var c, rest := FirstCharacter(bytes);
      WellFormedBytesAreUtf8(rest);
      ReturnedInFront(c, FromUtf8(rest));
    }
  }

  // --------------------------------------------------------------- reading it back

  function HexValue(c: int): int {
    if 0x30 <= c <= 0x39 then c - 0x30
    else if 0x41 <= c <= 0x46 then c - 0x41 + 10
    else if 0x61 <= c <= 0x66 then c - 0x61 + 10
    else -1
  }

  /** What the letter after a backslash stands for, -1 when it may not follow one. */
  function Meaning(c: int): int {
    match c
    case 0x22 => 0x22
    case 0x5C => 0x5C
    case 0x2F => 0x2F
    case 0x62 => 0x08
    case 0x66 => 0x0C
    case 0x6E => 0x0A
    case 0x72 => 0x0D
    case 0x74 => 0x09
    case _ => -1
  }

  function Before(u: int, rest: Option<Text>): Option<Text> {
    if rest.Some? then Some([u] + rest.value) else None
  }

  /** The content of a JSON string (section 7 of RFC 8259), nothing when it is none. */
  function ReadString(s: Text): Option<Text> {
    if s == [] then Some([])
    else if s[0] == 0x22 || s[0] < 0x20 then None
    else if s[0] != 0x5C then Before(s[0], ReadString(s[1..]))
    else if |s| < 2 then None
    else if s[1] != 0x75 then (if Meaning(s[1]) < 0 then None else Before(Meaning(s[1]), ReadString(s[2..])))
    else if |s| < 6 || (exists i :: 2 <= i < 6 && HexValue(s[i]) < 0) then None
    else Before(HexValue(s[2]) * 4096 + HexValue(s[3]) * 256 + HexValue(s[4]) * 16 + HexValue(s[5]), ReadString(s[6..]))
  }

  lemma HexReadsBack(d: int)
    requires 0 <= d < 16
    ensures HexValue(HexDigit(d)) == d
  {
  }

  lemma FourDigits(u: int)
    requires 0 <= u < 0x10000
    ensures u / 4096 % 16 * 4096 + u / 256 % 16 * 256 + u / 16 % 16 * 16 + u % 16 == u
  {
    var x, y := u / 16, u / 256;
    assert u == 16 * x + u % 16 && x == 16 * (x / 16) + x % 16 && x / 16 == y;
    assert y == 16 * (y / 16) + y % 16 && y / 16 == u / 4096 && u / 4096 < 16;
  }

  lemma FourDigitsRead(a: int, b: int, c: int, d: int, rest: Text)
    requires 0 <= a < 16 && 0 <= b < 16 && 0 <= c < 16 && 0 <= d < 16
    ensures ReadString([0x5C, 0x75, HexDigit(a), HexDigit(b), HexDigit(c), HexDigit(d)] + rest) ==
            Before(a * 4096 + b * 256 + c * 16 + d, ReadString(rest))
  {
    HexReadsBack(a);
    HexReadsBack(b);
    HexReadsBack(c);
    HexReadsBack(d);
    var s := [0x5C, 0x75, HexDigit(a), HexDigit(b), HexDigit(c), HexDigit(d)] + rest;
    assert s[6..] == rest;
  }

  lemma UnicodeEscapeReadsBack(u: int, rest: Text)
    requires 0 <= u < 0x10000
    ensures ReadString(UnicodeEscape(u) + rest) == Before(u, ReadString(rest))
  {
    FourDigits(u);
    FourDigitsRead(u / 4096 % 16, u / 256 % 16, u / 16 % 16, u % 16, rest);
  }

  lemma UnitReadsBack(u: int, rest: Text)
    requires 0 <= u < 0x10000
    ensures ReadString(EscapeUnit(u) + rest) == Before(u, ReadString(rest))
  {
    var s := EscapeUnit(u) + rest;
    if EscapeUnit(u) == UnicodeEscape(u) {
      UnicodeEscapeReadsBack(u, rest);
    } else if |EscapeUnit(u)| == 2 {
      assert s[2..] == rest;
    } else {
      assert s[1..] == rest;
    }
  }

  lemma PairReadsBack(high: int, low: int, rest: Text)
    requires IsHigh(high) && IsLow(low)
    ensures ReadString([high, low] + rest) == Before(high, Before(low, ReadString(rest)))
  {
    var s := [high, low] + rest;
    assert s[1..] == [low] + rest && s[1..][1..] == rest;
  }

  /** Every text reads back from its escaped form. */
  lemma {:induction false} EscapeReadsBack(text: Text)
    requires IsText(text)
    ensures ReadString(Escape(text)) == Some(text)
  {
    if text == [] {
    } else if StartsWithPair(text) {
      RestIsText(text, 2);
      EscapeReadsBack(text[2..]);
      PairReadsBack(text[0], text[1], Escape(text[2..]));
      assert text[..2] == [text[0], text[1]] && [text[0]] + ([text[1]] + text[2..]) == text;
    } else {
      RestIsText(text, 1);
      EscapeReadsBack(text[1..]);
      UnitReadsBack(text[0], Escape(text[1..]));
      assert [text[0]] + text[1..] == text;
    }
  }

  /** Seven units have a two-unit escape, the other control characters and lone
      surrogates one of six units; everything else stands for itself. */
  lemma EscapesAreShortest(u: int)
    requires 0 <= u < 0x10000
    ensures |EscapeUnit(u)| ==
            if u in {0x08, 0x09, 0x0A, 0x0C, 0x0D, 0x22, 0x5C} then 2
            else if u < 0x20 || 0xD800 <= u < 0xE000 then 6
            else 1
  {
  }

  /** A truncation is one object: its preview reads back as the beginning kept and
      the note behind it. */
  lemma TruncationReadsBack(preview: Text)
    requires IsText(preview)
    ensures var t := Truncation(preview);
            OPENING <= t && t[|t| - 2..] == CLOSING &&
            ReadString(t[|OPENING|..|t| - 2]) == Some(preview + NOTE)
  {
    assert IsText(preview + NOTE) by { assert IsText(NOTE); }
    EscapeReadsBack(preview + NOTE);
    var t := Truncation(preview);
    assert t[|OPENING|..|t| - 2] == Escape(preview + NOTE);
    assert t[..|OPENING|] == OPENING;
  }

  // ----------------------------------------------------------------- main results

  lemma {:induction false} CutsStopBelowTheLimit(serialized: Text, length: nat)
    requires IsText(serialized) && length <= |serialized|
    ensures TruncationBytes(serialized, PreviewLength(serialized, length)) <= LIMIT
    decreases length
  {
    if TruncationBytes(serialized, length) > LIMIT {
      if length > SHORT_PREVIEW {
        CutsStopBelowTheLimit(serialized, Cut(length));
      } else {
        TruncationCosts(serialized[..length]);
      }
    }
  }

  /** Whatever the payload, what is stored serialises to at most 4096 bytes. */
  lemma StoredIsBounded(serialized: Text)
    requires IsText(serialized)
    ensures ByteLength(Serialised(serialized, Sanitized(serialized))) <= LIMIT
  {
    CutsStopBelowTheLimit(serialized, |serialized|);
  }

  /** A payload that fits is kept whole, and only such; otherwise the preview is a
      beginning of it, and unless it is all of it, one cut less did not fit. */
  lemma TruncatedOnlyWhenNeeded(serialized: Text)
    ensures Sanitized(serialized).Whole? <==> ByteLength(serialized) <= LIMIT
    ensures var outcome := Sanitized(serialized);
            outcome.Preview? ==> IsNeededPreview(serialized, outcome.text)
  {
    LastCut(serialized, |serialized|);
  }

  ghost predicate IsNeededPreview(serialized: Text, preview: Text) {
    preview <= serialized && (preview == serialized || exists before :: IsLastCut(serialized, before, |preview|))
  }

  predicate IsLastCut(serialized: Text, before: nat, length: nat) {
    before <= |serialized| && length == Cut(before) && before > SHORT_PREVIEW &&
    TruncationBytes(serialized, before) > LIMIT
  }

  lemma {:induction false} LastCut(serialized: Text, length: nat)
    requires length <= |serialized|
    ensures var r := PreviewLength(serialized, length); r == length || exists before :: IsLastCut(serialized, before, r)
    decreases length
  {
    if TruncationBytes(serialized, length) > LIMIT && length > SHORT_PREVIEW {
      LastCut(serialized, Cut(length));
      assert IsLastCut(serialized, length, Cut(length));
    }
  }

  /** The loop itself; that it ends is part of what is proved. */
  method SanitizeEventPayload(serialized: Text) returns (outcome: Outcome)
    ensures outcome == Sanitized(serialized)
  {
    if ByteLength(serialized) <= LIMIT {
      return Whole;
    }
    var preview := serialized;
    var result := Truncation(preview);
    while ByteLength(result) > LIMIT && |preview| > SHORT_PREVIEW
      invariant |preview| <= |serialized| && preview == serialized[..|preview|] && result == Truncation(preview)
      invariant PreviewLength(serialized, |preview|) == PreviewLength(serialized, |serialized|)
      decreases |preview|
    {
      preview := preview[..Cut(|preview|)];
      result := Truncation(preview);
    }
    outcome := Preview(preview);
  }
}
