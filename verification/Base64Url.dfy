/** The URL-safe base64 of section 5 of RFC 4648, as the phone and the cloud each
    derive it from the standard encoding. */
module Base64Url {
  import opened Keys

  type Byte = b: nat | b < 256

  type Sextet = v: nat | v < 64

  function Char(v: Sextet): char {
    if v < 26 then 'A' + v as char
    else if v < 52 then 'a' + (v - 26) as char
    else if v < 62 then '0' + (v - 52) as char
    else if v == 62 then '+'
    else '/'
  }

  function Value(c: char): Option<Sextet> {
    if 'A' <= c <= 'Z' then Some((c - 'A') as int)
    else if 'a' <= c <= 'z' then Some((c - 'a') as int + 26)
    else if '0' <= c <= '9' then Some((c - '0') as int + 52)
    else if c == '+' then Some(62)
    else if c == '/' then Some(63)
    else None
  }

  const PAD := '='

  // --------------------------------------------------------- the standard encoding

  // The 24 bits of three bytes, six at a time and eight at a time.

  function First(x: Byte): Sextet { x / 4 }
  function Second(x: Byte, y: Byte): Sextet { x % 4 * 16 + y / 16 }
  function Third(y: Byte, z: Byte): Sextet { y % 16 * 4 + z / 64 }
  function Fourth(z: Byte): Sextet { z % 64 }

  function High(a: Sextet, b: Sextet): Byte { a * 4 + b / 16 }
  function Middle(b: Sextet, c: Sextet): Byte { b % 16 * 16 + c / 4 }
  function Low(c: Sextet, d: Sextet): Byte { c % 4 * 64 + d }

  /** Three bytes are four sextets; a last one or two are two or three. */
  function Sextets(bytes: seq<Byte>): seq<Sextet> {
    if bytes == [] then []
    else if |bytes| == 1 then [First(bytes[0]), Second(bytes[0], 0)]
    else if |bytes| == 2 then [First(bytes[0]), Second(bytes[0], bytes[1]), Third(bytes[1], 0)]
    else [First(bytes[0]), Second(bytes[0], bytes[1]), Third(bytes[1], bytes[2]), Fourth(bytes[2])] +
         Sextets(bytes[3..])
  }

  /** Bits that make no whole byte are dropped. */
  function Bytes(sextets: seq<Sextet>): seq<Byte> {
    if |sextets| < 2 then []
    else if |sextets| == 2 then [High(sextets[0], sextets[1])]
    else if |sextets| == 3 then [High(sextets[0], sextets[1]), Middle(sextets[1], sextets[2])]
    else [High(sextets[0], sextets[1]), Middle(sextets[1], sextets[2]), Low(sextets[2], sextets[3])] +
         Bytes(sextets[4..])
  }

  function Chars(sextets: seq<Sextet>): (r: string)
    ensures |r| == |sextets| && forall i :: 0 <= i < |r| ==> r[i] == Char(sextets[i])
  {
    if sextets == [] then "" else [Char(sextets[0])] + Chars(sextets[1..])
  }

  predicate InAlphabet(text: string) {
    forall i :: 0 <= i < |text| ==> Value(text[i]).Some?
  }

  function Values(text: string): (r: seq<Sextet>)
    requires InAlphabet(text)
    ensures |r| == |text| && forall i :: 0 <= i < |r| ==> r[i] == Value(text[i]).value
  {
    if text == "" then []
    else
      assert InAlphabet(text[1..]) by { assert forall i :: 0 <= i < |text[1..]| ==> text[1..][i] == text[i + 1]; }
      [Value(text[0]).value] + Values(text[1..])
  }

  /** Padded to a multiple of four, as `btoa` and Foundation do. */
  function Encode(bytes: seq<Byte>): string {
    var text := Chars(Sextets(bytes));
    text + Repeat(PAD, SwiftPadding(|text|))
  }

  function DropPadding(text: string): string {
    if |text| >= 2 && text[|text| - 1] == PAD && text[|text| - 2] == PAD then text[..|text| - 2]
    else if |text| >= 1 && text[|text| - 1] == PAD then text[..|text| - 1]
    else text
  }

  /** Foundation without options: None on a length that is not a multiple of four,
      a foreign character or misplaced padding. */
  function Decode(text: string): Option<seq<Byte>> {
    if |text| % 4 != 0 || !InAlphabet(DropPadding(text)) then None else Some(Bytes(Values(DropPadding(text))))
  }

  predicate IsWhitespace(c: char) {
    c == ' ' || c == '\t' || c == '\n' || c == '\r' || c == 12 as char
  }

  function Strip(text: string): string {
    if text == "" then "" else (if IsWhitespace(text[0]) then "" else [text[0]]) + Strip(text[1..])
  }

  /** What is left of a text once whitespace and padding are gone. */
  function Unpadded(text: string): string {
    if |Strip(text)| % 4 == 0 then DropPadding(Strip(text)) else Strip(text)
  }

  /** `atob`, the forgiving decode of the Infra standard, is more lenient: it skips
      whitespace, and the padding may be missing. */
  predicate Forgiven(text: string) {
    |Unpadded(text)| % 4 != 1 && InAlphabet(Unpadded(text))
  }

  function Atob(text: string): Option<seq<Byte>> {
    if !Forgiven(text) then None else Some(Bytes(Values(Unpadded(text))))
  }

  // ------------------------------------------------------------ the URL-safe form

  function ReplaceAll(text: string, from: char, to: char): string {
    if text == "" then "" else [if text[0] == from then to else text[0]] + ReplaceAll(text[1..], from, to)
  }

  function RemoveAll(text: string, c: char): string {
    if text == "" then "" else (if text[0] == c then "" else [text[0]]) + RemoveAll(text[1..], c)
  }

  function TrimEnd(text: string, c: char): string {
    if text == "" || text[|text| - 1] != c then text else TrimEnd(text[..|text| - 1], c)
  }

  function Repeat(c: char, n: nat): (r: string)
    ensures |r| == n && forall i :: 0 <= i < n ==> r[i] == c
  {
    seq(n, _ => c)
  }

  function ToURL(text: string): string {
    ReplaceAll(ReplaceAll(text, '+', '-'), '/', '_')
  }

  function FromURL(text: string): string {
    ReplaceAll(ReplaceAll(text, '-', '+'), '_', '/')
  }

  /** The phone drops every '='. */
  function SwiftBase64URL(bytes: seq<Byte>): string {
    RemoveAll(ToURL(Encode(bytes)), PAD)
  }

  /** The cloud drops those at the end. */
  function CloudBase64URL(bytes: seq<Byte>): string {
    TrimEnd(ToURL(Encode(bytes)), PAD)
  }

  function SwiftPadding(length: nat): nat {
    (4 - length % 4) % 4
  }

  /** `padEnd` to `ceil(length / 4) * 4`. */
  function CloudPaddedLength(length: nat): nat {
    (length + 3) / 4 * 4
  }

  function SwiftFromBase64URL(text: string): Option<seq<Byte>> {
    Decode(FromURL(text) + Repeat(PAD, SwiftPadding(|text|)))
  }

  function CloudPadded(text: string): string {
    FromURL(text) + Repeat(PAD, CloudPaddedLength(|text|) - |text|)
  }

  function CloudFromBase64URL(text: string): Option<seq<Byte>> {
    Atob(CloudPadded(text))
  }

  // ------------------------------------------------------------------ round trips

  lemma CharsHaveValues(v: Sextet)
    ensures Value(Char(v)) == Some(v) && Char(v) != PAD
  {
  }

  lemma ThreeBytesReturn(x: Byte, y: Byte, z: Byte)
    ensures High(First(x), Second(x, y)) == x
    ensures Middle(Second(x, y), Third(y, z)) == y
    ensures Low(Third(y, z), Fourth(z)) == z
  {
  }

  lemma BytesUnfold(a: Sextet, b: Sextet, c: Sextet, d: Sextet, rest: seq<Sextet>)
    ensures Bytes([a, b, c, d] + rest) == [High(a, b), Middle(b, c), Low(c, d)] + Bytes(rest)
  {
    assert ([a, b, c, d] + rest)[4..] == rest;
  }

  lemma OneByteReturns(x: Byte)
    ensures Bytes([First(x), Second(x, 0)]) == [x]
  {
    ThreeBytesReturn(x, 0, 0);
  }

  lemma TwoBytesReturn(x: Byte, y: Byte)
    ensures Bytes([First(x), Second(x, y), Third(y, 0)]) == [x, y]
  {
    ThreeBytesReturn(x, y, 0);
  }

  lemma MoreBytesReturn(x: Byte, y: Byte, z: Byte, rest: seq<Sextet>)
    ensures Bytes([First(x), Second(x, y), Third(y, z), Fourth(z)] + rest) == [x, y, z] + Bytes(rest)
  {
    ThreeBytesReturn(x, y, z);
    BytesUnfold(First(x), Second(x, y), Third(y, z), Fourth(z), rest);
  }

  lemma {:induction false} BytesOfSextets(bytes: seq<Byte>)
    ensures Bytes(Sextets(bytes)) == bytes
  {
    if |bytes| == 1 {
      OneByteReturns(bytes[0]);
      assert bytes == [bytes[0]];
    } else if |bytes| == 2 {
      TwoBytesReturn(bytes[0], bytes[1]);
      assert bytes == [bytes[0], bytes[1]];
    } else if |bytes| >= 3 {
      BytesOfSextets(bytes[3..]);
      MoreBytesReturn(bytes[0], bytes[1], bytes[2], Sextets(bytes[3..]));
      assert bytes == [bytes[0], bytes[1], bytes[2]] + bytes[3..];
    }
  }

  lemma {:induction false} SextetCount(bytes: seq<Byte>)
    ensures |Sextets(bytes)| == (4 * |bytes| + 2) / 3
  {
    if |bytes| >= 3 {
      SextetCount(bytes[3..]);
    }
  }

  lemma ValuesOfChars(sextets: seq<Sextet>)
    ensures InAlphabet(Chars(sextets)) && Values(Chars(sextets)) == sextets
  {
    forall i | 0 <= i < |sextets| ensures Value(Chars(sextets)[i]) == Some(sextets[i]) {
      CharsHaveValues(sextets[i]);
    }
  }

  lemma PaddingFills(n: nat)
    requires n % 4 != 1
    ensures (n + SwiftPadding(n)) % 4 == 0 && SwiftPadding(n) <= 2
  {
    var q, r := n / 4, n % 4;
    assert n == 4 * q + r;
    assert SwiftPadding(n) == if r == 0 then 0 else 4 - r;
    assert n + SwiftPadding(n) == if r == 0 then 4 * q else 4 * (q + 1);
  }

  lemma DropAdded(text: string, n: nat)
    requires InAlphabet(text) && n <= 2
    ensures DropPadding(text + Repeat(PAD, n)) == text
  {
    var padded := text + Repeat(PAD, n);
    if text != "" {
      assert Value(text[|text| - 1]).Some?;
      assert padded[|text| - 1] == text[|text| - 1] != PAD;
    }
    assert n > 0 ==> padded[|padded| - 1] == PAD;
    assert n > 1 ==> padded[|padded| - 2] == PAD;
    assert padded[..|text|] == text;
  }

  /** Section 3.2 of RFC 4648: padding that was added can be dropped again. */
  lemma DropAddedPadding(text: string)
    requires InAlphabet(text) && |text| % 4 != 1
    ensures var padded := text + Repeat(PAD, SwiftPadding(|text|)); |padded| % 4 == 0 && DropPadding(padded) == text
  {
    PaddingFills(|text|);
    DropAdded(text, SwiftPadding(|text|));
  }

  lemma LengthModFour(n: nat)
    ensures (4 * n + 2) / 3 % 4 != 1
  {
    var q, r := n / 3, n % 3;
    var extra := if r == 0 then 0 else r + 1;
    assert n == 3 * q + r;
    assert (4 * n + 2) / 3 == 4 * q + extra;
    assert (4 * q + extra) % 4 == extra;
  }

  lemma LengthsAreNeverOneModFour(bytes: seq<Byte>)
    ensures |Sextets(bytes)| % 4 != 1
  {
    SextetCount(bytes);
    LengthModFour(|bytes|);
  }

  // ------------------------------------------------------------------- replacing

  lemma {:induction false} Replaced(text: string, from: char, to: char)
    ensures var r := ReplaceAll(text, from, to);
            |r| == |text| && forall i :: 0 <= i < |r| ==> r[i] == if text[i] == from then to else text[i]
  {
    if text != "" {
      Replaced(text[1..], from, to);
    }
  }

  function URLChar(c: char): char {
    if c == '+' then '-' else if c == '/' then '_' else c
  }

  lemma ToURLIsPointwise(text: string)
    ensures var r := ToURL(text); |r| == |text| && forall i :: 0 <= i < |r| ==> r[i] == URLChar(text[i])
  {
    Replaced(text, '+', '-');
    Replaced(ReplaceAll(text, '+', '-'), '/', '_');
  }

  /** The replacements can be undone on what the alphabet produces. */
  lemma FromURLUndoesToURL(text: string)
    requires InAlphabet(text)
    ensures FromURL(ToURL(text)) == text
  {
    var url := ToURL(text);
    ToURLIsPointwise(text);
    Replaced(url, '-', '+');
    Replaced(ReplaceAll(url, '-', '+'), '_', '/');
    forall i | 0 <= i < |text| ensures FromURL(url)[i] == text[i] {
      assert Value(text[i]).Some?;
    }
  }

  lemma {:induction false} RemovePadding(text: string, n: nat)
    requires forall i :: 0 <= i < |text| ==> text[i] != PAD
    ensures RemoveAll(text + Repeat(PAD, n), PAD) == text
    decreases |text| + n
  {
    var all := text + Repeat(PAD, n);
    if text != "" {
      assert all[1..] == text[1..] + Repeat(PAD, n);
      RemovePadding(text[1..], n);
      assert text == [text[0]] + text[1..];
    } else if n > 0 {
      assert all[1..] == "" + Repeat(PAD, n - 1);
      RemovePadding("", n - 1);
    }
  }

  lemma {:induction false} TrimPadding(text: string, n: nat)
    requires forall i :: 0 <= i < |text| ==> text[i] != PAD
    ensures TrimEnd(text + Repeat(PAD, n), PAD) == text
  {
    var all := text + Repeat(PAD, n);
    if n > 0 {
      assert all[..|all| - 1] == text + Repeat(PAD, n - 1);
      TrimPadding(text, n - 1);
    } else {
      assert all == text;
    }
  }

  // ---------------------------------------------------------------- main results

  /** The unpadded, URL-safe text that both programs produce. */
  function URLText(bytes: seq<Byte>): string {
    ToURL(Chars(Sextets(bytes)))
  }

  /** Both versions give the same text, without padding, and its length is never
      1 modulo 4. */
  lemma VersionsAgree(bytes: seq<Byte>)
    ensures SwiftBase64URL(bytes) == CloudBase64URL(bytes) == URLText(bytes)
    ensures |URLText(bytes)| == (4 * |bytes| + 2) / 3 && |URLText(bytes)| % 4 != 1
  {
    SextetCount(bytes);
    LengthModFour(|bytes|);
    EncodedForURL(bytes);
    URLTextHasNoPadding(bytes);
    RemovePadding(URLText(bytes), SwiftPadding(|Sextets(bytes)|));
    TrimPadding(URLText(bytes), SwiftPadding(|Sextets(bytes)|));
    ToURLIsPointwise(Chars(Sextets(bytes)));
  }

  lemma EncodedForURL(bytes: seq<Byte>)
    ensures ToURL(Encode(bytes)) == URLText(bytes) + Repeat(PAD, SwiftPadding(|Sextets(bytes)|))
  {
    ToURLIsPointwise(Chars(Sextets(bytes)));
    ToURLIsPointwise(Encode(bytes));
  }

  lemma URLTextHasNoPadding(bytes: seq<Byte>)
    ensures forall i :: 0 <= i < |URLText(bytes)| ==> URLText(bytes)[i] != PAD
  {
    var text := Chars(Sextets(bytes));
    ToURLIsPointwise(text);
    ValuesOfChars(Sextets(bytes));
    forall i | 0 <= i < |text| ensures ToURL(text)[i] != PAD {
      assert Value(text[i]).Some?;
    }
  }

  lemma PaddingsAgree(n: nat)
    ensures SwiftPadding(n) == CloudPaddedLength(n) - n && (n + SwiftPadding(n)) % 4 == 0
  {
    assert n == 4 * (n / 4) + n % 4;
  }

  lemma {:induction false} NothingToStrip(text: string)
    requires forall i :: 0 <= i < |text| ==> !IsWhitespace(text[i])
    ensures Strip(text) == text
  {
    if text != "" {
      NothingToStrip(text[1..]);
      assert text == [text[0]] + text[1..];
    }
  }

  predicate HasWhitespace(text: string) {
    exists i :: 0 <= i < |text| && IsWhitespace(text[i])
  }

  lemma FromURLKeepsWhitespace(text: string)
    ensures |FromURL(text)| == |text| &&
            forall i :: 0 <= i < |text| ==> (IsWhitespace(FromURL(text)[i]) <==> IsWhitespace(text[i]))
  {
    Replaced(text, '-', '+');
    Replaced(ReplaceAll(text, '-', '+'), '_', '/');
  }

  lemma QuartetsDropToMore(n: nat, dropped: nat)
    requires n % 4 == 0 && dropped <= 2 && dropped <= n
    ensures (n - dropped) % 4 != 1
  {
    var q := n / 4;
    assert n == 4 * q;
    assert (n - dropped) % 4 == if dropped == 0 then 0 else 4 - dropped;
  }

  /** Without whitespace, `atob` accepts a padded text exactly as Foundation does. */
  lemma PaddedTextsDecodeAlike(text: string)
    requires |text| % 4 == 0 && forall i :: 0 <= i < |text| ==> !IsWhitespace(text[i])
    ensures Atob(text) == Decode(text)
  {
    NothingToStrip(text);
    QuartetsDropToMore(|text|, |text| - |DropPadding(text)|);
  }

  lemma WhitespaceIsForeign(text: string)
    requires HasWhitespace(text)
    ensures Decode(text).None?
  {
    var i :| 0 <= i < |text| && IsWhitespace(text[i]);
    assert text[i] != PAD && Value(text[i]).None?;
    assert i < |DropPadding(text)| && DropPadding(text)[i] == text[i];
  }

  /** The padding formulas agree on every length. The decoders agree on a text if and
      only if it holds no whitespace or, once whitespace and padding are stripped, has
      length 1 modulo 4 or a character outside the alphabet. */
  lemma DecodersAgreeExactlyWhen(text: string)
    ensures SwiftPadding(|text|) == CloudPaddedLength(|text|) - |text|
    ensures var stripped := Unpadded(CloudPadded(text));
            SwiftFromBase64URL(text) == CloudFromBase64URL(text) <==>
            || !HasWhitespace(text) || |stripped| % 4 == 1
            || exists i :: 0 <= i < |stripped| && Value(stripped[i]).None?
  {
    PaddingsAgree(|text|);
    FromURLKeepsWhitespace(text);
    var padded := CloudPadded(text);
    if HasWhitespace(text) {
      var i :| 0 <= i < |text| && IsWhitespace(text[i]);
      assert IsWhitespace(padded[i]);
      WhitespaceIsForeign(padded);
    } else {
      PaddedTextsDecodeAlike(padded);
    }
  }

  lemma ThreeSextetsDecode(text: string, v: Sextet)
    requires |text| == 3 && forall i :: 0 <= i < 3 ==> Value(text[i]) == Some(v)
    ensures InAlphabet(text) && Bytes(Values(text)) == [High(v, v), Middle(v, v)]
  {
    assert Values(text) == [v, v, v];
  }

  /** A space before three characters of the alphabet. */
  predicate IsSpaced(text: string, v: Sextet) {
    |text| == 4 && text[0] == ' ' && forall i :: 1 <= i < 4 ==> Value(text[i]) == Some(v)
  }

  lemma SpacedStrips(text: string, v: Sextet)
    requires IsSpaced(text, v)
    ensures Strip(text) == text[1..]
  {
    var rest := text[1..];
    assert forall i :: 0 <= i < 3 ==> rest[i] == text[i + 1];
    forall i | 0 <= i < 3 ensures !IsWhitespace(rest[i]) {
      assert Value(rest[i]).Some?;
    }
    NothingToStrip(rest);
    assert Strip(text) == "" + Strip(rest);
  }

  lemma SpacedIsForgiven(text: string, v: Sextet)
    requires IsSpaced(text, v)
    ensures Atob(text) == Some([High(v, v), Middle(v, v)])
  {
    SpacedStrips(text, v);
    assert |text[1..]| == 3 && Unpadded(text) == text[1..];
    ThreeSextetsDecode(text[1..], v);
  }

  lemma SpacedIsItsOwnPadding(text: string, v: Sextet)
    requires IsSpaced(text, v)
    ensures CloudPadded(text) == text && SwiftPadding(|text|) == 0 && HasWhitespace(text)
    ensures FromURL(text) + Repeat(PAD, 0) == text
  {
    Replaced(text, '-', '+');
    Replaced(ReplaceAll(text, '-', '+'), '_', '/');
    forall i | 0 <= i < 4 ensures FromURL(text)[i] == text[i] {
      assert i > 0 ==> Value(text[i]).Some?;
    }
    assert FromURL(text) == text;
  }

  /** Such texts exist: the cloud skips the space and reads two bytes. */
  lemma WhitespaceDivides(text: string, v: Sextet)
    requires IsSpaced(text, v)
    ensures CloudFromBase64URL(text) == Some([High(v, v), Middle(v, v)]) && SwiftFromBase64URL(text).None?
  {
    SpacedIsItsOwnPadding(text, v);
    SpacedIsForgiven(text, v);
    WhitespaceIsForeign(text);
  }

  lemma OneSpacedText()
    ensures IsSpaced(" AAA", 0)
  {
  }

  /** decode(encode(b)) == b, for every byte sequence and across both programs. */
  lemma RoundTrip(bytes: seq<Byte>)
    ensures SwiftFromBase64URL(SwiftBase64URL(bytes)) == Some(bytes)
    ensures CloudFromBase64URL(CloudBase64URL(bytes)) == Some(bytes)
    ensures SwiftFromBase64URL(CloudBase64URL(bytes)) == CloudFromBase64URL(SwiftBase64URL(bytes)) == Some(bytes)
  {
    VersionsAgree(bytes);
    URLTextReturns(bytes);
    URLTextHasNoWhitespace(bytes);
    DecodersAgreeExactlyWhen(URLText(bytes));
  }

  lemma URLTextHasNoWhitespace(bytes: seq<Byte>)
    ensures !HasWhitespace(URLText(bytes))
  {
    var text := Chars(Sextets(bytes));
    ToURLIsPointwise(text);
    ValuesOfChars(Sextets(bytes));
    forall i | 0 <= i < |text| ensures !IsWhitespace(ToURL(text)[i]) {
      assert Value(text[i]).Some?;
    }
  }

  lemma URLTextReturns(bytes: seq<Byte>)
    ensures SwiftFromBase64URL(URLText(bytes)) == Some(bytes)
  {
    var text := Chars(Sextets(bytes));
    ValuesOfChars(Sextets(bytes));
    LengthsAreNeverOneModFour(bytes);
    FromURLUndoesToURL(text);
    ToURLIsPointwise(text);
    DropAddedPadding(text);
    BytesOfSextets(bytes);
  }

  /** So different byte sequences never share a text. */
  lemma EncodingIsInjective(x: seq<Byte>, y: seq<Byte>)
    requires SwiftBase64URL(x) == SwiftBase64URL(y)
    ensures x == y
  {
    RoundTrip(x);
    RoundTrip(y);
  }

  lemma EncodeIs(bytes: seq<Byte>, sextets: seq<Sextet>, text: string)
    requires Sextets(bytes) == sextets && |text| == |sextets| &&
             forall i :: 0 <= i < |text| ==> text[i] == Char(sextets[i])
    ensures Encode(bytes) == text + Repeat(PAD, SwiftPadding(|text|))
  {
    assert Chars(sextets) == text;
  }

  /** Two of the vectors in section 10 of RFC 4648, "f" and "foo". */
  lemma StandardExamples()
    ensures Encode([102]) == "Zg" + "==" && Encode([102, 111, 111]) == "Zm9v" + ""
  {
    EncodeIs([102], [25, 32], "Zg");
    assert Repeat(PAD, 2) == "==" && Repeat(PAD, 0) == "";
    ThreeSextets(102, 111, 111);
    EncodeIs([102, 111, 111], [25, 38, 61, 47], "Zm9v");
  }

  lemma ThreeSextets(x: Byte, y: Byte, z: Byte)
    ensures Sextets([x, y, z]) == [First(x), Second(x, y), Third(y, z), Fourth(z)]
  {
  }

  // ----------------------------------------------------------------- the program

  function Codes(binary: string): seq<Byte>
    requires forall i :: 0 <= i < |binary| ==> binary[i] as int < 256
  {
    seq(|binary|, i requires 0 <= i < |binary| => binary[i] as int)
  }

  /** The cloud builds a binary string first, one character per byte. */
  method Base64URL(bytes: seq<Byte>) returns (text: string)
    ensures text == URLText(bytes)
  {
    var binary := "";
    for i := 0 to |bytes|
      invariant |binary| == i && forall k :: 0 <= k < i ==> binary[k] as int == bytes[k]
    {
      binary := binary + [bytes[i] as char];
    }
    assert Codes(binary) == bytes;
    VersionsAgree(bytes);
    text := TrimEnd(ToURL(Encode(Codes(binary))), PAD);
  }
}
