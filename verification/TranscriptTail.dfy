/** Reading an append-only transcript in bounded chunks: which lines are handed to
    the parser, at which offsets, and how the stored offset moves. The program
    decodes a chunk before it measures it; a text stands here for its UTF-8 bytes. */
module TranscriptTail {
  import opened Keys

  /** A byte, by its number. */
  type Byte = int

  const NEWLINE: Byte := 10
  const INITIAL_HEAD_BYTES := 64 * 1024
  const INITIAL_TAIL_BYTES := 512 * 1024
  const INCREMENTAL_BYTES := 2 * 1024 * 1024

  datatype Line = Line(offset: nat, text: seq<Byte>)

  // ------------------------------------------------------------- decoding a chunk

  predicate IsContinuation(b: Byte) {
    0x80 <= b <= 0xBF
  }

  /** How many continuation bytes a first byte asks for (table 3-7 of the Unicode
      Standard), -1 when no character starts with it. */
  function Follows(first: Byte): int {
    if 0 <= first < 0x80 then 0
    else if 0xC2 <= first <= 0xDF then 1
    else if 0xE0 <= first <= 0xEF then 2
    else if 0xF0 <= first <= 0xF4 then 3
    else -1
  }

  predicate SecondFits(first: Byte, second: Byte) {
    && IsContinuation(second)
    && (first == 0xE0 ==> second >= 0xA0) && (first == 0xED ==> second <= 0x9F)
    && (first == 0xF0 ==> second >= 0x90) && (first == 0xF4 ==> second <= 0x8F)
  }

  /** The length of the character at the front, or of the longest part of one. */
  function Taken(bytes: seq<Byte>): (n: nat)
    requires bytes != []
    ensures 1 <= n <= |bytes| && forall i :: 1 <= i < n ==> IsContinuation(bytes[i])
  {
    var follows := Follows(bytes[0]);
    if follows < 1 || |bytes| < 2 || !SecondFits(bytes[0], bytes[1]) then 1
    else if follows == 1 || |bytes| < 3 || !IsContinuation(bytes[2]) then 2
    else if follows == 2 || |bytes| < 4 || !IsContinuation(bytes[3]) then 3
    else 4
  }

  predicate IsCharacter(bytes: seq<Byte>)
    requires bytes != []
  {
    Taken(bytes) == Follows(bytes[0]) + 1
  }

  const REPLACEMENT: seq<Byte> := [0xEF, 0xBF, 0xBD]

  /** `toString("utf8")`: every part of a character that is not whole becomes
      U+FFFD, which measures three bytes whatever it stands for. */
  function Decoded(bytes: seq<Byte>): seq<Byte> {
    if bytes == [] then []
    else (if IsCharacter(bytes) then bytes[..Taken(bytes)] else REPLACEMENT) + Decoded(bytes[Taken(bytes)..])
  }

  ghost predicate WellFormed(bytes: seq<Byte>) {
    bytes == [] || (IsCharacter(bytes) && WellFormed(bytes[Taken(bytes)..]))
  }

  /** The program reads decoded text; exact reading would measure the file itself. */
  datatype Reading = Exact | Utf8

  function Read(reading: Reading, bytes: seq<Byte>): seq<Byte> {
    if reading.Exact? then bytes else Decoded(bytes)
  }

  // ------------------------------------------------------------------ one chunk

  /** The first newline at or after `at`, the length of the text when there is none. */
  function NewlineFrom(text: seq<Byte>, at: nat): (i: nat)
    requires at <= |text|
    ensures at <= i <= |text| && (i < |text| ==> text[i] == NEWLINE)
    ensures forall k :: at <= k < i ==> text[k] != NEWLINE
    decreases |text| - at
  {
    if at == |text| || text[at] == NEWLINE then at else NewlineFrom(text, at + 1)
  }

  /** The newline-terminated lines of a chunk from position `at` on; the chunk
      itself begins at byte `start` of the file. */
  function LinesFrom(text: seq<Byte>, at: nat, start: nat): seq<Line>
    requires at <= |text|
    decreases |text| - at
  {
    var i := NewlineFrom(text, at);
    if i == |text| then [] else [Line(start + at, text[at..i])] + LinesFrom(text, i + 1, start)
  }

  /** The first `n` bytes up to and including their last newline. */
  function ConsumedOf(text: seq<Byte>, n: nat): (r: nat)
    requires n <= |text|
    ensures r <= n && (r > 0 ==> text[r - 1] == NEWLINE)
    ensures forall k :: r <= k < n ==> text[k] != NEWLINE
  {
    if n == 0 || text[n - 1] == NEWLINE then n else ConsumedOf(text, n - 1)
  }

  function Consumed(text: seq<Byte>): (n: nat)
    ensures n <= |text|
  {
    ConsumedOf(text, |text|)
  }

  function NonBlank(lines: seq<Line>, blank: seq<Byte> -> bool): seq<Line> {
    if lines == [] then []
    else if blank(lines[0].text) then NonBlank(lines[1..], blank)
    else [lines[0]] + NonBlank(lines[1..], blank)
  }

  /** What one chunk gives the parser; a chunk that may start inside a line gives
      up its first one. */
  function Given(text: seq<Byte>, start: nat, skipFirst: bool, blank: seq<Byte> -> bool): seq<Line> {
    var lines := LinesFrom(text, 0, start);
    NonBlank(if skipFirst && lines != [] then lines[1..] else lines, blank)
  }

  // ------------------------------------------------------------------- the passes

  /** `offset` is the stored one, `given` all that the parser got. */
  datatype Tail = Tail(offset: Option<nat>, given: seq<Line>)

  const UNREAD := Tail(None, [])

  function Min(a: nat, b: nat): nat {
    if a < b then a else b
  }

  function ReadChunk(given: seq<Line>, text: seq<Byte>, start: nat, blank: seq<Byte> -> bool): Tail {
    Tail(Some(start + Consumed(text)), given + Given(text, start, start > 0, blank))
  }

  function TailStart(size: nat, head: nat): nat {
    if size >= INITIAL_TAIL_BYTES && size - INITIAL_TAIL_BYTES > head then size - INITIAL_TAIL_BYTES else head
  }

  /** The head of the file, then its tail; what lies between is left out, and the
      offset moves to the end whatever was torn there. */
  function FirstPass(reading: Reading, given: seq<Line>, file: seq<Byte>, size: nat, blank: seq<Byte> -> bool): Tail
    requires size <= |file|
  {
    var head := Min(size, INITIAL_HEAD_BYTES);
    var start := TailStart(size, head);
    var first := Given(Read(reading, file[..head]), 0, false, blank);
    Tail(Some(size),
         given + first + if size > head then Given(Read(reading, file[start..size]), start, start > 0, blank) else [])
  }

  function NextChunk(file: seq<Byte>, size: nat, start: nat): seq<Byte>
    requires start <= size <= |file|
  {
    file[start..start + Min(size - start, INCREMENTAL_BYTES)]
  }

  /** One pass over the first `size` bytes of the file; a file that shrank is read
      from its beginning. */
  function Pass(reading: Reading, t: Tail, file: seq<Byte>, size: nat, blank: seq<Byte> -> bool): Tail
    requires size <= |file|
  {
    if t.offset.None? then FirstPass(reading, t.given, file, size, blank)
    else
      var start := if size < t.offset.value then 0 else t.offset.value;
      if size == start then t else ReadChunk(t.given, Read(reading, NextChunk(file, size, start)), start, blank)
  }

  /** A schedule: the file as it was at each pass, and the size then seen. */
  datatype Look = Look(file: seq<Byte>, size: nat)

  /** Append-only: each look sees a longer file and no smaller size. */
  predicate Grows(file: seq<Byte>, size: nat, look: Look) {
    file <= look.file && size <= look.size <= |look.file|
  }

  predicate AppendOnly(file: seq<Byte>, size: nat, looks: seq<Look>)
    decreases |looks|
  {
    looks == [] || (Grows(file, size, looks[0]) && AppendOnly(looks[0].file, looks[0].size, looks[1..]))
  }

  predicate HaveSizes(looks: seq<Look>) {
    forall i :: 0 <= i < |looks| ==> looks[i].size <= |looks[i].file|
  }

  function Run(reading: Reading, t: Tail, looks: seq<Look>, blank: seq<Byte> -> bool): Tail
    requires HaveSizes(looks)
    decreases |looks|
  {
    if looks == [] then t else Run(reading, Pass(reading, t, looks[0].file, looks[0].size, blank), looks[1..], blank)
  }

  lemma {:induction false} LooksHaveSizes(file: seq<Byte>, size: nat, looks: seq<Look>)
    requires AppendOnly(file, size, looks)
    ensures HaveSizes(looks)
    decreases |looks|
  {
    if looks != [] {
      LooksHaveSizes(looks[0].file, looks[0].size, looks[1..]);
    }
  }

  // ------------------------------------------------------------- exactly which lines

  /** `line` stands at text[from..], ends in a newline and starts where a line
      starts; position `at` counts as the start of a line. */
  ghost predicate TextAt(text: seq<Byte>, at: nat, from: int, line: seq<Byte>) {
    var to := from + |line|;
    && at <= from && to < |text| && text[to] == NEWLINE && (from > at ==> text[from - 1] == NEWLINE)
    && (forall k :: from <= k < to ==> text[k] != NEWLINE) && text[from..to] == line
  }

  ghost predicate LineOfChunk(text: seq<Byte>, start: nat, line: Line) {
    TextAt(text, 0, line.offset - start, line.text)
  }

  ghost predicate WholeLine(file: seq<Byte>, line: Line) {
    LineOfChunk(file, 0, line)
  }

  lemma FirstText(text: seq<Byte>, at: nat, line: seq<Byte>)
    requires at <= |text|
    ensures var i := NewlineFrom(text, at); TextAt(text, at, at, line) <==> i < |text| && line == text[at..i]
  {
    var i, to := NewlineFrom(text, at), at + |line|;
    if TextAt(text, at, at, line) {
      assert to == i;
    }
  }

  /** Other lines start after a newline, so not before the first one ends. */
  lemma LaterText(text: seq<Byte>, at: nat, from: int, line: seq<Byte>)
    requires at <= |text| && from != at
    ensures var i := NewlineFrom(text, at);
            TextAt(text, at, from, line) <==> i < |text| && TextAt(text, i + 1, from, line)
  {
  }

  lemma {:induction false} LinesAreExact(text: seq<Byte>, at: nat, start: nat, line: Line)
    requires at <= |text|
    ensures line in LinesFrom(text, at, start) <==> TextAt(text, at, line.offset - start, line.text)
    decreases |text| - at
  {
    var i := NewlineFrom(text, at);
    if line.offset - start == at {
      FirstText(text, at, line.text);
    } else {
      LaterText(text, at, line.offset - start, line.text);
    }
    if i < |text| {
      LinesAreExact(text, i + 1, start, line);
    }
  }

  lemma {:induction false} NonBlankIsAFilter(lines: seq<Line>, blank: seq<Byte> -> bool, line: Line)
    ensures line in NonBlank(lines, blank) <==> line in lines && !blank(line.text)
  {
    if lines != [] {
      NonBlankIsAFilter(lines[1..], blank, line);
    }
  }

  lemma LinesBeginAtStart(text: seq<Byte>, start: nat, line: Line)
    requires LinesFrom(text, 0, start) != []
    ensures line in LinesFrom(text, 0, start)[1..] <==> line in LinesFrom(text, 0, start) && line.offset != start
  {
    var i := NewlineFrom(text, 0);
    assert LinesFrom(text, 0, start)[1..] == LinesFrom(text, i + 1, start);
    LinesAreExact(text, i + 1, start, line);
  }

  /** Exactly what a chunk hands to the parser: its whole, non-blank lines at
      their offsets, except the one at its start when that one is skipped. */
  lemma ChunkGivesExactly(text: seq<Byte>, start: nat, skipFirst: bool, blank: seq<Byte> -> bool, line: Line)
    ensures line in Given(text, start, skipFirst, blank) <==>
            LineOfChunk(text, start, line) && !blank(line.text) && (skipFirst ==> line.offset != start)
  {
    var lines := LinesFrom(text, 0, start);
    LinesAreExact(text, 0, start, line);
    if skipFirst && lines != [] {
      LinesBeginAtStart(text, start, line);
      NonBlankIsAFilter(lines[1..], blank, line);
    } else {
      NonBlankIsAFilter(lines, blank, line);
    }
  }

  // ------------------------------------------------------------------ whole runs

  ghost predicate Increasing(lines: seq<Line>) {
    forall i, j :: 0 <= i < j < |lines| ==> lines[i].offset + |lines[i].text| < lines[j].offset
  }

  /** All lines lie between `from` and `to`, newlines included. */
  ghost predicate Within(lines: seq<Line>, from: nat, to: nat) {
    forall i :: 0 <= i < |lines| ==> from <= lines[i].offset && lines[i].offset + |lines[i].text| < to
  }

  lemma {:induction false} LinesIncrease(text: seq<Byte>, at: nat, start: nat)
    requires at <= |text|
    ensures Increasing(LinesFrom(text, at, start)) && Within(LinesFrom(text, at, start), start + at, start + |text|)
    decreases |text| - at
  {
    var i := NewlineFrom(text, at);
    if i < |text| {
      LinesIncrease(text, i + 1, start);
    }
  }

  lemma {:induction false} NonBlankIncreases(lines: seq<Line>, blank: seq<Byte> -> bool, from: nat, to: nat)
    requires Increasing(lines) && Within(lines, from, to)
    ensures Increasing(NonBlank(lines, blank)) && Within(NonBlank(lines, blank), from, to)
  {
    if lines != [] {
      var rest, kept := lines[1..], NonBlank(lines[1..], blank);
      assert forall i :: 0 <= i < |rest| ==> rest[i] == lines[i + 1];
      NonBlankIncreases(rest, blank, from, to);
      forall i | 0 <= i < |kept| ensures lines[0].offset + |lines[0].text| < kept[i].offset {
        assert kept[i] in kept;
        NonBlankIsAFilter(rest, blank, kept[i]);
      }
    }
  }

  lemma NewlinesAreConsumed(text: seq<Byte>, k: nat)
    requires k < |text| && text[k] == NEWLINE
    ensures k < Consumed(text)
  {
  }

  lemma EndsBeforeConsumed(text: seq<Byte>, from: int, line: seq<Byte>)
    requires TextAt(text, 0, from, line)
    ensures from + |line| < Consumed(text)
  {
    var to := from + |line|;
    assert text[to] == NEWLINE;
    NewlinesAreConsumed(text, to);
  }

  lemma GivenIncreases(text: seq<Byte>, start: nat, skipFirst: bool, blank: seq<Byte> -> bool)
    ensures Increasing(Given(text, start, skipFirst, blank))
    ensures Within(Given(text, start, skipFirst, blank), start, start + |text|)
  {
    var all := LinesFrom(text, 0, start);
    LinesIncrease(text, 0, start);
    var used := if skipFirst && all != [] then all[1..] else all;
    assert skipFirst && all != [] ==> forall i :: 0 <= i < |used| ==> used[i] == all[i + 1];
    NonBlankIncreases(used, blank, start, start + |text|);
  }

  lemma GivenIsConsumed(text: seq<Byte>, start: nat, skipFirst: bool, blank: seq<Byte> -> bool)
    ensures Within(Given(text, start, skipFirst, blank), start, start + Consumed(text))
  {
    var lines := Given(text, start, skipFirst, blank);
    GivenIncreases(text, start, skipFirst, blank);
    forall i | 0 <= i < |lines| ensures lines[i].offset + |lines[i].text| < start + Consumed(text) {
      assert lines[i] in lines;
      ChunkGivesExactly(text, start, skipFirst, blank, lines[i]);
      EndsBeforeConsumed(text, lines[i].offset - start, lines[i].text);
    }
  }

  lemma TextAtOfSlice(file: seq<Byte>, start: nat, text: seq<Byte>, from: int, line: seq<Byte>)
    requires ChunkOf(file, start, text) && TextAt(text, 0, from, line) && (start == 0 || from != 0)
    ensures TextAt(file, 0, start + from, line)
  {
    var to := from + |line|;
    assert forall k :: 0 <= k < |text| ==> text[k] == file[start + k];
    forall k | start + from <= k < start + to ensures file[k] != NEWLINE {
      assert text[k - start] != NEWLINE;
    }
    assert file[start + from..start + to] == text[from..to];
  }

  /** `text` is what the file holds from `start` on. */
  predicate ChunkOf(file: seq<Byte>, start: nat, text: seq<Byte>) {
    start + |text| <= |file| && text == file[start..start + |text|]
  }

  /** A chunk of the file gives whole lines of the file, at their true offsets. */
  lemma ChunkGivesWholeLines(file: seq<Byte>, start: nat, text: seq<Byte>, blank: seq<Byte> -> bool, line: Line)
    requires ChunkOf(file, start, text) && line in Given(text, start, start > 0, blank)
    ensures WholeLine(file, line) && !blank(line.text)
  {
    ChunkGivesExactly(text, start, start > 0, blank, line);
    TextAtOfSlice(file, start, text, line.offset - start, line.text);
  }

  lemma WholeLineOfLonger(file: seq<Byte>, longer: seq<Byte>, line: Line)
    requires file <= longer && WholeLine(file, line)
    ensures WholeLine(longer, line)
  {
    assert forall k :: 0 <= k < |file| ==> file[k] == longer[k];
    assert longer[line.offset..line.offset + |line.text|] == file[line.offset..line.offset + |line.text|];
  }

  ghost predicate AllWhole(file: seq<Byte>, lines: seq<Line>, blank: seq<Byte> -> bool) {
    forall i :: 0 <= i < |lines| ==> WholeLine(file, lines[i]) && !blank(lines[i].text)
  }

  /** Whole lines of the file, in order, between two offsets. */
  ghost predicate LinesOk(file: seq<Byte>, lines: seq<Line>, from: nat, to: nat, blank: seq<Byte> -> bool) {
    AllWhole(file, lines, blank) && Increasing(lines) && Within(lines, from, to)
  }

  ghost predicate TailOk(t: Tail, file: seq<Byte>, size: nat, blank: seq<Byte> -> bool) {
    if t.offset.None? then t.given == [] else t.offset.value <= size && LinesOk(file, t.given, 0, t.offset.value, blank)
  }

  lemma JoinLines(file: seq<Byte>, a: seq<Line>, b: seq<Line>, from: nat, middle: nat, end: nat,
                  blank: seq<Byte> -> bool)
    requires LinesOk(file, a, from, middle, blank) && LinesOk(file, b, middle, end, blank) && from <= middle <= end
    ensures LinesOk(file, a + b, from, end, blank)
  {
  }

  lemma WiderLines(file: seq<Byte>, lines: seq<Line>, from: nat, to: nat, low: nat, high: nat, blank: seq<Byte> -> bool)
    requires LinesOk(file, lines, from, to, blank) && low <= from && to <= high
    ensures LinesOk(file, lines, low, high, blank)
  {
  }

  lemma ChunkIsOk(file: seq<Byte>, start: nat, text: seq<Byte>, blank: seq<Byte> -> bool)
    returns (lines: seq<Line>, end: nat)
    requires ChunkOf(file, start, text)
    ensures lines == Given(text, start, start > 0, blank) && end == start + Consumed(text)
    ensures LinesOk(file, lines, start, end, blank) && end <= start + |text|
  {
    lines, end := Given(text, start, start > 0, blank), start + Consumed(text);
    GivenIncreases(text, start, start > 0, blank);
    GivenIsConsumed(text, start, start > 0, blank);
    forall i | 0 <= i < |lines| ensures WholeLine(file, lines[i]) && !blank(lines[i].text) {
      assert lines[i] in lines;
      ChunkGivesWholeLines(file, start, text, blank, lines[i]);
    }
  }

  lemma FirstPassIsOk(file: seq<Byte>, size: nat, blank: seq<Byte> -> bool)
    requires size <= |file|
    ensures TailOk(FirstPass(Exact, [], file, size, blank), file, size, blank)
  {
    var head := Min(size, INITIAL_HEAD_BYTES);
    var first := HeadIsOk(file, head, blank);
    if size > head {
      var last := TailIsOk(file, head, TailStart(size, head), size, blank);
      JoinLines(file, first, last, 0, head, size, blank);
      FirstPassIs(file, size, blank, first, last);
    } else {
      FirstPassIs(file, size, blank, first, []);
    }
  }

  lemma FirstPassIs(file: seq<Byte>, size: nat, blank: seq<Byte> -> bool, first: seq<Line>, last: seq<Line>)
    requires size <= |file|
    requires var head := Min(size, INITIAL_HEAD_BYTES);
             var start := TailStart(size, head);
             && first == Given(file[..head], 0, false, blank)
             && last == if size > head then Given(file[start..size], start, start > 0, blank) else []
    ensures FirstPass(Exact, [], file, size, blank) == Tail(Some(size), first + last)
    ensures last == [] ==> FirstPass(Exact, [], file, size, blank) == Tail(Some(size), first)
  {
    assert [] + first == first && first + [] == first;
  }

  lemma HeadIsOk(file: seq<Byte>, head: nat, blank: seq<Byte> -> bool) returns (first: seq<Line>)
    requires head <= |file|
    ensures first == Given(file[..head], 0, false, blank) && LinesOk(file, first, 0, head, blank)
  {
    var end: nat;
    first, end := ChunkIsOk(file, 0, file[..head], blank);
    WiderLines(file, first, 0, end, 0, head, blank);
  }

  lemma TailIsOk(file: seq<Byte>, head: nat, start: nat, size: nat, blank: seq<Byte> -> bool) returns (last: seq<Line>)
    requires head <= start <= size <= |file|
    ensures last == Given(file[start..size], start, start > 0, blank) && LinesOk(file, last, head, size, blank)
  {
    var end: nat;
    last, end := ChunkIsOk(file, start, file[start..size], blank);
    WiderLines(file, last, start, end, head, size, blank);
  }

  lemma LinesOfLonger(file: seq<Byte>, longer: seq<Byte>, lines: seq<Line>, from: nat, to: nat,
                      blank: seq<Byte> -> bool)
    requires file <= longer && LinesOk(file, lines, from, to, blank)
    ensures LinesOk(longer, lines, from, to, blank)
  {
    forall i | 0 <= i < |lines| ensures WholeLine(longer, lines[i]) {
      WholeLineOfLonger(file, longer, lines[i]);
    }
  }

  lemma ChunkReadIsOk(given: seq<Line>, start: nat, text: seq<Byte>, file: seq<Byte>, size: nat,
                      blank: seq<Byte> -> bool)
    requires ChunkOf(file, start, text) && start + |text| <= size && LinesOk(file, given, 0, start, blank)
    ensures var next := ReadChunk(given, text, start, blank);
            TailOk(next, file, size, blank) && next.offset.Some? && next.offset.value >= start
  {
    var lines, end := ChunkIsOk(file, start, text, blank);
    JoinLines(file, given, lines, 0, start, end, blank);
  }

  lemma LaterPassIsOk(t: Tail, file: seq<Byte>, size: nat, look: Look, blank: seq<Byte> -> bool)
    requires TailOk(t, file, size, blank) && t.offset.Some? && Grows(file, size, look)
    ensures var next := Pass(Exact, t, look.file, look.size, blank);
            TailOk(next, look.file, look.size, blank) && next.offset.Some? && next.offset.value >= t.offset.value
  {
    var start := t.offset.value;
    LinesOfLonger(file, look.file, t.given, 0, start, blank);
    if look.size > start {
      ChunkReadIsOk(t.given, start, NextChunk(look.file, look.size, start), look.file, look.size, blank);
    }
  }

  /** What the last look saw. */
  function LastLook(seen: Look, looks: seq<Look>): Look
    decreases |looks|
  {
    if looks == [] then seen else LastLook(looks[0], looks[1..])
  }

  lemma PassIsOk(t: Tail, seen: Look, look: Look, blank: seq<Byte> -> bool)
    requires TailOk(t, seen.file, seen.size, blank) && Grows(seen.file, seen.size, look)
    ensures TailOk(Pass(Exact, t, look.file, look.size, blank), look.file, look.size, blank)
  {
    if t.offset.None? {
      assert t == UNREAD;
      FirstPassIsOk(look.file, look.size, blank);
    } else {
      LaterPassIsOk(t, seen.file, seen.size, look, blank);
    }
  }

  lemma {:induction false} RunIsOk(t: Tail, seen: Look, looks: seq<Look>, blank: seq<Byte> -> bool)
    requires TailOk(t, seen.file, seen.size, blank) && AppendOnly(seen.file, seen.size, looks) &&
             seen.size <= |seen.file|
    requires HaveSizes(looks)
    ensures var last := LastLook(seen, looks);
            last.size <= |last.file| && TailOk(Run(Exact, t, looks, blank), last.file, last.size, blank)
    decreases |looks|
  {
    if looks != [] {
      PassIsOk(t, seen, looks[0], blank);
      RunIsOk(Pass(Exact, t, looks[0].file, looks[0].size, blank), looks[0], looks[1..], blank);
    }
  }

  const NOTHING := Look([], 0)

  /** Read exactly, for any schedule of growth and passes: the parser only gets
      whole, non-blank lines at their byte offsets, none of them twice, and the
      stored offset never passes the size last seen. */
  lemma ExactReadingGetsWholeLinesOnce(looks: seq<Look>, blank: seq<Byte> -> bool)
    requires AppendOnly([], 0, looks) && HaveSizes(looks)
    ensures var t, last := Run(Exact, UNREAD, looks, blank), LastLook(NOTHING, looks);
            if t.offset.None? then t.given == []
            else t.offset.value <= last.size && LinesOk(last.file, t.given, 0, t.offset.value, blank)
  {
    RunIsOk(UNREAD, NOTHING, looks, blank);
  }

  // ------------------------------------------------------------ what decoding costs

  lemma {:induction false} NewlinesSurvive(bytes: seq<Byte>)
    ensures NEWLINE in Decoded(bytes) <==> NEWLINE in bytes
  {
    if bytes != [] {
      var n := Taken(bytes);
      NewlinesSurvive(bytes[n..]);
      assert bytes == bytes[..n] + bytes[n..];
      assert NEWLINE in bytes[..n] <==> bytes[0] == NEWLINE;
    }
  }

  /** Where no continuation byte stands, a well-formed text can be cut. */
  predicate IsBoundary(bytes: seq<Byte>, at: nat) {
    at >= |bytes| || !IsContinuation(bytes[at])
  }

  lemma {:induction false} WellFormedFrom(bytes: seq<Byte>, at: nat)
    requires WellFormed(bytes) && at <= |bytes| && IsBoundary(bytes, at)
    ensures WellFormed(bytes[at..])
  {
    if at == 0 {
      assert bytes[at..] == bytes;
    } else {
      var n := Taken(bytes);
      assert at >= n;
      assert bytes[n..][at - n..] == bytes[at..];
      WellFormedFrom(bytes[n..], at - n);
    }
  }

  lemma AfterNewlineIsBoundary(bytes: seq<Byte>, at: nat)
    requires WellFormed(bytes) && 0 < at <= |bytes| && bytes[at - 1] == NEWLINE
    ensures IsBoundary(bytes, at)
  {
    WellFormedFrom(bytes, at - 1);
    var rest := bytes[at - 1..];
    assert Taken(rest) == 1 && rest[1..] == bytes[at..];
  }

  /** A whole character is read the same wherever the chunk ends behind it. */
  lemma SameCharacter(bytes: seq<Byte>, part: seq<Byte>)
    requires bytes != [] && IsCharacter(bytes) && Taken(bytes) <= |part| && part <= bytes
    ensures part != [] && IsCharacter(part) && Taken(part) == Taken(bytes)
  {
    assert forall i :: 0 <= i < |part| ==> part[i] == bytes[i];
  }

  lemma JoinBytes(a: seq<Byte>, b: seq<Byte>, c: seq<Byte>)
    ensures a + (b + c) == (a + b) + c
  {
  }

  lemma CutTwice(bytes: seq<Byte>, n: nat, m: nat)
    requires n <= m <= |bytes|
    ensures bytes[..n] + bytes[n..][..m - n] == bytes[..m] && bytes[n..][m - n..] == bytes[m..]
  {
  }

  lemma PrefixBehind(part: seq<Byte>, bytes: seq<Byte>, n: nat)
    requires part <= bytes && n <= |part|
    ensures part[n..] <= bytes[n..]
  {
    assert part[n..] == bytes[n..][..|part| - n];
  }

  /** A newline ends no character but its own. */
  lemma CharacterEndsByNewline(bytes: seq<Byte>, m: nat)
    requires 0 < m <= |bytes| && bytes[m - 1] == NEWLINE
    ensures Taken(bytes) <= m
  {
  }

  /** Up to any newline, the part of a well-formed text is decoded as it stands. */
  lemma {:induction false} DecodedCopies(bytes: seq<Byte>, part: seq<Byte>, m: nat)
    requires WellFormed(bytes) && part <= bytes && m <= |part| && (m > 0 ==> part[m - 1] == NEWLINE)
    ensures Decoded(part) == part[..m] + Decoded(part[m..])
    decreases |bytes|
  {
    if m == 0 {
      assert part[..0] == [] && part[0..] == part;
    } else {
      var n := Taken(bytes);
      CharacterEndsByNewline(bytes, m);
      SameCharacter(bytes, part);
      PrefixBehind(part, bytes, n);
      DecodedCopies(bytes[n..], part[n..], m - n);
      CutTwice(part, n, m);
      JoinBytes(part[..n], part[n..][..m - n], Decoded(part[m..]));
    }
  }

  /** How many bytes at the front belong to a character cut before them. */
  function Torn(chunk: seq<Byte>): (k: nat)
    ensures k <= |chunk| && forall i :: 0 <= i < k ==> IsContinuation(chunk[i])
    ensures k < |chunk| ==> !IsContinuation(chunk[k])
  {
    if chunk == [] || !IsContinuation(chunk[0]) then 0 else 1 + Torn(chunk[1..])
  }

  function Replacements(k: nat): (r: seq<Byte>)
    ensures |r| == 3 * k && NEWLINE !in r
  {
    if k == 0 then [] else REPLACEMENT + Replacements(k - 1)
  }

  lemma ContinuationIsReplaced(chunk: seq<Byte>)
    requires chunk != [] && IsContinuation(chunk[0])
    ensures Decoded(chunk) == REPLACEMENT + Decoded(chunk[1..])
  {
  }

  lemma {:induction false} TornIsReplaced(chunk: seq<Byte>, k: nat)
    requires k <= |chunk| && forall i :: 0 <= i < k ==> IsContinuation(chunk[i])
    ensures Decoded(chunk) == Replacements(k) + Decoded(chunk[k..])
    decreases k
  {
    if k == 0 {
      assert chunk[0..] == chunk;
    } else {
      ContinuationIsReplaced(chunk);
      TornIsReplaced(chunk[1..], k - 1);
      CutTwice(chunk, 1, k);
      JoinBytes(REPLACEMENT, Replacements(k - 1), Decoded(chunk[k..]));
    }
  }

  // Lines behind a prefix without newline, and lines that agree up to the last one.

  lemma {:induction false} NewlineBehind(prefix: seq<Byte>, text: seq<Byte>, at: nat)
    requires at <= |text|
    ensures NewlineFrom(prefix + text, |prefix| + at) == |prefix| + NewlineFrom(text, at)
  {
    var i := NewlineFrom(text, at);
    assert forall k :: 0 <= k < |text| ==> (prefix + text)[|prefix| + k] == text[k];
  }

  lemma {:induction false} LinesBehind(prefix: seq<Byte>, text: seq<Byte>, at: nat, start: nat, all: seq<Byte>,
                                       place: nat, from: nat)
    requires at <= |text| && all == prefix + text && place == |prefix| + at && from == start + |prefix|
    ensures LinesFrom(all, place, start) == LinesFrom(text, at, from)
    decreases |text| - at
  {
    var i, j := NewlineFrom(text, at), NewlineFrom(all, place);
    NewlineBehind(prefix, text, at);
    assert j == |prefix| + i;
    if i < |text| {
      assert all[place..j] == text[at..i];
      LinesBehind(prefix, text, i + 1, start, all, j + 1, from);
    }
  }

  function Shifted(lines: seq<Line>, d: nat): seq<Line> {
    if lines == [] then [] else [lines[0].(offset := lines[0].offset + d)] + Shifted(lines[1..], d)
  }

  lemma {:induction false} LinesShift(text: seq<Byte>, at: nat, start: nat, d: nat)
    requires at <= |text|
    ensures LinesFrom(text, at, start + d) == Shifted(LinesFrom(text, at, start), d)
    decreases |text| - at
  {
    var i := NewlineFrom(text, at);
    if i < |text| {
      LinesShift(text, i + 1, start, d);
      var first, rest := Line(start + at, text[at..i]), LinesFrom(text, i + 1, start);
      assert ([first] + rest)[1..] == rest;
    }
  }

  lemma {:induction false} NonBlankShifts(lines: seq<Line>, blank: seq<Byte> -> bool, d: nat)
    ensures NonBlank(Shifted(lines, d), blank) == Shifted(NonBlank(lines, blank), d)
  {
    if lines != [] {
      var first, rest := lines[0].(offset := lines[0].offset + d), Shifted(lines[1..], d);
      assert ([first] + rest)[1..] == rest;
      NonBlankShifts(lines[1..], blank, d);
      var kept := NonBlank(lines[1..], blank);
      assert ([lines[0]] + kept)[1..] == kept;
    }
  }

  lemma {:induction false} ShiftByNothing(lines: seq<Line>)
    ensures Shifted(lines, 0) == lines
  {
    if lines != [] {
      ShiftByNothing(lines[1..]);
    }
  }

  /** `n` is where both texts have their last newline, and they agree up to it. */
  ghost predicate AgreeUpTo(x: seq<Byte>, y: seq<Byte>, n: nat) {
    && n <= |x| && n <= |y| && x[..n] == y[..n] && (n > 0 ==> x[n - 1] == NEWLINE)
    && NEWLINE !in x[n..] && NEWLINE !in y[n..]
  }

  lemma AgreeAt(x: seq<Byte>, y: seq<Byte>, n: nat, k: nat)
    requires AgreeUpTo(x, y, n)
    ensures k < n ==> x[k] == y[k]
    ensures n <= k < |x| ==> x[k] != NEWLINE
    ensures n <= k < |y| ==> y[k] != NEWLINE
  {
    assert k < n ==> x[k] == x[..n][k] && y[k] == y[..n][k];
    assert n <= k < |x| ==> x[k] == x[n..][k - n];
    assert n <= k < |y| ==> y[k] == y[n..][k - n];
  }

  lemma FirstNewlineAgrees(x: seq<Byte>, y: seq<Byte>, n: nat, at: nat)
    requires AgreeUpTo(x, y, n) && at < n
    ensures NewlineFrom(x, at) == NewlineFrom(y, at) < n
    ensures x[at..NewlineFrom(x, at)] == y[at..NewlineFrom(x, at)]
  {
    var i, j := NewlineFrom(x, at), NewlineFrom(y, at);
    assert i <= n - 1;
    AgreeAt(x, y, n, n - 1);
    AgreeAt(x, y, n, i);
    AgreeAt(x, y, n, j);
    assert j <= n - 1;
    assert i == j;
    assert x[at..i] == x[..n][at..i] && y[at..i] == y[..n][at..i];
  }

  lemma NoLinesAtTheEnd(text: seq<Byte>, at: nat, start: nat)
    requires at <= |text| && NEWLINE !in text[at..]
    ensures LinesFrom(text, at, start) == []
  {
    assert forall k :: at <= k < |text| ==> text[k] == text[at..][k - at];
  }

  lemma {:induction false} LinesAgree(x: seq<Byte>, y: seq<Byte>, n: nat, at: nat, start: nat)
    requires AgreeUpTo(x, y, n) && at <= n
    ensures LinesFrom(x, at, start) == LinesFrom(y, at, start)
    decreases n - at
  {
    if at == n {
      NoLinesAtTheEnd(x, n, start);
      NoLinesAtTheEnd(y, n, start);
    } else {
      FirstNewlineAgrees(x, y, n, at);
      LinesAgree(x, y, n, NewlineFrom(x, at) + 1, start);
    }
  }

  lemma ConsumedIs(text: seq<Byte>, n: nat)
    requires n <= |text| && (n > 0 ==> text[n - 1] == NEWLINE) && NEWLINE !in text[n..]
    ensures Consumed(text) == n
  {
    assert forall k :: n <= k < |text| ==> text[k] == text[n..][k - n];
  }

  /** A part that begins where a well-formed text does is decoded as it stands up
      to its last newline. */
  lemma UntornAgrees(bytes: seq<Byte>, part: seq<Byte>)
    requires WellFormed(bytes) && part <= bytes
    ensures AgreeUpTo(part, Decoded(part), Consumed(part))
  {
    var n, rest := Consumed(part), Decoded(part[Consumed(part)..]);
    DecodedCopies(bytes, part, n);
    assert NEWLINE !in part[n..];
    NewlinesSurvive(part[n..]);
    assert Decoded(part)[..n] == part[..n] && Decoded(part)[n..] == rest;
  }

  lemma ChunkBehind(whole: seq<Byte>, start: nat, chunk: seq<Byte>, k: nat)
    requires ChunkOf(whole, start, chunk) && k < |chunk|
    ensures whole[start + k] == chunk[k] && chunk[k..] <= whole[start + k..]
  {
    assert chunk[k..] == whole[start + k..][..|chunk| - k];
  }

  lemma BehindStarts(whole: seq<Byte>, start: nat, chunk: seq<Byte>, k: nat)
    requires WellFormed(whole) && ChunkOf(whole, start, chunk) && k < |chunk| && !IsContinuation(chunk[k])
    ensures WellFormed(whole[start + k..]) && chunk[k..] <= whole[start + k..]
  {
    ChunkBehind(whole, start, chunk, k);
    WellFormedFrom(whole, start + k);
  }

  /** What stands behind the torn bytes begins where a character does. */
  lemma BehindTheTear(whole: seq<Byte>, start: nat, chunk: seq<Byte>) returns (rest: seq<Byte>)
    requires WellFormed(whole) && ChunkOf(whole, start, chunk) && NEWLINE in chunk
    ensures Torn(chunk) < |chunk| && rest == chunk[Torn(chunk)..] && NEWLINE in rest
    ensures AgreeUpTo(rest, Decoded(rest), Consumed(rest))
  {
    var k := Torn(chunk);
    var j :| 0 <= j < |chunk| && chunk[j] == NEWLINE;
    assert j >= k;
    rest := chunk[k..];
    assert rest[j - k] == NEWLINE;
    BehindStarts(whole, start, chunk, k);
    UntornAgrees(whole[start + k..], rest);
  }

  lemma UntornGives(start: nat, rest: seq<Byte>, text: seq<Byte>, skipFirst: bool, blank: seq<Byte> -> bool)
    requires AgreeUpTo(rest, text, Consumed(rest))
    ensures Given(text, start, skipFirst, blank) == Given(rest, start, skipFirst, blank) &&
            Consumed(text) == Consumed(rest)
  {
    var n := Consumed(rest);
    LinesAgree(rest, text, n, 0, start);
    assert n > 0 ==> text[n - 1] == text[..n][n - 1];
    ConsumedIs(text, n);
  }

  lemma FirstNewlineBehind(prefix: seq<Byte>, text: seq<Byte>, at: nat)
    requires NEWLINE !in prefix && at <= |prefix|
    ensures NewlineFrom(prefix + text, at) == |prefix| + NewlineFrom(text, 0)
    decreases |prefix| - at
  {
    if at == |prefix| {
      NewlineBehind(prefix, text, 0);
    } else {
      assert (prefix + text)[at] == prefix[at] != NEWLINE;
      FirstNewlineBehind(prefix, text, at + 1);
    }
  }

  lemma ConsumedBehind(prefix: seq<Byte>, text: seq<Byte>)
    requires NEWLINE in text
    ensures Consumed(prefix + text) == |prefix| + Consumed(text)
  {
    var n := Consumed(text);
    ConsumedIsNewline(text);
    assert (prefix + text)[|prefix| + n..] == text[n..];
    assert (prefix + text)[|prefix| + n - 1] == text[n - 1];
    ConsumedIs(prefix + text, |prefix| + n);
  }

  lemma WantedBehind(prefix: seq<Byte>, text: seq<Byte>, at: nat, start: nat, all: seq<Byte>, place: nat, from: nat,
                     blank: seq<Byte> -> bool)
    requires at <= |text| && all == prefix + text && place == |prefix| + at && from == start + |prefix|
    ensures Wanted(all, place, start, blank) == Wanted(text, at, from, blank)
  {
    LinesBehind(prefix, text, at, start, all, place, from);
  }

  /** Behind a prefix without newline, the lines after the first are those of the
      text itself. */
  lemma GivenBehind(prefix: seq<Byte>, text: seq<Byte>, all: seq<Byte>, start: nat, from: nat, blank: seq<Byte> -> bool)
    requires NEWLINE !in prefix && NEWLINE in text && all == prefix + text && from == start + |prefix|
    ensures Given(all, start, true, blank) == Given(text, from, true, blank)
  {
    NewlineExists(text);
    FirstNewlineBehind(prefix, text, 0);
    var i, j := NewlineFrom(text, 0), NewlineFrom(all, 0);
    assert j == |prefix| + i;
    WantedBehind(prefix, text, i + 1, start, all, j + 1, from, blank);
    GivenSkips(all, start, blank);
    GivenSkips(text, from, blank);
  }

  lemma GivenSkips(text: seq<Byte>, start: nat, blank: seq<Byte> -> bool)
    requires NewlineFrom(text, 0) < |text|
    ensures Given(text, start, true, blank) == Wanted(text, NewlineFrom(text, 0) + 1, start, blank)
  {
    var first, rest := Line(start, text[0..NewlineFrom(text, 0)]), LinesFrom(text, NewlineFrom(text, 0) + 1, start);
    assert LinesFrom(text, 0, start) == [first] + rest;
    assert ([first] + rest)[1..] == rest;
  }

  lemma NewlineExists(text: seq<Byte>)
    requires NEWLINE in text
    ensures NewlineFrom(text, 0) < |text|
  {
  }

  lemma GivenShifts(text: seq<Byte>, start: nat, skipFirst: bool, blank: seq<Byte> -> bool, d: nat)
    ensures Given(text, start + d, skipFirst, blank) == Shifted(Given(text, start, skipFirst, blank), d)
  {
    var lines := LinesFrom(text, 0, start);
    LinesShift(text, 0, start, d);
    if lines != [] {
      assert Shifted(lines, d)[1..] == Shifted(lines[1..], d);
    }
    NonBlankShifts(if skipFirst && lines != [] then lines[1..] else lines, blank, d);
  }

  /** Of a chunk of a well-formed file: each byte torn from the character before
      the chunk measures three, so everything behind the tear is recorded two bytes
      too far for it. */
  lemma TornChunkShifts(whole: seq<Byte>, start: nat, chunk: seq<Byte>, blank: seq<Byte> -> bool)
    requires WellFormed(whole) && ChunkOf(whole, start, chunk)
    ensures Given(Decoded(chunk), start, start > 0, blank) ==
            Shifted(Given(chunk, start, start > 0, blank), 2 * Torn(chunk))
    ensures Consumed(Decoded(chunk)) == Consumed(chunk) + if NEWLINE in chunk then 2 * Torn(chunk) else 0
  {
    if NEWLINE !in chunk {
      NewlinesSurvive(chunk);
      LinesOfNothing(chunk, start);
      LinesOfNothing(Decoded(chunk), start);
    } else {
      var rest := BehindTheTear(whole, start, chunk);
      if Torn(chunk) == 0 {
        assert chunk[0..] == chunk;
        UntornGives(start, chunk, Decoded(chunk), start > 0, blank);
        ShiftByNothing(Given(chunk, start, start > 0, blank));
      } else {
        assert whole[start] == chunk[0];
        WellFormedStarts(whole);
        TornGives(chunk, rest, start, blank);
        TornConsumes(chunk, rest);
      }
    }
  }

  lemma WellFormedStarts(bytes: seq<Byte>)
    requires WellFormed(bytes)
    ensures IsBoundary(bytes, 0)
  {
  }

  /** The chunk is torn bytes, then text that is decoded as it stands. */
  ghost predicate IsTorn(chunk: seq<Byte>, rest: seq<Byte>) {
    && NEWLINE in chunk && Torn(chunk) < |chunk| && rest == chunk[Torn(chunk)..] && NEWLINE in rest
    && AgreeUpTo(rest, Decoded(rest), Consumed(rest))
  }

  lemma TornParts(chunk: seq<Byte>, rest: seq<Byte>)
    requires IsTorn(chunk, rest)
    ensures chunk == chunk[..Torn(chunk)] + rest && NEWLINE !in chunk[..Torn(chunk)]
    ensures Decoded(chunk) == Replacements(Torn(chunk)) + Decoded(rest) && NEWLINE in Decoded(rest)
  {
    TornIsReplaced(chunk, Torn(chunk));
    NewlinesSurvive(rest);
  }

  lemma TornConsumes(chunk: seq<Byte>, rest: seq<Byte>)
    requires IsTorn(chunk, rest)
    ensures Consumed(Decoded(chunk)) == Consumed(chunk) + 2 * Torn(chunk)
  {
    TornParts(chunk, rest);
    ConsumedBehind(chunk[..Torn(chunk)], rest);
    ConsumedBehind(Replacements(Torn(chunk)), Decoded(rest));
    UntornGives(0, rest, Decoded(rest), false, (_: seq<Byte>) => false);
  }

  lemma RawBehindTear(chunk: seq<Byte>, rest: seq<Byte>, start: nat, near: nat, blank: seq<Byte> -> bool)
    requires IsTorn(chunk, rest) && near == start + Torn(chunk)
    ensures Given(chunk, start, true, blank) == Given(rest, near, true, blank)
  {
    TornParts(chunk, rest);
    GivenBehind(chunk[..Torn(chunk)], rest, chunk, start, near, blank);
  }

  lemma DecodedBehindTear(chunk: seq<Byte>, rest: seq<Byte>, start: nat, far: nat, blank: seq<Byte> -> bool)
    requires IsTorn(chunk, rest) && far == start + 3 * Torn(chunk)
    ensures Given(Decoded(chunk), start, true, blank) == Given(Decoded(rest), far, true, blank)
  {
    TornParts(chunk, rest);
    GivenBehind(Replacements(Torn(chunk)), Decoded(rest), Decoded(chunk), start, far, blank);
  }

  lemma UntornShifts(rest: seq<Byte>, text: seq<Byte>, near: nat, far: nat, d: nat, blank: seq<Byte> -> bool)
    requires AgreeUpTo(rest, text, Consumed(rest)) && far == near + d
    ensures Given(text, far, true, blank) == Shifted(Given(rest, near, true, blank), d)
  {
    UntornGives(far, rest, text, true, blank);
    GivenShifts(rest, near, true, blank, d);
  }

  lemma TornGives(chunk: seq<Byte>, rest: seq<Byte>, start: nat, blank: seq<Byte> -> bool)
    requires IsTorn(chunk, rest)
    ensures Given(Decoded(chunk), start, true, blank) == Shifted(Given(chunk, start, true, blank), 2 * Torn(chunk))
  {
    var near, far := start + Torn(chunk), start + 3 * Torn(chunk);
    RawBehindTear(chunk, rest, start, near, blank);
    DecodedBehindTear(chunk, rest, start, far, blank);
    UntornShifts(rest, Decoded(rest), near, far, 2 * Torn(chunk), blank);
  }

  /** What the program records of a chunk is what the file holds exactly when the
      chunk starts on a boundary of characters or has no newline. */
  lemma ChunkIsExactExactlyWhen(whole: seq<Byte>, start: nat, chunk: seq<Byte>, blank: seq<Byte> -> bool)
    requires WellFormed(whole) && ChunkOf(whole, start, chunk) && chunk != []
    ensures Consumed(Decoded(chunk)) == Consumed(chunk) <==> IsBoundary(whole, start) || NEWLINE !in chunk
    ensures Given(Decoded(chunk), start, start > 0, blank) == Given(chunk, start, start > 0, blank) <==>
            IsBoundary(whole, start) || Given(chunk, start, start > 0, blank) == []
  {
    TornChunkShifts(whole, start, chunk, blank);
    ShiftByNothing(Given(chunk, start, start > 0, blank));
    assert whole[start] == chunk[0];
  }

  // --------------------------------------------------- when the program reads exactly

  /** What a caller can check before a pass: every chunk it reads in the middle of
      the file starts on a boundary of characters, or gives nothing. */
  ghost predicate PassIsClear(t: Tail, file: seq<Byte>, size: nat, blank: seq<Byte> -> bool)
    requires size <= |file|
  {
    if t.offset.None? then
      var head := Min(size, INITIAL_HEAD_BYTES);
      var start := TailStart(size, head);
      size <= head || IsBoundary(file, start) || Given(file[start..size], start, start > 0, blank) == []
    else
      var start := if size < t.offset.value then 0 else t.offset.value;
      size == start || IsBoundary(file, start) || NEWLINE !in NextChunk(file, size, start)
  }

  lemma ChunkOfPrefix(whole: seq<Byte>, file: seq<Byte>, from: nat, to: nat)
    requires file <= whole && from <= to <= |file|
    ensures ChunkOf(whole, from, file[from..to])
  {
    assert file == whole[..|file|];
  }

  lemma FirstPassIsExactExactlyWhen(whole: seq<Byte>, given: seq<Line>, file: seq<Byte>, size: nat,
                                    blank: seq<Byte> -> bool)
    requires WellFormed(whole) && file <= whole && size <= |file|
    ensures FirstPass(Utf8, given, file, size, blank) == FirstPass(Exact, given, file, size, blank)
       <==> PassIsClear(Tail(None, given), file, size, blank)
  {
    var head := Min(size, INITIAL_HEAD_BYTES);
    var start := TailStart(size, head);
    WellFormedStarts(whole);
    ChunkOfPrefix(whole, file, 0, head);
    assert file[0..head] == file[..head];
    HeadIsExact(whole, file[..head], blank);
    if size > head {
      ChunkOfPrefix(whole, file, start, size);
      ChunkIsExactExactlyWhen(whole, start, file[start..size], blank);
      var first := given + Given(file[..head], 0, false, blank);
      SameBehind(first, Given(Decoded(file[start..size]), start, start > 0, blank),
                 Given(file[start..size], start, start > 0, blank));
    }
  }

  lemma SameBehind(first: seq<Line>, x: seq<Line>, y: seq<Line>)
    ensures first + x == first + y <==> x == y
  {
    assert (first + x)[|first|..] == x && (first + y)[|first|..] == y;
  }

  lemma HeadIsExact(whole: seq<Byte>, head: seq<Byte>, blank: seq<Byte> -> bool)
    requires WellFormed(whole) && ChunkOf(whole, 0, head)
    ensures Given(Decoded(head), 0, false, blank) == Given(head, 0, false, blank)
  {
    WellFormedStarts(whole);
    if head != [] {
      ChunkIsExactExactlyWhen(whole, 0, head, blank);
    }
  }

  lemma ReadIsExactExactlyWhen(whole: seq<Byte>, given: seq<Line>, chunk: seq<Byte>, start: nat,
                               blank: seq<Byte> -> bool)
    requires WellFormed(whole) && ChunkOf(whole, start, chunk) && chunk != []
    ensures ReadChunk(given, Decoded(chunk), start, blank) == ReadChunk(given, chunk, start, blank)
       <==> IsBoundary(whole, start) || NEWLINE !in chunk
  {
    if NEWLINE !in chunk {
      NoNewlineGivesNothing(Utf8, given, chunk, start, blank);
      NoNewlineGivesNothing(Exact, given, chunk, start, blank);
    } else {
      ChunkIsExactExactlyWhen(whole, start, chunk, blank);
      SameReads(given, Decoded(chunk), chunk, start, blank, Given(chunk, start, start > 0, blank));
    }
  }

  lemma SameReads(given: seq<Line>, x: seq<Byte>, y: seq<Byte>, start: nat, blank: seq<Byte> -> bool, lines: seq<Line>)
    requires Consumed(x) == Consumed(y) ==> Given(x, start, start > 0, blank) == lines
    requires Given(y, start, start > 0, blank) == lines
    ensures ReadChunk(given, x, start, blank) == ReadChunk(given, y, start, blank) <==> Consumed(x) == Consumed(y)
  {
  }

  lemma LaterPassIsExactExactlyWhen(whole: seq<Byte>, t: Tail, file: seq<Byte>, size: nat, blank: seq<Byte> -> bool)
    requires WellFormed(whole) && file <= whole && size <= |file| && t.offset.Some?
    ensures Pass(Utf8, t, file, size, blank) == Pass(Exact, t, file, size, blank) <==> PassIsClear(t, file, size, blank)
  {
    var start := if size < t.offset.value then 0 else t.offset.value;
    if size != start {
      var chunk := NextChunk(file, size, start);
      ChunkOfPrefix(whole, file, start, start + |chunk|);
      BoundaryInFile(whole, file, start);
      ReadIsExactExactlyWhen(whole, t.given, chunk, start, blank);
    }
  }

  /** Over a well-formed file a pass leaves what exact reading would leave if and
      only if it is clear. */
  lemma PassIsExactExactlyWhen(whole: seq<Byte>, t: Tail, file: seq<Byte>, size: nat, blank: seq<Byte> -> bool)
    requires WellFormed(whole) && file <= whole && size <= |file|
    ensures Pass(Utf8, t, file, size, blank) == Pass(Exact, t, file, size, blank) <==> PassIsClear(t, file, size, blank)
  {
    if t.offset.None? {
      FirstPassIsExactExactlyWhen(whole, t.given, file, size, blank);
    } else {
      LaterPassIsExactExactlyWhen(whole, t, file, size, blank);
    }
  }

  /** Every pass of the schedule leaves what exact reading would. */
  ghost predicate AlwaysExact(t: Tail, looks: seq<Look>, blank: seq<Byte> -> bool)
    requires HaveSizes(looks)
    decreases |looks|
  {
    looks == []
    || (Pass(Utf8, t, looks[0].file, looks[0].size, blank) == Pass(Exact, t, looks[0].file, looks[0].size, blank)
        && AlwaysExact(Pass(Exact, t, looks[0].file, looks[0].size, blank), looks[1..], blank))
  }

  lemma {:induction false} ExactRunsAgree(t: Tail, looks: seq<Look>, blank: seq<Byte> -> bool)
    requires HaveSizes(looks) && AlwaysExact(t, looks, blank)
    ensures Run(Utf8, t, looks, blank) == Run(Exact, t, looks, blank)
    decreases |looks|
  {
    if looks != [] {
      ExactRunsAgree(Pass(Exact, t, looks[0].file, looks[0].size, blank), looks[1..], blank);
    }
  }

  /** The looks at one transcript, `whole` being all that is ever written to it. */
  ghost predicate LooksAt(whole: seq<Byte>, seen: Look, looks: seq<Look>) {
    && WellFormed(whole) && seen.size <= |seen.file| && AppendOnly(seen.file, seen.size, looks) && HaveSizes(looks)
    && LastLook(seen, looks).file <= whole
  }

  lemma {:induction false} FilesArePrefixes(whole: seq<Byte>, seen: Look, looks: seq<Look>)
    requires LooksAt(whole, seen, looks)
    ensures seen.file <= whole && (looks != [] ==> looks[0].file <= whole && LooksAt(whole, looks[0], looks[1..]))
    decreases |looks|
  {
    if looks != [] {
      assert HaveSizes(looks[1..]) by {
        assert forall i :: 0 <= i < |looks[1..]| ==> looks[1..][i] == looks[i + 1];
      }
      FilesArePrefixes(whole, looks[0], looks[1..]);
    }
  }

  lemma BoundaryInFile(whole: seq<Byte>, file: seq<Byte>, at: nat)
    requires file <= whole && at < |file|
    ensures IsBoundary(file, at) <==> IsBoundary(whole, at)
  {
  }

  /** A later pass from a boundary ends on one: behind a newline or where it began. */
  lemma OffsetStaysOnBoundary(whole: seq<Byte>, t: Tail, file: seq<Byte>, size: nat, blank: seq<Byte> -> bool)
    requires WellFormed(whole) && file <= whole && t.offset.Some? && t.offset.value <= size <= |file| &&
             IsBoundary(whole, t.offset.value)
    ensures var next := Pass(Exact, t, file, size, blank);
            next.offset.Some? && t.offset.value <= next.offset.value <= size && IsBoundary(whole, next.offset.value)
  {
    if size > t.offset.value {
      ChunkEndsOnBoundary(whole, file, t.offset.value, NextChunk(file, size, t.offset.value));
    }
  }

  lemma ChunkEndsOnBoundary(whole: seq<Byte>, file: seq<Byte>, start: nat, chunk: seq<Byte>)
    requires WellFormed(whole) && file <= whole && ChunkOf(file, start, chunk) && IsBoundary(whole, start)
    ensures IsBoundary(whole, start + Consumed(chunk))
  {
    var n := Consumed(chunk);
    if n > 0 {
      assert whole[start + n - 1] == file[start + n - 1] == chunk[n - 1];
      AfterNewlineIsBoundary(whole, start + n);
    }
  }

  lemma {:induction false} BoundaryStaysExact(whole: seq<Byte>, t: Tail, seen: Look, looks: seq<Look>,
                                              blank: seq<Byte> -> bool)
    requires LooksAt(whole, seen, looks) && t.offset.Some? && t.offset.value <= seen.size &&
             IsBoundary(whole, t.offset.value)
    ensures AlwaysExact(t, looks, blank)
    decreases |looks|
  {
    if looks != [] {
      var look := looks[0];
      FilesArePrefixes(whole, seen, looks);
      PassIsExactExactlyWhen(whole, t, look.file, look.size, blank);
      if t.offset.value < look.size {
        BoundaryInFile(whole, look.file, t.offset.value);
      }
      OffsetStaysOnBoundary(whole, t, look.file, look.size, blank);
      BoundaryStaysExact(whole, Pass(Exact, t, look.file, look.size, blank), look, looks[1..], blank);
    }
  }

  /** No pass ever finds a newline in the chunk that starts there. */
  ghost predicate NothingReadFrom(at: nat, looks: seq<Look>)
    requires HaveSizes(looks)
  {
    forall i :: 0 <= i < |looks| && looks[i].size > at ==> NEWLINE !in NextChunk(looks[i].file, looks[i].size, at)
  }

  lemma {:induction false} TornNeedsNoNewline(whole: seq<Byte>, t: Tail, seen: Look, looks: seq<Look>,
                                              blank: seq<Byte> -> bool)
    requires LooksAt(whole, seen, looks) && t.offset.Some? && t.offset.value <= seen.size &&
             !IsBoundary(whole, t.offset.value)
    ensures AlwaysExact(t, looks, blank) <==> NothingReadFrom(t.offset.value, looks)
    decreases |looks|
  {
    if looks != [] {
      var look, rest, at := looks[0], looks[1..], t.offset.value;
      assert forall i :: 0 <= i < |rest| ==> rest[i] == looks[i + 1];
      FilesArePrefixes(whole, seen, looks);
      PassIsExactExactlyWhen(whole, t, look.file, look.size, blank);
      if look.size > at {
        BoundaryInFile(whole, look.file, at);
      }
      if look.size == at || NEWLINE !in NextChunk(look.file, look.size, at) {
        if look.size > at {
          NoNewlineGivesNothing(Exact, t.given, NextChunk(look.file, look.size, at), at, blank);
        }
        assert Pass(Exact, t, look.file, look.size, blank) == t;
        TornNeedsNoNewline(whole, t, look, rest, blank);
        assert NothingReadFrom(at, looks) <==> NothingReadFrom(at, rest);
      }
    }
  }

  /** Only two places matter, both known after the first pass: where it starts on
      the tail, and the size it stores as the next offset. */
  ghost predicate StartsAreClear(whole: seq<Byte>, looks: seq<Look>, blank: seq<Byte> -> bool)
    requires HaveSizes(looks)
  {
    looks == []
    || (PassIsClear(UNREAD, looks[0].file, looks[0].size, blank)
        && (IsBoundary(whole, looks[0].size) || NothingReadFrom(looks[0].size, looks[1..])))
  }

  /** Over a well-formed transcript the program reads exactly, throughout any
      schedule, if and only if those two starts are clear. */
  lemma RunIsExactExactlyWhen(whole: seq<Byte>, looks: seq<Look>, blank: seq<Byte> -> bool)
    requires LooksAt(whole, NOTHING, looks)
    ensures AlwaysExact(UNREAD, looks, blank) <==> StartsAreClear(whole, looks, blank)
  {
    if looks != [] {
      var look := looks[0];
      FilesArePrefixes(whole, NOTHING, looks);
      PassIsExactExactlyWhen(whole, UNREAD, look.file, look.size, blank);
      var t := Pass(Exact, UNREAD, look.file, look.size, blank);
      if IsBoundary(whole, look.size) {
        BoundaryStaysExact(whole, t, look, looks[1..], blank);
      } else {
        TornNeedsNoNewline(whole, t, look, looks[1..], blank);
      }
    }
  }

  /** So then, for any schedule of growth and passes, the program's parser only
      gets whole, non-blank lines at their byte offsets, none of them twice, and
      the stored offset never passes the size last seen. */
  lemma ParserGetsWholeLinesOnce(whole: seq<Byte>, looks: seq<Look>, blank: seq<Byte> -> bool)
    requires LooksAt(whole, NOTHING, looks) && StartsAreClear(whole, looks, blank)
    ensures var t, last := Run(Utf8, UNREAD, looks, blank), LastLook(NOTHING, looks);
            if t.offset.None? then t.given == []
            else t.offset.value <= last.size && LinesOk(last.file, t.given, 0, t.offset.value, blank)
  {
    RunIsExactExactlyWhen(whole, looks, blank);
    ExactRunsAgree(UNREAD, looks, blank);
    ExactReadingGetsWholeLinesOnce(looks, blank);
  }

  /** And the offset, once set, never moves back. */
  lemma OffsetsNeverDecrease(whole: seq<Byte>, looks: seq<Look>, look: Look, blank: seq<Byte> -> bool)
    requires LooksAt(whole, NOTHING, looks + [look]) && HaveSizes(looks) && StartsAreClear(whole, looks + [look], blank)
    ensures var t := Run(Utf8, UNREAD, looks, blank);
            var next := Run(Utf8, UNREAD, looks + [look], blank);
            t.offset.Some? ==> next.offset.Some? && next.offset.value >= t.offset.value
  {
    RunIsExactExactlyWhen(whole, looks + [look], blank);
    ExactOffsetsNeverDecrease(UNREAD, NOTHING, looks, look, blank);
  }

  lemma {:induction false} ExactOffsetsNeverDecrease(t: Tail, seen: Look, looks: seq<Look>, look: Look,
                                                     blank: seq<Byte> -> bool)
    requires AppendOnly(seen.file, seen.size, looks + [look]) && HaveSizes(looks) && HaveSizes(looks + [look])
    requires seen.size <= |seen.file| && TailOk(t, seen.file, seen.size, blank) && AlwaysExact(t, looks + [look], blank)
    ensures var now, next := Run(Utf8, t, looks, blank), Run(Utf8, t, looks + [look], blank);
            now.offset.Some? ==> next.offset.Some? && next.offset.value >= now.offset.value
    decreases |looks|
  {
    var all := looks + [look];
    if looks == [] {
      assert all == [look] && all[1..] == [];
      if t.offset.Some? {
        LaterPassIsOk(t, seen.file, seen.size, look, blank);
      }
    } else {
      assert all[0] == looks[0] && all[1..] == looks[1..] + [look];
      PassIsOk(t, seen, looks[0], blank);
      ExactOffsetsNeverDecrease(Pass(Exact, t, looks[0].file, looks[0].size, blank), looks[0], looks[1..], look, blank);
    }
  }

  // ---------------------------------------------------- a start inside a character

  /** "a", a character of three bytes and "b", each on a line of its own. */
  const SAMPLE: seq<Byte> := [0x61, NEWLINE, 0xE4, 0xB8, 0xAD, NEWLINE, 0x62, NEWLINE]
  const SAMPLE_LINE := Line(0, [0x61])

  lemma OneMoreCharacter(first: seq<Byte>, rest: seq<Byte>)
    requires first != [] && IsCharacter(first) && Taken(first) == |first| && WellFormed(rest)
    ensures WellFormed(first + rest)
  {
    var bytes := first + rest;
    assert forall i :: 0 <= i < |first| ==> bytes[i] == first[i];
    assert bytes[|first|..] == rest;
  }

  lemma SampleIsWellFormed()
    ensures WellFormed(SAMPLE)
  {
    OneMoreCharacter([NEWLINE], []);
    OneMoreCharacter([0x62], [NEWLINE] + []);
    OneMoreCharacter([NEWLINE], [0x62] + ([NEWLINE] + []));
    var line := [NEWLINE] + ([0x62] + ([NEWLINE] + []));
    OneMoreCharacter([0xE4, 0xB8, 0xAD], line);
    OneMoreCharacter([NEWLINE], [0xE4, 0xB8, 0xAD] + line);
    OneMoreCharacter([0x61], [NEWLINE] + ([0xE4, 0xB8, 0xAD] + line));
    assert SAMPLE == [0x61] + ([NEWLINE] + ([0xE4, 0xB8, 0xAD] + line));
  }

  lemma FirstLineIs(text: seq<Byte>, blank: seq<Byte> -> bool)
    requires |text| >= 2 && text[0] == 0x61 && text[1] == NEWLINE && !blank([0x61])
    ensures Given(text, 0, false, blank) == [SAMPLE_LINE] + Wanted(text, 2, 0, blank)
  {
    assert NewlineFrom(text, 0) == 1 && text[0..1] == [0x61];
    GivenUnfolds(text, 0, false, blank);
  }

  /** Seen at three bytes: the character is cut behind its first byte. */
  lemma SampleFirstPass(blank: seq<Byte> -> bool)
    requires !blank([0x61])
    ensures Pass(Utf8, UNREAD, SAMPLE, 3, blank) == Tail(Some(3), [SAMPLE_LINE])
  {
    var head := SAMPLE[..3];
    assert head == SAMPLE[0..3];
    SampleIsWellFormed();
    ChunkOfPrefix(SAMPLE, SAMPLE, 0, 3);
    HeadIsExact(SAMPLE, head, blank);
    FirstLineIs(head, blank);
    NoLinesAtTheEnd(head, 2, 0);
  }

  const SAMPLE_TAIL: seq<Byte> := [0xB8, 0xAD, NEWLINE]

  lemma SampleTail(start: nat, blank: seq<Byte> -> bool)
    ensures Torn(SAMPLE_TAIL) == 2 && Consumed(SAMPLE_TAIL) == 3 && Given(SAMPLE_TAIL, start, true, blank) == []
  {
    var chunk := SAMPLE_TAIL;
    assert chunk[1..] == [0xAD, NEWLINE] && chunk[1..][1..] == [NEWLINE];
    assert chunk[0] != NEWLINE && chunk[1] != NEWLINE && chunk[2] == NEWLINE;
    var i := NewlineFrom(chunk, 0);
    assert i <= 2;
    GivenSkips(chunk, start, blank);
    ConsumedIs(chunk, 3);
    NoLinesAtTheEnd(chunk, 3, start);
  }

  /** Seen at six: two torn bytes count three each, and the offset passes the end. */
  lemma SampleSecondPass(given: seq<Line>, blank: seq<Byte> -> bool)
    ensures Pass(Utf8, Tail(Some(3), given), SAMPLE, 6, blank) == Tail(Some(10), given)
  {
    var chunk := NextChunk(SAMPLE, 6, 3);
    assert chunk == SAMPLE_TAIL;
    SampleIsWellFormed();
    ChunkOfPrefix(SAMPLE, SAMPLE, 3, 6);
    SampleTail(3, blank);
    assert chunk[2] == NEWLINE;
    TornChunkShifts(SAMPLE, 3, chunk, blank);
    assert given + [] == given;
  }

  /** Seen at eight: the file seems to have shrunk and is read from the start. */
  lemma SampleThirdPass(given: seq<Line>, blank: seq<Byte> -> bool)
    requires !blank([0x61])
    ensures Pass(Utf8, Tail(Some(10), given), SAMPLE, 8, blank)
         == Tail(Some(8), given + ([SAMPLE_LINE] + Wanted(SAMPLE, 2, 0, blank)))
  {
    var chunk := NextChunk(SAMPLE, 8, 0);
    assert chunk == SAMPLE;
    SampleIsWellFormed();
    ChunkOfPrefix(SAMPLE, SAMPLE, 0, 8);
    ChunkIsExactExactlyWhen(SAMPLE, 0, SAMPLE, blank);
    WellFormedStarts(SAMPLE);
    ConsumedIs(SAMPLE, 8);
    FirstLineIs(SAMPLE, blank);
  }

  /** A start inside a character breaks all three promises on a file that only
      grows: the offset passes the size, moves back, and a line is given twice. */
  lemma TornStartRepeatsALine(blank: seq<Byte> -> bool)
    requires !blank([0x61])
    ensures var looks := [Look(SAMPLE, 3), Look(SAMPLE, 6), Look(SAMPLE, 8)];
            && LooksAt(SAMPLE, NOTHING, looks) && !StartsAreClear(SAMPLE, looks, blank)
            && Run(Utf8, UNREAD, looks[..1], blank).offset == Some(3)
            && Run(Utf8, UNREAD, looks[..2], blank).offset == Some(10)
            && var t := Run(Utf8, UNREAD, looks, blank);
               t.offset == Some(8) && |t.given| >= 2 && t.given[0] == t.given[1] == SAMPLE_LINE
  {
    var l1, l2, l3 := Look(SAMPLE, 3), Look(SAMPLE, 6), Look(SAMPLE, 8);
    var third := SampleRuns(blank);
    SampleLooks();
    SampleIsNotClear(blank);
    assert [l1, l2, l3][..1] == [l1] && [l1, l2, l3][..2] == [l1, l2];
  }

  lemma SampleRuns(blank: seq<Byte> -> bool) returns (third: Tail)
    requires !blank([0x61])
    ensures third.offset == Some(8) && |third.given| >= 2 && third.given[0] == third.given[1] == SAMPLE_LINE
    ensures var l1, l2, l3 := Look(SAMPLE, 3), Look(SAMPLE, 6), Look(SAMPLE, 8);
            && HaveSizes([l1]) && HaveSizes([l1, l2]) && HaveSizes([l1, l2, l3])
            && Run(Utf8, UNREAD, [l1], blank).offset == Some(3) && Run(Utf8, UNREAD, [l1, l2], blank).offset == Some(10)
            && Run(Utf8, UNREAD, [l1, l2, l3], blank) == third
  {
    var one := [SAMPLE_LINE];
    third := Tail(Some(8), one + ([SAMPLE_LINE] + Wanted(SAMPLE, 2, 0, blank)));
    SampleFirstPass(blank);
    SampleSecondPass(one, blank);
    SampleThirdPass(one, blank);
    ThreePasses(Look(SAMPLE, 3), Look(SAMPLE, 6), Look(SAMPLE, 8), Tail(Some(3), one), Tail(Some(10), one), third,
                blank);
  }

  lemma RunChains(t: Tail, look: Look, rest: seq<Look>, blank: seq<Byte> -> bool, next: Tail, end: Tail)
    requires look.size <= |look.file| && HaveSizes(rest)
    requires Pass(Utf8, t, look.file, look.size, blank) == next && Run(Utf8, next, rest, blank) == end
    ensures HaveSizes([look] + rest) && Run(Utf8, t, [look] + rest, blank) == end
  {
    assert ([look] + rest)[0] == look && ([look] + rest)[1..] == rest;
  }

  lemma ThreePasses(a: Look, b: Look, c: Look, t1: Tail, t2: Tail, t3: Tail, blank: seq<Byte> -> bool)
    requires a.size <= |a.file| && b.size <= |b.file| && c.size <= |c.file|
    requires Pass(Utf8, UNREAD, a.file, a.size, blank) == t1 && Pass(Utf8, t1, b.file, b.size, blank) == t2
    requires Pass(Utf8, t2, c.file, c.size, blank) == t3
    ensures HaveSizes([a]) && HaveSizes([a, b]) && HaveSizes([a, b, c])
    ensures Run(Utf8, UNREAD, [a], blank) == t1 && Run(Utf8, UNREAD, [a, b], blank) == t2 &&
            Run(Utf8, UNREAD, [a, b, c], blank) == t3
  {
    RunChains(t2, c, [], blank, t3, t3);
    RunChains(t1, b, [], blank, t2, t2);
    RunChains(UNREAD, a, [], blank, t1, t1);
    assert [a] + [] == [a] && [b] + [] == [b] && [c] + [] == [c];
    RunChains(t1, b, [c], blank, t2, t3);
    RunChains(UNREAD, a, [b], blank, t1, t2);
    assert [b] + [c] == [b, c] && [a] + [b] == [a, b];
    RunChains(UNREAD, a, [b, c], blank, t1, t3);
    assert [a] + [b, c] == [a, b, c];
  }

  lemma SampleIsNotClear(blank: seq<Byte> -> bool)
    requires LooksAt(SAMPLE, NOTHING, [Look(SAMPLE, 3), Look(SAMPLE, 6), Look(SAMPLE, 8)])
    ensures !StartsAreClear(SAMPLE, [Look(SAMPLE, 3), Look(SAMPLE, 6), Look(SAMPLE, 8)], blank)
  {
    var l2, l3 := Look(SAMPLE, 6), Look(SAMPLE, 8);
    var rest := [l2, l3];
    assert [Look(SAMPLE, 3), l2, l3][1..] == rest;
    assert rest[0] == l2 && NextChunk(SAMPLE, 6, 3)[2] == NEWLINE;
    assert !NothingReadFrom(3, rest);
  }

  lemma SampleLooks()
    ensures LooksAt(SAMPLE, NOTHING, [Look(SAMPLE, 3), Look(SAMPLE, 6), Look(SAMPLE, 8)])
  {
    SampleIsWellFormed();
    var l2, l3 := Look(SAMPLE, 6), Look(SAMPLE, 8);
    assert [Look(SAMPLE, 3), l2, l3][1..] == [l2, l3] && [l2, l3][1..] == [l3];
    assert AppendOnly(SAMPLE, 6, [l3]);
    assert AppendOnly(SAMPLE, 3, [l2, l3]);
    assert LastLook(l2, [l3]) == LastLook(l3, []);
  }

  lemma ConsumedIsNewline(chunk: seq<Byte>)
    ensures Consumed(chunk) > 0 <==> NEWLINE in chunk
  {
    if NEWLINE in chunk {
      var k :| 0 <= k < |chunk| && chunk[k] == NEWLINE;
    }
  }

  lemma LinesOfNothing(text: seq<Byte>, start: nat)
    requires NEWLINE !in text
    ensures LinesFrom(text, 0, start) == [] && Consumed(text) == 0
  {
    ConsumedIsNewline(text);
    assert NewlineFrom(text, 0) == |text|;
  }

  /** A later pass moves the offset exactly when its chunk holds a newline. So a
      line longer than the chunk is never passed, however the file grows. */
  lemma AdvancesExactlyAtNewlines(reading: Reading, t: Tail, file: seq<Byte>, size: nat, blank: seq<Byte> -> bool)
    requires t.offset.Some? && t.offset.value < size <= |file|
    ensures Pass(reading, t, file, size, blank).offset != t.offset <==> NEWLINE in NextChunk(file, size, t.offset.value)
  {
    var chunk := NextChunk(file, size, t.offset.value);
    NewlinesSurvive(chunk);
    ConsumedIsNewline(Read(reading, chunk));
  }

  lemma NoNewlineGivesNothing(reading: Reading, given: seq<Line>, chunk: seq<Byte>, start: nat,
                              blank: seq<Byte> -> bool)
    requires NEWLINE !in chunk
    ensures ReadChunk(given, Read(reading, chunk), start, blank) == Tail(Some(start), given)
  {
    NewlinesSurvive(chunk);
    LinesOfNothing(Read(reading, chunk), start);
  }

  lemma {:induction false} LongLinesBlock(reading: Reading, t: Tail, looks: seq<Look>, blank: seq<Byte> -> bool,
                                          chunk: seq<Byte>)
    requires t.offset.Some? && |chunk| == INCREMENTAL_BYTES && NEWLINE !in chunk
    requires forall i :: 0 <= i < |looks| ==>
               && t.offset.value + INCREMENTAL_BYTES <= looks[i].size <= |looks[i].file|
               && NextChunk(looks[i].file, looks[i].size, t.offset.value) == chunk
    ensures Run(reading, t, looks, blank) == t
    decreases |looks|
  {
    if looks != [] {
      NoNewlineGivesNothing(reading, t.given, chunk, t.offset.value, blank);
      LongLinesBlock(reading, t, looks[1..], blank, chunk);
    }
  }

  // --------------------------------------------------------------- the program

  /** `split` of the first `n` bytes, from position `at` on: one piece more than
      there are newlines. */
  function Pieces(text: seq<Byte>, n: nat, at: nat): seq<seq<Byte>>
    requires at <= n <= |text|
    decreases n - at
  {
    var i := NewlineFrom(text, at);
    if i >= n then [text[at..n]] else [text[at..i]] + Pieces(text, n, i + 1)
  }

  function FromPieces(pieces: seq<seq<Byte>>, offset: nat, skip: bool, blank: seq<Byte> -> bool): seq<Line>
    decreases |pieces|
  {
    if pieces == [] then []
    else Kept(Line(offset, pieces[0]), skip, blank) + FromPieces(pieces[1..], offset + |pieces[0]| + 1, false, blank)
  }

  function Kept(line: Line, skip: bool, blank: seq<Byte> -> bool): seq<Line> {
    if skip || blank(line.text) then [] else [line]
  }

  lemma PiecesUnfold(piece: seq<Byte>, rest: seq<seq<Byte>>, offset: nat, skip: bool, blank: seq<Byte> -> bool)
    ensures FromPieces([piece] + rest, offset, skip, blank)
         == Kept(Line(offset, piece), skip, blank) + FromPieces(rest, offset + |piece| + 1, false, blank)
  {
    assert ([piece] + rest)[1..] == rest;
  }

  lemma PiecesAdvance(pieces: seq<seq<Byte>>, k: nat, offset: nat, skip: bool, blank: seq<Byte> -> bool)
    requires k < |pieces|
    ensures FromPieces(pieces[k..], offset, skip, blank)
         == Kept(Line(offset, pieces[k]), skip, blank) +
         FromPieces(pieces[k + 1..], offset + |pieces[k]| + 1, false, blank)
  {
    assert pieces[k..] == [pieces[k]] + pieces[k + 1..];
    PiecesUnfold(pieces[k], pieces[k + 1..], offset, skip, blank);
  }

  lemma NonBlankUnfolds(first: Line, rest: seq<Line>, blank: seq<Byte> -> bool)
    ensures NonBlank([first] + rest, blank) == Kept(first, false, blank) + NonBlank(rest, blank)
  {
    assert ([first] + rest)[1..] == rest;
  }

  /** What walking the pieces from position `at` gives, and what is to be given. */
  function Walked(text: seq<Byte>, n: nat, at: nat, start: nat, blank: seq<Byte> -> bool): seq<Line>
    requires at <= n <= |text|
  {
    FromPieces(Pieces(text, n, at), start + at, false, blank)
  }

  function Wanted(text: seq<Byte>, at: nat, start: nat, blank: seq<Byte> -> bool): seq<Line>
    requires at <= |text|
  {
    NonBlank(LinesFrom(text, at, start), blank)
  }

  lemma WalkedUnfolds(text: seq<Byte>, n: nat, at: nat, start: nat, blank: seq<Byte> -> bool)
    requires at <= n <= |text| && NewlineFrom(text, at) < n
    ensures var i := NewlineFrom(text, at);
            Walked(text, n, at, start, blank) ==
            Kept(Line(start + at, text[at..i]), false, blank) + Walked(text, n, i + 1, start, blank)
  {
    var i := NewlineFrom(text, at);
    var piece, rest := text[at..i], Pieces(text, n, i + 1);
    assert Pieces(text, n, at) == [piece] + rest;
    PiecesUnfold(piece, rest, start + at, false, blank);
  }

  lemma WantedUnfolds(text: seq<Byte>, at: nat, start: nat, blank: seq<Byte> -> bool)
    requires at <= |text| && NewlineFrom(text, at) < |text|
    ensures var i := NewlineFrom(text, at);
            Wanted(text, at, start, blank) ==
            Kept(Line(start + at, text[at..i]), false, blank) + Wanted(text, i + 1, start, blank)
  {
    var i := NewlineFrom(text, at);
    var first, rest := Line(start + at, text[at..i]), LinesFrom(text, i + 1, start);
    assert LinesFrom(text, at, start) == [first] + rest;
    NonBlankUnfolds(first, rest, blank);
  }

  /** The last piece is empty, so blank. */
  lemma NothingAtTheEnd(text: seq<Byte>, at: nat, start: nat, blank: seq<Byte> -> bool)
    requires at == Consumed(text) && blank([])
    ensures Walked(text, at, at, start, blank) == [] && Wanted(text, at, start, blank) == []
  {
    var empty: seq<Byte> := [];
    assert Pieces(text, at, at) == [empty] + [];
    PiecesUnfold(empty, [], start + at, false, blank);
    assert NewlineFrom(text, at) == |text|;
  }

  lemma CompletePartHasNewline(text: seq<Byte>, at: nat)
    requires at < Consumed(text)
    ensures NewlineFrom(text, at) < Consumed(text)
  {
    assert text[Consumed(text) - 1] == NEWLINE;
  }

  /** Splitting the complete part and walking its pieces gives the chunk's lines. */
  lemma {:induction false} WalkedIsWanted(text: seq<Byte>, at: nat, start: nat, blank: seq<Byte> -> bool)
    requires at <= Consumed(text) && blank([])
    ensures Walked(text, Consumed(text), at, start, blank) == Wanted(text, at, start, blank)
    decreases |text| - at
  {
    if at == Consumed(text) {
      NothingAtTheEnd(text, at, start, blank);
    } else {
      CompletePartHasNewline(text, at);
      WalkedUnfolds(text, Consumed(text), at, start, blank);
      WantedUnfolds(text, at, start, blank);
      WalkedIsWanted(text, NewlineFrom(text, at) + 1, start, blank);
    }
  }

  lemma GivenUnfolds(text: seq<Byte>, start: nat, skip: bool, blank: seq<Byte> -> bool)
    requires NewlineFrom(text, 0) < |text|
    ensures var i := NewlineFrom(text, 0);
            Given(text, start, skip, blank) ==
            Kept(Line(start, text[0..i]), skip, blank) + Wanted(text, i + 1, start, blank)
  {
    if skip {
      GivenSkips(text, start, blank);
    } else {
      WantedUnfolds(text, 0, start, blank);
    }
  }

  lemma PiecesGiveWanted(text: seq<Byte>, start: nat, skip: bool, blank: seq<Byte> -> bool)
    requires Consumed(text) > 0 && blank([])
    ensures var i := NewlineFrom(text, 0);
            && i < |text|
            && FromPieces(Pieces(text, Consumed(text), 0), start, skip, blank)
               == Kept(Line(start, text[0..i]), skip, blank) + Wanted(text, i + 1, start, blank)
  {
    CompletePartHasNewline(text, 0);
    WalkedIsWanted(text, NewlineFrom(text, 0) + 1, start, blank);
    FirstPieceWalked(text, Consumed(text), start, skip, blank);
  }

  lemma PiecesGiveLines(text: seq<Byte>, start: nat, skip: bool, blank: seq<Byte> -> bool)
    requires Consumed(text) > 0 && blank([])
    ensures FromPieces(Pieces(text, Consumed(text), 0), start, skip, blank) == Given(text, start, skip, blank)
  {
    PiecesGiveWanted(text, start, skip, blank);
    GivenUnfolds(text, start, skip, blank);
  }

  lemma FirstPieceWalked(text: seq<Byte>, n: nat, start: nat, skip: bool, blank: seq<Byte> -> bool)
    requires NewlineFrom(text, 0) < n <= |text|
    ensures var i := NewlineFrom(text, 0);
            FromPieces(Pieces(text, n, 0), start, skip, blank) ==
            Kept(Line(start, text[0..i]), skip, blank) + Walked(text, n, i + 1, start, blank)
  {
    var i := NewlineFrom(text, 0);
    var piece, rest := text[0..i], Pieces(text, n, i + 1);
    assert Pieces(text, n, 0) == [piece] + rest;
    PiecesUnfold(piece, rest, start, skip, blank);
  }

  lemma RegroupPieces(a: seq<seq<Byte>>, b: seq<seq<Byte>>, c: seq<seq<Byte>>)
    ensures a + (b + c) == (a + b) + c
  {
  }

  method SplitLines(text: seq<Byte>, n: nat) returns (pieces: seq<seq<Byte>>)
    requires n <= |text|
    ensures pieces == Pieces(text, n, 0)
  {
    pieces := [];
    var at, i := 0, NewlineFrom(text, 0);
    while i < n
      invariant at <= n && i == NewlineFrom(text, at) && pieces + Pieces(text, n, at) == Pieces(text, n, 0)
      decreases n - at
    {
      RegroupPieces(pieces, [text[at..i]], Pieces(text, n, i + 1));
      pieces := pieces + [text[at..i]];
      at := i + 1;
      i := NewlineFrom(text, at);
    }
    pieces := pieces + [text[at..n]];
  }

  method LastNewline(text: seq<Byte>) returns (consumed: nat)
    ensures consumed == Consumed(text)
  {
    consumed := |text|;
    while consumed > 0 && text[consumed - 1] != NEWLINE
      invariant consumed <= |text| && Consumed(text) == ConsumedOf(text, consumed)
    {
      consumed := consumed - 1;
    }
  }

  lemma Regroup(a: seq<Line>, b: seq<Line>, c: seq<Line>)
    ensures a + (b + c) == (a + b) + c && a + [] == a
  {
  }

  method ParseLines(lines: seq<seq<Byte>>, start: nat, skipFirst: bool, blank: seq<Byte> -> bool)
    returns (parsed: seq<Line>)
    ensures parsed == FromPieces(lines, start, skipFirst, blank)
  {
    parsed := [];
    var byteOffset: nat := start;
    for index := 0 to |lines|
      invariant parsed + FromPieces(lines[index..], byteOffset, skipFirst && index == 0, blank) ==
                FromPieces(lines, start, skipFirst, blank)
    {
      var line := lines[index];
      PiecesAdvance(lines, index, byteOffset, skipFirst && index == 0, blank);
      Regroup(parsed, Kept(Line(byteOffset, line), skipFirst && index == 0, blank),
              FromPieces(lines[index + 1..], byteOffset + |line| + 1, false, blank));
      if !(skipFirst && index == 0) && !blank(line) {
        parsed := parsed + [Line(byteOffset, line)];
      }
      byteOffset := byteOffset + |line| + 1;
    }
  }

  method ReadAndParse(buffer: seq<Byte>, start: nat, skipPartialFirstLine: bool, blank: seq<Byte> -> bool)
    returns (consumed: nat, parsed: seq<Line>)
    requires blank([])
    ensures consumed == Consumed(Decoded(buffer)) &&
            parsed == Given(Decoded(buffer), start, skipPartialFirstLine, blank)
  {
    var text := Decoded(buffer);
    consumed := LastNewline(text);
    ConsumedIsNewline(text);
    if consumed == 0 {
      LinesOfNothing(text, start);
      return 0, [];
    }
    PiecesGiveLines(text, start, skipPartialFirstLine, blank);
    var lines := SplitLines(text, consumed);
    parsed := ParseLines(lines, start, skipPartialFirstLine, blank);
  }

  /** Offsets by path; `given` remembers what each transcript's parser got. */
  class DiscoveryService {
    var offsets: map<string, nat>
    ghost var given: map<string, seq<Line>>

    ghost function State(path: string): Tail
      reads this
    {
      Tail(if path in offsets then Some(offsets[path]) else None, if path in given then given[path] else [])
    }

    constructor ()
      ensures forall path :: State(path) == UNREAD
    {
      offsets, given := map[], map[];
    }

    ghost method Hand(path: string, lines: seq<Line>)
      modifies this`given
      ensures State(path) == old(State(path)).(given := old(State(path)).given + lines)
      ensures forall other :: other != path ==> State(other) == old(State(other))
    {
      given := given[path := (if path in given then given[path] else []) + lines];
    }

    method SetOffset(path: string, offset: nat)
      modifies this`offsets
      ensures State(path) == old(State(path)).(offset := Some(offset))
      ensures forall other :: other != path ==> State(other) == old(State(other))
    {
      offsets := offsets[path := offset];
    }

    method IngestCandidate(path: string, file: seq<Byte>, size: nat, blank: seq<Byte> -> bool)
      requires size <= |file| && blank([])
      modifies this
      ensures State(path) == Pass(Utf8, old(State(path)), file, size, blank)
      ensures forall other :: other != path ==> State(other) == old(State(other))
    {
      if path !in offsets {
        FirstIngest(path, file, size, blank);
        return;
      }
      var priorOffset := offsets[path];
      var start := if size < priorOffset then 0 else priorOffset;
      if size > start {
        Ingest(path, NextChunk(file, size, start), start, blank);
      }
    }

    method Ingest(path: string, chunk: seq<Byte>, start: nat, blank: seq<Byte> -> bool)
      requires blank([])
      modifies this
      ensures State(path) == ReadChunk(old(State(path)).given, Decoded(chunk), start, blank)
      ensures forall other :: other != path ==> State(other) == old(State(other))
    {
      var consumed, parsed := ReadAndParse(chunk, start, start > 0, blank);
      Hand(path, parsed);
      SetOffset(path, start + consumed);
    }

    method FirstIngest(path: string, file: seq<Byte>, size: nat, blank: seq<Byte> -> bool)
      requires size <= |file| && blank([]) && path !in offsets
      modifies this
      ensures State(path) == Pass(Utf8, old(State(path)), file, size, blank)
      ensures forall other :: other != path ==> State(other) == old(State(other))
    {
      var headLength := Min(size, INITIAL_HEAD_BYTES);
      var _, head := ReadAndParse(file[..headLength], 0, false, blank);
      Hand(path, head);
      if size > headLength {
        var tailStart := TailStart(size, headLength);
        var _, tail := ReadAndParse(file[tailStart..size], tailStart, tailStart > 0, blank);
        Hand(path, tail);
      }
      SetOffset(path, size);
    }
  }
}
