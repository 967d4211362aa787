/** The text side of the PDF reader: how the words of a line become its text,
    how the lines of a paragraph become one block, and the segments that say
    where each line lies in the block. */
module PdfText {
  import opened Wrappers

  const MAX_SEGMENTS_PER_BLOCK := 128
  const MAX_SELECTORS_PER_SEGMENT := 4
  const MAX_SELECTORS_PER_BLOCK := 256

  // ----- characters ----------------------------------------------------------

  /** The separators of Python's `str.splitlines`. */
  predicate IsBreak(c: char) {
    c == '\n' || c == '\r' || '\U{0B}' <= c <= '\U{0C}' || '\U{1C}' <= c <= '\U{1E}' ||
    c == '\U{85}' || c == '\U{2028}' || c == '\U{2029}'
  }

  /** Python's `str.isspace`, which is also `\s` in its regular expressions. */
  predicate IsSpace(c: char) {
    '\U{09}' <= c <= '\U{0D}' || '\U{1C}' <= c <= ' ' || c == '\U{85}' || c == '\U{A0}' || c == '\U{1680}' ||
    '\U{2000}' <= c <= '\U{200A}' || c == '\U{2028}' || c == '\U{2029}' || c == '\U{202F}' || c == '\U{205F}' ||
    c == '\U{3000}'
  }

  /** What is asked of a class of digits (`\d`): no space and no comma. */
  ghost predicate DigitClass(digit: char -> bool) {
    !digit(',') && forall c :: IsSpace(c) ==> !digit(c)
  }

  predicate Unbroken(s: string) { forall i :: 0 <= i < |s| ==> !IsBreak(s[i]) }

  predicate Trimmed(s: string) { s != "" ==> !IsSpace(s[0]) && !IsSpace(s[|s| - 1]) }

  /** What the reader expects of a word or a line. */
  predicate Clean(s: string) { s != "" && Trimmed(s) && Unbroken(s) }

  function Strip(s: string): string {
    if s == "" then ""
    else if IsSpace(s[0]) then Strip(s[1..])
    else if IsSpace(s[|s| - 1]) then Strip(s[..|s| - 1])
    else s
  }

  function StripAll(lines: seq<string>): (r: seq<string>)
    ensures |r| == |lines|
    ensures forall i :: 0 <= i < |lines| ==> r[i] == Strip(lines[i])
  {
    seq(|lines|, i requires 0 <= i < |lines| => Strip(lines[i]))
  }

  /** A NUL cannot be stored; one visible marker takes its place. */
  function Visible(s: string): (r: string)
    ensures |r| == |s|
    ensures forall i :: 0 <= i < |s| ==> r[i] == if s[i] == '\0' then '\U{FFFD}' else s[i]
  {
    seq(|s|, i requires 0 <= i < |s| => if s[i] == '\0' then '\U{FFFD}' else s[i])
  }

  // ----- the text of one line --------------------------------------------------

  function JoinWords(words: seq<string>): string {
    if words == [] then ""
    else if |words| == 1 then words[0]
    else words[0] + " " + JoinWords(words[1..])
  }

  function SpaceRun(s: string): (n: nat)
    ensures n <= |s|
    ensures forall i :: 0 <= i < n ==> IsSpace(s[i])
    ensures n < |s| ==> !IsSpace(s[n])
  {
    if s != "" && IsSpace(s[0]) then 1 + SpaceRun(s[1..]) else 0
  }

  /** The comma at the head of s is a thousands separator torn from its digits. */
  predicate TornComma(digit: char -> bool, afterDigit: bool, s: string) {
    s != "" && s[0] == ',' && afterDigit &&
    var run := SpaceRun(s[1..]);
    run > 0 && 1 + run < |s| && digit(s[1 + run])
  }

  /** Drops the spaces after each torn comma: the substitution
      `(?<=\d),\s+(?=\d)` to `,` over what follows a given character. */
  function Reattach(digit: char -> bool, afterDigit: bool, s: string): string
    decreases |s|
  {
    if s == "" then ""
    else if TornComma(digit, afterDigit, s) then "," + Reattach(digit, false, s[1 + SpaceRun(s[1..])..])
    else [s[0]] + Reattach(digit, digit(s[0]), s[1..])
  }

  function LineText(digit: char -> bool, words: seq<string>): string {
    Reattach(digit, false, JoinWords(words))
  }

  function Ink(s: string): string {
    if s == "" then "" else (if IsSpace(s[0]) then "" else [s[0]]) + Ink(s[1..])
  }

  function InkOfAll(words: seq<string>): string {
    if words == [] then "" else Ink(words[0]) + InkOfAll(words[1..])
  }

  lemma {:induction false} InkConcat(a: string, b: string)
    ensures Ink(a + b) == Ink(a) + Ink(b)
  {
    if a == "" {
      assert a + b == b;
    } else {
      assert (a + b)[1..] == a[1..] + b;
      InkConcat(a[1..], b);
    }
  }

  lemma {:induction false} InkOfSpaces(s: string, n: nat)
    requires n <= |s|
    requires forall i :: 0 <= i < n ==> IsSpace(s[i])
    ensures Ink(s) == Ink(s[n..])
  {
    if n == 0 {
      assert s[0..] == s;
    } else {
      assert s[1..][n - 1..] == s[n..];
      InkOfSpaces(s[1..], n - 1);
    }
  }

  lemma {:induction false} ReattachKeepsInk(digit: char -> bool, afterDigit: bool, s: string)
    ensures Ink(Reattach(digit, afterDigit, s)) == Ink(s)
    decreases |s|
  {
    if s == "" {
    } else if TornComma(digit, afterDigit, s) {
      var run := SpaceRun(s[1..]);
      InkOfSpaces(s[1..], run);
      assert s[1..][run..] == s[1 + run..];
      ReattachKeepsInk(digit, false, s[1 + run..]);
      InkConcat(",", Reattach(digit, false, s[1 + run..]));
    } else {
      ReattachKeepsInk(digit, digit(s[0]), s[1..]);
      InkConcat([s[0]], Reattach(digit, digit(s[0]), s[1..]));
    }
  }

  lemma {:induction false} SpaceHasNoInk()
    ensures Ink(" ") == ""
  {
    assert " "[1..] == "";
  }

  lemma {:induction false} JoinKeepsInk(words: seq<string>)
    ensures Ink(JoinWords(words)) == InkOfAll(words)
  {
    if words == [] {
    } else if |words| == 1 {
      assert InkOfAll(words[1..]) == "";
    } else {
      var rest := JoinWords(words[1..]);
      InkConcat(words[0] + " ", rest);
      InkConcat(words[0], " ");
      SpaceHasNoInk();
      JoinKeepsInk(words[1..]);
      assert JoinWords(words) == words[0] + " " + rest;
    }
  }

  /** Building a line's text loses, adds and reorders nothing but spaces. */
  lemma {:induction false} LineTextKeepsInk(digit: char -> bool, words: seq<string>)
    ensures Ink(LineText(digit, words)) == InkOfAll(words)
  {
    ReattachKeepsInk(digit, false, JoinWords(words));
    JoinKeepsInk(words);
  }

  predicate AllClean(words: seq<string>) { forall i :: 0 <= i < |words| ==> Clean(words[i]) }

  lemma {:induction false} JoinClean(words: seq<string>)
    requires words != [] && AllClean(words)
    ensures Clean(JoinWords(words))
  {
    if |words| > 1 {
      JoinClean(words[1..]);
    }
  }

  lemma {:induction false} ReattachClean(digit: char -> bool, afterDigit: bool, s: string)
    requires s != "" && !IsSpace(s[|s| - 1]) && Unbroken(s)
    ensures var r := Reattach(digit, afterDigit, s); r != "" && r[0] == s[0] && !IsSpace(r[|r| - 1]) && Unbroken(r)
    decreases |s|
  {
    if TornComma(digit, afterDigit, s) {
      ReattachClean(digit, false, s[1 + SpaceRun(s[1..])..]);
    } else if |s| > 1 {
      ReattachClean(digit, digit(s[0]), s[1..]);
    }
  }

  lemma {:induction false} LineTextClean(digit: char -> bool, words: seq<string>)
    requires words != [] && AllClean(words)
    ensures Clean(LineText(digit, words))
  {
    JoinClean(words);
    ReattachClean(digit, false, JoinWords(words));
  }

  // No torn comma is left: a second pass over the text changes nothing.

  lemma {:induction false} ReattachHead(digit: char -> bool, afterDigit: bool, s: string)
    requires s != ""
    ensures Reattach(digit, afterDigit, s) != "" && Reattach(digit, afterDigit, s)[0] == s[0]
  {
  }

  /** Spaces are dropped only behind a torn comma, so a run of them that starts
      the text stays as long as it was, and what follows it keeps its first
      character. */
  lemma {:induction false} ReattachKeepsRun(digit: char -> bool, afterDigit: bool, s: string)
    ensures var r := Reattach(digit, afterDigit, s); var n := SpaceRun(s);
            SpaceRun(r) == n && (n < |s| <==> n < |r|) && (n < |s| ==> r[n] == s[n])
    decreases |s|
  {
    if s != "" && IsSpace(s[0]) {
      ReattachKeepsRun(digit, digit(s[0]), s[1..]);
      assert Reattach(digit, afterDigit, s)[1..] == Reattach(digit, digit(s[0]), s[1..]);
    }
  }

  lemma {:induction false} ReattachTwice(digit: char -> bool, afterDigit: bool, s: string)
    requires DigitClass(digit)
    ensures Reattach(digit, afterDigit, Reattach(digit, afterDigit, s)) == Reattach(digit, afterDigit, s)
    decreases |s|
  {
    if s == "" {
    } else if TornComma(digit, afterDigit, s) {
      var rest := s[1 + SpaceRun(s[1..])..];
      var r := Reattach(digit, false, rest);
      ReattachTwice(digit, false, rest);
      ReattachHead(digit, false, rest);
      assert ("," + r)[1..] == r;
      assert SpaceRun(r) == 0;
    } else {
      var r := Reattach(digit, digit(s[0]), s[1..]);
      ReattachTwice(digit, digit(s[0]), s[1..]);
      ReattachKeepsRun(digit, digit(s[0]), s[1..]);
      assert ([s[0]] + r)[1..] == r;
    }
  }

  /** The comma at i, after a digit, is parted from another digit by n spaces. */
  ghost predicate Torn(digit: char -> bool, afterDigit: bool, s: string, i: nat, n: nat) {
    n > 0 && i + n + 1 < |s| && s[i] == ',' && (if i == 0 then afterDigit else digit(s[i - 1])) &&
    (forall j :: i < j <= i + n ==> IsSpace(s[j])) && digit(s[i + n + 1])
  }

  lemma {:induction false} RunIs(s: string, n: nat)
    requires n < |s| && !IsSpace(s[n]) && forall j :: 0 <= j < n ==> IsSpace(s[j])
    ensures SpaceRun(s) == n
  {
    if n > 0 {
      RunIs(s[1..], n - 1);
    }
  }

  /** Without a torn comma nothing is replaced. */
  lemma {:induction false} UntornStays(digit: char -> bool, afterDigit: bool, s: string)
    requires forall i: nat, n: nat :: !Torn(digit, afterDigit, s, i, n)
    ensures Reattach(digit, afterDigit, s) == s
    decreases |s|
  {
    if s != "" {
      if TornComma(digit, afterDigit, s) {
        assert Torn(digit, afterDigit, s, 0, SpaceRun(s[1..]));
      }
      forall i: nat, n: nat ensures !Torn(digit, digit(s[0]), s[1..], i, n) {
        if Torn(digit, digit(s[0]), s[1..], i, n) {
          forall j | i + 1 < j <= i + 1 + n ensures IsSpace(s[j]) {
            assert s[1..][j - 1] == s[j];
          }
          assert Torn(digit, afterDigit, s, i + 1, n);
        }
      }
      UntornStays(digit, digit(s[0]), s[1..]);
      assert s == [s[0]] + s[1..];
    }
  }

  /** s without the n characters after i. */
  function Without(s: string, i: nat, n: nat): string
    requires i + n < |s|
  {
    s[..i + 1] + s[i + 1 + n..]
  }

  /** Both texts begin alike, so their heads are torn alike. */
  lemma {:induction false} HeadAlike(digit: char -> bool, afterDigit: bool, s: string, i: nat, n: nat)
    requires DigitClass(digit) && Torn(digit, afterDigit, s, i, n) && i > 0
    ensures var t := Without(s, i, n);
      && t != "" && t[0] == s[0]
      && SpaceRun(s[1..]) == SpaceRun(t[1..]) && SpaceRun(s[1..]) < i
      && (TornComma(digit, afterDigit, s) ==> SpaceRun(s[1..]) + 1 < i && TornComma(digit, afterDigit, t))
      && (TornComma(digit, afterDigit, t) ==> TornComma(digit, afterDigit, s))
  {
    var t := Without(s, i, n);
    var run := SpaceRun(s[1..]);
    assert !IsSpace(s[i]) && s[1..][i - 1] == s[i];
    assert run <= i - 1;
    assert t[1..][..i] == s[1..][..i];
    forall j | 0 <= j < run ensures IsSpace(t[1..][j]) {
      assert t[1..][j] == t[1..][..i][j] == s[1..][j];
    }
    assert t[1..][run] == t[1..][..i][run] == s[1..][run];
    RunIs(t[1..], run);
  }

  lemma {:induction false} TornHead(digit: char -> bool, afterDigit: bool, s: string, n: nat)
    requires DigitClass(digit) && Torn(digit, afterDigit, s, 0, n)
    ensures Reattach(digit, afterDigit, s) == Reattach(digit, afterDigit, Without(s, 0, n))
  {
    var t := Without(s, 0, n);
    forall j | 0 <= j < n ensures IsSpace(s[1..][j]) {
      assert s[1..][j] == s[j + 1];
    }
    RunIs(s[1..], n);
    assert t[1..] == s[1 + n..] && t[0] == ',';
    assert SpaceRun(t[1..]) == 0;
  }

  /** Beyond a head that ends before it, the torn comma is as torn. */
  lemma {:induction false} TornBeyond(digit: char -> bool, afterDigit: bool, after: bool, s: string, i: nat, n: nat, cut: nat)
    requires Torn(digit, afterDigit, s, i, n) && 0 < cut <= i && (i == cut ==> after == digit(s[i - 1]))
    ensures Torn(digit, after, s[cut..], i - cut, n)
    ensures Without(s, i, n)[cut..] == Without(s[cut..], i - cut, n)
  {
    var rest := s[cut..];
    forall j | i - cut < j <= i - cut + n ensures IsSpace(rest[j]) {
      assert rest[j] == s[cut + j];
    }
    assert rest[i - cut] == s[i] && rest[i - cut + n + 1] == s[i + n + 1];
    assert i > cut ==> rest[i - cut - 1] == s[i - 1];
  }

  lemma {:induction false} ReattachBeyond(digit: char -> bool, afterDigit: bool, s: string, cut: nat, after: bool)
    requires s != ""
    requires if TornComma(digit, afterDigit, s) then cut == 1 + SpaceRun(s[1..]) && !after else cut == 1 && after == digit(s[0])
    ensures cut <= |s| && Reattach(digit, afterDigit, s) == [s[0]] + Reattach(digit, after, s[cut..])
  {
  }

  /** A torn comma is put back: its spaces make no difference to the result. With
      the rule above this determines the substitution. */
  lemma {:induction false} TornIsJoined(digit: char -> bool, afterDigit: bool, s: string, i: nat, n: nat)
    requires DigitClass(digit) && Torn(digit, afterDigit, s, i, n)
    ensures Reattach(digit, afterDigit, s) == Reattach(digit, afterDigit, Without(s, i, n))
    decreases |s|
  {
    if i == 0 {
      TornHead(digit, afterDigit, s, n);
    } else {
      HeadAlike(digit, afterDigit, s, i, n);
      var torn := TornComma(digit, afterDigit, s);
      var cut := if torn then 1 + SpaceRun(s[1..]) else 1;
      var after := !torn && digit(s[0]);
      TornBeyond(digit, afterDigit, after, s, i, n, cut);
      TornIsJoined(digit, after, s[cut..], i - cut, n);
      ReattachBeyond(digit, afterDigit, s, cut, after);
      ReattachBeyond(digit, afterDigit, Without(s, i, n), cut, after);
    }
  }

  // ----- the text of one block --------------------------------------------------

  function JoinLines(lines: seq<string>): string {
    if lines == [] then ""
    else if |lines| == 1 then lines[0]
    else lines[0] + "\n" + JoinLines(lines[1..])
  }

  function LineEnd(s: string): (n: nat)
    ensures n <= |s|
    ensures Unbroken(s[..n])
    ensures n < |s| ==> IsBreak(s[n])
  {
    if s == "" || IsBreak(s[0]) then 0 else 1 + LineEnd(s[1..])
  }

  /** Python's `str.splitlines`: "\r\n" is one separator, and a separator at the
      end opens no further line. */
  function SplitLines(s: string): seq<string>
    decreases |s|
  {
    if s == "" then [] else
      var n := LineEnd(s);
      if n == |s| then [s] else
        var skip := if s[n] == '\r' && n + 1 < |s| && s[n + 1] == '\n' then 2 else 1;
        [s[..n]] + SplitLines(s[n + skip..])
  }

  lemma {:induction false} LineEndAt(line: string, rest: string)
    requires Unbroken(line)
    requires rest != "" ==> IsBreak(rest[0])
    ensures LineEnd(line + rest) == |line|
  {
    if line == "" {
      assert line + rest == rest;
    } else {
      assert (line + rest)[1..] == line[1..] + rest;
      LineEndAt(line[1..], rest);
    }
  }

  lemma {:induction false} SplitUndoesJoin(lines: seq<string>)
    requires forall i :: 0 <= i < |lines| ==> lines[i] != "" && Unbroken(lines[i])
    ensures SplitLines(JoinLines(lines)) == lines
  {
    if lines == [] {
    } else if |lines| == 1 {
      LineEndAt(lines[0], "");
      assert lines[0] + "" == lines[0];
    } else {
      var rest := JoinLines(lines[1..]);
      var s := JoinLines(lines);
      LineEndAt(lines[0], "\n" + rest);
      assert s == lines[0] + ("\n" + rest);
      assert s[|lines[0]| + 1..] == rest;
      SplitUndoesJoin(lines[1..]);
    }
  }

  // ----- segments ----------------------------------------------------------------

  datatype Selector =
    | PageSelector(page: nat)
    | BoundingBoxSelector(boxPage: nat, x: real, y: real, width: real, height: real)

  datatype Segment = Segment(start: int, end: int, selectors: seq<Selector>)

  datatype Block = Block(text: string, selectors: seq<Selector>, segments: seq<Segment>)

  datatype Error = PageBudget | SegmentBudget | CorruptSegment | SelectorBudget | BlockBudget

  function Dedupe(selectors: seq<Selector>): (r: seq<Selector>)
    ensures forall s :: s in r <==> s in selectors
    ensures forall i, j :: 0 <= i < j < |r| ==> r[i] != r[j]
    ensures |r| <= |selectors|
  {
    if selectors == [] then [] else
      var init, last := selectors[..|selectors| - 1], selectors[|selectors| - 1];
      assert selectors == init + [last];
      var prefix := Dedupe(init);
      if last in prefix then prefix else prefix + [last]
  }

  function SelectorsOf(segments: seq<Segment>): seq<Selector> {
    if segments == [] then []
    else SelectorsOf(segments[..|segments| - 1]) + segments[|segments| - 1].selectors
  }

  predicate ValidSegment(segment: Segment, length: nat) {
    0 <= segment.start < segment.end <= length && |segment.selectors| <= MAX_SELECTORS_PER_SEGMENT
  }

  predicate AllValid(segments: seq<Segment>, length: nat) {
    forall i :: 0 <= i < |segments| ==> ValidSegment(segments[i], length)
  }

  /** `block` with line breaks preserved and segments given. */
  function MakeBlock(raw: string, segments: seq<Segment>): Result<Option<Block>, Error> {
    var value := Visible(JoinLines(StripAll(SplitLines(raw))));
    if value == "" then Ok(None)
    else if |segments| > MAX_SEGMENTS_PER_BLOCK then Err(SegmentBudget)
    else if !AllValid(segments, |value|) then Err(CorruptSegment)
    else
      var flattened := Dedupe(SelectorsOf(segments));
      if |flattened| > MAX_SELECTORS_PER_BLOCK then Err(SelectorBudget)
      else Ok(Some(Block(value, flattened, segments)))
  }

  /** Where line i starts in the joined text. */
  function Offset(lines: seq<string>, i: nat): nat
    requires i <= |lines|
  {
    if i == 0 then 0 else |lines[0]| + 1 + Offset(lines[1..], i - 1)
  }

  lemma {:induction false} OffsetStep(lines: seq<string>, i: nat)
    requires i < |lines|
    ensures Offset(lines, i + 1) == Offset(lines, i) + |lines[i]| + 1
  {
    if i > 0 {
      OffsetStep(lines[1..], i - 1);
    }
  }

  lemma {:induction false} JoinLength(lines: seq<string>)
    requires lines != []
    ensures |JoinLines(lines)| == Offset(lines, |lines|) - 1
  {
    if |lines| > 1 {
      JoinLength(lines[1..]);
    } else {
      assert Offset(lines[1..], 0) == 0;
    }
  }

  lemma {:induction false} ShiftedSlice(prefix: string, rest: string, lo: nat, hi: nat)
    requires lo <= hi <= |rest|
    ensures (prefix + rest)[|prefix| + lo..|prefix| + hi] == rest[lo..hi]
  {
  }

  predicate LineAt(text: string, at: nat, line: string, last: bool) {
    at + |line| <= |text| && text[at..at + |line|] == line &&
    (!last ==> at + |line| < |text| && text[at + |line|] == '\n')
  }

  lemma {:induction false} ShiftedLine(prefix: string, rest: string, at: nat, line: string, last: bool)
    requires LineAt(rest, at, line, last)
    ensures LineAt(prefix + rest, |prefix| + at, line, last)
  {
    ShiftedSlice(prefix, rest, at, at + |line|);
  }

  lemma {:induction false} JoinSlice(lines: seq<string>, i: nat)
    requires i < |lines|
    ensures LineAt(JoinLines(lines), Offset(lines, i), lines[i], i + 1 == |lines|)
  {
    if i > 0 {
      JoinSlice(lines[1..], i - 1);
      ShiftedLine(lines[0] + "\n", JoinLines(lines[1..]), Offset(lines[1..], i - 1), lines[i], i + 1 == |lines|);
    } else if |lines| > 1 {
      assert JoinLines(lines) == lines[0] + ("\n" + JoinLines(lines[1..]));
    }
  }

  /** Segment i cuts out its own line, and one newline parts it from the next. */
  ghost predicate CutsOut(block: Block, lines: seq<string>, i: nat)
    requires i < |lines| == |block.segments|
  {
    var here := block.segments[i];
    && 0 <= here.start < here.end <= |block.text|
    && block.text[here.start..here.end] == Visible(lines[i])
    && (i + 1 < |lines| ==>
          here.end < |block.text| && block.text[here.end] == '\n' && block.segments[i + 1].start == here.end + 1)
  }

  /** The segments walk the block: they start at 0, each ends at the newline
      just before the next, the last ends with the text, and each cuts out its
      own line up to NUL replacement. */
  ghost predicate Tiles(block: Block, lines: seq<string>) {
    && |block.segments| == |lines| > 0
    && block.segments[0].start == 0
    && block.segments[|lines| - 1].end == |block.text|
    && forall i: nat :: i < |lines| ==> CutsOut(block, lines, i)
  }

  /** What the segment loop builds for the lines of a paragraph. */
  predicate Follows(segments: seq<Segment>, lines: seq<string>) {
    |segments| == |lines| &&
    forall i: nat :: i < |lines| ==> SegmentFor(segments[i], lines, i)
  }

  predicate SegmentFor(segment: Segment, lines: seq<string>, i: nat)
    requires i < |lines|
  {
    segment.start == Offset(lines, i) && segment.end == Offset(lines, i) + |lines[i]|
  }

  lemma {:induction false} VisibleSlice(s: string, lo: nat, hi: nat)
    requires lo <= hi <= |s|
    ensures Visible(s)[lo..hi] == Visible(s[lo..hi])
  {
  }

  lemma {:induction false} SegmentCutsOut(block: Block, lines: seq<string>, i: nat)
    requires i < |lines| && Clean(lines[i])
    requires block.text == Visible(JoinLines(lines)) && Follows(block.segments, lines)
    ensures CutsOut(block, lines, i)
  {
    JoinSlice(lines, i);
    assert SegmentFor(block.segments[i], lines, i);
    VisibleSlice(JoinLines(lines), Offset(lines, i), Offset(lines, i) + |lines[i]|);
    if i + 1 < |lines| {
      OffsetStep(lines, i);
      assert SegmentFor(block.segments[i + 1], lines, i + 1);
    }
  }

  lemma {:induction false} JoinedSegmentsTile(block: Block, lines: seq<string>)
    requires lines != [] && AllClean(lines)
    requires block.text == Visible(JoinLines(lines)) && Follows(block.segments, lines)
    ensures Tiles(block, lines)
  {
    var last := |lines| - 1;
    JoinLength(lines);
    OffsetStep(lines, last);
    assert SegmentFor(block.segments[0], lines, 0);
    assert SegmentFor(block.segments[last], lines, last);
    forall i: nat | i < |lines| ensures CutsOut(block, lines, i) {
      SegmentCutsOut(block, lines, i);
    }
  }

  /** Every segment names the page and one box, so a block has at most one more
      distinct selector than it has segments. */
  predicate PageAndBox(segments: seq<Segment>, page: nat) {
    forall i :: 0 <= i < |segments| ==>
      |segments[i].selectors| == 2 && segments[i].selectors[0] == PageSelector(page)
  }

  function Boxes(segments: seq<Segment>, page: nat): set<Selector>
    requires PageAndBox(segments, page)
  {
    if segments == [] then {PageSelector(page)}
    else Boxes(segments[..|segments| - 1], page) + {segments[|segments| - 1].selectors[1]}
  }

  lemma {:induction false} FewSelectors(segments: seq<Segment>, page: nat)
    requires PageAndBox(segments, page)
    ensures |Boxes(segments, page)| <= |segments| + 1
    ensures forall s :: s in SelectorsOf(segments) ==> s in Boxes(segments, page)
  {
    if segments != [] {
      var init, last := segments[..|segments| - 1], segments[|segments| - 1];
      FewSelectors(init, page);
      assert last.selectors == [PageSelector(page), last.selectors[1]];
      PageInBoxes(init, page);
    }
  }

  lemma {:induction false} PageInBoxes(segments: seq<Segment>, page: nat)
    requires PageAndBox(segments, page)
    ensures PageSelector(page) in Boxes(segments, page)
  {
    if segments != [] {
      PageInBoxes(segments[..|segments| - 1], page);
    }
  }

  lemma {:induction false} DistinctFit(s: seq<Selector>, within: set<Selector>)
    requires forall i, j :: 0 <= i < j < |s| ==> s[i] != s[j]
    requires forall i :: 0 <= i < |s| ==> s[i] in within
    ensures |s| <= |within|
  {
    if s != [] {
      var init, last := s[..|s| - 1], s[|s| - 1];
      DistinctFit(init, within - {last});
    }
  }

  lemma {:induction false} FlattenedFits(segments: seq<Segment>, page: nat)
    requires PageAndBox(segments, page)
    ensures |Dedupe(SelectorsOf(segments))| <= |segments| + 1
  {
    FewSelectors(segments, page);
    var flattened := Dedupe(SelectorsOf(segments));
    assert forall i :: 0 <= i < |flattened| ==> flattened[i] in flattened;
    DistinctFit(flattened, Boxes(segments, page));
  }

  lemma {:induction false} StripClean(lines: seq<string>)
    requires AllClean(lines)
    ensures StripAll(lines) == lines
  {
    forall i | 0 <= i < |lines| ensures Strip(lines[i]) == lines[i] {
      assert Clean(lines[i]);
    }
  }

  lemma {:induction false} JoinedNonEmpty(lines: seq<string>)
    requires lines != [] && AllClean(lines)
    ensures JoinLines(lines) != ""
  {
    assert Clean(lines[0]);
  }

  lemma {:induction false} TiledSegmentsValid(block: Block, lines: seq<string>, page: nat)
    requires Tiles(block, lines) && PageAndBox(block.segments, page)
    ensures AllValid(block.segments, |block.text|)
  {
    forall i: nat | i < |lines| ensures ValidSegment(block.segments[i], |block.text|) {
      assert CutsOut(block, lines, i);
    }
  }

  /** A paragraph of clean lines becomes a block exactly when it has at most 128
      of them; the only other outcome is the segment budget error. The other
      checks of `block` never fire on what the PDF reader passes, and the
      segments tile the block. */
  lemma {:induction false} ParagraphBlock(lines: seq<string>, segments: seq<Segment>, page: nat)
    requires lines != [] && AllClean(lines)
    requires Follows(segments, lines) && PageAndBox(segments, page)
    ensures var made := MakeBlock(JoinLines(lines), segments);
            if |lines| > MAX_SEGMENTS_PER_BLOCK then made == Err(SegmentBudget)
            else made.Ok? && made.value.Some? && made.value.value.segments == segments && Tiles(made.value.value, lines)
  {
    SplitUndoesJoin(lines);
    StripClean(lines);
    JoinedNonEmpty(lines);
    FlattenedFits(segments, page);
    var block := Block(Visible(JoinLines(lines)), Dedupe(SelectorsOf(segments)), segments);
    JoinedSegmentsTile(block, lines);
    TiledSegmentsValid(block, lines, page);
  }
}
