/** The partial answers shown while a structured answer streams in: the text of
    the first "answer" string so far, decoded when it ends between characters. */
module PartialAnswer {
  import opened Wrappers

  /** A UTF-16 code unit. */
  newtype Unit = x: int | 0 <= x < 0x1_0000

  type Text = seq<Unit>

  const QUOTE: Unit := 34
  const SLASH: Unit := 47
  const COLON: Unit := 58
  const BACKSLASH: Unit := 92

  /** The key with its quotes, "answer". */
  const KEY: Text := [34, 97, 110, 115, 119, 101, 114, 34]

  /** `\s` of a JavaScript regular expression. */
  predicate IsSpace(c: Unit) {
    9 <= c <= 13 || c == 32 || c == 0xA0 || c == 0x1680 || 0x2000 <= c <= 0x200A || c == 0x2028 || c == 0x2029 ||
    c == 0x202F || c == 0x205F || c == 0x3000 || c == 0xFEFF
  }

  // ----- the header of the answer -------------------------------------------------

  function Spaces(s: Text): (n: nat)
    ensures n <= |s|
    ensures forall i :: 0 <= i < n ==> IsSpace(s[i])
    ensures n < |s| ==> !IsSpace(s[n])
  {
    if s != [] && IsSpace(s[0]) then 1 + Spaces(s[1..]) else 0
  }

  /** What follows the key: spaces, a colon, spaces and a quote. */
  function TailLength(s: Text): (r: Option<nat>)
    ensures r.Some? ==> 2 <= r.value <= |s|
  {
    var colon := Spaces(s);
    if colon >= |s| || s[colon] != COLON then None else
      var quote := colon + 1 + Spaces(s[colon + 1..]);
      if quote >= |s| || s[quote] != QUOTE then None else Some(quote + 1)
  }

  /** The length of `"answer"\s*:\s*"` at the start of s. */
  function HeaderLength(s: Text): (r: Option<nat>)
    ensures r.Some? ==> 10 <= r.value <= |s|
  {
    if |s| < 8 || s[..8] != KEY then None else
      var tail := TailLength(s[8..]);
      if tail.None? then None else Some(8 + tail.value)
  }

  /** One past the end of the leftmost header. */
  function AnswerStart(s: Text, at: nat): (r: Option<nat>)
    requires at <= |s|
    ensures r.Some? ==> at < r.value <= |s|
    decreases |s| - at
  {
    var header := HeaderLength(s[at..]);
    if header.Some? then Some(at + header.value)
    else if at == |s| then None
    else AnswerStart(s, at + 1)
  }

  predicate AllSpaces(s: Text, from: nat, to: nat)
    requires from <= to <= |s|
  {
    forall i :: from <= i < to ==> IsSpace(s[i])
  }

  /** The text begins with `"answer"`, i spaces, a colon, j spaces and a quote. */
  predicate HeaderOf(s: Text, i: nat, j: nat) {
    10 + i + j <= |s| && s[..8] == [34, 97, 110, 115, 119, 101, 114, 34] && AllSpaces(s, 8, 8 + i) && s[8 + i] == 58 &&
    AllSpaces(s, 9 + i, 9 + i + j) && s[9 + i + j] == 34
  }

  lemma {:induction false} SpacesAre(s: Text, n: nat)
    requires n < |s| && !IsSpace(s[n]) && AllSpaces(s, 0, n)
    ensures Spaces(s) == n
  {
    if n > 0 {
      SpacesAre(s[1..], n - 1);
    }
  }

  lemma {:induction false} TailIs(s: Text, i: nat, j: nat)
    requires 2 + i + j <= |s| && AllSpaces(s, 0, i) && s[i] == 58 && AllSpaces(s, 1 + i, 1 + i + j) && s[1 + i + j] == 34
    ensures TailLength(s) == Some(2 + i + j)
  {
    SpacesAre(s, i);
    var rest := s[i + 1..];
    forall k | 0 <= k < j ensures IsSpace(rest[k]) {
      assert rest[k] == s[i + 1 + k];
    }
    SpacesAre(rest, j);
  }

  lemma {:induction false} TailHas(s: Text) returns (i: nat, j: nat)
    requires TailLength(s).Some?
    ensures TailLength(s) == Some(2 + i + j) && 2 + i + j <= |s|
    ensures AllSpaces(s, 0, i) && s[i] == 58 && AllSpaces(s, 1 + i, 1 + i + j) && s[1 + i + j] == 34
  {
    i := Spaces(s);
    j := Spaces(s[i + 1..]);
    forall k | 1 + i <= k < 1 + i + j ensures IsSpace(s[k]) {
      assert s[i + 1..][k - i - 1] == s[k];
    }
  }

  /** What a header is, and how long. */
  lemma {:induction false} HeaderIff(s: Text, n: nat)
    ensures HeaderLength(s) == Some(n) <==> exists i: nat, j: nat :: HeaderOf(s, i, j) && n == 10 + i + j
  {
    forall i: nat, j: nat | HeaderOf(s, i, j) ensures HeaderLength(s) == Some(10 + i + j) {
      HeaderTail(s, i, j);
    }
    if HeaderLength(s).Some? {
      var i, j := HeaderHas(s);
      assert HeaderOf(s, i, j);
    }
  }

  lemma {:induction false} HeaderTail(s: Text, i: nat, j: nat)
    requires HeaderOf(s, i, j)
    ensures HeaderLength(s) == Some(10 + i + j)
  {
    var tail := s[8..];
    forall k | 0 <= k < i ensures IsSpace(tail[k]) {
      assert tail[k] == s[8 + k];
    }
    forall k | 1 + i <= k < 1 + i + j ensures IsSpace(tail[k]) {
      assert tail[k] == s[8 + k];
    }
    TailIs(tail, i, j);
  }

  lemma {:induction false} HeaderHas(s: Text) returns (i: nat, j: nat)
    requires HeaderLength(s).Some?
    ensures HeaderOf(s, i, j) && HeaderLength(s) == Some(10 + i + j)
  {
    var tail := s[8..];
    i, j := TailHas(tail);
    forall k | 8 <= k < 8 + i ensures IsSpace(s[k]) {
      assert tail[k - 8] == s[k];
    }
    forall k | 9 + i <= k < 9 + i + j ensures IsSpace(s[k]) {
      assert tail[k - 8] == s[k];
    }
    assert tail[i] == s[8 + i] && tail[1 + i + j] == s[9 + i + j];
  }

  // ----- the text of the answer -------------------------------------------------------

  /** The length of `(?:\\.|[^"\\])*` at the start of s. */
  function CaptureLength(s: Text): (n: nat)
    ensures n <= |s|
  {
    if s == [] || s[0] == QUOTE then 0
    else if s[0] == BACKSLASH then if |s| < 2 then 0 else 2 + CaptureLength(s[2..])
    else 1 + CaptureLength(s[1..])
  }

  function HexDigit(c: Unit): Option<nat> {
    if 48 <= c <= 57 then Some((c - 48) as nat)
    else if 97 <= c <= 102 then Some((c - 87) as nat)
    else if 65 <= c <= 70 then Some((c - 55) as nat)
    else None
  }

  function HexValue(s: Text): (r: Option<nat>)
    requires |s| == 4
    ensures r.Some? ==> r.value < 0x1_0000
  {
    var a, b, c, d := HexDigit(s[0]), HexDigit(s[1]), HexDigit(s[2]), HexDigit(s[3]);
    if a.None? || b.None? || c.None? || d.None? then None
    else Some(4096 * a.value + 256 * b.value + 16 * c.value + d.value)
  }

  /** A short escape (section 7 of RFC 8259). */
  function ShortEscape(c: Unit): Option<Unit> {
    if c == QUOTE || c == BACKSLASH || c == SLASH then Some(c)
    else if c == 98 then Some(8)
    else if c == 102 then Some(12)
    else if c == 110 then Some(10)
    else if c == 114 then Some(13)
    else if c == 116 then Some(9)
    else None
  }

  /** The first character of a JSON string's content and the units it takes. */
  function Token(s: Text): (r: Option<(Unit, nat)>)
    requires s != []
    ensures r.Some? ==> 0 < r.value.1 <= |s|
  {
    if s[0] == QUOTE || s[0] < 32 then None
    else if s[0] != BACKSLASH then Some((s[0], 1))
    else if |s| < 2 then None
    else if s[1] == 117 then
      if |s| < 6 || HexValue(s[2..6]).None? then None else Some((HexValue(s[2..6]).value as Unit, 6))
    else if ShortEscape(s[1]).Some? then Some((ShortEscape(s[1]).value, 2))
    else None
  }

  /** JSON.parse of the content between quotes. */
  function Decode(s: Text): Option<Text>
    decreases |s|
  {
    if s == [] then Some([]) else
      match Token(s)
      case None => None
      case Some((unit, length)) =>
        match Decode(s[length..])
        case None => None
        case Some(rest) => Some([unit] + rest)
  }

  function Capture(text: Text, start: nat): Text
    requires start <= |text|
  {
    text[start..start + CaptureLength(text[start..])]
  }

  /** `partialAnswerFromJson`. */
  function Partial(text: Text): Option<Text> {
    match AnswerStart(text, 0)
    case None => None
    case Some(start) =>
      if Capture(text, start) == [] then None else Decode(Capture(text, start))
  }

  // ----- what more text does to each part -------------------------------------------------

  lemma {:induction false} SpacesStable(s: Text, t: Text)
    requires s <= t && (Spaces(s) < |s| || Spaces(t) < |s|)
    ensures Spaces(t) == Spaces(s)
  {
    if s != [] && IsSpace(s[0]) {
      SpacesStable(s[1..], t[1..]);
    }
  }

  lemma {:induction false} TailStable(s: Text, t: Text)
    requires s <= t
    requires TailLength(s).Some? || (TailLength(t).Some? && TailLength(t).value <= |s|)
    ensures TailLength(t) == TailLength(s)
  {
    SpacesStable(s, t);
    var colon := Spaces(s);
    SpacesStable(s[colon + 1..], t[colon + 1..]);
  }

  lemma {:induction false} TailInside(s: Text, n: nat, i: nat)
    requires TailLength(s) == Some(n) && i < n - 1
    ensures IsSpace(s[i]) || s[i] == COLON
  {
    var colon := Spaces(s);
    if i > colon {
      assert s[colon + 1..][i - colon - 1] == s[i];
    }
  }

  /** A header does not change when text follows it, and is one already when the
      text is cut behind it. */
  lemma {:induction false} HeaderStable(s: Text, t: Text)
    requires s <= t
    requires HeaderLength(s).Some? || (HeaderLength(t).Some? && HeaderLength(t).value <= |s|)
    ensures HeaderLength(t) == HeaderLength(s)
  {
    assert s[..8] == t[..8];
    TailStable(s[8..], t[8..]);
  }

  /** Inside a header no quote is followed by an "a". */
  lemma {:induction false} HeaderInside(s: Text, n: nat, i: nat)
    requires HeaderLength(s) == Some(n) && 0 < i < n - 1
    ensures !(s[i] == QUOTE && s[i + 1] == 97)
  {
    if i < 7 {
      assert s[..8][i] == KEY[i];
    } else if i == 7 {
      TailInside(s[8..], n - 8, 0);
    } else {
      TailInside(s[8..], n - 8, i - 8);
    }
  }

  lemma {:induction false} HeaderEndsBefore(s: Text, i: nat)
    requires HeaderLength(s).Some? && 0 < i && i + 1 < |s| && s[i] == QUOTE && s[i + 1] == 97
    ensures HeaderLength(s).value <= i + 1
  {
    if i < HeaderLength(s).value - 1 {
      HeaderInside(s, HeaderLength(s).value, i);
    }
  }

  /** No header that starts earlier can be completed by more text. */
  lemma {:induction false} NoEarlierHeader(text: Text, more: Text, q: nat, p: nat)
    requires text <= more && q < p <= |text|
    requires HeaderLength(text[q..]).None? && HeaderLength(text[p..]).Some?
    ensures HeaderLength(more[q..]).None?
  {
    assert text[p..][..8] == KEY;
    assert text[p] == KEY[0] && text[p + 1] == KEY[1];
    assert more[q..][p - q] == QUOTE && more[q..][p - q + 1] == 97;
    assert text[q..] <= more[q..];
    if HeaderLength(more[q..]).Some? {
      HeaderEndsBefore(more[q..], p - q);
      HeaderStable(text[q..], more[q..]);
    }
  }

  /** p is the first place at or after `at` where a header starts. */
  ghost predicate FirstHeader(s: Text, at: nat, p: nat) {
    at <= p <= |s| && HeaderLength(s[p..]).Some? && forall q :: at <= q < p ==> HeaderLength(s[q..]).None?
  }

  lemma {:induction false} StartHasHeader(s: Text, at: nat) returns (p: nat)
    requires at <= |s| && AnswerStart(s, at).Some?
    ensures FirstHeader(s, at, p)
    decreases |s| - at
  {
    if HeaderLength(s[at..]).Some? {
      p := at;
    } else {
      p := StartHasHeader(s, at + 1);
    }
  }

  lemma {:induction false} HeaderIsStart(s: Text, at: nat, p: nat, length: nat)
    requires FirstHeader(s, at, p) && HeaderLength(s[p..]) == Some(length)
    ensures AnswerStart(s, at) == Some(p + length)
    decreases p - at
  {
    if at < p {
      HeaderIsStart(s, at + 1, p, length);
    }
  }

  /** The answer begins after the leftmost header, if there is one. */
  lemma {:induction false} AnswerStartHas(s: Text) returns (p: nat, length: nat)
    requires AnswerStart(s, 0).Some?
    ensures FirstHeader(s, 0, p) && HeaderLength(s[p..]) == Some(length) && AnswerStart(s, 0) == Some(p + length)
  {
    p := StartHasHeader(s, 0);
    length := HeaderLength(s[p..]).value;
    HeaderIsStart(s, 0, p, length);
  }

  lemma {:induction false} FirstHeaderStays(text: Text, more: Text, p: nat)
    requires text <= more && FirstHeader(text, 0, p)
    ensures FirstHeader(more, 0, p) && HeaderLength(more[p..]) == HeaderLength(text[p..])
  {
    assert text[p..] <= more[p..];
    HeaderStable(text[p..], more[p..]);
    forall q | 0 <= q < p ensures HeaderLength(more[q..]).None? {
      NoEarlierHeader(text, more, q, p);
    }
  }

  lemma {:induction false} SameFirstHeader(a: Text, b: Text, p: nat, length: nat)
    requires FirstHeader(a, 0, p) && FirstHeader(b, 0, p)
    requires HeaderLength(a[p..]) == Some(length) && HeaderLength(b[p..]) == Some(length)
    ensures AnswerStart(b, 0) == AnswerStart(a, 0)
  {
    HeaderIsStart(a, 0, p, length);
    HeaderIsStart(b, 0, p, length);
  }

  lemma {:induction false} AnswerStartStable(text: Text, more: Text)
    requires text <= more && AnswerStart(text, 0).Some?
    ensures AnswerStart(more, 0) == AnswerStart(text, 0)
  {
    var p := StartHasHeader(text, 0);
    FirstHeaderStays(text, more, p);
    SameFirstHeader(text, more, p, HeaderLength(text[p..]).value);
  }

  lemma {:induction false} CaptureGrows(s: Text, t: Text)
    requires s <= t
    ensures CaptureLength(s) <= CaptureLength(t)
  {
    if s == [] || s[0] == QUOTE {
    } else if s[0] == BACKSLASH {
      if |s| >= 2 {
        CaptureGrows(s[2..], t[2..]);
      }
    } else {
      CaptureGrows(s[1..], t[1..]);
    }
  }

  lemma {:induction false} TokenStable(s: Text, t: Text)
    requires s != [] && s <= t && Token(s).Some?
    ensures Token(t) == Token(s)
  {
    if |s| >= 6 {
      assert s[2..6] == t[2..6];
    }
  }

  lemma {:induction false} DecodeGrows(s: Text, t: Text)
    requires s <= t && Decode(s).Some? && Decode(t).Some?
    ensures Decode(s).value <= Decode(t).value
    decreases |s|
  {
    if s != [] {
      TokenStable(s, t);
      var length := Token(s).value.1;
      DecodeGrows(s[length..], t[length..]);
    }
  }

  /** A partial answer is a prefix of every partial answer shown later, wherever
      the text was cut. */
  lemma {:induction false} PartialGrows(text: Text, more: Text)
    requires text <= more && Partial(text).Some? && Partial(more).Some?
    ensures Partial(text).value <= Partial(more).value
  {
    AnswerStartStable(text, more);
    var start := AnswerStart(text, 0).value;
    CapturesGrow(text, more, start);
    DecodeGrows(Capture(text, start), Capture(more, start));
  }

  lemma {:induction false} CapturesGrow(text: Text, more: Text, start: nat)
    requires text <= more && start <= |text|
    ensures Capture(text, start) <= Capture(more, start)
  {
    assert text[start..] <= more[start..];
    CaptureGrows(text[start..], more[start..]);
  }

  // ----- a whole stream -----------------------------------------------------------------------

  function Joined(chunks: seq<Text>): Text {
    if chunks == [] then [] else Joined(chunks[..|chunks| - 1]) + chunks[|chunks| - 1]
  }

  lemma {:induction false} JoinedGrows(chunks: seq<Text>, i: nat, j: nat)
    requires i <= j <= |chunks|
    ensures Joined(chunks[..i]) <= Joined(chunks[..j])
  {
    if i < j {
      JoinedGrows(chunks, i, j - 1);
      assert chunks[..j][..j - 1] == chunks[..j - 1];
    }
  }

  ghost predicate Growing(shown: seq<Text>) {
    forall i, j :: 0 <= i < j < |shown| ==> shown[i] <= shown[j]
  }

  function PartialAt(chunks: seq<Text>, n: nat): Option<Text>
    requires n <= |chunks|
  {
    Partial(Joined(chunks[..n]))
  }

  predicate Shows(chunks: seq<Text>, n: nat)
    requires n <= |chunks|
  {
    PartialAt(chunks, n).Some? && PartialAt(chunks, n).value != []
  }

  /** shown[k] is the partial answer after at[k] chunks. */
  ghost predicate ShownAt(chunks: seq<Text>, shown: seq<Text>, at: seq<nat>) {
    |at| == |shown| &&
    (forall k :: 0 <= k < |at| ==> at[k] <= |chunks| && PartialAt(chunks, at[k]) == Some(shown[k])) &&
    (forall k, l :: 0 <= k < l < |at| ==> at[k] < at[l])
  }

  ghost predicate Upto(at: seq<nat>, n: nat) { forall k :: 0 <= k < |at| ==> at[k] <= n }

  ghost predicate AllShown(chunks: seq<Text>, at: seq<nat>, n: nat)
    requires n <= |chunks|
  {
    forall m: nat :: 1 <= m <= n && Shows(chunks, m) ==> m in at
  }

  lemma {:induction false} ShownGrow(chunks: seq<Text>, shown: seq<Text>, at: seq<nat>)
    requires ShownAt(chunks, shown, at)
    ensures Growing(shown)
  {
    forall i, j | 0 <= i < j < |shown| ensures shown[i] <= shown[j] {
      JoinedGrows(chunks, at[i], at[j]);
      PartialGrows(Joined(chunks[..at[i]]), Joined(chunks[..at[j]]));
    }
  }

  lemma {:induction false} ShownPush(chunks: seq<Text>, shown: seq<Text>, at: seq<nat>, n: nat, text: Text)
    requires n < |chunks| && ShownAt(chunks, shown, at) && Upto(at, n) && AllShown(chunks, at, n)
    requires PartialAt(chunks, n + 1) == Some(text)
    ensures ShownAt(chunks, shown + [text], at + [n + 1]) && Upto(at + [n + 1], n + 1) && AllShown(chunks, at + [n + 1], n + 1)
  {
  }

  lemma {:induction false} ShownSkip(chunks: seq<Text>, shown: seq<Text>, at: seq<nat>, n: nat)
    requires n < |chunks| && ShownAt(chunks, shown, at) && Upto(at, n) && AllShown(chunks, at, n) && !Shows(chunks, n + 1)
    ensures Upto(at, n + 1) && AllShown(chunks, at, n + 1)
  {
  }

  /** The streaming loop of `execute`: each chunk is appended and the partial
      answer, if there is one, is shown. */
  method Stream(chunks: seq<Text>) returns (shown: seq<Text>, ghost at: seq<nat>)
    ensures ShownAt(chunks, shown, at) && AllShown(chunks, at, |chunks|)
    ensures Growing(shown)
  {
    var streamed: Text := [];
    shown, at := [], [];
    for n := 0 to |chunks|
      invariant streamed == Joined(chunks[..n])
      invariant ShownAt(chunks, shown, at) && Upto(at, n) && AllShown(chunks, at, n)
    {
      assert chunks[..n + 1][..n] == chunks[..n];
      streamed := streamed + chunks[n];
      var partial := Partial(streamed);
      assert partial == PartialAt(chunks, n + 1);
      if partial.Some? && partial.value != [] {
        ShownPush(chunks, shown, at, n, partial.value);
        shown := shown + [partial.value];
        at := at + [n + 1];
      } else {
        ShownSkip(chunks, shown, at, n);
      }
    }
    ShownGrow(chunks, shown, at);
  }

  // ----- the whole answer ------------------------------------------------------------------------

  /** The letter after a backslash and the unit it stands for (section 7 of RFC
      8259): quote, backslash and slash for themselves, then b, f, n, r and t. */
  predicate Escapes(letter: Unit, c: Unit) {
    (letter, c) in {(34, 34), (92, 92), (47, 47), (98, 8), (102, 12), (110, 10), (114, 13), (116, 9)}
  }

  /** The value of a hexadecimal digit of either case. */
  predicate IsHex(digit: Unit, value: nat) {
    (48 <= digit <= 57 && value == digit as nat - 48) || (65 <= digit <= 70 && value == digit as nat - 55) ||
    (97 <= digit <= 102 && value == digit as nat - 87)
  }

  ghost predicate IsHexOf(s: Text, c: Unit) {
    |s| == 4 && exists a: nat, b: nat, d: nat, e: nat ::
      IsHex(s[0], a) && IsHex(s[1], b) && IsHex(s[2], d) && IsHex(s[3], e) && c as nat == 4096 * a + 256 * b + 16 * d + e
  }

  lemma {:induction false} ShortEscapeIff(letter: Unit, c: Unit)
    ensures ShortEscape(letter) == Some(c) <==> Escapes(letter, c)
  {
  }

  lemma {:induction false} HexDigitIff(digit: Unit, value: nat)
    ensures HexDigit(digit) == Some(value) <==> IsHex(digit, value)
  {
  }

  lemma {:induction false} HexValueIff(s: Text, c: Unit)
    requires |s| == 4
    ensures HexValue(s) == Some(c as nat) <==> IsHexOf(s, c)
  {
    forall i, v: nat | 0 <= i < 4 ensures HexDigit(s[i]) == Some(v) <==> IsHex(s[i], v) {
      HexDigitIff(s[i], v);
    }
    if HexValue(s) == Some(c as nat) {
      var a, b, d, e := HexDigit(s[0]).value, HexDigit(s[1]).value, HexDigit(s[2]).value, HexDigit(s[3]).value;
      assert IsHex(s[0], a) && IsHex(s[1], b) && IsHex(s[2], d) && IsHex(s[3], e);
    }
  }

  /** A way to write one unit inside a JSON string (section 7 of RFC 8259): itself,
      a short escape, or four hexadecimal digits of either case. */
  ghost predicate Spells(spelling: Text, c: Unit) {
    || (spelling == [c] && c >= 32 && c != 34 && c != 92)
    || (|spelling| == 2 && spelling[0] == 92 && Escapes(spelling[1], c))
    || (|spelling| == 6 && spelling[0] == 92 && spelling[1] == 117 && IsHexOf(spelling[2..], c))
  }

  /** A text written unit by unit, each in any of its spellings. */
  ghost predicate Written(spellings: seq<Text>, s: Text) {
    |spellings| == |s| && forall i :: 0 <= i < |s| ==> Spells(spellings[i], s[i])
  }

  function Concat(spellings: seq<Text>): Text {
    if spellings == [] then [] else spellings[0] + Concat(spellings[1..])
  }

  predicate Plain(c: Unit) { c != QUOTE && c != BACKSLASH }

  lemma {:induction false} HexIsPlain(s: Text)
    requires |s| == 4 && HexValue(s).Some?
    ensures Plain(s[0]) && Plain(s[1]) && Plain(s[2]) && Plain(s[3])
  {
  }

  lemma {:induction false} CapturePlain(c: Unit, rest: Text)
    requires Plain(c)
    ensures CaptureLength([c] + rest) == 1 + CaptureLength(rest)
  {
    assert ([c] + rest)[1..] == rest;
  }

  lemma {:induction false} CapturePair(c: Unit, rest: Text)
    ensures CaptureLength([BACKSLASH, c] + rest) == 2 + CaptureLength(rest)
  {
    assert ([BACKSLASH, c] + rest)[2..] == rest;
  }

  lemma {:induction false} CaptureEscape(a: Unit, b: Unit, c: Unit, d: Unit, rest: Text)
    requires Plain(a) && Plain(b) && Plain(c) && Plain(d)
    ensures CaptureLength([BACKSLASH, 117, a, b, c, d] + rest) == 6 + CaptureLength(rest)
  {
    var two := [c] + ([d] + rest);
    CapturePlain(d, rest);
    CapturePlain(c, [d] + rest);
    CapturePlain(b, two);
    CapturePlain(a, [b] + two);
    CapturePair(117, [a] + ([b] + two));
    assert [BACKSLASH, 117, a, b, c, d] + rest == [BACKSLASH, 117] + ([a] + ([b] + two));
  }

  lemma {:induction false} SpellingCaptured(u: Text, c: Unit, rest: Text)
    requires Spells(u, c)
    ensures CaptureLength(u + rest) == |u| + CaptureLength(rest)
  {
    if |u| == 1 {
      CapturePlain(c, rest);
    } else if |u| == 2 {
      CapturePair(u[1], rest);
      assert u == [BACKSLASH, u[1]];
    } else {
      assert u[2..] == u[2..6];
      HexValueIff(u[2..6], c);
      HexIsPlain(u[2..6]);
      CaptureEscape(u[2], u[3], u[4], u[5], rest);
      assert u == [BACKSLASH, 117, u[2], u[3], u[4], u[5]];
    }
  }

  lemma {:induction false} SpellingToken(u: Text, c: Unit, rest: Text)
    requires Spells(u, c)
    ensures Token(u + rest) == Some((c, |u|))
  {
    if |u| == 2 {
      ShortEscapeIff(u[1], c);
    } else if |u| == 6 {
      assert (u + rest)[2..6] == u[2..6] == u[2..];
      HexValueIff(u[2..6], c);
    }
  }

  lemma {:induction false} WrittenCaptured(spellings: seq<Text>, s: Text, rest: Text)
    requires Written(spellings, s) && rest != [] && rest[0] == QUOTE
    ensures CaptureLength(Concat(spellings) + rest) == |Concat(spellings)|
  {
    if s == [] {
      assert Concat(spellings) + rest == rest;
    } else {
      WrittenCaptured(spellings[1..], s[1..], rest);
      SpellingCaptured(spellings[0], s[0], Concat(spellings[1..]) + rest);
      assert Concat(spellings) + rest == spellings[0] + (Concat(spellings[1..]) + rest);
    }
  }

  lemma {:induction false} WrittenDecodes(spellings: seq<Text>, s: Text)
    requires Written(spellings, s)
    ensures Decode(Concat(spellings)) == Some(s)
  {
    if s != [] {
      var unit, tail := spellings[0], Concat(spellings[1..]);
      WrittenDecodes(spellings[1..], s[1..]);
      SpellingToken(unit, s[0], tail);
      assert Concat(spellings) == unit + tail && (unit + tail)[|unit|..] == tail;
      assert [s[0]] + s[1..] == s;
    }
  }

  lemma {:induction false} TokenSpelled(raw: Text)
    requires raw != [] && Token(raw).Some?
    ensures var (c, length) := Token(raw).value; Spells(raw[..length], c)
  {
    var (c, length) := Token(raw).value;
    if length == 2 {
      ShortEscapeIff(raw[1], c);
    } else if length == 6 {
      assert raw[..6][2..] == raw[2..6];
      HexValueIff(raw[2..6], c);
    }
  }

  lemma {:induction false} DecodedIsWritten(raw: Text, s: Text) returns (spellings: seq<Text>)
    requires Decode(raw) == Some(s)
    ensures Written(spellings, s) && Concat(spellings) == raw
    decreases |raw|
  {
    if raw == [] {
      spellings := [];
    } else {
      var length := Token(raw).value.1;
      TokenSpelled(raw);
      assert s == [Token(raw).value.0] + Decode(raw[length..]).value;
      var rest := DecodedIsWritten(raw[length..], s[1..]);
      spellings := [raw[..length]] + rest;
      assert spellings[1..] == rest && raw == raw[..length] + raw[length..];
    }
  }

  /** Decoding gives a text exactly if the content writes it, in whatever spelling. */
  lemma {:induction false} DecodeIff(raw: Text, s: Text)
    ensures Decode(raw) == Some(s) <==> exists spellings :: Written(spellings, s) && Concat(spellings) == raw
  {
    if Decode(raw) == Some(s) {
      var spellings := DecodedIsWritten(raw, s);
    }
    forall spellings | Written(spellings, s) && Concat(spellings) == raw ensures Decode(raw) == Some(s) {
      WrittenDecodes(spellings, s);
    }
  }

  lemma {:induction false} CapturedWhole(before: Text, spellings: seq<Text>, answer: Text, rest: Text)
    requires Written(spellings, answer) && rest != [] && rest[0] == QUOTE
    ensures Capture(before + (Concat(spellings) + rest), |before|) == Concat(spellings)
  {
    assert (before + (Concat(spellings) + rest))[|before|..] == Concat(spellings) + rest;
    WrittenCaptured(spellings, answer, rest);
  }

  /** Once the answer string is complete, however it is spelled, the partial answer
      is the answer. */
  lemma {:induction false} CompleteAnswer(before: Text, spellings: seq<Text>, answer: Text, after: Text)
    requires answer != [] && Written(spellings, answer) && AnswerStart(before, 0) == Some(|before|)
    ensures Partial(before + (Concat(spellings) + ([QUOTE] + after))) == Some(answer)
  {
    AnswerStartStable(before, before + (Concat(spellings) + ([QUOTE] + after)));
    CapturedWhole(before, spellings, answer, [QUOTE] + after);
    WrittenDecodes(spellings, answer);
    assert Decode([]) == Some([]);
  }
}
