/** Page layout of the PDF reader: words are grouped into lines, lines into
    columns, the lines of a column into paragraphs. Coordinates are reals. */
module PdfLayout {
  import opened Sorting

  datatype Word = Word(text: string, x0: real, x1: real, top: real, bottom: real)

  type Line = seq<Word>

  function Max(a: real, b: real): real { if a >= b then a else b }

  function Min(a: real, b: real): real { if a <= b then a else b }

  function Abs(a: real): real { if a < 0.0 then -a else a }

  function Height(w: Word): real { Max(1.0, w.bottom - w.top) }

  // ----- reading order --------------------------------------------------------------

  /** (top, x0, text): the order the words of a page are read in. */
  predicate ReadsFirst(a: Word, b: Word) {
    a.top < b.top || (a.top == b.top && LeftFirst(a, b))
  }

  /** (x0, text): the order inside a line. */
  predicate LeftFirst(a: Word, b: Word) {
    a.x0 < b.x0 || (a.x0 == b.x0 && TextNotAfter(a.text, b.text))
  }

  /** (top, x0) of the first words: the order of the lines. An empty line cannot
      arise; it is put last. */
  predicate LineFirst(a: Line, b: Line) {
    b == [] || (a != [] && (a[0].top < b[0].top || (a[0].top == b[0].top && a[0].x0 <= b[0].x0)))
  }

  lemma {:induction false} LeftFirstTotal()
    ensures TotalPreorder(LeftFirst)
  {
    forall a: Word, b: Word ensures LeftFirst(a, b) || LeftFirst(b, a) {
      TextTotal(a.text, b.text);
    }
    forall a: Word, b: Word, c: Word | LeftFirst(a, b) && LeftFirst(b, c) ensures LeftFirst(a, c) {
      if a.x0 == b.x0 == c.x0 {
        TextTransitive(a.text, b.text, c.text);
      }
    }
  }

  // ----- conservation of words -----------------------------------------------------

  function Flatten<T>(groups: seq<seq<T>>): seq<T> {
    if groups == [] then [] else groups[0] + Flatten(groups[1..])
  }

  lemma {:induction false} FlattenConcat<T>(a: seq<seq<T>>, b: seq<seq<T>>)
    ensures Flatten(a + b) == Flatten(a) + Flatten(b)
  {
    if a == [] {
      assert a + b == b;
    } else {
      assert (a + b)[1..] == a[1..] + b;
      FlattenConcat(a[1..], b);
    }
  }

  lemma {:induction false} FlattenOne<T>(group: seq<T>)
    ensures Flatten([group]) == group
  {
    assert [group][1..] == [];
    assert Flatten([group][1..]) == [];
  }

  /** The elements of all groups, as often as they occur. */
  function Bag<T>(groups: seq<seq<T>>): multiset<T> {
    if groups == [] then multiset{} else multiset(groups[0]) + Bag(groups[1..])
  }

  lemma {:induction false} BagOfFlat<T>(groups: seq<seq<T>>)
    ensures multiset(Flatten(groups)) == Bag(groups)
  {
    if groups != [] {
      BagOfFlat(groups[1..]);
    }
  }

  lemma {:induction false} BagBoth<T>(a: seq<seq<T>>, b: seq<seq<T>>)
    ensures Bag(a + b) == Bag(a) + Bag(b)
  {
    if a == [] {
      assert a + b == b;
    } else {
      assert (a + b)[1..] == a[1..] + b;
      BagBoth(a[1..], b);
    }
  }

  lemma {:induction false} BagPush<T>(groups: seq<seq<T>>, group: seq<T>)
    ensures Bag(groups + [group]) == Bag(groups) + multiset(group)
  {
    BagBoth(groups, [group]);
    assert Bag([group]) == multiset(group) + Bag([group][1..]);
  }

  lemma {:induction false} BagWithoutOne<T>(groups: seq<seq<T>>, i: nat)
    requires i < |groups|
    ensures Bag(groups) == multiset(groups[i]) + Bag(groups[..i] + groups[i + 1..])
    ensures multiset(groups[..i] + groups[i + 1..]) == multiset(groups) - multiset{groups[i]}
  {
    assert groups == groups[..i] + [groups[i]] + groups[i + 1..];
    BagBoth(groups[..i] + [groups[i]], groups[i + 1..]);
    BagPush(groups[..i], groups[i]);
    BagBoth(groups[..i], groups[i + 1..]);
  }

  /** Reordering groups moves no element between them. */
  lemma {:induction false} SameGroupsSameBag<T>(a: seq<seq<T>>, b: seq<seq<T>>)
    requires multiset(a) == multiset(b)
    ensures Bag(a) == Bag(b)
  {
    if a == [] {
      assert |multiset(b)| == 0;
    } else {
      assert a[0] in multiset(b);
      var i :| 0 <= i < |b| && b[i] == a[0];
      BagWithoutOne(b, i);
      assert a == [a[0]] + a[1..];
      assert multiset(a[1..]) == multiset(a) - multiset{a[0]};
      SameGroupsSameBag(a[1..], b[..i] + b[i + 1..]);
    }
  }

  lemma {:induction false} InBag<T>(groups: seq<seq<T>>, i: nat, x: T)
    requires i < |groups| && x in groups[i]
    ensures x in Bag(groups)
  {
    if i > 0 {
      InBag(groups[1..], i - 1, x);
    }
  }

  // ----- words into lines ------------------------------------------------------------

  predicate OnLine(first: Word, w: Word) {
    Abs(w.top - first.top) <= Max(2.0, Height(w) * 0.55)
  }

  predicate NonEmptyLines(lines: seq<Line>) { forall i :: 0 <= i < |lines| ==> lines[i] != [] }

  /** One past the last of the first n lines whose first word is level with w. */
  function LastLevel(lines: seq<Line>, w: Word, n: nat): (r: nat)
    requires n <= |lines| && NonEmptyLines(lines)
    ensures r <= n
    ensures r > 0 ==> OnLine(lines[r - 1][0], w)
    ensures forall i :: r <= i < n ==> !OnLine(lines[i][0], w)
  {
    if n == 0 then 0 else if OnLine(lines[n - 1][0], w) then n else LastLevel(lines, w, n - 1)
  }

  function Placed(lines: seq<Line>, w: Word): (r: seq<Line>)
    requires NonEmptyLines(lines)
    ensures NonEmptyLines(r)
  {
    var at := LastLevel(lines, w, |lines|);
    if at == 0 then lines + [[w]] else lines[at - 1 := lines[at - 1] + [w]]
  }

  function LinesOf(words: seq<Word>): (r: seq<Line>)
    ensures NonEmptyLines(r)
  {
    if words == [] then [] else Placed(LinesOf(words[..|words| - 1]), words[|words| - 1])
  }

  /** One past the last line that is level with the word, searched from the end. */
  method FindLine(lines: seq<Line>, word: Word) returns (at: nat)
    requires NonEmptyLines(lines)
    ensures at == LastLevel(lines, word, |lines|)
  {
    at := |lines|;
    while at > 0 && !OnLine(lines[at - 1][0], word)
      invariant 0 <= at <= |lines|
      invariant LastLevel(lines, word, |lines|) == LastLevel(lines, word, at)
    {
      at := at - 1;
    }
  }

  method GroupIntoLines(words: seq<Word>) returns (lines: seq<Line>)
    ensures lines == LinesOf(words)
  {
    lines := [];
    for n := 0 to |words|
      invariant lines == LinesOf(words[..n])
    {
      assert words[..n + 1][..n] == words[..n];
      var word := words[n];
      var at := FindLine(lines, word);
      if at == 0 {
        lines := lines + [[word]];
      } else {
        lines := lines[at - 1 := lines[at - 1] + [word]];
      }
    }
    assert words[..|words|] == words;
  }

  lemma {:induction false} PlacedKeeps(lines: seq<Line>, w: Word)
    requires NonEmptyLines(lines)
    ensures Bag(Placed(lines, w)) == Bag(lines) + multiset{w}
  {
    var at := LastLevel(lines, w, |lines|);
    if at == 0 {
      BagPush(lines, [w]);
    } else {
      var placed := Placed(lines, w);
      BagWithoutOne(lines, at - 1);
      BagWithoutOne(placed, at - 1);
      assert placed[..at - 1] + placed[at..] == lines[..at - 1] + lines[at..];
    }
  }

  lemma {:induction false} LinesKeepWords(words: seq<Word>)
    ensures Bag(LinesOf(words)) == multiset(words)
  {
    if words != [] {
      var init, last := words[..|words| - 1], words[|words| - 1];
      LinesKeepWords(init);
      PlacedKeeps(LinesOf(init), last);
      assert words == init + [last];
    }
  }

  ghost predicate Level(line: Line) {
    line != [] && forall i :: 0 < i < |line| ==> OnLine(line[0], line[i])
  }

  /** Two words are level when their tops differ by at most two points, or by at
      most 0.55 of the height of the second, taken as at least one point. */
  predicate TopsClose(first: Word, w: Word) {
    var apart := if w.top >= first.top then w.top - first.top else first.top - w.top;
    apart <= 2.0 || apart <= 0.55 * (w.bottom - w.top)
  }

  lemma {:induction false} OnLineIff(first: Word, w: Word)
    ensures OnLine(first, w) <==> TopsClose(first, w)
  {
  }

  /** A word joins the last line whose opening word it is level with, and opens a
      line of its own if there is none. */
  lemma {:induction false} PlacedWhere(lines: seq<Line>, w: Word)
    requires NonEmptyLines(lines)
    ensures (forall i :: 0 <= i < |lines| ==> !TopsClose(lines[i][0], w)) ==> Placed(lines, w) == lines + [[w]]
    ensures forall k :: 0 <= k < |lines| && TopsClose(lines[k][0], w) && (forall i :: k < i < |lines| ==> !TopsClose(lines[i][0], w)) ==>
              Placed(lines, w) == lines[k := lines[k] + [w]]
  {
    forall i | 0 <= i < |lines| ensures OnLine(lines[i][0], w) <==> TopsClose(lines[i][0], w) {
      OnLineIff(lines[i][0], w);
    }
  }

  /** Every word of a line is level with the word that opened it. */
  lemma {:induction false} LinesAreLevel(words: seq<Word>)
    ensures forall i :: 0 <= i < |LinesOf(words)| ==> Level(LinesOf(words)[i])
  {
    if words != [] {
      LinesAreLevel(words[..|words| - 1]);
    }
  }

  function EachSorted(lines: seq<Line>): (r: seq<Line>)
    ensures |r| == |lines|
    ensures forall i :: 0 <= i < |lines| ==> r[i] == Sorted(LeftFirst, lines[i])
  {
    seq(|lines|, i requires 0 <= i < |lines| => Sorted(LeftFirst, lines[i]))
  }

  /** `normalized_lines`. */
  function NormalizedLines(words: seq<Word>): seq<Line> {
    EachSorted(Sorted(LineFirst, LinesOf(Sorted(ReadsFirst, words))))
  }

  lemma {:induction false} EachSortedKeeps(lines: seq<Line>)
    ensures Bag(EachSorted(lines)) == Bag(lines)
  {
    if lines != [] {
      EachSortedKeeps(lines[1..]);
      SortedKeeps(LeftFirst, lines[0]);
      assert EachSorted(lines)[1..] == EachSorted(lines[1..]);
    }
  }

  lemma {:induction false} NormalizedKeepsWords(words: seq<Word>)
    ensures Bag(NormalizedLines(words)) == multiset(words)
  {
    var ordered := Sorted(ReadsFirst, words);
    var lines := LinesOf(ordered);
    SortedKeeps(ReadsFirst, words);
    LinesKeepWords(ordered);
    SortedKeeps(LineFirst, lines);
    SameGroupsSameBag(Sorted(LineFirst, lines), lines);
    EachSortedKeeps(Sorted(LineFirst, lines));
  }

  /** What a line of words with x0 <= x1 has: at least one word, and its first
      x0 not to the right of its last x1. */
  predicate Proper(line: Line) { line != [] && Left(line) <= Right(line) }

  function Left(line: Line): real requires line != [] { line[0].x0 }

  function Right(line: Line): real requires line != [] { line[|line| - 1].x1 }

  predicate Upright(words: seq<Word>) { forall i :: 0 <= i < |words| ==> words[i].x0 <= words[i].x1 }

  lemma {:induction false} SortedLineProper(line: Line)
    requires line != [] && Upright(line)
    ensures Proper(Sorted(LeftFirst, line))
  {
    var s := Sorted(LeftFirst, line);
    SortedKeeps(LeftFirst, line);
    LeftFirstTotal();
    SortedOrders(LeftFirst, line);
    var last := s[|s| - 1];
    assert last in multiset(s);
    assert last in line;
    if |s| > 1 {
      assert LeftFirst(s[0], last);
    }
  }

  lemma {:induction false} LinesProper(words: seq<Word>)
    requires Upright(words)
    ensures forall i :: 0 <= i < |NormalizedLines(words)| ==> Proper(NormalizedLines(words)[i])
  {
    var ordered := Sorted(ReadsFirst, words);
    var lines := LinesOf(ordered);
    var sorted: seq<Line> := Sorted(LineFirst, lines);
    SortedKeeps(LineFirst, lines);
    SortedKeeps(ReadsFirst, words);
    LinesKeepWords(ordered);
    forall i | 0 <= i < |sorted| ensures Proper(Sorted(LeftFirst, sorted[i])) {
      assert sorted[i] in multiset(sorted);
      var j :| 0 <= j < |lines| && lines[j] == sorted[i];
      forall k: nat | k < |sorted[i]| ensures sorted[i][k].x0 <= sorted[i][k].x1 {
        InBag(lines, j, sorted[i][k]);
        assert sorted[i][k] in multiset(words);
      }
      SortedLineProper(sorted[i]);
    }
  }

  // ----- the order lines are read in ----------------------------------------------------

  /** Higher on the page, or as high and not further right. */
  predicate Precedes(a: Word, b: Word) { a.top < b.top || (a.top == b.top && a.x0 <= b.x0) }

  /** The word that opens a line: none of the line's words precedes it strictly. */
  ghost predicate Opener(line: Line, w: Word) { w in line && forall x :: x in line ==> Precedes(w, x) }

  ghost predicate LeftToRight(line: Line) { forall i, j :: 0 <= i < j < |line| ==> line[i].x0 <= line[j].x0 }

  /** The word that opens the first line precedes the one that opens the second. */
  ghost predicate LineAbove(above: Line, below: Line) {
    exists a, b :: Opener(above, a) && Opener(below, b) && Precedes(a, b)
  }

  /** Each line is read from left to right, and lines come in the order of the
      words that open them. */
  ghost predicate InReadingOrder(lines: seq<Line>) {
    (forall i :: 0 <= i < |lines| ==> LeftToRight(lines[i])) &&
    (forall i, j :: 0 <= i < j < |lines| ==> LineAbove(lines[i], lines[j]))
  }

  lemma {:induction false} ReadsFirstTotal()
    ensures TotalPreorder(ReadsFirst)
  {
    LeftFirstTotal();
    forall a: Word, b: Word ensures ReadsFirst(a, b) || ReadsFirst(b, a) {
      assert LeftFirst(a, b) || LeftFirst(b, a);
    }
    forall a: Word, b: Word, c: Word | ReadsFirst(a, b) && ReadsFirst(b, c) ensures ReadsFirst(a, c) {
      assert LeftFirst(a, b) && LeftFirst(b, c) ==> LeftFirst(a, c);
    }
  }

  lemma {:induction false} LineFirstTotal()
    ensures TotalPreorder(LineFirst)
  {
  }

  /** Words come to their lines in reading order, so a line's first word opens it. */
  ghost predicate FirstOpens(line: Line) { line != [] && Opener(line, line[0]) }

  lemma {:induction false} PlacedOpens(lines: seq<Line>, w: Word)
    requires NonEmptyLines(lines) && forall i :: 0 <= i < |lines| ==> FirstOpens(lines[i]) && Precedes(lines[i][0], w)
    ensures forall i :: 0 <= i < |Placed(lines, w)| ==> FirstOpens(Placed(lines, w)[i])
  {
  }

  lemma {:induction false} FirstWordsOpen(words: seq<Word>)
    requires Ordered(ReadsFirst, words)
    ensures forall i :: 0 <= i < |LinesOf(words)| ==> FirstOpens(LinesOf(words)[i])
  {
    if words != [] {
      var init, last := words[..|words| - 1], words[|words| - 1];
      FirstWordsOpen(init);
      LinesKeepWords(init);
      var lines := LinesOf(init);
      forall i | 0 <= i < |lines| ensures Precedes(lines[i][0], last) {
        InBag(lines, i, lines[i][0]);
        assert lines[i][0] in multiset(init);
        var k :| 0 <= k < |init| && init[k] == lines[i][0];
        assert ReadsFirst(words[k], last);
      }
      PlacedOpens(lines, last);
    }
  }

  lemma {:induction false} SortedLineOpener(line: Line)
    requires FirstOpens(line)
    ensures Opener(Sorted(LeftFirst, line), line[0]) && LeftToRight(Sorted(LeftFirst, line))
  {
    var s := Sorted(LeftFirst, line);
    SortedKeeps(LeftFirst, line);
    LeftFirstTotal();
    SortedOrders(LeftFirst, line);
    assert forall w :: w in s <==> w in multiset(s);
    assert forall w :: w in line <==> w in multiset(line);
    forall i, j | 0 <= i < j < |s| ensures s[i].x0 <= s[j].x0 {
      assert LeftFirst(s[i], s[j]);
    }
  }

  /** The lines of a page are in reading order. */
  lemma {:induction false} NormalizedInOrder(words: seq<Word>)
    ensures InReadingOrder(NormalizedLines(words))
  {
    var ordered := Sorted(ReadsFirst, words);
    var lines := LinesOf(ordered);
    var sorted: seq<Line> := Sorted(LineFirst, lines);
    ReadsFirstTotal();
    SortedOrders(ReadsFirst, words);
    FirstWordsOpen(ordered);
    LineFirstTotal();
    SortedOrders(LineFirst, lines);
    SortedKeeps(LineFirst, lines);
    forall i | 0 <= i < |sorted| ensures FirstOpens(sorted[i]) {
      assert sorted[i] in multiset(sorted);
      assert sorted[i] in lines;
    }
    var normal := EachSorted(sorted);
    forall i | 0 <= i < |normal| ensures LeftToRight(normal[i]) && Opener(normal[i], sorted[i][0]) {
      SortedLineOpener(sorted[i]);
    }
    forall i, j | 0 <= i < j < |normal| ensures LineAbove(normal[i], normal[j]) {
      assert LineFirst(sorted[i], sorted[j]);
      assert Opener(normal[i], sorted[i][0]) && Opener(normal[j], sorted[j][0]) && Precedes(sorted[i][0], sorted[j][0]);
    }
  }

  /** Part of a page's lines, in their order. */
  lemma {:induction false} FewerInOrder(lines: seq<Line>, line: Line)
    requires InReadingOrder(lines + [line])
    ensures InReadingOrder(lines)
  {
    forall i, j | 0 <= i < j < |lines| ensures LineAbove(lines[i], lines[j]) {
      assert LineAbove((lines + [line])[i], (lines + [line])[j]);
    }
    forall i | 0 <= i < |lines| ensures LeftToRight(lines[i]) {
      assert LeftToRight((lines + [line])[i]);
    }
  }
}
