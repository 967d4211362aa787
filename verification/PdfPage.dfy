/** A PDF document laid out: each page's words become lines, columns and
    paragraphs, and the paragraphs of all pages follow one another. */
module PdfPage {
  import opened Sorting
  import opened PdfLayout
  import opened PdfColumns

  // ----- one page ---------------------------------------------------------------

  /** The normalized lines of a page; no line is empty. */
  function PageLines(words: seq<Word>): (lines: seq<Line>)
    ensures NonEmptyLines(lines)
    ensures lines != [] ==> Flatten(lines) != []
  {
    NormalizedNonEmpty(words);
    NormalizedLines(words)
  }

  lemma {:induction false} NormalizedNonEmpty(words: seq<Word>)
    ensures NonEmptyLines(NormalizedLines(words))
  {
    var lines := LinesOf(Sorted(ReadsFirst, words));
    var sorted: seq<Line> := Sorted(LineFirst, lines);
    SortedKeeps(LineFirst, lines);
    forall i | 0 <= i < |sorted| ensures Sorted(LeftFirst, sorted[i]) != [] {
      assert sorted[i] in multiset(sorted);
      assert sorted[i] in lines;
      SortedKeeps(LeftFirst, sorted[i]);
    }
  }

  /** The paragraphs of each column. */
  function ColumnParagraphs(columns: seq<seq<Line>>): (r: seq<seq<Paragraph>>)
    requires forall r :: 0 <= r < |columns| ==> NonEmptyLines(columns[r])
    ensures |r| == |columns|
    ensures forall c :: 0 <= c < |columns| ==> r[c] == Paragraphs(columns[c])
  {
    seq(|columns|, c requires 0 <= c < |columns| => Paragraphs(columns[c]))
  }

  lemma {:induction false} ColumnsNonEmpty(lines: seq<Line>, boundaries: seq<real>, n: nat)
    requires NonEmptyLines(lines)
    ensures forall r :: 0 <= r < n ==> NonEmptyLines(Columns(lines, boundaries, n)[r])
  {
    forall r | 0 <= r < n ensures NonEmptyLines(Columns(lines, boundaries, n)[r]) {
      ColumnAt(lines, boundaries, n, r);
    }
  }

  /** The paragraphs of the lines of a page, column by column from the left. */
  function LinesParagraphs(lines: seq<Line>): seq<Paragraph>
    requires NonEmptyLines(lines) && Flatten(lines) != []
  {
    var boundaries := Boundaries(lines);
    ColumnsNonEmpty(lines, boundaries, |boundaries| + 1);
    Flatten(ColumnParagraphs(Columns(lines, boundaries, |boundaries| + 1)))
  }

  function PageParagraphs(words: seq<Word>): seq<Paragraph> {
    var lines := PageLines(words);
    if lines == [] then [] else LinesParagraphs(lines)
  }

  method NormalizeLines(words: seq<Word>) returns (lines: seq<Line>)
    ensures lines == PageLines(words)
  {
    var grouped := GroupIntoLines(Sorted(ReadsFirst, words));
    lines := EachSorted(Sorted(LineFirst, grouped));
  }

  ghost predicate Holds(columns: map<nat, seq<Line>>, all: seq<seq<Line>>) {
    forall r: nat :: r < |all| ==> NonEmptyLines(all[r]) && all[r] == if r in columns then columns[r] else []
  }

  lemma {:induction false} OneMoreGroup(groups: seq<seq<Paragraph>>, r: nat)
    requires r < |groups|
    ensures Flatten(groups[..r + 1]) == Flatten(groups[..r]) + groups[r]
  {
    assert groups[..r + 1] == groups[..r] + [groups[r]];
    FlattenConcat(groups[..r], [groups[r]]);
    FlattenOne(groups[r]);
  }

  method ParagraphsByColumn(columns: map<nat, seq<Line>>, n: nat, ghost all: seq<seq<Line>>)
    returns (paragraphs: seq<Paragraph>)
    requires n == |all| && Holds(columns, all)
    ensures paragraphs == Flatten(ColumnParagraphs(all))
  {
    ghost var groups := ColumnParagraphs(all);
    paragraphs := [];
    for r := 0 to n
      invariant paragraphs == Flatten(groups[..r])
    {
      OneMoreGroup(groups, r);
      assert groups[r] == Paragraphs(all[r]);
      if r in columns {
        var found := GroupIntoParagraphs(columns[r]);
        paragraphs := paragraphs + found;
      }
    }
    assert groups[..n] == groups;
  }

  method LayOutLines(lines: seq<Line>) returns (paragraphs: seq<Paragraph>)
    requires NonEmptyLines(lines) && Flatten(lines) != []
    ensures paragraphs == LinesParagraphs(lines)
  {
    var boundaries := FindBoundaries(lines);
    var columns := GroupIntoColumns(lines, boundaries);
    ghost var all := Columns(lines, boundaries, |boundaries| + 1);
    ColumnsNonEmpty(lines, boundaries, |boundaries| + 1);
    forall r: nat | r < |all| ensures all[r] == if r in columns then columns[r] else [] {
      ColumnAt(lines, boundaries, |boundaries| + 1, r);
    }
    paragraphs := ParagraphsByColumn(columns, |boundaries| + 1, all);
  }

  method LayOutPage(words: seq<Word>) returns (paragraphs: seq<Paragraph>)
    ensures paragraphs == PageParagraphs(words)
    ensures ReadInOrder(paragraphs) && (Upright(words) ==> ReadApart(paragraphs))
  {
    PageReadInOrder(words);
    var lines := NormalizeLines(words);
    paragraphs := [];
    if lines != [] {
      paragraphs := LayOutLines(lines);
    }
  }

  ghost predicate Keeps(paragraphs: seq<Paragraph>, lines: seq<Line>) { Bags(paragraphs) == Bag(lines) }

  lemma {:induction false} FlattenKeeps(groups: seq<seq<Paragraph>>, columns: seq<seq<Line>>)
    requires |groups| == |columns| && forall c :: 0 <= c < |groups| ==> Keeps(groups[c], columns[c])
    ensures Keeps(Flatten(groups), Flatten(columns))
  {
    if groups != [] {
      FlattenKeeps(groups[1..], columns[1..]);
      BagsBoth(groups[0], Flatten(groups[1..]));
      BagBoth(columns[0], Flatten(columns[1..]));
    }
  }

  lemma {:induction false} LinesKeepWords(lines: seq<Line>)
    requires NonEmptyLines(lines) && Flatten(lines) != []
    ensures Keeps(LinesParagraphs(lines), lines)
  {
    var boundaries := Boundaries(lines);
    var columns := Columns(lines, boundaries, |boundaries| + 1);
    ColumnsNonEmpty(lines, boundaries, |boundaries| + 1);
    forall c | 0 <= c < |columns| ensures Keeps(ColumnParagraphs(columns)[c], columns[c]) {
      ParagraphsKeepWords(columns[c]);
    }
    FlattenKeeps(ColumnParagraphs(columns), columns);
    ColumnsKeepLines(lines, boundaries);
    BagOfFlat(columns);
    SameGroupsSameBag(Flatten(columns), lines);
  }

  /** Every word of a page lands in exactly one paragraph, as often as it
      occurs. */
  lemma {:induction false} PageKeepsWords(words: seq<Word>)
    ensures Bags(PageParagraphs(words)) == multiset(words)
  {
    NormalizedKeepsWords(words);
    var lines := PageLines(words);
    if lines != [] {
      LinesKeepWords(lines);
    }
  }

  ghost predicate AllSolid(paragraphs: seq<Paragraph>) {
    forall i :: 0 <= i < |paragraphs| ==> Solid(paragraphs[i])
  }

  lemma {:induction false} FlattenSolid(groups: seq<seq<Paragraph>>)
    requires forall c :: 0 <= c < |groups| ==> AllSolid(groups[c])
    ensures AllSolid(Flatten(groups))
  {
    if groups != [] {
      FlattenSolid(groups[1..]);
    }
  }

  /** No paragraph holds an empty line or a gap wide enough to part it. */
  lemma {:induction false} PageSolid(words: seq<Word>)
    ensures AllSolid(PageParagraphs(words))
  {
    var lines := PageLines(words);
    if lines != [] {
      var boundaries := Boundaries(lines);
      var columns := Columns(lines, boundaries, |boundaries| + 1);
      ColumnsNonEmpty(lines, boundaries, |boundaries| + 1);
      forall c | 0 <= c < |columns| ensures AllSolid(ColumnParagraphs(columns)[c]) {
        ParagraphsCut(columns[c]);
      }
      FlattenSolid(ColumnParagraphs(columns));
    }
  }

  /** Two columns of a page are parted by each boundary between them: with words
      whose x0 is at most their x1, the lines of the lower column lie left of it
      and those of the higher column right of it. */
  lemma {:induction false} ColumnsParted(words: seq<Word>, low: nat, high: nat, boundary: nat)
    requires Upright(words) && PageLines(words) != []
    requires low <= boundary < high <= |Boundaries(PageLines(words))|
    ensures var lines := PageLines(words);
            forall line: Line :: line in lines ==>
              && (line in InColumn(lines, Boundaries(lines), low) ==> Right(line) <= Boundaries(lines)[boundary])
              && (line in InColumn(lines, Boundaries(lines), high) ==> Boundaries(lines)[boundary] <= Left(line))
  {
    var lines := PageLines(words);
    LinesProper(words);
    forall line: Line | line in lines
      ensures line in InColumn(lines, Boundaries(lines), low) ==> Right(line) <= Boundaries(lines)[boundary]
      ensures line in InColumn(lines, Boundaries(lines), high) ==> Boundaries(lines)[boundary] <= Left(line)
    {
      BoundaryParts(lines, line, boundary);
      InColumnExact(lines, Boundaries(lines), low, line);
      InColumnExact(lines, Boundaries(lines), high, line);
    }
  }

  // ----- the order a page is read in -----------------------------------------------------

  lemma {:induction false} ColumnInOrder(lines: seq<Line>, boundaries: seq<real>, r: nat)
    requires NonEmptyLines(lines) && InReadingOrder(lines)
    ensures InReadingOrder(InColumn(lines, boundaries, r))
  {
    if lines != [] {
      var init, last := lines[..|lines| - 1], lines[|lines| - 1];
      assert lines == init + [last];
      FewerInOrder(init, last);
      ColumnInOrder(init, boundaries, r);
      var column := InColumn(init, boundaries, r);
      assert LeftToRight(lines[|lines| - 1]);
      forall i | 0 <= i < |column| ensures LineAbove(column[i], last) {
        InColumnExact(init, boundaries, r, column[i]);
        var k :| 0 <= k < |init| && init[k] == column[i];
        assert LineAbove(lines[k], lines[|lines| - 1]);
      }
    }
  }

  /** The middle of each line of the first column lies left of that of each line of
      the second. */
  ghost predicate LeftOf(first: seq<Line>, second: seq<Line>) {
    forall a, b :: a in first && b in second && a != [] && b != [] ==> Left(a) + Right(a) < Left(b) + Right(b)
  }

  /** Each line of the first column ends at or left of where each of the second
      begins. */
  ghost predicate Apart(first: seq<Line>, second: seq<Line>) {
    forall a, b :: a in first && b in second && a != [] && b != [] ==> Right(a) <= Left(b)
  }

  /** Columns follow one another from left to right; the lines of each column,
      through all its paragraphs, are in reading order. */
  ghost predicate ReadByColumns(columns: seq<seq<Paragraph>>) {
    (forall c :: 0 <= c < |columns| ==> InReadingOrder(Flatten(columns[c]))) &&
    (forall c, d :: 0 <= c < d < |columns| ==> LeftOf(Flatten(columns[c]), Flatten(columns[d])))
  }

  ghost predicate ColumnsApart(columns: seq<seq<Paragraph>>) {
    forall c, d :: 0 <= c < d < |columns| ==> Apart(Flatten(columns[c]), Flatten(columns[d]))
  }

  ghost predicate ReadInOrder(paragraphs: seq<Paragraph>) {
    exists columns: seq<seq<Paragraph>> :: Flatten(columns) == paragraphs && ReadByColumns(columns)
  }

  ghost predicate ReadApart(paragraphs: seq<Paragraph>) {
    exists columns: seq<seq<Paragraph>> :: Flatten(columns) == paragraphs && ReadByColumns(columns) && ColumnsApart(columns)
  }

  lemma {:induction false} ColumnsLeftOf(lines: seq<Line>, low: nat, high: nat)
    requires NonEmptyLines(lines) && Flatten(lines) != [] && low < high <= |Boundaries(lines)|
    ensures LeftOf(InColumn(lines, Boundaries(lines), low), InColumn(lines, Boundaries(lines), high))
  {
    var boundaries := Boundaries(lines);
    BoundariesAscend(lines);
    forall a, b | a in InColumn(lines, boundaries, low) && b in InColumn(lines, boundaries, high)
      ensures Left(a) + Right(a) < Left(b) + Right(b)
    {
      InColumnExact(lines, boundaries, low, a);
      InColumnExact(lines, boundaries, high, b);
      PassedExact(boundaries, Center(a), low);
      PassedExact(boundaries, Center(b), low);
    }
  }

  lemma {:induction false} ColumnsFarApart(words: seq<Word>, low: nat, high: nat)
    requires Upright(words) && PageLines(words) != [] && low < high <= |Boundaries(PageLines(words))|
    ensures var lines := PageLines(words);
            Apart(InColumn(lines, Boundaries(lines), low), InColumn(lines, Boundaries(lines), high))
  {
    var lines := PageLines(words);
    var boundaries := Boundaries(lines);
    ColumnsParted(words, low, high, low);
    forall a, b | a in InColumn(lines, boundaries, low) && b in InColumn(lines, boundaries, high) ensures Right(a) <= Left(b) {
      InColumnExact(lines, boundaries, low, a);
      InColumnExact(lines, boundaries, high, b);
    }
  }

  /** The paragraphs of a page, column by column. */
  lemma {:induction false} ByColumns(words: seq<Word>) returns (groups: seq<seq<Paragraph>>)
    requires PageLines(words) != []
    ensures Flatten(groups) == PageParagraphs(words) && |groups| == |Boundaries(PageLines(words))| + 1
    ensures forall c: nat :: c < |groups| ==>
              Flatten(groups[c]) == InColumn(PageLines(words), Boundaries(PageLines(words)), c) && InReadingOrder(Flatten(groups[c]))
  {
    var lines := PageLines(words);
    var boundaries := Boundaries(lines);
    var n := |boundaries| + 1;
    var columns := Columns(lines, boundaries, n);
    ColumnsNonEmpty(lines, boundaries, n);
    groups := ColumnParagraphs(columns);
    NormalizedInOrder(words);
    forall c: nat | c < n ensures Flatten(groups[c]) == InColumn(lines, boundaries, c) && InReadingOrder(Flatten(groups[c])) {
      ColumnAt(lines, boundaries, n, c);
      ParagraphsKeepLines(columns[c]);
      ColumnInOrder(lines, boundaries, c);
    }
  }

  /** Every page is read column by column from the left, each column line by line
      from the top, each line from the left; and if each word has x0 <= x1, no two
      columns overlap. */
  lemma {:induction false} PageReadInOrder(words: seq<Word>)
    ensures ReadInOrder(PageParagraphs(words))
    ensures Upright(words) ==> ReadApart(PageParagraphs(words))
  {
    var groups: seq<seq<Paragraph>> := [];
    if PageLines(words) != [] {
      groups := ByColumns(words);
      forall c: nat, d: nat | c < d < |groups| ensures LeftOf(Flatten(groups[c]), Flatten(groups[d])) {
        ColumnsLeftOf(PageLines(words), c, d);
      }
      if Upright(words) {
        forall c: nat, d: nat | c < d < |groups| ensures Apart(Flatten(groups[c]), Flatten(groups[d])) {
          ColumnsFarApart(words, c, d);
        }
      }
    }
    assert Flatten(groups) == PageParagraphs(words) && ReadByColumns(groups);
    assert Upright(words) ==> ColumnsApart(groups);
  }

  // ----- the document -----------------------------------------------------------------

  datatype Item = Item(page: nat, paragraph: Paragraph)

  function Numbered(page: nat, paragraphs: seq<Paragraph>): (r: seq<Item>)
    ensures |r| == |paragraphs|
    ensures forall i :: 0 <= i < |r| ==> r[i] == Item(page, paragraphs[i])
  {
    seq(|paragraphs|, i requires 0 <= i < |paragraphs| => Item(page, paragraphs[i]))
  }

  /** What the pages hold, each laid out on its own. */
  function LaidOut(pages: seq<seq<Word>>): (r: seq<seq<Paragraph>>)
    ensures |r| == |pages|
    ensures forall p :: 0 <= p < |pages| ==> r[p] == PageParagraphs(pages[p])
  {
    seq(|pages|, p requires 0 <= p < |pages| => PageParagraphs(pages[p]))
  }

  /** The paragraphs of pages numbered from `first`, in reading order. */
  function Items(laid: seq<seq<Paragraph>>, first: nat): seq<Item> {
    if laid == [] then [] else Numbered(first, laid[0]) + Items(laid[1..], first + 1)
  }

  /** The paragraphs that carry a page's number. */
  function ParagraphsOn(items: seq<Item>, page: nat): seq<Paragraph> {
    if items == [] then []
    else (if items[0].page == page then [items[0].paragraph] else []) + ParagraphsOn(items[1..], page)
  }

  lemma {:induction false} OnBoth(a: seq<Item>, b: seq<Item>, page: nat)
    ensures ParagraphsOn(a + b, page) == ParagraphsOn(a, page) + ParagraphsOn(b, page)
  {
    if a == [] {
      assert a + b == b;
    } else {
      assert (a + b)[1..] == a[1..] + b;
      OnBoth(a[1..], b, page);
    }
  }

  lemma {:induction false} OnOwn(paragraphs: seq<Paragraph>, page: nat)
    ensures ParagraphsOn(Numbered(page, paragraphs), page) == paragraphs
  {
    if paragraphs != [] {
      assert Numbered(page, paragraphs)[1..] == Numbered(page, paragraphs[1..]);
      OnOwn(paragraphs[1..], page);
    }
  }

  lemma {:induction false} OnOther(items: seq<Item>, page: nat)
    requires forall i :: 0 <= i < |items| ==> items[i].page != page
    ensures ParagraphsOn(items, page) == []
  {
    if items != [] {
      OnOther(items[1..], page);
    }
  }

  lemma {:induction false} ItemsPage(laid: seq<seq<Paragraph>>, first: nat)
    ensures forall i :: 0 <= i < |Items(laid, first)| ==> first <= Items(laid, first)[i].page < first + |laid|
  {
    if laid != [] {
      ItemsPage(laid[1..], first + 1);
    }
  }

  lemma {:induction false} OnPage(laid: seq<seq<Paragraph>>, first: nat, p: nat)
    requires p < |laid|
    ensures ParagraphsOn(Items(laid, first), first + p) == laid[p]
  {
    var head, rest := Numbered(first, laid[0]), Items(laid[1..], first + 1);
    OnBoth(head, rest, first + p);
    ItemsPage(laid[1..], first + 1);
    if p == 0 {
      OnOwn(laid[0], first);
      OnOther(rest, first);
    } else {
      OnOther(head, first + p);
      OnPage(laid[1..], first + 1, p - 1);
    }
  }

  /** The words of the paragraphs that carry the number of page p are its words. */
  ghost predicate KeepsPage(items: seq<Item>, pages: seq<seq<Word>>, p: nat)
    requires p < |pages|
  {
    Bags(ParagraphsOn(items, p + 1)) == multiset(pages[p])
  }

  /** Every word of the document lands in exactly one paragraph, as often as it
      occurs, and that paragraph carries the number of the word's own page. */
  lemma {:induction false} DocumentKeepsWords(pages: seq<seq<Word>>)
    ensures var items := Items(LaidOut(pages), 1); forall i :: 0 <= i < |items| ==> 1 <= items[i].page <= |pages|
    ensures forall p: nat :: p < |pages| ==> KeepsPage(Items(LaidOut(pages), 1), pages, p)
  {
    ItemsPage(LaidOut(pages), 1);
    forall p: nat | p < |pages| ensures KeepsPage(Items(LaidOut(pages), 1), pages, p) {
      OnPage(LaidOut(pages), 1, p);
      PageKeepsWords(pages[p]);
    }
  }

  ghost predicate PagesAscend(items: seq<Item>) { forall i, j :: 0 <= i < j < |items| ==> items[i].page <= items[j].page }

  lemma {:induction false} AppendAscends(head: seq<Item>, rest: seq<Item>, page: nat)
    requires PagesAscend(rest) && (forall i :: 0 <= i < |head| ==> head[i].page == page)
    requires forall i :: 0 <= i < |rest| ==> page <= rest[i].page
    ensures PagesAscend(head + rest)
  {
  }

  lemma {:induction false} ItemsAscend(laid: seq<seq<Paragraph>>, first: nat)
    ensures PagesAscend(Items(laid, first))
  {
    if laid != [] {
      ItemsAscend(laid[1..], first + 1);
      ItemsPage(laid[1..], first + 1);
      AppendAscends(Numbered(first, laid[0]), Items(laid[1..], first + 1), first);
    }
  }

  /** What carries the number of page p is that page, read in its order. */
  ghost predicate ReadsPage(items: seq<Item>, pages: seq<seq<Word>>, p: nat)
    requires p < |pages|
  {
    ParagraphsOn(items, p + 1) == PageParagraphs(pages[p]) && ReadInOrder(PageParagraphs(pages[p]))
  }

  /** The document is read page by page, each in its own order. */
  lemma {:induction false} DocumentReadInOrder(pages: seq<seq<Word>>)
    ensures PagesAscend(Items(LaidOut(pages), 1))
    ensures forall p: nat :: p < |pages| ==> ReadsPage(Items(LaidOut(pages), 1), pages, p)
  {
    ItemsAscend(LaidOut(pages), 1);
    forall p: nat | p < |pages| ensures ReadsPage(Items(LaidOut(pages), 1), pages, p) {
      OnPage(LaidOut(pages), 1, p);
      PageReadInOrder(pages[p]);
    }
  }
}
