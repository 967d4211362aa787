/** The PDF reader as a whole: each paragraph of a laid-out document becomes one
    block of text with a segment per line. */
module PdfBlocks {
  import opened Wrappers
  import opened PdfText
  import opened PdfLayout
  import opened PdfColumns
  import opened PdfPage

  const MAX_PDF_PAGES := 1000
  const MAX_PDF_BLOCKS := 8192

  // ----- one paragraph -------------------------------------------------------------

  function Texts(line: Line): (r: seq<string>)
    ensures |r| == |line|
    ensures forall i :: 0 <= i < |line| ==> r[i] == line[i].text
  {
    seq(|line|, i requires 0 <= i < |line| => line[i].text)
  }

  function LineTexts(digit: char -> bool, paragraph: Paragraph): (r: seq<string>)
    ensures |r| == |paragraph|
    ensures forall i :: 0 <= i < |paragraph| ==> r[i] == LineText(digit, Texts(paragraph[i]))
  {
    seq(|paragraph|, i requires 0 <= i < |paragraph| => LineText(digit, Texts(paragraph[i])))
  }

  /** The box of a line; no line is empty, so the empty box is never used. */
  function Box(page: nat, line: Line): Selector {
    if line == [] then BoundingBoxSelector(page, 0.0, 0.0, 0.0, 0.0) else
    var x, y := Least(X0Of, line), Top(line);
    BoundingBoxSelector(page, x, y, Greatest(X1Of, line) - x, Bottom(line) - y)
  }

  /** A box spans its line: every word lies inside it, and each of its four
      sides touches a word. */
  ghost predicate Spans(box: Selector, line: Line) {
    box.BoundingBoxSelector? &&
    (forall w :: w in line ==>
       box.x <= w.x0 && w.x1 <= box.x + box.width && box.y <= w.top && w.bottom <= box.y + box.height) &&
    (exists w :: w in line && w.x0 == box.x) && (exists w :: w in line && w.x1 == box.x + box.width) &&
    (exists w :: w in line && w.top == box.y) && (exists w :: w in line && w.bottom == box.y + box.height)
  }

  lemma {:induction false} BoxSpans(page: nat, line: Line)
    requires line != []
    ensures Spans(Box(page, line), line)
  {
    var box := Box(page, line);
    LeastBound(X0Of, line);
    LeastBound(TopOf, line);
    GreatestBound(X1Of, line);
    GreatestBound(BottomOf, line);
    var i :| 0 <= i < |line| && Least(X0Of, line) == X0Of(line[i]);
    assert line[i] in line;
    var j :| 0 <= j < |line| && Greatest(X1Of, line) == X1Of(line[j]);
    assert line[j] in line;
    var k :| 0 <= k < |line| && Least(TopOf, line) == TopOf(line[k]);
    assert line[k] in line;
    var l :| 0 <= l < |line| && Greatest(BottomOf, line) == BottomOf(line[l]);
    assert line[l] in line;
  }

  function LineSegment(page: nat, line: Line, start: int, text: string): Segment {
    Segment(start, start + |text|, [PageSelector(page), Box(page, line)])
  }

  /** The segments of the first n lines. */
  function SegmentsUpTo(page: nat, paragraph: Paragraph, texts: seq<string>, n: nat): (r: seq<Segment>)
    requires n <= |paragraph| == |texts|
    ensures |r| == n
  {
    if n == 0 then []
    else SegmentsUpTo(page, paragraph, texts, n - 1) +
         [LineSegment(page, paragraph[n - 1], Offset(texts, n - 1), texts[n - 1])]
  }

  function SegmentsOf(digit: char -> bool, page: nat, paragraph: Paragraph): seq<Segment> {
    SegmentsUpTo(page, paragraph, LineTexts(digit, paragraph), |paragraph|)
  }

  lemma {:induction false} SegmentAt(page: nat, paragraph: Paragraph, texts: seq<string>, n: nat, i: nat)
    requires i < n <= |paragraph| == |texts|
    ensures SegmentsUpTo(page, paragraph, texts, n)[i] == LineSegment(page, paragraph[i], Offset(texts, i), texts[i])
  {
    if i < n - 1 {
      SegmentAt(page, paragraph, texts, n - 1, i);
    }
  }

  method BuildSegments(page: nat, paragraph: Paragraph, texts: seq<string>) returns (segments: seq<Segment>)
    requires |paragraph| == |texts|
    ensures segments == SegmentsUpTo(page, paragraph, texts, |paragraph|)
  {
    segments := [];
    var blockOffset := 0;
    for i := 0 to |paragraph|
      invariant segments == SegmentsUpTo(page, paragraph, texts, i)
      invariant blockOffset == Offset(texts, i)
    {
      var lineText := texts[i];
      segments := segments + [LineSegment(page, paragraph[i], blockOffset, lineText)];
      OffsetStep(texts, i);
      blockOffset := blockOffset + |lineText| + 1;
    }
  }

  function BlockFor(digit: char -> bool, page: nat, paragraph: Paragraph): Result<Option<Block>, Error> {
    MakeBlock(JoinLines(LineTexts(digit, paragraph)), SegmentsOf(digit, page, paragraph))
  }

  // ----- the document ------------------------------------------------------------------

  type Made = Result<Option<Block>, Error>

  /** What `block` makes of each item. */
  function MadeFor(digit: char -> bool, items: seq<Item>): (r: seq<Made>)
    ensures |r| == |items|
    ensures forall i :: 0 <= i < |items| ==> r[i] == BlockFor(digit, items[i].page, items[i].paragraph)
  {
    seq(|items|, i requires 0 <= i < |items| => BlockFor(digit, items[i].page, items[i].paragraph))
  }

  /** The blocks so far and one more outcome of `block`. */
  function Extended(blocks: seq<Block>, made: Made): Result<seq<Block>, Error> {
    match made
    case Err(e) => Err(e)
    case Ok(None) => Ok(blocks)
    case Ok(Some(block)) => if |blocks| + 1 > MAX_PDF_BLOCKS then Err(BlockBudget) else Ok(blocks + [block])
  }

  /** All outcomes after the blocks so far; the first error ends the reading. */
  function Collected(blocks: seq<Block>, made: seq<Made>): Result<seq<Block>, Error>
    decreases |made|
  {
    if made == [] then Ok(blocks) else
      match Extended(blocks, made[0])
      case Err(e) => Err(e)
      case Ok(extended) => Collected(extended, made[1..])
  }

  lemma {:induction false} CollectedBoth(blocks: seq<Block>, a: seq<Made>, b: seq<Made>)
    ensures Collected(blocks, a + b) ==
            match Collected(blocks, a)
            case Err(e) => Err(e)
            case Ok(extended) => Collected(extended, b)
    decreases |a|
  {
    if a == [] {
      assert a + b == b;
    } else {
      assert (a + b)[1..] == a[1..] + b;
      var next := Extended(blocks, a[0]);
      if next.Ok? {
        CollectedBoth(next.value, a[1..], b);
      }
    }
  }

  method AddParagraph(digit: char -> bool, page: nat, paragraph: Paragraph, blocks: seq<Block>)
    returns (r: Result<seq<Block>, Error>)
    ensures r == Extended(blocks, BlockFor(digit, page, paragraph))
  {
    var texts := LineTexts(digit, paragraph);
    var segments := BuildSegments(page, paragraph, texts);
    match MakeBlock(JoinLines(texts), segments) {
      case Err(e) => return Err(e);
      case Ok(None) => return Ok(blocks);
      case Ok(Some(block)) =>
        var output := blocks + [block];
        if |output| > MAX_PDF_BLOCKS {
          return Err(BlockBudget);
        }
        return Ok(output);
    }
  }

  method AddPage(digit: char -> bool, page: nat, paragraphs: seq<Paragraph>, blocks: seq<Block>)
    returns (r: Result<seq<Block>, Error>)
    ensures r == Collected(blocks, MadeFor(digit, Numbered(page, paragraphs)))
  {
    ghost var made := MadeFor(digit, Numbered(page, paragraphs));
    r := Ok(blocks);
    for i := 0 to |paragraphs|
      invariant r.Ok? && Collected(r.value, made[i..]) == Collected(blocks, made)
    {
      assert made[i..][1..] == made[i + 1..];
      r := AddParagraph(digit, page, paragraphs[i], r.value);
      if r.Err? {
        return;
      }
    }
  }

  /** `pdf_blocks` over the words of each page. */
  function PdfBlocks(digit: char -> bool, pages: seq<seq<Word>>): Result<seq<Block>, Error> {
    if |pages| > MAX_PDF_PAGES then Err(PageBudget)
    else Collected([], MadeFor(digit, Items(LaidOut(pages), 1)))
  }

  lemma {:induction false} MadeByPage(digit: char -> bool, laid: seq<seq<Paragraph>>, first: nat)
    requires laid != []
    ensures MadeFor(digit, Items(laid, first)) ==
            MadeFor(digit, Numbered(first, laid[0])) + MadeFor(digit, Items(laid[1..], first + 1))
  {
  }

  method ReadPdf(digit: char -> bool, pages: seq<seq<Word>>) returns (r: Result<seq<Block>, Error>)
    ensures r == PdfBlocks(digit, pages)
  {
    if |pages| > MAX_PDF_PAGES {
      return Err(PageBudget);
    }
    ghost var laid := LaidOut(pages);
    r := Ok([]);
    for p := 0 to |pages|
      invariant r.Ok? && Collected(r.value, MadeFor(digit, Items(laid[p..], p + 1))) == PdfBlocks(digit, pages)
    {
      assert laid[p..][1..] == laid[p + 1..];
      var paragraphs := LayOutPage(pages[p]);
      MadeByPage(digit, laid[p..], p + 1);
      CollectedBoth(r.value, MadeFor(digit, Numbered(p + 1, paragraphs)), MadeFor(digit, Items(laid[p + 1..], p + 2)));
      r := AddPage(digit, p + 1, paragraphs, r.value);
      if r.Err? {
        return;
      }
    }
  }

  // ----- what a document's blocks say ---------------------------------------------------

  predicate CleanLine(line: Line) { forall i :: 0 <= i < |line| ==> Clean(line[i].text) }

  predicate CleanParagraph(paragraph: Paragraph) {
    paragraph != [] && forall i :: 0 <= i < |paragraph| ==> paragraph[i] != [] && CleanLine(paragraph[i])
  }

  ghost predicate CleanItems(items: seq<Item>) {
    forall i :: 0 <= i < |items| ==> CleanParagraph(items[i].paragraph)
  }

  lemma {:induction false} CleanTexts(digit: char -> bool, paragraph: Paragraph)
    requires CleanParagraph(paragraph)
    ensures AllClean(LineTexts(digit, paragraph))
  {
    forall i | 0 <= i < |paragraph| ensures Clean(LineTexts(digit, paragraph)[i]) {
      assert CleanLine(paragraph[i]);
      LineTextClean(digit, Texts(paragraph[i]));
    }
  }

  /** The block made for an item: its segments tile its text line by line, and
      each names the page and the box its line spans. */
  ghost predicate Faithful(digit: char -> bool, block: Block, item: Item) {
    Tiles(block, LineTexts(digit, item.paragraph)) &&
    forall i: nat :: i < |item.paragraph| ==> Locates(block.segments[i], item.page, item.paragraph[i])
  }

  ghost predicate Locates(segment: Segment, page: nat, line: Line) {
    |segment.selectors| == 2 && segment.selectors[0] == PageSelector(page) && Spans(segment.selectors[1], line) &&
    segment.selectors[1].boxPage == page
  }

  predicate Short(item: Item) { |item.paragraph| <= MAX_SEGMENTS_PER_BLOCK }

  lemma {:induction false} SegmentsFit(page: nat, paragraph: Paragraph, texts: seq<string>)
    requires |paragraph| == |texts| && NonEmptyLines(paragraph)
    ensures var segments := SegmentsUpTo(page, paragraph, texts, |paragraph|);
            Follows(segments, texts) && PageAndBox(segments, page) &&
            forall i: nat :: i < |paragraph| ==> Locates(segments[i], page, paragraph[i])
  {
    var segments := SegmentsUpTo(page, paragraph, texts, |paragraph|);
    forall i: nat | i < |paragraph|
      ensures SegmentFor(segments[i], texts, i) && Locates(segments[i], page, paragraph[i])
    {
      SegmentAt(page, paragraph, texts, |paragraph|, i);
      BoxSpans(page, paragraph[i]);
    }
  }

  lemma {:induction false} ItemBlock(digit: char -> bool, item: Item)
    requires CleanParagraph(item.paragraph)
    ensures var made := BlockFor(digit, item.page, item.paragraph);
            if Short(item) then made.Ok? && made.value.Some? && Faithful(digit, made.value.value, item)
            else made == Err(SegmentBudget)
  {
    var texts := LineTexts(digit, item.paragraph);
    CleanTexts(digit, item.paragraph);
    SegmentsFit(item.page, item.paragraph, texts);
    ParagraphBlock(texts, SegmentsOf(digit, item.page, item.paragraph), item.page);
  }

  ghost predicate AllMade(made: seq<Made>) { forall i :: 0 <= i < |made| ==> made[i].Ok? }

  /** r is the blocks so far and then the block of each outcome. */
  ghost predicate Took(r: seq<Block>, blocks: seq<Block>, made: seq<Made>) {
    |r| == |blocks| + |made| && r[..|blocks|] == blocks &&
    forall i :: 0 <= i < |made| ==> made[i].Ok? && made[i].value.Some? && r[|blocks| + i] == made[i].value.value
  }

  /** When every outcome is a block or an error, reading succeeds exactly if none
      is an error and the blocks fit the budget; it then returns all of them. */
  lemma {:induction false} CollectedExact(blocks: seq<Block>, made: seq<Made>)
    requires |blocks| <= MAX_PDF_BLOCKS
    requires forall i :: 0 <= i < |made| && made[i].Ok? ==> made[i].value.Some?
    ensures var r := Collected(blocks, made);
            (r.Ok? <==> AllMade(made) && |blocks| + |made| <= MAX_PDF_BLOCKS) &&
            (r.Ok? ==> Took(r.value, blocks, made))
    decreases |made|
  {
    if made != [] && made[0].Ok? && |blocks| + 1 <= MAX_PDF_BLOCKS {
      var block := made[0].value.value;
      CollectedExact(blocks + [block], made[1..]);
      assert AllMade(made) <==> AllMade(made[1..]);
      var r := Collected(blocks + [block], made[1..]);
      if r.Ok? {
        assert r.value[..|blocks| + 1][|blocks|] == block;
        forall i | 0 <= i < |made|
          ensures made[i].Ok? && made[i].value.Some? && r.value[|blocks| + i] == made[i].value.value
        {
          if i > 0 {
            assert made[i] == made[1..][i - 1];
          }
        }
      }
    }
  }

  predicate CleanWords(words: seq<Word>) { forall i :: 0 <= i < |words| ==> Clean(words[i].text) }

  lemma {:induction false} PageClean(words: seq<Word>)
    requires CleanWords(words)
    ensures forall i :: 0 <= i < |PageParagraphs(words)| ==> CleanParagraph(PageParagraphs(words)[i])
  {
    var paragraphs := PageParagraphs(words);
    PageKeepsWords(words);
    PageSolid(words);
    forall i | 0 <= i < |paragraphs| ensures CleanParagraph(paragraphs[i]) {
      forall j: nat | j < |paragraphs[i]| ensures CleanLine(paragraphs[i][j]) {
        var line: Line := paragraphs[i][j];
        forall k: nat | k < |line| ensures Clean(line[k].text) {
          InBag(paragraphs[i], j, line[k]);
          InBags(paragraphs, i, line[k]);
          assert line[k] in multiset(words);
        }
      }
    }
  }

  lemma {:induction false} ItemsClean(laid: seq<seq<Paragraph>>, first: nat)
    requires forall p, i :: 0 <= p < |laid| && 0 <= i < |laid[p]| ==> CleanParagraph(laid[p][i])
    ensures CleanItems(Items(laid, first))
  {
    if laid != [] {
      ItemsClean(laid[1..], first + 1);
    }
  }

  ghost predicate AllFaithful(digit: char -> bool, blocks: seq<Block>, items: seq<Item>) {
    |blocks| == |items| && forall i :: 0 <= i < |items| ==> Faithful(digit, blocks[i], items[i])
  }

  ghost predicate AllShort(items: seq<Item>) { forall i :: 0 <= i < |items| ==> Short(items[i]) }

  lemma {:induction false} CollectedFaithful(digit: char -> bool, items: seq<Item>)
    requires CleanItems(items)
    ensures var r := Collected([], MadeFor(digit, items));
            (r.Ok? <==> AllShort(items) && |items| <= MAX_PDF_BLOCKS) &&
            (r.Ok? ==> AllFaithful(digit, r.value, items))
  {
    var made := MadeFor(digit, items);
    forall i | 0 <= i < |items|
      ensures if Short(items[i]) then made[i].Ok? && made[i].value.Some? && Faithful(digit, made[i].value.value, items[i])
              else made[i] == Err(SegmentBudget)
    {
      ItemBlock(digit, items[i]);
    }
    CollectedExact([], made);
  }

  /** Reading a document of clean words succeeds exactly within the three budgets,
      1000 pages, 128 lines to a paragraph and 8192 paragraphs; then every paragraph has its
      own block, in reading order, that is faithful to it. */
  lemma {:induction false} DocumentFaithful(digit: char -> bool, pages: seq<seq<Word>>)
    requires forall p :: 0 <= p < |pages| ==> CleanWords(pages[p])
    ensures var items := Items(LaidOut(pages), 1); var r := PdfBlocks(digit, pages);
            (r.Ok? <==> |pages| <= 1000 && (forall i :: 0 <= i < |items| ==> |items[i].paragraph| <= 128) && |items| <= 8192) &&
            (r.Ok? ==> AllFaithful(digit, r.value, items))
  {
    var laid := LaidOut(pages);
    forall p | 0 <= p < |laid| ensures forall i :: 0 <= i < |laid[p]| ==> CleanParagraph(laid[p][i]) {
      PageClean(pages[p]);
    }
    ItemsClean(laid, 1);
    CollectedFaithful(digit, Items(laid, 1));
  }
}
