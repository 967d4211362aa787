/** Columns and paragraphs of a page: where the vertical boundaries between
    columns lie, which column a line falls in, and where a column's lines break
    into paragraphs. */
module PdfColumns {
  import opened Sorting
  import opened PdfLayout

  const CLUSTER_GAP := 24.0

  // ----- boundary candidates -----------------------------------------------------

  predicate Before(a: real, b: real) { a <= b }

  function Widths(words: seq<Word>): (r: seq<real>)
    ensures |r| == |words|
  {
    seq(|words|, i requires 0 <= i < |words| => Max(1.0, words[i].x1 - words[i].x0))
  }

  function GapThreshold(lines: seq<Line>): real
    requires Flatten(lines) != []
  {
    var widths := Sorted(Before, Widths(Flatten(lines)));
    SortedKeeps(Before, Widths(Flatten(lines)));
    Max(24.0, widths[|widths| / 2] * 3.0)
  }

  /** Midpoints of the wide gaps between neighbours in one line. */
  function GapsInLine(line: Line, threshold: real): seq<real> {
    if |line| < 2 then [] else
      var left, right := line[|line| - 2], line[|line| - 1];
      GapsInLine(line[..|line| - 1], threshold) +
      if right.x0 - left.x1 >= threshold then [(left.x1 + right.x0) / 2.0] else []
  }

  function GapsInLines(lines: seq<Line>, threshold: real): seq<real> {
    if lines == [] then []
    else GapsInLines(lines[..|lines| - 1], threshold) + GapsInLine(lines[|lines| - 1], threshold)
  }

  function Least<T>(f: T -> real, s: seq<T>): real
    requires s != []
  {
    if |s| == 1 then f(s[0]) else Min(f(s[0]), Least(f, s[1..]))
  }

  function Greatest<T>(f: T -> real, s: seq<T>): real
    requires s != []
  {
    if |s| == 1 then f(s[0]) else Max(f(s[0]), Greatest(f, s[1..]))
  }

  lemma {:induction false} LeastBound<T>(f: T -> real, s: seq<T>)
    requires s != []
    ensures forall i :: 0 <= i < |s| ==> Least(f, s) <= f(s[i])
    ensures exists i :: 0 <= i < |s| && Least(f, s) == f(s[i])
  {
    if |s| == 1 {
      assert Least(f, s) == f(s[0]);
    } else {
      LeastBound(f, s[1..]);
      var i :| 0 <= i < |s[1..]| && Least(f, s[1..]) == f(s[1..][i]);
      assert s[1..][i] == s[i + 1];
      assert Least(f, s) == f(s[0]) || Least(f, s) == f(s[i + 1]);
    }
  }

  lemma {:induction false} GreatestBound<T>(f: T -> real, s: seq<T>)
    requires s != []
    ensures forall i :: 0 <= i < |s| ==> f(s[i]) <= Greatest(f, s)
    ensures exists i :: 0 <= i < |s| && Greatest(f, s) == f(s[i])
  {
    if |s| == 1 {
      assert Greatest(f, s) == f(s[0]);
    } else {
      GreatestBound(f, s[1..]);
      var i :| 0 <= i < |s[1..]| && Greatest(f, s[1..]) == f(s[1..][i]);
      assert s[1..][i] == s[i + 1];
      assert Greatest(f, s) == f(s[0]) || Greatest(f, s) == f(s[i + 1]);
    }
  }

  function X0Of(w: Word): real { w.x0 }

  function X1Of(w: Word): real { w.x1 }

  function TopOf(w: Word): real { w.top }

  function BottomOf(w: Word): real { w.bottom }

  function Extent(w: Word): real { w.bottom - w.top }

  function Top(line: Line): real requires line != [] { Least(TopOf, line) }

  function Bottom(line: Line): real requires line != [] { Greatest(BottomOf, line) }

  /** The gap between two lines that overlap vertically. */
  function GapBetween(a: Line, b: Line, threshold: real): seq<real>
    requires a != [] && b != []
  {
    var (leftEdge, rightEdge) := if Left(a) <= Left(b) then (Right(a), Left(b)) else (Right(b), Left(a));
    if Min(Bottom(a), Bottom(b)) - Max(Top(a), Top(b)) <= 0.0 then []
    else if rightEdge - leftEdge >= threshold then [(leftEdge + rightEdge) / 2.0]
    else []
  }

  /** Line a against the first n of the lines. */
  function GapsFrom(a: Line, lines: seq<Line>, threshold: real): seq<real>
    requires a != [] && NonEmptyLines(lines)
  {
    if lines == [] then []
    else GapsFrom(a, lines[..|lines| - 1], threshold) + GapBetween(a, lines[|lines| - 1], threshold)
  }

  function GapsAcross(lines: seq<Line>, n: nat, threshold: real): seq<real>
    requires n <= |lines| && NonEmptyLines(lines)
  {
    if n == 0 then [] else GapsAcross(lines, n - 1, threshold) + GapsFrom(lines[n - 1], lines[n..], threshold)
  }

  function Candidates(lines: seq<Line>): seq<real>
    requires NonEmptyLines(lines) && Flatten(lines) != []
  {
    GapsInLines(lines, GapThreshold(lines)) + GapsAcross(lines, |lines|, GapThreshold(lines))
  }

  /** x is the midpoint of a gap of at least the threshold between neighbours. */
  ghost predicate SplitsLine(line: Line, threshold: real, x: real) {
    exists j :: 0 < j < |line| && SplitsAt(line, j, threshold, x)
  }

  predicate SplitsAt(line: Line, j: nat, threshold: real, x: real)
    requires 0 < j < |line|
  {
    line[j].x0 - line[j - 1].x1 >= threshold && x == (line[j - 1].x1 + line[j].x0) / 2.0
  }

  predicate Overlap(a: Line, b: Line)
    requires a != [] && b != []
  {
    Max(Top(a), Top(b)) < Min(Bottom(a), Bottom(b))
  }

  /** x is the midpoint of a gap of at least the threshold to the right of a and to
      the left of b. */
  predicate Between(a: Line, b: Line, threshold: real, x: real)
    requires a != [] && b != []
  {
    Left(b) - Right(a) >= threshold && x == (Right(a) + Left(b)) / 2.0
  }

  /** The two lines overlap vertically, and x parts the one that starts further
      left (the first, if they start level) from the other. */
  predicate SplitsPair(a: Line, b: Line, threshold: real, x: real)
    requires a != [] && b != []
  {
    Overlap(a, b) && if Left(a) <= Left(b) then Between(a, b, threshold, x) else Between(b, a, threshold, x)
  }

  /** What a boundary candidate is. */
  ghost predicate Splits(lines: seq<Line>, threshold: real, x: real)
    requires NonEmptyLines(lines)
  {
    (exists i :: 0 <= i < |lines| && SplitsLine(lines[i], threshold, x)) ||
    (exists i, j :: 0 <= i < j < |lines| && SplitsPair(lines[i], lines[j], threshold, x))
  }

  lemma {:induction false} GapsInLineExact(line: Line, threshold: real, x: real)
    ensures x in GapsInLine(line, threshold) <==> SplitsLine(line, threshold, x)
  {
    if |line| >= 2 {
      var init := line[..|line| - 1];
      GapsInLineExact(init, threshold, x);
      assert SplitsAt(line, |line| - 1, threshold, x) <==> x in GapsInLine(line, threshold)[|GapsInLine(init, threshold)|..];
      assert forall j :: 0 < j < |init| ==> (SplitsAt(line, j, threshold, x) <==> SplitsAt(init, j, threshold, x));
    }
  }

  lemma {:induction false} GapsInLinesExact(lines: seq<Line>, threshold: real, x: real)
    ensures x in GapsInLines(lines, threshold) <==> exists i :: 0 <= i < |lines| && SplitsLine(lines[i], threshold, x)
  {
    if lines != [] {
      var init, last := lines[..|lines| - 1], lines[|lines| - 1];
      GapsInLinesExact(init, threshold, x);
      GapsInLineExact(last, threshold, x);
      assert lines == init + [last];
    }
  }

  lemma {:induction false} GapsFromExact(a: Line, lines: seq<Line>, threshold: real, x: real)
    requires a != [] && NonEmptyLines(lines)
    ensures x in GapsFrom(a, lines, threshold) <==> exists j :: 0 <= j < |lines| && SplitsPair(a, lines[j], threshold, x)
  {
    if lines != [] {
      var init, last := lines[..|lines| - 1], lines[|lines| - 1];
      GapsFromExact(a, init, threshold, x);
      assert x in GapBetween(a, last, threshold) <==> SplitsPair(a, last, threshold, x);
      assert lines == init + [last];
    }
  }

  lemma {:induction false} GapsAcrossExact(lines: seq<Line>, n: nat, threshold: real, x: real)
    requires n <= |lines| && NonEmptyLines(lines)
    ensures x in GapsAcross(lines, n, threshold) <==> SplitsFirst(lines, n, threshold, x)
  {
    if n > 0 {
      var a, later := lines[n - 1], lines[n..];
      GapsAcrossExact(lines, n - 1, threshold, x);
      GapsFromExact(a, later, threshold, x);
      LaterPairs(lines, n, threshold, x);
      PairsSplit(lines, n, threshold, x);
    }
  }

  /** A pair among the lines whose first is one of the first n. */
  ghost predicate SplitsFirst(lines: seq<Line>, n: nat, threshold: real, x: real)
    requires n <= |lines| && NonEmptyLines(lines)
  {
    exists i, j :: 0 <= i < n && i < j < |lines| && SplitsPair(lines[i], lines[j], threshold, x)
  }

  ghost predicate SplitsWith(lines: seq<Line>, i: nat, threshold: real, x: real)
    requires i < |lines| && NonEmptyLines(lines)
  {
    exists j :: i < j < |lines| && SplitsPair(lines[i], lines[j], threshold, x)
  }

  lemma {:induction false} LaterPairs(lines: seq<Line>, n: nat, threshold: real, x: real)
    requires 0 < n <= |lines| && NonEmptyLines(lines)
    ensures (exists j :: 0 <= j < |lines[n..]| && SplitsPair(lines[n - 1], lines[n..][j], threshold, x)) <==> SplitsWith(lines, n - 1, threshold, x)
  {
    var a, later := lines[n - 1], lines[n..];
    if SplitsWith(lines, n - 1, threshold, x) {
      var j :| n - 1 < j < |lines| && SplitsPair(a, lines[j], threshold, x);
      assert later[j - n] == lines[j];
    }
    if j :| 0 <= j < |later| && SplitsPair(a, later[j], threshold, x) {
      assert lines[n + j] == later[j];
    }
  }

  lemma {:induction false} PairsSplit(lines: seq<Line>, n: nat, threshold: real, x: real)
    requires 0 < n <= |lines| && NonEmptyLines(lines)
    ensures SplitsFirst(lines, n, threshold, x) <==> SplitsFirst(lines, n - 1, threshold, x) || SplitsWith(lines, n - 1, threshold, x)
  {
    if SplitsFirst(lines, n, threshold, x) {
      var i, j :| 0 <= i < n && i < j < |lines| && SplitsPair(lines[i], lines[j], threshold, x);
      assert i < n - 1 || i == n - 1;
    }
  }

  /** A candidate is exactly the midpoint of a wide gap: between neighbours in a
      line, or between two lines that overlap vertically. */
  lemma {:induction false} CandidatesExact(lines: seq<Line>, x: real)
    requires NonEmptyLines(lines) && Flatten(lines) != []
    ensures x in Candidates(lines) <==> Splits(lines, GapThreshold(lines), x)
  {
    GapsInLinesExact(lines, GapThreshold(lines), x);
    GapsAcrossExact(lines, |lines|, GapThreshold(lines), x);
  }

  method CollectInLine(line: Line, threshold: real) returns (candidates: seq<real>)
    ensures candidates == GapsInLine(line, threshold)
  {
    candidates := [];
    if line == [] {
      return;
    }
    for j := 1 to |line|
      invariant candidates == GapsInLine(line[..j], threshold)
    {
      assert line[..j + 1][..j] == line[..j];
      var left, right := line[j - 1], line[j];
      var gap := right.x0 - left.x1;
      if gap >= threshold {
        candidates := candidates + [(left.x1 + right.x0) / 2.0];
      }
    }
    assert line[..|line|] == line;
  }

  method CollectFrom(a: Line, later: seq<Line>, threshold: real) returns (candidates: seq<real>)
    requires a != [] && NonEmptyLines(later)
    ensures candidates == GapsFrom(a, later, threshold)
  {
    candidates := [];
    for j := 0 to |later|
      invariant candidates == GapsFrom(a, later[..j], threshold)
    {
      assert later[..j + 1][..j] == later[..j];
      candidates := candidates + GapBetween(a, later[j], threshold);
    }
    assert later[..|later|] == later;
  }

  method CollectInLines(lines: seq<Line>, threshold: real) returns (candidates: seq<real>)
    ensures candidates == GapsInLines(lines, threshold)
  {
    candidates := [];
    for i := 0 to |lines|
      invariant candidates == GapsInLines(lines[..i], threshold)
    {
      assert lines[..i + 1][..i] == lines[..i];
      var found := CollectInLine(lines[i], threshold);
      candidates := candidates + found;
    }
    assert lines[..|lines|] == lines;
  }

  method CollectCandidates(lines: seq<Line>) returns (candidates: seq<real>)
    requires NonEmptyLines(lines) && Flatten(lines) != []
    ensures candidates == Candidates(lines)
    ensures forall x :: x in candidates <==> Splits(lines, GapThreshold(lines), x)
  {
    var threshold := GapThreshold(lines);
    var inLines := CollectInLines(lines, threshold);
    var across := [];
    for i := 0 to |lines|
      invariant across == GapsAcross(lines, i, threshold)
    {
      var found := CollectFrom(lines[i], lines[i + 1..], threshold);
      across := across + found;
    }
    candidates := inLines + across;
    forall x ensures x in candidates <==> Splits(lines, threshold, x) {
      CandidatesExact(lines, x);
    }
  }

  /** The threshold is three times the middle one of the word widths in ascending
      order, at least 24 points. */
  lemma {:induction false} ThresholdIs(lines: seq<Line>) returns (widths: seq<real>)
    requires Flatten(lines) != []
    ensures var words := Flatten(lines);
      multiset(widths) == multiset(seq(|words|, i requires 0 <= i < |words| =>
        if words[i].x1 - words[i].x0 > 1.0 then words[i].x1 - words[i].x0 else 1.0)) && widths != []
    ensures forall i, j :: 0 <= i < j < |widths| ==> widths[i] <= widths[j]
    ensures var middle := widths[|widths| / 2]; GapThreshold(lines) == if middle * 3.0 > 24.0 then middle * 3.0 else 24.0
  {
    var words := Flatten(lines);
    var all := Widths(words);
    assert all == seq(|words|, i requires 0 <= i < |words| =>
      if words[i].x1 - words[i].x0 > 1.0 then words[i].x1 - words[i].x0 else 1.0);
    widths := Sorted(Before, all);
    SortedKeeps(Before, all);
    SortedOrders(Before, all);
    forall i, j | 0 <= i < j < |widths| ensures widths[i] <= widths[j] {
      assert Before(widths[i], widths[j]);
    }
  }

  // ----- clusters and boundaries ----------------------------------------------------

  function Clustered(clusters: seq<seq<real>>, x: real): seq<seq<real>>
    requires forall i :: 0 <= i < |clusters| ==> clusters[i] != []
  {
    if clusters == [] then [[x]] else
      var last := clusters[|clusters| - 1];
      if x - last[|last| - 1] > CLUSTER_GAP then clusters + [[x]]
      else clusters[|clusters| - 1 := last + [x]]
  }

  function Clusters(sorted: seq<real>): (r: seq<seq<real>>)
    ensures forall i :: 0 <= i < |r| ==> r[i] != []
  {
    if sorted == [] then [] else Clustered(Clusters(sorted[..|sorted| - 1]), sorted[|sorted| - 1])
  }

  function Sum(s: seq<real>): real {
    if s == [] then 0.0 else Sum(s[..|s| - 1]) + s[|s| - 1]
  }

  function Mean(s: seq<real>): real requires s != [] { Sum(s) / (|s| as real) }

  /** The means of the clusters with at least two candidates. */
  function Means(clusters: seq<seq<real>>): seq<real> {
    if clusters == [] then [] else
      var last := clusters[|clusters| - 1];
      Means(clusters[..|clusters| - 1]) + if |last| >= 2 then [Mean(last)] else []
  }

  predicate Crosses(line: Line, boundary: real) {
    line != [] && Left(line) < boundary < Right(line)
  }

  predicate Clear(lines: seq<Line>, boundary: real) {
    forall i :: 0 <= i < |lines| ==> !Crosses(lines[i], boundary)
  }

  function Uncrossed(lines: seq<Line>, boundaries: seq<real>): seq<real> {
    if boundaries == [] then [] else
      var init, last := boundaries[..|boundaries| - 1], boundaries[|boundaries| - 1];
      Uncrossed(lines, init) + if Clear(lines, last) then [last] else []
  }

  lemma {:induction false} UncrossedExact(lines: seq<Line>, boundaries: seq<real>)
    ensures forall b :: b in Uncrossed(lines, boundaries) <==> b in boundaries && Clear(lines, b)
  {
    if boundaries != [] {
      var init, last := boundaries[..|boundaries| - 1], boundaries[|boundaries| - 1];
      assert boundaries == init + [last];
      UncrossedExact(lines, init);
    }
  }

  function Boundaries(lines: seq<Line>): seq<real>
    requires NonEmptyLines(lines) && Flatten(lines) != []
  {
    Uncrossed(lines, Means(Clusters(Sorted(Before, Candidates(lines)))))
  }

  method FindBoundaries(lines: seq<Line>) returns (boundaries: seq<real>)
    requires NonEmptyLines(lines) && Flatten(lines) != []
    ensures boundaries == Boundaries(lines)
  {
    var candidates := CollectCandidates(lines);
    var sorted := Sorted(Before, candidates);
    var clusters: seq<seq<real>> := [];
    for n := 0 to |sorted|
      invariant clusters == Clusters(sorted[..n])
    {
      assert sorted[..n + 1][..n] == sorted[..n];
      var boundary := sorted[n];
      if clusters == [] {
        clusters := [[boundary]];
      } else {
        var last := clusters[|clusters| - 1];
        if boundary - last[|last| - 1] > CLUSTER_GAP {
          clusters := clusters + [[boundary]];
        } else {
          clusters := clusters[|clusters| - 1 := last + [boundary]];
        }
      }
    }
    assert sorted[..|sorted|] == sorted;
    boundaries := Uncrossed(lines, Means(clusters));
  }

  // The boundaries ascend, so the columns are numbered from left to right.

  ghost predicate Ascending(s: seq<real>) { forall i, j :: 0 <= i < j < |s| ==> s[i] < s[j] }

  ghost predicate Within(s: seq<real>, lo: real, hi: real) {
    forall i :: 0 <= i < |s| ==> lo <= s[i] <= hi
  }

  lemma {:induction false} OneMoreWithin(total: real, x: real, n: real, lo: real, hi: real)
    requires lo * n <= total <= hi * n && lo <= x <= hi
    ensures lo * (n + 1.0) <= total + x <= hi * (n + 1.0)
  {
    assert lo * (n + 1.0) == lo * n + lo;
    assert hi * (n + 1.0) == hi * n + hi;
  }

  lemma {:induction false} SumWithin(s: seq<real>, n: real, lo: real, hi: real)
    requires Within(s, lo, hi) && n == |s| as real
    ensures lo * n <= Sum(s) <= hi * n
  {
    if s != [] {
      var init := s[..|s| - 1];
      SumWithin(init, n - 1.0, lo, hi);
      OneMoreWithin(Sum(init), s[|s| - 1], n - 1.0, lo, hi);
      assert n - 1.0 + 1.0 == n;
    }
  }

  lemma {:induction false} QuotientAtLeast(total: real, n: real, lo: real)
    requires n > 0.0 && lo * n <= total
    ensures lo <= total / n
  {
    var q := total / n;
    assert q * n == total;
    assert (q - lo) * n >= 0.0;
  }

  lemma {:induction false} MeanWithin(s: seq<real>, lo: real, hi: real)
    requires s != [] && Within(s, lo, hi)
    ensures lo <= Mean(s) <= hi
  {
    SumWithin(s, |s| as real, lo, hi);
    QuotientAtLeast(Sum(s), |s| as real, lo);
    QuotientAtLeast(-Sum(s), |s| as real, -hi);
    assert -Sum(s) / (|s| as real) == -(Sum(s) / (|s| as real));
  }

  /** Each cluster spans its first to its last candidate, and clusters come in
      order with more than 24 points between them. */
  ghost predicate Spread(clusters: seq<seq<real>>) {
    (forall i :: 0 <= i < |clusters| ==> Spanned(clusters[i])) &&
    (forall i, j :: 0 <= i < j < |clusters| ==> Apart(clusters[i], clusters[j]))
  }

  ghost predicate Spanned(cluster: seq<real>) {
    cluster != [] && Within(cluster, cluster[0], cluster[|cluster| - 1])
  }

  ghost predicate Apart(a: seq<real>, b: seq<real>) {
    a != [] && b != [] && a[|a| - 1] + CLUSTER_GAP < b[0]
  }

  ghost predicate Ends(clusters: seq<seq<real>>, last: real) {
    clusters != [] && clusters[|clusters| - 1] != [] &&
    var final := clusters[|clusters| - 1];
    final[|final| - 1] == last
  }

  lemma {:induction false} ClusteredSpread(clusters: seq<seq<real>>, before: real, x: real)
    requires Spread(clusters) && Ends(clusters, before) && before <= x
    ensures Spread(Clustered(clusters, x)) && Ends(Clustered(clusters, x), x)
  {
    var n := |clusters| - 1;
    var last := clusters[n];
    var r := Clustered(clusters, x);
    if x - before > CLUSTER_GAP {
      forall i | 0 <= i < |clusters| ensures Apart(clusters[i], [x]) {
        if i < n {
          assert Apart(clusters[i], last) && Spanned(last);
        }
      }
    } else {
      assert Spanned(last);
      forall i | 0 <= i < n ensures Apart(clusters[i], last + [x]) {
        assert Apart(clusters[i], last);
      }
    }
  }

  lemma {:induction false} ClustersSpread(sorted: seq<real>)
    requires sorted != [] && Ordered(Before, sorted)
    ensures Spread(Clusters(sorted)) && Ends(Clusters(sorted), sorted[|sorted| - 1])
  {
    var init := sorted[..|sorted| - 1];
    if init == [] {
      assert Clusters(init) == [];
      assert sorted == [sorted[0]];
    } else {
      assert Before(sorted[|sorted| - 2], sorted[|sorted| - 1]);
      ClustersSpread(init);
      ClusteredSpread(Clusters(init), init[|init| - 1], sorted[|sorted| - 1]);
    }
  }

  lemma {:induction false} MeansAscend(clusters: seq<seq<real>>)
    requires Spread(clusters)
    ensures Ascending(Means(clusters))
    ensures clusters != [] ==> forall i :: 0 <= i < |Means(clusters)| ==>
              Means(clusters)[i] <= clusters[|clusters| - 1][|clusters[|clusters| - 1]| - 1]
  {
    if clusters != [] {
      var init, last := clusters[..|clusters| - 1], clusters[|clusters| - 1];
      MeansAscend(init);
      assert Spanned(last);
      MeanWithin(last, last[0], last[|last| - 1]);
      if init != [] {
        assert Apart(init[|init| - 1], last);
      }
    }
  }

  lemma {:induction false} UncrossedAscend(lines: seq<Line>, boundaries: seq<real>)
    requires Ascending(boundaries)
    ensures Ascending(Uncrossed(lines, boundaries))
  {
    if boundaries != [] {
      var init, last := boundaries[..|boundaries| - 1], boundaries[|boundaries| - 1];
      UncrossedAscend(lines, init);
      UncrossedExact(lines, init);
      var kept := Uncrossed(lines, init);
      forall i | 0 <= i < |kept| ensures kept[i] < last {
        assert kept[i] in kept;
        var j :| 0 <= j < |init| && init[j] == kept[i];
        assert boundaries[j] < boundaries[|boundaries| - 1];
      }
    }
  }

  lemma {:induction false} BoundariesAscend(lines: seq<Line>)
    requires NonEmptyLines(lines) && Flatten(lines) != []
    ensures Ascending(Boundaries(lines))
    ensures forall b :: b in Boundaries(lines) ==> Clear(lines, b)
  {
    var candidates := Candidates(lines);
    var sorted := Sorted(Before, candidates);
    SortedOrders(Before, candidates);
    if sorted != [] {
      ClustersSpread(sorted);
      MeansAscend(Clusters(sorted));
    }
    UncrossedAscend(lines, Means(Clusters(sorted)));
    UncrossedExact(lines, Means(Clusters(sorted)));
  }

  /** Neighbours in a cluster are at most 24 points apart. */
  ghost predicate Close(cluster: seq<real>) {
    cluster != [] && forall i, j :: 0 <= i && j == i + 1 && j < |cluster| ==> cluster[j] - cluster[i] <= 24.0
  }

  ghost predicate FarApart(a: seq<real>, b: seq<real>) {
    a != [] && b != [] && b[0] - a[|a| - 1] > 24.0
  }

  /** The clusters are cut exactly where two neighbours are more than 24 points apart. */
  ghost predicate CutWide(clusters: seq<seq<real>>) {
    (forall i :: 0 <= i < |clusters| ==> Close(clusters[i])) &&
    (forall i, j :: 0 <= i && j == i + 1 && j < |clusters| ==> FarApart(clusters[i], clusters[j]))
  }

  lemma {:induction false} CutWidePush(firsts: seq<seq<real>>, last: seq<real>)
    requires CutWide(firsts) && Close(last) && (firsts == [] || FarApart(firsts[|firsts| - 1], last))
    ensures CutWide(firsts + [last])
  {
  }

  lemma {:induction false} ClusteredCut(clusters: seq<seq<real>>, x: real)
    requires CutWide(clusters)
    ensures CutWide(Clustered(clusters, x))
  {
    if clusters == [] {
      CutWidePush([], [x]);
    } else {
      var n := |clusters| - 1;
      var last := clusters[n];
      if x - last[|last| - 1] > CLUSTER_GAP {
        CutWidePush(clusters, [x]);
      } else {
        assert n > 0 ==> FarApart(clusters[n - 1], clusters[n]);
        CutWidePush(clusters[..n], last + [x]);
        assert Clustered(clusters, x) == clusters[..n] + [last + [x]];
      }
    }
  }

  lemma {:induction false} ClusteredFlat(clusters: seq<seq<real>>, x: real)
    requires forall i :: 0 <= i < |clusters| ==> clusters[i] != []
    ensures Flatten(Clustered(clusters, x)) == Flatten(clusters) + [x]
  {
    FlattenOne([x]);
    FlattenConcat(clusters, [[x]]);
    if clusters != [] {
      LastGrowsFlat(clusters, x);
    }
  }

  lemma {:induction false} LastGrowsFlat(groups: seq<seq<real>>, x: real)
    requires groups != []
    ensures Flatten(groups[|groups| - 1 := groups[|groups| - 1] + [x]]) == Flatten(groups) + [x]
  {
    var n := |groups| - 1;
    var firsts, last := groups[..n], groups[n];
    assert groups == firsts + [last] && groups[n := last + [x]] == firsts + [last + [x]];
    FlattenConcat(firsts, [last]);
    FlattenConcat(firsts, [last + [x]]);
    FlattenOne(last);
    FlattenOne(last + [x]);
  }

  lemma {:induction false} ClustersCut(sorted: seq<real>)
    ensures CutWide(Clusters(sorted)) && Flatten(Clusters(sorted)) == sorted
  {
    if sorted != [] {
      var init, x := sorted[..|sorted| - 1], sorted[|sorted| - 1];
      ClustersCut(init);
      ClusteredCut(Clusters(init), x);
      ClusteredFlat(Clusters(init), x);
      assert init + [x] == sorted;
    }
  }

  /** The mean of one of the clusters with at least two candidates. */
  ghost predicate MeanOfSome(clusters: seq<seq<real>>, b: real) {
    exists c :: c in clusters && |c| >= 2 && b == Sum(c) / (|c| as real)
  }

  lemma {:induction false} MeansExact(clusters: seq<seq<real>>, b: real)
    ensures b in Means(clusters) <==> MeanOfSome(clusters, b)
  {
    if clusters != [] {
      var init, last := clusters[..|clusters| - 1], clusters[|clusters| - 1];
      assert clusters == init + [last];
      MeansExact(init, b);
    }
  }

  /** What the boundaries of a page are: its candidates in ascending order are cut
      into clusters where neighbours are more than 24 points apart; a boundary is
      the mean of a cluster of at least two that lies strictly inside no line. */
  lemma {:induction false} BoundariesExact(lines: seq<Line>) returns (clusters: seq<seq<real>>)
    requires NonEmptyLines(lines) && Flatten(lines) != []
    ensures multiset(Flatten(clusters)) == multiset(Candidates(lines))
    ensures forall i, j :: 0 <= i < j < |Flatten(clusters)| ==> Flatten(clusters)[i] <= Flatten(clusters)[j]
    ensures CutWide(clusters)
    ensures forall b :: b in Boundaries(lines) <==>
              MeanOfSome(clusters, b) && forall i :: 0 <= i < |lines| ==> b <= Left(lines[i]) || Right(lines[i]) <= b
  {
    var candidates := Candidates(lines);
    var sorted := Sorted(Before, candidates);
    clusters := Clusters(sorted);
    SortedKeeps(Before, candidates);
    SortedOrders(Before, candidates);
    ClustersCut(sorted);
    forall i, j | 0 <= i < j < |sorted| ensures sorted[i] <= sorted[j] {
      assert Before(sorted[i], sorted[j]);
    }
    forall b ensures b in Boundaries(lines) <==>
      MeanOfSome(clusters, b) && forall i :: 0 <= i < |lines| ==> b <= Left(lines[i]) || Right(lines[i]) <= b
    {
      UncrossedExact(lines, Means(clusters));
      MeansExact(clusters, b);
      assert Clear(lines, b) <==> forall i :: 0 <= i < |lines| ==> b <= Left(lines[i]) || Right(lines[i]) <= b;
    }
  }

  // ----- columns -----------------------------------------------------------------------

  function Center(line: Line): real requires line != [] { (Left(line) + Right(line)) / 2.0 }

  /** How many of the boundaries lie left of x. */
  function Passed(boundaries: seq<real>, x: real): (n: nat)
    ensures n <= |boundaries|
  {
    if boundaries == [] then 0
    else Passed(boundaries[..|boundaries| - 1], x) + if x > boundaries[|boundaries| - 1] then 1 else 0
  }

  function Column(boundaries: seq<real>, line: Line): nat requires line != [] { Passed(boundaries, Center(line)) }

  lemma {:induction false} PassedExact(boundaries: seq<real>, x: real, i: nat)
    requires Ascending(boundaries) && i < |boundaries|
    ensures x > boundaries[i] <==> i < Passed(boundaries, x)
  {
    var init, last := boundaries[..|boundaries| - 1], boundaries[|boundaries| - 1];
    if x > last {
      AllPassed(init, x);
      assert boundaries[i] <= last;
    } else if i < |init| {
      PassedExact(init, x, i);
    }
  }

  lemma {:induction false} AllPassed(boundaries: seq<real>, x: real)
    requires forall i :: 0 <= i < |boundaries| ==> boundaries[i] < x
    ensures Passed(boundaries, x) == |boundaries|
  {
    if boundaries != [] {
      AllPassed(boundaries[..|boundaries| - 1], x);
    }
  }

  /** The boundary after column r parts the columns: a line of column r or lower
      lies, from its first x0 to its last x1, left of it, and a line of a higher
      column lies right of it. */
  lemma {:induction false} BoundaryParts(lines: seq<Line>, line: Line, r: nat)
    requires NonEmptyLines(lines) && Flatten(lines) != []
    requires line in lines && Proper(line) && r < |Boundaries(lines)|
    ensures Column(Boundaries(lines), line) <= r ==> Right(line) <= Boundaries(lines)[r]
    ensures Column(Boundaries(lines), line) > r ==> Boundaries(lines)[r] <= Left(line)
  {
    var boundaries := Boundaries(lines);
    BoundariesAscend(lines);
    PassedExact(boundaries, Center(line), r);
    assert boundaries[r] in boundaries;
    assert !Crosses(line, boundaries[r]);
  }

  function InColumn(lines: seq<Line>, boundaries: seq<real>, r: nat): (column: seq<Line>)
    requires NonEmptyLines(lines)
    ensures NonEmptyLines(column)
  {
    if lines == [] then [] else
      var init, last := lines[..|lines| - 1], lines[|lines| - 1];
      InColumn(init, boundaries, r) + if Column(boundaries, last) == r then [last] else []
  }

  lemma {:induction false} InColumnExact(lines: seq<Line>, boundaries: seq<real>, r: nat, line: Line)
    requires NonEmptyLines(lines)
    ensures line in InColumn(lines, boundaries, r) <==> line in lines && line != [] && Column(boundaries, line) == r
  {
    if lines != [] {
      var init, last := lines[..|lines| - 1], lines[|lines| - 1];
      assert lines == init + [last];
      InColumnExact(init, boundaries, r, line);
    }
  }

  ghost predicate ColumnsAre(columns: map<nat, seq<Line>>, lines: seq<Line>, boundaries: seq<real>)
    requires NonEmptyLines(lines)
  {
    forall r: nat :: InColumn(lines, boundaries, r) == if r in columns then columns[r] else []
  }

  method GroupIntoColumns(lines: seq<Line>, boundaries: seq<real>) returns (columns: map<nat, seq<Line>>)
    requires NonEmptyLines(lines)
    ensures ColumnsAre(columns, lines, boundaries)
  {
    columns := map[];
    for n := 0 to |lines|
      invariant ColumnsAre(columns, lines[..n], boundaries)
    {
      assert lines[..n + 1][..n] == lines[..n];
      var line := lines[n];
      var r := Column(boundaries, line);
      columns := columns[r := (if r in columns then columns[r] else []) + [line]];
    }
    assert lines[..|lines|] == lines;
  }

  /** The first n columns, from the left. */
  function Columns(lines: seq<Line>, boundaries: seq<real>, n: nat): (r: seq<seq<Line>>)
    requires NonEmptyLines(lines)
    ensures |r| == n
  {
    if n == 0 then [] else Columns(lines, boundaries, n - 1) + [InColumn(lines, boundaries, n - 1)]
  }

  lemma {:induction false} ColumnAt(lines: seq<Line>, boundaries: seq<real>, n: nat, r: nat)
    requires NonEmptyLines(lines) && r < n
    ensures Columns(lines, boundaries, n)[r] == InColumn(lines, boundaries, r)
  {
    if r < n - 1 {
      ColumnAt(lines, boundaries, n - 1, r);
    }
  }

  function OneIf(counted: bool, line: Line): multiset<Line> { if counted then multiset{line} else multiset{} }

  lemma {:induction false} GrownTogether(a: multiset<Line>, a': multiset<Line>, b: multiset<Line>, b': multiset<Line>, c: nat, n: nat, line: Line)
    requires n > 0 && a' == a + OneIf(c < n - 1, line) && b' == b + OneIf(c == n - 1, line)
    ensures a' + b' == a + b + OneIf(c < n, line)
  {
  }

  lemma {:induction false} InColumnGrows(lines: seq<Line>, boundaries: seq<real>, r: nat, last: Line)
    requires NonEmptyLines(lines) && last != []
    ensures multiset(InColumn(lines + [last], boundaries, r)) ==
            multiset(InColumn(lines, boundaries, r)) + OneIf(Column(boundaries, last) == r, last)
  {
    assert (lines + [last])[..|lines|] == lines;
  }

  lemma {:induction false} ColumnsBag(lines: seq<Line>, boundaries: seq<real>, n: nat)
    requires NonEmptyLines(lines) && n > 0
    ensures Bag(Columns(lines, boundaries, n)) == Bag(Columns(lines, boundaries, n - 1)) + multiset(InColumn(lines, boundaries, n - 1))
  {
    BagPush(Columns(lines, boundaries, n - 1), InColumn(lines, boundaries, n - 1));
  }

  lemma {:induction false} ColumnsGrowOnce(lines: seq<Line>, grown: seq<Line>, boundaries: seq<real>, n: nat, last: Line)
    requires NonEmptyLines(lines) && NonEmptyLines(grown) && last != [] && grown == lines + [last] && n > 0
    requires Bag(Columns(grown, boundaries, n - 1)) == Bag(Columns(lines, boundaries, n - 1)) + OneIf(Column(boundaries, last) < n - 1, last)
    ensures Bag(Columns(grown, boundaries, n)) == Bag(Columns(lines, boundaries, n)) + OneIf(Column(boundaries, last) < n, last)
  {
    ColumnsBag(lines, boundaries, n);
    ColumnsBag(grown, boundaries, n);
    InColumnGrows(lines, boundaries, n - 1, last);
    GrownTogether(Bag(Columns(lines, boundaries, n - 1)), Bag(Columns(grown, boundaries, n - 1)),
                  multiset(InColumn(lines, boundaries, n - 1)), multiset(InColumn(grown, boundaries, n - 1)),
                  Column(boundaries, last), n, last);
  }

  lemma {:induction false} ColumnsGrow(lines: seq<Line>, grown: seq<Line>, boundaries: seq<real>, n: nat, last: Line)
    requires NonEmptyLines(lines) && NonEmptyLines(grown) && last != [] && grown == lines + [last]
    ensures Bag(Columns(grown, boundaries, n)) == Bag(Columns(lines, boundaries, n)) + OneIf(Column(boundaries, last) < n, last)
  {
    if n > 0 {
      ColumnsGrow(lines, grown, boundaries, n - 1, last);
      ColumnsGrowOnce(lines, grown, boundaries, n, last);
    }
  }

  lemma {:induction false} NoLinesNoColumns(boundaries: seq<real>, n: nat)
    ensures Bag(Columns([], boundaries, n)) == multiset{}
  {
    if n > 0 {
      NoLinesNoColumns(boundaries, n - 1);
      BagPush(Columns([], boundaries, n - 1), []);
    }
  }

  /** Every line lands in exactly one column. */
  lemma {:induction false} ColumnsKeepLines(lines: seq<Line>, boundaries: seq<real>)
    requires NonEmptyLines(lines)
    ensures Bag(Columns(lines, boundaries, |boundaries| + 1)) == multiset(lines)
  {
    if lines == [] {
      NoLinesNoColumns(boundaries, |boundaries| + 1);
    } else {
      var init, last := lines[..|lines| - 1], lines[|lines| - 1];
      assert lines == init + [last];
      ColumnsKeepLines(init, boundaries);
      ColumnsGrow(init, lines, boundaries, |boundaries| + 1, last);
    }
  }

  // ----- paragraphs ----------------------------------------------------------------------

  type Paragraph = seq<Line>

  predicate Opens(previous: Line, line: Line)
    requires previous != [] && line != []
  {
    Top(line) - Bottom(previous) > Max(4.0, Max(1.0, Greatest(Extent, line)) * 1.8)
  }

  /** A word stands more than four points, and more than 1.8 times the height of
      a further word, below another. */
  predicate WellBelow(above: Word, w: Word, t: Word) {
    w.top - above.bottom > 4.0 && w.top - above.bottom > 1.8 * (t.bottom - t.top)
  }

  /** When a line opens a paragraph: each of its words stands, below each word of
      the line before, more than four points and more than 1.8 times the height of
      any of its words away. */
  lemma {:induction false} OpensIff(previous: Line, line: Line)
    requires previous != [] && line != []
    ensures Opens(previous, line) <==> forall above, w, t :: above in previous && w in line && t in line ==> WellBelow(above, w, t)
  {
    Extremes(previous, line);
    var j :| TopOf(j) == Top(line) && j in line;
    var i :| BottomOf(i) == Bottom(previous) && i in previous;
    var k :| Extent(k) == Greatest(Extent, line) && k in line;
    assert Opens(previous, line) <==> WellBelow(i, j, k);
    forall above, w, t | above in previous && w in line && t in line && WellBelow(i, j, k) ensures WellBelow(above, w, t) {
      assert w.top >= j.top && above.bottom <= i.bottom && Extent(t) <= Extent(k);
    }
  }

  lemma {:induction false} Extremes(previous: Line, line: Line)
    requires previous != [] && line != []
    ensures forall w :: w in line ==> Top(line) <= TopOf(w) && Extent(w) <= Greatest(Extent, line)
    ensures forall w :: w in previous ==> BottomOf(w) <= Bottom(previous)
    ensures exists j :: TopOf(j) == Top(line) && j in line
    ensures exists i :: BottomOf(i) == Bottom(previous) && i in previous
    ensures exists k :: Extent(k) == Greatest(Extent, line) && k in line
  {
    LeastBound(TopOf, line);
    GreatestBound(BottomOf, previous);
    GreatestBound(Extent, line);
    var j :| 0 <= j < |line| && Least(TopOf, line) == TopOf(line[j]);
    var i :| 0 <= i < |previous| && Greatest(BottomOf, previous) == BottomOf(previous[i]);
    var k :| 0 <= k < |line| && Greatest(Extent, line) == Extent(line[k]);
  }

  ghost predicate Grouped(paragraphs: seq<Paragraph>) {
    forall i :: 0 <= i < |paragraphs| ==> paragraphs[i] != [] && NonEmptyLines(paragraphs[i])
  }

  function LastLine(paragraphs: seq<Paragraph>): (line: Line)
    requires paragraphs != [] && Grouped(paragraphs)
    ensures line != []
  {
    var last := paragraphs[|paragraphs| - 1];
    last[|last| - 1]
  }

  function Appended(paragraphs: seq<Paragraph>, line: Line): (r: seq<Paragraph>)
    requires Grouped(paragraphs) && line != []
    ensures Grouped(r)
  {
    if paragraphs == [] || Opens(LastLine(paragraphs), line) then paragraphs + [[line]]
    else paragraphs[|paragraphs| - 1 := paragraphs[|paragraphs| - 1] + [line]]
  }

  function Paragraphs(lines: seq<Line>): (r: seq<Paragraph>)
    requires NonEmptyLines(lines)
    ensures Grouped(r)
  {
    if lines == [] then [] else Appended(Paragraphs(lines[..|lines| - 1]), lines[|lines| - 1])
  }

  method GroupIntoParagraphs(lines: seq<Line>) returns (paragraphs: seq<Paragraph>)
    requires NonEmptyLines(lines)
    ensures paragraphs == Paragraphs(lines)
  {
    paragraphs := [];
    for n := 0 to |lines|
      invariant paragraphs == Paragraphs(lines[..n])
    {
      assert lines[..n + 1][..n] == lines[..n];
      var line := lines[n];
      if paragraphs == [] {
        paragraphs := [[line]];
      } else {
        var previous := paragraphs[|paragraphs| - 1];
        if Opens(previous[|previous| - 1], line) {
          paragraphs := paragraphs + [[line]];
        } else {
          paragraphs := paragraphs[|paragraphs| - 1 := previous + [line]];
        }
      }
    }
    assert lines[..|lines|] == lines;
  }

  /** The paragraphs are the column's lines in order, cut exactly where a line
      stands far enough below the line before it. */
  ghost predicate CutAtGaps(paragraphs: seq<Paragraph>) {
    (forall p :: 0 <= p < |paragraphs| ==> Solid(paragraphs[p])) &&
    (forall p, q :: 0 <= p && q == p + 1 && q < |paragraphs| ==> PartedFrom(paragraphs[p], paragraphs[q]))
  }

  ghost predicate Solid(paragraph: Paragraph) {
    paragraph != [] && NonEmptyLines(paragraph) &&
    forall i, j :: 0 <= i && j == i + 1 && j < |paragraph| ==> !Opens(paragraph[i], paragraph[j])
  }

  ghost predicate PartedFrom(above: Paragraph, below: Paragraph) {
    above != [] && below != [] && above[|above| - 1] != [] && below[0] != [] &&
    Opens(above[|above| - 1], below[0])
  }

  lemma {:induction false} AppendedKeeps(paragraphs: seq<Paragraph>, line: Line)
    requires Grouped(paragraphs) && line != []
    ensures Flatten(Appended(paragraphs, line)) == Flatten(paragraphs) + [line]
  {
    if paragraphs == [] || Opens(LastLine(paragraphs), line) {
      FlattenConcat(paragraphs, [[line]]);
      FlattenOne([line]);
    } else {
      var firsts, last := paragraphs[..|paragraphs| - 1], paragraphs[|paragraphs| - 1];
      assert paragraphs == firsts + [last];
      assert Appended(paragraphs, line) == firsts + [last + [line]];
      FlattenConcat(firsts, [last]);
      FlattenConcat(firsts, [last + [line]]);
      FlattenOne(last);
      FlattenOne(last + [line]);
    }
  }

  lemma {:induction false} SolidGrows(paragraph: Paragraph, line: Line)
    requires Solid(paragraph) && line != [] && !Opens(paragraph[|paragraph| - 1], line)
    ensures Solid(paragraph + [line])
  {
  }

  lemma {:induction false} CutPush(firsts: seq<Paragraph>, last: Paragraph)
    requires CutAtGaps(firsts) && Solid(last)
    requires firsts == [] || PartedFrom(firsts[|firsts| - 1], last)
    ensures CutAtGaps(firsts + [last])
  {
  }

  lemma {:induction false} CutPop(paragraphs: seq<Paragraph>)
    requires paragraphs != [] && CutAtGaps(paragraphs)
    ensures var n := |paragraphs| - 1;
            CutAtGaps(paragraphs[..n]) && Solid(paragraphs[n]) &&
            (n == 0 || PartedFrom(paragraphs[n - 1], paragraphs[n]))
  {
  }

  lemma {:induction false} PartedGrows(above: Paragraph, below: Paragraph, line: Line)
    requires PartedFrom(above, below)
    ensures PartedFrom(above, below + [line])
  {
  }

  lemma {:induction false} AppendedCut(paragraphs: seq<Paragraph>, line: Line)
    requires Grouped(paragraphs) && CutAtGaps(paragraphs) && line != []
    ensures CutAtGaps(Appended(paragraphs, line))
  {
    var n := |paragraphs| - 1;
    if n < 0 || Opens(LastLine(paragraphs), line) {
      CutPush(paragraphs, [line]);
    } else {
      CutPop(paragraphs);
      SolidGrows(paragraphs[n], line);
      if n > 0 {
        PartedGrows(paragraphs[n - 1], paragraphs[n], line);
      }
      CutPush(paragraphs[..n], paragraphs[n] + [line]);
      assert Appended(paragraphs, line) == paragraphs[..n] + [paragraphs[n] + [line]];
    }
  }

  lemma {:induction false} ParagraphsKeepLines(lines: seq<Line>)
    requires NonEmptyLines(lines)
    ensures Flatten(Paragraphs(lines)) == lines
  {
    if lines != [] {
      var init, line := lines[..|lines| - 1], lines[|lines| - 1];
      calc {
        Flatten(Paragraphs(lines));
        Flatten(Appended(Paragraphs(init), line));
        { AppendedKeeps(Paragraphs(init), line); }
        Flatten(Paragraphs(init)) + [line];
        { ParagraphsKeepLines(init); }
        init + [line];
        lines;
      }
    }
  }

  lemma {:induction false} ParagraphsCut(lines: seq<Line>)
    requires NonEmptyLines(lines)
    ensures CutAtGaps(Paragraphs(lines))
  {
    if lines == [] {
      assert Paragraphs(lines) == [];
    } else {
      ParagraphsCut(lines[..|lines| - 1]);
      AppendedCut(Paragraphs(lines[..|lines| - 1]), lines[|lines| - 1]);
    }
  }

  /** The words of all paragraphs, as often as they occur. */
  function Bags(paragraphs: seq<Paragraph>): multiset<Word> {
    if paragraphs == [] then multiset{} else Bag(paragraphs[0]) + Bags(paragraphs[1..])
  }

  lemma {:induction false} BagsOfFlat(paragraphs: seq<Paragraph>)
    ensures Bags(paragraphs) == Bag(Flatten(paragraphs))
  {
    if paragraphs != [] {
      BagsOfFlat(paragraphs[1..]);
      BagBoth(paragraphs[0], Flatten(paragraphs[1..]));
    }
  }

  lemma {:induction false} BagsBoth(a: seq<Paragraph>, b: seq<Paragraph>)
    ensures Bags(a + b) == Bags(a) + Bags(b)
  {
    if a == [] {
      assert a + b == b;
    } else {
      assert (a + b)[1..] == a[1..] + b;
      BagsBoth(a[1..], b);
    }
  }

  lemma {:induction false} InBags(paragraphs: seq<Paragraph>, i: nat, w: Word)
    requires i < |paragraphs| && w in Bag(paragraphs[i])
    ensures w in Bags(paragraphs)
  {
    if i > 0 {
      InBags(paragraphs[1..], i - 1, w);
    }
  }

  lemma {:induction false} ParagraphsKeepWords(lines: seq<Line>)
    requires NonEmptyLines(lines)
    ensures Bags(Paragraphs(lines)) == Bag(lines)
  {
    ParagraphsKeepLines(lines);
    BagsOfFlat(Paragraphs(lines));
  }
}
