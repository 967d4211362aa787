/** Paths of HTML elements: each element is named by the chain of nth-of-type
    steps that leads to it from the document root. */
module CssPath {
  import opened Wrappers

  datatype Node = Text(content: string) | Comment(content: string) | Tag(name: string, children: seq<Node>)

  /** Child positions from the document root down to a node. */
  type Address = seq<nat>

  datatype Step = Step(name: string, nth: nat)

  predicate TagAt(nodes: seq<Node>, at: Address)
    decreases |at|
  {
    at != [] && at[0] < |nodes| && nodes[at[0]].Tag? && (|at| == 1 || TagAt(nodes[at[0]].children, at[1..]))
  }

  predicate Named(node: Node, name: string) { node.Tag? && node.name == name }

  /** How many of the first n nodes are tags of a name. */
  function CountNamed(nodes: seq<Node>, name: string, n: nat): (r: nat)
    requires n <= |nodes|
    ensures r <= n
  {
    if n == 0 then 0 else CountNamed(nodes, name, n - 1) + if Named(nodes[n - 1], name) then 1 else 0
  }

  /** The step that leads to a tag from its parent. */
  function StepAt(nodes: seq<Node>, at: Address): Step
    requires TagAt(nodes, at)
    decreases |at|
  {
    if |at| == 1 then Step(nodes[at[0]].name, CountNamed(nodes, nodes[at[0]].name, at[0] + 1))
    else StepAt(nodes[at[0]].children, at[1..])
  }

  function Steps(nodes: seq<Node>, at: Address): seq<Step>
    requires TagAt(nodes, at)
    decreases |at|
  {
    [StepAt(nodes, [at[0]])] + if |at| == 1 then [] else Steps(nodes[at[0]].children, at[1..])
  }

  // ----- printing the path ------------------------------------------------------------

  lemma {:induction false} PrefixIsTag(nodes: seq<Node>, at: Address, k: nat)
    requires TagAt(nodes, at) && 0 < k <= |at|
    ensures TagAt(nodes, at[..k])
    decreases |at|
  {
    if k > 1 {
      assert at[..k][1..] == at[1..][..k - 1];
      PrefixIsTag(nodes[at[0]].children, at[1..], k - 1);
    }
  }

  /** Step k of a path is the step to the ancestor k levels below the root. */
  lemma {:induction false} StepsAreAncestors(nodes: seq<Node>, at: Address, k: nat)
    requires TagAt(nodes, at) && k < |at|
    ensures |Steps(nodes, at)| == |at| && TagAt(nodes, at[..k + 1]) && Steps(nodes, at)[k] == StepAt(nodes, at[..k + 1])
    decreases |at|
  {
    PrefixIsTag(nodes, at, k + 1);
    if k > 0 {
      assert at[..k + 1][1..] == at[1..][..k];
      StepsAreAncestors(nodes[at[0]].children, at[1..], k - 1);
    } else {
      assert at[..1] == [at[0]];
      if |at| > 1 {
        StepsAreAncestors(nodes[at[0]].children, at[1..], 0);
      }
    }
  }

  type Cache = map<Address, nat>

  /** Every tag below a prefix has its ordinal among its parent's children. */
  ghost predicate Caches(cache: Cache, nodes: seq<Node>, prefix: Address) {
    forall at :: TagAt(nodes, at) ==> prefix + at in cache && cache[prefix + at] == StepAt(nodes, at).nth
  }

  /** The tags of the first n nodes, and below them, are cached. */
  ghost predicate CachesUpTo(cache: Cache, nodes: seq<Node>, prefix: Address, n: nat) {
    forall at :: TagAt(nodes, at) && at[0] < n ==> prefix + at in cache && cache[prefix + at] == StepAt(nodes, at).nth
  }

  ghost predicate Counts(counts: map<string, nat>, nodes: seq<Node>, n: nat)
    requires n <= |nodes|
  {
    forall name :: CountNamed(nodes, name, n) == if name in counts then counts[name] else 0
  }

  /** `cache_ordinals`: one pass over the children of a parent, and into each. */
  method CacheOrdinals(nodes: seq<Node>, prefix: Address, before: Cache) returns (cache: Cache)
    ensures Caches(cache, nodes, prefix)
    ensures forall key :: key in before && !(prefix < key) ==> key in cache && cache[key] == before[key]
    ensures forall key :: key in cache && !(prefix < key) ==> key in before
    decreases nodes
  {
    cache := before;
    var counts: map<string, nat> := map[];
    for n := 0 to |nodes|
      invariant CachesUpTo(cache, nodes, prefix, n) && Counts(counts, nodes, n)
      invariant forall key :: key in before && !(prefix < key) ==> key in cache && cache[key] == before[key]
      invariant forall key :: key in cache && !(prefix < key) ==> key in before
    {
      var child := nodes[n];
      if child.Tag? {
        var count := (if child.name in counts then counts[child.name] else 0) + 1;
        counts := counts[child.name := count];
        ghost var was := cache;
        cache := cache[prefix + [n] := count];
        ghost var own := cache;
        cache := CacheOrdinals(child.children, prefix + [n], cache);
        ChildCached(was, own, cache, nodes, prefix, n);
      }
    }
  }

  lemma {:induction false} ChildCached(was: Cache, own: Cache, cache: Cache, nodes: seq<Node>, prefix: Address, n: nat)
    requires n < |nodes| && nodes[n].Tag? && CachesUpTo(was, nodes, prefix, n)
    requires own == was[prefix + [n] := CountNamed(nodes, nodes[n].name, n + 1)]
    requires Caches(cache, nodes[n].children, prefix + [n])
    requires forall key :: key in own && !(prefix + [n] < key) ==> key in cache && cache[key] == own[key]
    ensures CachesUpTo(cache, nodes, prefix, n + 1)
  {
    forall at | TagAt(nodes, at) && at[0] < n + 1
      ensures prefix + at in cache && cache[prefix + at] == StepAt(nodes, at).nth
    {
      if at[0] < n {
        assert (prefix + at)[|prefix|] == at[0] && (prefix + [n])[|prefix|] == n;
        assert prefix + at != prefix + [n] && !(prefix + [n] < prefix + at);
      } else if |at| == 1 {
        assert at == [n];
      } else {
        assert prefix + at == prefix + [n] + at[1..];
        assert TagAt(nodes[n].children, at[1..]);
      }
    }
  }

  // ----- reading the path ----------------------------------------------------------------

  /** The nth child tag of a name among the first m nodes (sections 6.6.5.4 and
      8.2 of Selectors Level 3). */
  function NthOfType(nodes: seq<Node>, step: Step, m: nat): (r: Option<nat>)
    requires m <= |nodes|
    ensures r.Some? ==> r.value < m
  {
    if m == 0 then None
    else if Named(nodes[m - 1], step.name) && CountNamed(nodes, step.name, m) == step.nth then Some(m - 1)
    else NthOfType(nodes, step, m - 1)
  }

  function Select(nodes: seq<Node>, steps: seq<Step>): Option<Address>
    decreases |steps|
  {
    if steps == [] then Some([]) else
      match NthOfType(nodes, steps[0], |nodes|)
      case None => None
      case Some(i) =>
        if |steps| == 1 then Some([i])
        else if !nodes[i].Tag? then None
        else
          match Select(nodes[i].children, steps[1..])
          case None => None
          case Some(rest) => Some([i] + rest)
  }

  lemma {:induction false} CountGrows(nodes: seq<Node>, name: string, n: nat, m: nat)
    requires n <= m <= |nodes|
    ensures CountNamed(nodes, name, n) <= CountNamed(nodes, name, m)
  {
    if n < m {
      CountGrows(nodes, name, n, m - 1);
    }
  }

  lemma {:induction false} NthIsIt(nodes: seq<Node>, i: nat, m: nat)
    requires i < m <= |nodes| && nodes[i].Tag?
    ensures NthOfType(nodes, Step(nodes[i].name, CountNamed(nodes, nodes[i].name, i + 1)), m) == Some(i)
  {
    if i < m - 1 {
      CountGrows(nodes, nodes[i].name, i + 1, m - 1);
      NthIsIt(nodes, i, m - 1);
    }
  }

  lemma {:induction false} SelectStep(nodes: seq<Node>, i: nat, step: Step, below: seq<Step>, rest: Address)
    requires NthOfType(nodes, step, |nodes|) == Some(i) && nodes[i].Tag?
    requires below != [] && Select(nodes[i].children, below) == Some(rest)
    ensures Select(nodes, [step] + below) == Some([i] + rest)
  {
    assert ([step] + below)[1..] == below;
  }

  lemma {:induction false} StepFinds(nodes: seq<Node>, i: nat)
    requires i < |nodes| && nodes[i].Tag?
    ensures NthOfType(nodes, StepAt(nodes, [i]), |nodes|) == Some(i)
  {
    NthIsIt(nodes, i, |nodes|);
  }

  lemma {:induction false} StepsBelow(nodes: seq<Node>, at: Address)
    requires TagAt(nodes, at) && |at| > 1
    ensures Steps(nodes, at) == [StepAt(nodes, [at[0]])] + Steps(nodes[at[0]].children, at[1..])
  {
  }

  lemma {:induction false} ReadsBackBelow(nodes: seq<Node>, at: Address)
    requires TagAt(nodes, at) && |at| > 1
    requires Select(nodes[at[0]].children, Steps(nodes[at[0]].children, at[1..])) == Some(at[1..])
    ensures Select(nodes, Steps(nodes, at)) == Some(at)
  {
    var i, rest := at[0], at[1..];
    var below := Steps(nodes[i].children, rest);
    StepFinds(nodes, i);
    StepsAreAncestors(nodes[i].children, rest, 0);
    SelectStep(nodes, i, StepAt(nodes, [i]), below, rest);
    StepsBelow(nodes, at);
    assert [i] + rest == at;
  }

  /** The printed path leads back to exactly the tag it was printed for. */
  lemma {:induction false} PathReadsBack(nodes: seq<Node>, at: Address)
    requires TagAt(nodes, at)
    ensures Select(nodes, Steps(nodes, at)) == Some(at)
    decreases |at|
  {
    if |at| == 1 {
      NthIsIt(nodes, at[0], |nodes|);
      assert at == [at[0]];
    } else {
      PathReadsBack(nodes[at[0]].children, at[1..]);
      ReadsBackBelow(nodes, at);
    }
  }

  /** `css_path`: walks from the tag up to the root, taking ordinals from the
      cache, and reverses what it collected. */
  method PathOf(nodes: seq<Node>, cache: Cache, at: Address) returns (path: seq<Step>)
    requires TagAt(nodes, at) && Caches(cache, nodes, [])
    ensures path == Steps(nodes, at)
  {
    var parts: seq<Step> := [];
    var k := |at|;
    StepsAreAncestors(nodes, at, 0);
    while k > 0
      invariant 0 <= k <= |at| && |parts| == |at| - k && |Steps(nodes, at)| == |at|
      invariant forall i :: 0 <= i < |parts| ==> parts[i] == Steps(nodes, at)[|at| - 1 - i]
    {
      StepsAreAncestors(nodes, at, k - 1);
      var here := at[..k];
      assert [] + here == here;
      parts := parts + [Step(StepAt(nodes, here).name, cache[here])];
      k := k - 1;
    }
    path := seq(|parts|, i requires 0 <= i < |parts| => parts[|parts| - 1 - i]);
  }

  // ----- the document before it was pruned ------------------------------------------------

  const REMOVED := {"script", "style", "noscript", "svg", "iframe", "canvas", "video", "audio", "object", "embed"}

  predicate Kept(node: Node) { node.Text? || (node.Tag? && node.name !in REMOVED) }

  function Pruned(nodes: seq<Node>): seq<Node>
    decreases nodes
  {
    if nodes == [] then [] else
      var last := nodes[|nodes| - 1];
      Pruned(nodes[..|nodes| - 1]) +
      if !Kept(last) then [] else if last.Tag? then [Tag(last.name, Pruned(last.children))] else [last]
  }

  function PrunedNode(node: Node): Node { if node.Tag? then Tag(node.name, Pruned(node.children)) else node }

  lemma {:induction false} PrunedPrefix(nodes: seq<Node>, n: nat)
    requires n <= |nodes|
    ensures Pruned(nodes[..n]) <= Pruned(nodes)
  {
    if n == |nodes| {
      assert nodes[..n] == nodes;
    } else {
      assert nodes[..|nodes| - 1][..n] == nodes[..n];
      PrunedPrefix(nodes[..|nodes| - 1], n);
    }
  }

  /** Where a kept node stands among the nodes that are left. */
  lemma {:induction false} PrunedAt(nodes: seq<Node>, i: nat)
    requires i < |nodes| && Kept(nodes[i])
    ensures |Pruned(nodes[..i])| < |Pruned(nodes)| && Pruned(nodes)[|Pruned(nodes[..i])|] == PrunedNode(nodes[i])
  {
    assert nodes[..i + 1][..i] == nodes[..i];
    PrunedPrefix(nodes, i + 1);
    assert Pruned(nodes[..i + 1]) == Pruned(nodes[..i]) + [PrunedNode(nodes[i])];
  }

  /** Pruning removes no tag of a name that is not removed. */
  lemma {:induction false} PrunedCount(nodes: seq<Node>, name: string, n: nat)
    requires n <= |nodes| && name !in REMOVED
    ensures |Pruned(nodes[..n])| <= |Pruned(nodes)|
    ensures CountNamed(Pruned(nodes), name, |Pruned(nodes[..n])|) == CountNamed(nodes, name, n)
  {
    PrunedPrefix(nodes, n);
    if n > 0 {
      assert nodes[..n][..n - 1] == nodes[..n - 1];
      PrunedCount(nodes, name, n - 1);
      if Kept(nodes[n - 1]) {
        PrunedAt(nodes, n - 1);
      }
    }
  }

  /** The tag and all its ancestors are kept. */
  predicate Survives(nodes: seq<Node>, at: Address)
    decreases |at|
  {
    TagAt(nodes, at) && nodes[at[0]].name !in REMOVED && (|at| == 1 || Survives(nodes[at[0]].children, at[1..]))
  }

  function PrunedAddress(nodes: seq<Node>, at: Address): Address
    requires Survives(nodes, at)
    decreases |at|
  {
    [|Pruned(nodes[..at[0]])|] + if |at| == 1 then [] else PrunedAddress(nodes[at[0]].children, at[1..])
  }

  /** The path printed in the pruned tree is the path in the original tree. */
  lemma {:induction false} PruningKeepsPath(nodes: seq<Node>, at: Address)
    requires Survives(nodes, at)
    ensures TagAt(Pruned(nodes), PrunedAddress(nodes, at))
    ensures Steps(Pruned(nodes), PrunedAddress(nodes, at)) == Steps(nodes, at)
    decreases |at|
  {
    var i, tag := at[0], nodes[at[0]];
    var here := PrunedAddress(nodes, at);
    PrunedAt(nodes, i);
    PrunedCount(nodes, tag.name, i);
    PrunedCount(nodes, tag.name, i + 1);
    assert nodes[..i + 1][..i] == nodes[..i];
    assert |Pruned(nodes[..i + 1])| == |Pruned(nodes[..i])| + 1;
    if |at| > 1 {
      PruningKeepsPath(tag.children, at[1..]);
      assert here[1..] == PrunedAddress(tag.children, at[1..]);
    }
  }

  /** Each node left by pruning is a kept node of the original. */
  lemma {:induction false} OriginalOf(nodes: seq<Node>, p: nat) returns (i: nat)
    requires p < |Pruned(nodes)|
    ensures i < |nodes| && Kept(nodes[i]) && |Pruned(nodes[..i])| == p && Pruned(nodes)[p] == PrunedNode(nodes[i])
  {
    var n := |nodes| - 1;
    if p < |Pruned(nodes[..n])| {
      i := OriginalOf(nodes[..n], p);
      assert nodes[..n][..i] == nodes[..i];
    } else {
      i := n;
    }
  }

  lemma {:induction false} OriginalAddress(nodes: seq<Node>, p: Address) returns (at: Address)
    requires TagAt(Pruned(nodes), p)
    ensures Survives(nodes, at) && PrunedAddress(nodes, at) == p
    decreases |p|
  {
    var i := OriginalOf(nodes, p[0]);
    at := [i];
    if |p| > 1 {
      var rest := OriginalAddress(nodes[i].children, p[1..]);
      at := [i] + rest;
      assert at[1..] == rest;
      assert p == [p[0]] + p[1..];
    } else {
      assert p == [p[0]];
    }
  }

  /** The path of every element of the pruned tree also leads, in the document
      as it was before pruning, to exactly the element it was printed for. */
  lemma {:induction false} PathReadsBackInOriginal(nodes: seq<Node>, p: Address) returns (at: Address)
    requires TagAt(Pruned(nodes), p)
    ensures Survives(nodes, at) && PrunedAddress(nodes, at) == p
    ensures Select(nodes, Steps(Pruned(nodes), p)) == Some(at)
  {
    at := OriginalAddress(nodes, p);
    PruningKeepsPath(nodes, at);
    PathReadsBack(nodes, at);
  }

  // ----- the printed text ----------------------------------------------------------------------

  /** HTML tag names hold neither spaces nor ">" (section 13.1.2.1 of the HTML
      standard ends a name at either). */
  predicate PlainName(name: string) { ' ' !in name && '>' !in name }

  const OF_TYPE := ":nth-of-type("

  function Digit(n: nat): char
    requires n < 10
  {
    "0123456789"[n]
  }

  function Numeral(n: nat): string { if n < 10 then [Digit(n)] else Numeral(n / 10) + [Digit(n % 10)] }

  function StepText(step: Step): string { step.name + OF_TYPE + Numeral(step.nth) + ")" }

  function PathText(steps: seq<Step>): string {
    if steps == [] then "" else if |steps| == 1 then StepText(steps[0])
    else StepText(steps[0]) + " > " + PathText(steps[1..])
  }

  predicate AllDigits(s: string) { forall i :: 0 <= i < |s| ==> '0' <= s[i] <= '9' }

  lemma {:induction false} NumeralDigits(n: nat)
    ensures Numeral(n) != "" && AllDigits(Numeral(n))
  {
    if n >= 10 {
      NumeralDigits(n / 10);
    }
  }

  /** The number that decimal digits spell. */
  function ValueOf(digits: string): nat
    requires AllDigits(digits)
  {
    if digits == "" then 0
    else 10 * ValueOf(digits[..|digits| - 1]) + (digits[|digits| - 1] as int - '0' as int)
  }

  /** A numeral spells its number, without leading zeros. */
  lemma {:induction false} NumeralReads(n: nat)
    ensures Numeral(n) != "" && AllDigits(Numeral(n)) && ValueOf(Numeral(n)) == n && (n > 0 ==> Numeral(n)[0] != '0')
  {
    NumeralDigits(n);
    assert Digit(n % 10) as int - '0' as int == n % 10;
    if n >= 10 {
      NumeralReads(n / 10);
      assert Numeral(n)[..|Numeral(n)| - 1] == Numeral(n / 10);
    } else {
      assert Numeral(n)[..0] == "";
    }
  }

  /** How a step is printed. */
  lemma {:induction false} StepReads(step: Step) returns (digits: string)
    ensures AllDigits(digits) && ValueOf(digits) == step.nth && (step.nth > 0 ==> digits[0] != '0')
    ensures StepText(step) == step.name + ":nth-of-type(" + digits + ")"
  {
    digits := Numeral(step.nth);
    NumeralReads(step.nth);
  }

  /** Digits after the last "(" settle where the name ends. */
  lemma {:induction false} StepTextInjective(a: Step, b: Step)
    requires StepText(a) == StepText(b)
    ensures a == b
  {
    NumeralDigits(a.nth);
    NumeralDigits(b.nth);
    var text := StepText(a);
    var i, j := |a.name| + |OF_TYPE|, |b.name| + |OF_TYPE|;
    assert text[i - 1] == '(' && text[j - 1] == '(';
    assert forall k :: i <= k < |text| - 1 ==> text[k] == Numeral(a.nth)[k - i];
    assert forall k :: j <= k < |text| - 1 ==> text[k] == Numeral(b.nth)[k - j];
    assert i == j;
    assert a.name == text[..|a.name|] && b.name == text[..|a.name|];
    assert Numeral(a.nth) == text[i..|text| - 1] && Numeral(b.nth) == text[i..|text| - 1];
    NumeralReads(a.nth);
    NumeralReads(b.nth);
  }

  lemma {:induction false} StepTextNoSpace(step: Step)
    requires PlainName(step.name)
    ensures ' ' !in StepText(step) && StepText(step) != ""
  {
    NumeralDigits(step.nth);
    var text := StepText(step);
    forall k | 0 <= k < |text| ensures text[k] != ' ' {
      if k < |step.name| {
        assert step.name[k] in step.name;
      } else if k < |step.name| + |OF_TYPE| {
        assert text[k] == OF_TYPE[k - |step.name|];
      }
    }
  }

  lemma {:induction false} ShorterEndsAtSpace(a: string, b: string, restA: string, restB: string)
    requires |a| < |b| && a + restA == b + restB && (restA == "" || restA[0] == ' ')
    ensures ' ' in b
  {
    var s := a + restA;
    assert |restA| > 0 && s[|a|] == restA[0];
    assert s[|a|] == b[|a|];
  }

  lemma {:induction false} SplitAtSpace(a: string, b: string, restA: string, restB: string)
    requires ' ' !in a && ' ' !in b && a + restA == b + restB
    requires (restA == "" || restA[0] == ' ') && (restB == "" || restB[0] == ' ')
    ensures a == b && restA == restB
  {
    if |a| < |b| {
      ShorterEndsAtSpace(a, b, restA, restB);
    } else if |b| < |a| {
      ShorterEndsAtSpace(b, a, restB, restA);
    }
    assert a == (a + restA)[..|a|] && b == (a + restA)[..|b|];
    assert restA == (a + restA)[|a|..] && restB == (a + restA)[|b|..];
  }

  function Tail(steps: seq<Step>): string
    requires steps != []
  {
    if |steps| == 1 then "" else " > " + PathText(steps[1..])
  }

  lemma {:induction false} PathTextParts(steps: seq<Step>)
    requires steps != []
    ensures PathText(steps) == StepText(steps[0]) + Tail(steps)
    ensures Tail(steps) == "" || Tail(steps)[0] == ' '
    ensures |steps| == 1 <==> Tail(steps) == ""
    ensures |steps| > 1 ==> Tail(steps)[3..] == PathText(steps[1..])
  {
  }

  lemma {:induction false} PathTextInjective(a: seq<Step>, b: seq<Step>)
    requires a != [] && b != [] && PathText(a) == PathText(b)
    requires (forall i :: 0 <= i < |a| ==> PlainName(a[i].name)) && (forall i :: 0 <= i < |b| ==> PlainName(b[i].name))
    ensures a == b
    decreases |a|
  {
    StepTextNoSpace(a[0]);
    StepTextNoSpace(b[0]);
    PathTextParts(a);
    PathTextParts(b);
    SplitAtSpace(StepText(a[0]), StepText(b[0]), Tail(a), Tail(b));
    StepTextInjective(a[0], b[0]);
    if |a| > 1 {
      PathTextInjective(a[1..], b[1..]);
    }
    assert a == [a[0]] + a[1..] && b == [b[0]] + b[1..];
  }

  predicate PlainTags(nodes: seq<Node>, at: Address)
    requires TagAt(nodes, at)
    decreases |at|
  {
    PlainName(nodes[at[0]].name) && (|at| == 1 || PlainTags(nodes[at[0]].children, at[1..]))
  }

  lemma {:induction false} PlainSteps(nodes: seq<Node>, at: Address)
    requires TagAt(nodes, at) && PlainTags(nodes, at)
    ensures Steps(nodes, at) != [] && forall i :: 0 <= i < |Steps(nodes, at)| ==> PlainName(Steps(nodes, at)[i].name)
    decreases |at|
  {
    if |at| > 1 {
      PlainSteps(nodes[at[0]].children, at[1..]);
    }
  }

  /** Distinct elements get distinct printed paths. */
  lemma {:induction false} PathsDistinct(nodes: seq<Node>, a: Address, b: Address)
    requires TagAt(nodes, a) && TagAt(nodes, b) && PlainTags(nodes, a) && PlainTags(nodes, b)
    requires PathText(Steps(nodes, a)) == PathText(Steps(nodes, b))
    ensures a == b
  {
    PlainSteps(nodes, a);
    PlainSteps(nodes, b);
    PathTextInjective(Steps(nodes, a), Steps(nodes, b));
    PathReadsBack(nodes, a);
    PathReadsBack(nodes, b);
  }
}
