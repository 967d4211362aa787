/** The bounded breadth-first search for a call path from an entry method to a
    target: over the production definitions, then over one test file. */
module CallPaths {
  import opened Wrappers

  type Name = string

  /** A definition of a method: where it stands and what its body calls. */
  datatype Site = Site(file: string, symbol: string, calls: seq<Name>)

  type Index = map<Name, seq<Site>>

  datatype Hop = Hop(file: string, symbol: string, callee: Name)

  /** When a call ends the search, and which calls are not followed. */
  datatype Goal = Goal(lands: (string, Name) -> bool, blocked: Name -> bool)

  const SEARCH_DEPTH := 4

  function SitesOf(index: Index, m: Name): seq<Site> { if m in index then index[m] else [] }

  // ----- walks ------------------------------------------------------------------------

  predicate Makes(site: Site, h: Hop) { site.file == h.file && site.symbol == h.symbol && h.callee in site.calls }

  /** Some definition of m makes the call. */
  predicate Leaves(index: Index, m: Name, h: Hop) { exists site :: site in SitesOf(index, m) && Makes(site, h) }

  /** The method that makes hop i of a chain that starts at m. */
  function Before(m: Name, hops: seq<Hop>, i: nat): Name
    requires i <= |hops|
  {
    if i == 0 then m else hops[i - 1].callee
  }

  predicate Passes(index: Index, goal: Goal, from: Name, h: Hop) {
    Leaves(index, from, h) && !goal.lands(h.file, h.callee) && !goal.blocked(h.callee)
  }

  /** Each hop leaves the method the hop before it called, and is followed. */
  ghost predicate Trail(index: Index, goal: Goal, m: Name, hops: seq<Hop>) {
    forall i: nat :: i < |hops| ==> Passes(index, goal, Before(m, hops, i), hops[i])
  }

  /** Hop i of a walk is followed unless it is the last, which lands. */
  ghost predicate GoodHop(index: Index, goal: Goal, w: seq<Hop>, m: Name, i: nat)
    requires i < |w|
  {
    Leaves(index, m, w[i]) && if i + 1 < |w| then Passes(index, goal, m, w[i]) else goal.lands(w[i].file, w[i].callee)
  }

  /** A chain of calls from m that is followed up to its last hop, which lands. */
  ghost predicate Walk(index: Index, goal: Goal, m: Name, hops: seq<Hop>) {
    hops != [] && forall i: nat :: i < |hops| ==> GoodHop(index, goal, hops, Before(m, hops, i), i)
  }

  // ----- one expansion --------------------------------------------------------------------

  /** A queue entry: a method, the hops still allowed after one more, and the
      hops taken to it. */
  datatype Item = Item(name: Name, depth: nat, chain: seq<Hop>)

  type Key = (Name, nat)

  function KeyOf(item: Item): Key { (item.name, item.depth) }

  function HopTo(site: Site, callee: Name): Hop { Hop(site.file, site.symbol, callee) }

  /** The entry for a followed call. */
  function Next(cur: Item, h: Hop): Item
    requires cur.depth > 0
  {
    Item(h.callee, cur.depth - 1, cur.chain + [h])
  }

  ghost predicate FromSite(goal: Goal, cur: Item, site: Site, item: Item) {
    cur.depth > 0 && item.chain != [] &&
    var h := item.chain[|item.chain| - 1];
    Makes(site, h) && !goal.lands(h.file, h.callee) && !goal.blocked(h.callee) && item == Next(cur, h)
  }

  /** What one site's calls come to if none lands. */
  ghost predicate SiteDone(goal: Goal, cur: Item, site: Site, calls: seq<Name>, pushed: seq<Item>) {
    (forall item :: item in pushed ==> FromSite(goal, cur, site, item)) &&
    (forall c :: c in calls ==>
       !goal.lands(site.file, c) && (cur.depth > 0 && !goal.blocked(c) ==> Next(cur, HopTo(site, c)) in pushed))
  }

  method ExpandSite(goal: Goal, cur: Item, site: Site) returns (landed: Option<Hop>, pushed: seq<Item>)
    ensures landed.Some? ==> Makes(site, landed.value) && goal.lands(landed.value.file, landed.value.callee)
    ensures landed.None? ==> SiteDone(goal, cur, site, site.calls, pushed)
  {
    pushed := [];
    for i := 0 to |site.calls|
      invariant SiteDone(goal, cur, site, site.calls[..i], pushed)
    {
      var callee := site.calls[i];
      var hop := HopTo(site, callee);
      assert site.calls[..i + 1] == site.calls[..i] + [callee];
      if goal.lands(site.file, callee) {
        return Some(hop), [];
      }
      if !goal.blocked(callee) && cur.depth > 0 {
        var next := Next(cur, hop);
        assert FromSite(goal, cur, site, next);
        pushed := pushed + [next];
      }
    }
    assert site.calls[..|site.calls|] == site.calls;
    return None, pushed;
  }

  ghost predicate FromItem(index: Index, goal: Goal, cur: Item, item: Item) {
    exists site :: site in SitesOf(index, cur.name) && FromSite(goal, cur, site, item)
  }

  /** What a method's definitions come to if no call lands. */
  ghost predicate ItemDone(index: Index, goal: Goal, cur: Item, pushed: seq<Item>) {
    (forall item :: item in pushed ==> FromItem(index, goal, cur, item)) &&
    (forall h :: Leaves(index, cur.name, h) ==>
       !goal.lands(h.file, h.callee) && (cur.depth > 0 && !goal.blocked(h.callee) ==> Next(cur, h) in pushed))
  }

  method Expand(index: Index, goal: Goal, cur: Item) returns (landed: Option<Hop>, pushed: seq<Item>)
    ensures landed.Some? ==> Leaves(index, cur.name, landed.value) && goal.lands(landed.value.file, landed.value.callee)
    ensures landed.None? ==> ItemDone(index, goal, cur, pushed)
  {
    var sites := SitesOf(index, cur.name);
    pushed := [];
    for i := 0 to |sites|
      invariant forall item :: item in pushed ==> FromItem(index, goal, cur, item)
      invariant forall site, h :: site in sites[..i] && Makes(site, h) ==>
                  !goal.lands(h.file, h.callee) && (cur.depth > 0 && !goal.blocked(h.callee) ==> Next(cur, h) in pushed)
    {
      var site := sites[i];
      assert sites[..i + 1] == sites[..i] + [site];
      var hit, more := ExpandSite(goal, cur, site);
      if hit.Some? {
        return hit, [];
      }
      forall h | Makes(site, h)
        ensures !goal.lands(h.file, h.callee) && (cur.depth > 0 && !goal.blocked(h.callee) ==> Next(cur, h) in more)
      {
        assert h == HopTo(site, h.callee);
      }
      forall item | item in more ensures FromItem(index, goal, cur, item) {
        assert FromSite(goal, cur, site, item);
      }
      pushed := pushed + more;
    }
    assert sites[..|sites|] == sites;
    return None, pushed;
  }

  // ----- the search ---------------------------------------------------------------------------

  /** An entry is reached by its chain, which spends the depth it lacks. */
  ghost predicate Reached(index: Index, goal: Goal, from: Name, depth: nat, item: Item) {
    Trail(index, goal, from, item.chain) && item.name == Before(from, item.chain, |item.chain|) &&
    item.depth + |item.chain| == depth
  }

  ghost predicate AllReached(index: Index, goal: Goal, from: Name, depth: nat, queue: seq<Item>) {
    forall i :: 0 <= i < |queue| ==> Reached(index, goal, from, depth, queue[i])
  }

  /** Entries come level by level, and span two levels at most. */
  ghost predicate Levelled(queue: seq<Item>) {
    (forall i, j :: 0 <= i < j < |queue| ==> queue[i].depth >= queue[j].depth) &&
    (forall i :: 0 <= i < |queue| ==> queue[i].depth + 1 >= queue[0].depth)
  }

  ghost predicate Queued(queue: seq<Item>, key: Key) { exists i :: 0 <= i < |queue| && KeyOf(queue[i]) == key }

  ghost predicate Known(seen: set<Key>, queue: seq<Item>, key: Key) { key in seen || Queued(queue, key) }

  /** Nothing seen lands, and what it calls is seen or queued. */
  ghost predicate Settled(index: Index, goal: Goal, seen: set<Key>, queue: seq<Item>, key: Key) {
    forall h :: Leaves(index, key.0, h) ==>
      !goal.lands(h.file, h.callee) && (key.1 > 0 && !goal.blocked(h.callee) ==> Known(seen, queue, (h.callee, key.1 - 1)))
  }

  ghost predicate AllSettled(index: Index, goal: Goal, seen: set<Key>, queue: seq<Item>) {
    forall key :: key in seen ==> Settled(index, goal, seen, queue, key)
  }

  ghost predicate KnownAt(seen: set<Key>, queue: seq<Item>, from: Name, depth: nat, w: seq<Hop>, i: nat) {
    i <= |w| && i <= depth && Known(seen, queue, (Before(from, w, i), depth - i))
  }

  lemma {:induction false} WalkStep(index: Index, goal: Goal, from: Name, depth: nat, seen: set<Key>, queue: seq<Item>, w: seq<Hop>, i: nat)
    requires i < |w| <= depth + 1
    requires Settled(index, goal, seen, queue, (Before(from, w, i), depth - i))
    requires GoodHop(index, goal, w, Before(from, w, i), i)
    ensures i + 1 < |w| && KnownAt(seen, queue, from, depth, w, i + 1)
  {
  }

  /** A walk within the depth still has to pass through the queue. */
  lemma {:induction false} WalkMeetsQueue(index: Index, goal: Goal, from: Name, depth: nat, seen: set<Key>, queue: seq<Item>,
                                          w: seq<Hop>, i: nat) returns (q: nat)
    requires AllSettled(index, goal, seen, queue) && Walk(index, goal, from, w)
    requires i < |w| <= depth + 1 && KnownAt(seen, queue, from, depth, w, i)
    ensures q < |queue| && queue[q].depth + |w| >= depth + 1
    decreases |w| - i
  {
    var key := (Before(from, w, i), depth - i);
    if Queued(queue, key) {
      q :| 0 <= q < |queue| && KeyOf(queue[q]) == key;
    } else {
      assert GoodHop(index, goal, w, Before(from, w, i), i);
      assert Settled(index, goal, seen, queue, key);
      WalkStep(index, goal, from, depth, seen, queue, w, i);
      q := WalkMeetsQueue(index, goal, from, depth, seen, queue, w, i + 1);
    }
  }

  lemma {:induction false} NoShorterWalk(index: Index, goal: Goal, from: Name, depth: nat, seen: set<Key>, queue: seq<Item>, w: seq<Hop>)
    requires AllSettled(index, goal, seen, queue) && Known(seen, queue, (from, depth)) && Levelled(queue)
    requires queue != [] && queue[0].depth + |queue[0].chain| == depth && Walk(index, goal, from, w)
    ensures |w| > |queue[0].chain|
  {
    if |w| <= depth + 1 {
      assert KnownAt(seen, queue, from, depth, w, 0);
      var q := WalkMeetsQueue(index, goal, from, depth, seen, queue, w, 0);
      assert queue[q].depth <= queue[0].depth;
    }
  }

  lemma {:induction false} NoWalkLeft(index: Index, goal: Goal, from: Name, depth: nat, seen: set<Key>, w: seq<Hop>)
    requires AllSettled(index, goal, seen, []) && Known(seen, [], (from, depth)) && Walk(index, goal, from, w)
    ensures |w| > depth + 1
  {
    if |w| <= depth + 1 {
      assert KnownAt(seen, [], from, depth, w, 0);
      var q := WalkMeetsQueue(index, goal, from, depth, seen, [], w, 0);
    }
  }

  /** Dropping an entry whose key is seen, and queueing more, forgets no key. */
  lemma {:induction false} KnownKept(seen: set<Key>, now: set<Key>, queue: seq<Item>, pushed: seq<Item>, key: Key)
    requires queue != [] && seen <= now && KeyOf(queue[0]) in now && Known(seen, queue, key)
    ensures Known(now, queue[1..] + pushed, key)
  {
    if key !in now {
      var i :| 0 <= i < |queue| && KeyOf(queue[i]) == key;
      assert (queue[1..] + pushed)[i - 1] == queue[i];
    }
  }

  lemma {:induction false} SettledKept(index: Index, goal: Goal, seen: set<Key>, now: set<Key>, queue: seq<Item>, pushed: seq<Item>)
    requires queue != [] && seen <= now && KeyOf(queue[0]) in now && AllSettled(index, goal, seen, queue)
    ensures forall key :: key in seen ==> Settled(index, goal, now, queue[1..] + pushed, key)
  {
    forall key | key in seen ensures Settled(index, goal, now, queue[1..] + pushed, key) {
      assert Settled(index, goal, seen, queue, key);
      forall h | Leaves(index, key.0, h) && key.1 > 0 && !goal.blocked(h.callee)
        ensures Known(now, queue[1..] + pushed, (h.callee, key.1 - 1))
      {
        KnownKept(seen, now, queue, pushed, (h.callee, key.1 - 1));
      }
    }
  }

  lemma {:induction false} ExpandedSettled(index: Index, goal: Goal, cur: Item, seen: set<Key>, queue: seq<Item>, pushed: seq<Item>)
    requires ItemDone(index, goal, cur, pushed)
    ensures Settled(index, goal, seen, queue + pushed, KeyOf(cur))
  {
    forall h | Leaves(index, cur.name, h) && cur.depth > 0 && !goal.blocked(h.callee)
      ensures Known(seen, queue + pushed, (h.callee, cur.depth - 1))
    {
      assert Next(cur, h) in pushed;
      var i :| 0 <= i < |pushed| && pushed[i] == Next(cur, h);
      assert (queue + pushed)[|queue| + i] == pushed[i];
    }
  }

  lemma {:induction false} BeforeGrown(from: Name, hops: seq<Hop>, h: Hop, i: nat)
    requires i <= |hops|
    ensures Before(from, hops + [h], i) == Before(from, hops, i)
  {
  }

  lemma {:induction false} TrailGrows(index: Index, goal: Goal, from: Name, hops: seq<Hop>, h: Hop, grown: seq<Hop>)
    requires Trail(index, goal, from, hops) && Passes(index, goal, Before(from, hops, |hops|), h) && grown == hops + [h]
    ensures Trail(index, goal, from, grown)
  {
    forall i: nat | i < |grown| ensures Passes(index, goal, Before(from, grown, i), grown[i]) {
      BeforeGrown(from, hops, h, i);
      if i < |hops| {
        assert grown[i] == hops[i];
        assert Passes(index, goal, Before(from, hops, i), hops[i]);
      }
    }
  }

  lemma {:induction false} TrailLands(index: Index, goal: Goal, from: Name, hops: seq<Hop>, h: Hop, found: seq<Hop>)
    requires Trail(index, goal, from, hops) && Leaves(index, Before(from, hops, |hops|), h) && goal.lands(h.file, h.callee)
    requires found == hops + [h]
    ensures Walk(index, goal, from, found)
  {
    forall i: nat | i < |found| ensures GoodHop(index, goal, found, Before(from, found, i), i) {
      BeforeGrown(from, hops, h, i);
      if i < |hops| {
        assert found[i] == hops[i];
        assert Passes(index, goal, Before(from, hops, i), hops[i]);
      }
    }
  }

  lemma {:induction false} NextReached(index: Index, goal: Goal, from: Name, depth: nat, cur: Item, item: Item)
    requires Reached(index, goal, from, depth, cur) && FromItem(index, goal, cur, item)
    ensures Reached(index, goal, from, depth, item) && item.depth + 1 == cur.depth
  {
    var site :| site in SitesOf(index, cur.name) && FromSite(goal, cur, site, item);
    TrailGrows(index, goal, from, cur.chain, item.chain[|item.chain| - 1], item.chain);
  }

  lemma {:induction false} LevelsGrow(queue: seq<Item>, pushed: seq<Item>)
    requires queue != [] && Levelled(queue) && forall i :: 0 <= i < |pushed| ==> pushed[i].depth + 1 == queue[0].depth
    ensures Levelled(queue[1..] + pushed)
  {
  }

  lemma {:induction false} ExpandReached(index: Index, goal: Goal, from: Name, depth: nat, queue: seq<Item>, pushed: seq<Item>)
    requires queue != [] && AllReached(index, goal, from, depth, queue) && Levelled(queue)
    requires forall item :: item in pushed ==> FromItem(index, goal, queue[0], item)
    ensures AllReached(index, goal, from, depth, queue[1..] + pushed) && Levelled(queue[1..] + pushed)
  {
    var cur := queue[0];
    assert Reached(index, goal, from, depth, cur);
    forall i | 0 <= i < |pushed|
      ensures Reached(index, goal, from, depth, pushed[i]) && pushed[i].depth + 1 == cur.depth
    {
      assert pushed[i] in pushed;
      NextReached(index, goal, from, depth, cur, pushed[i]);
    }
    LevelsGrow(queue, pushed);
  }

  // The search ends because only finitely many keys can be seen.

  ghost function Callees(index: Index): set<Name> {
    set m, i, j | m in index && 0 <= i < |index[m]| && 0 <= j < |index[m][i].calls| :: index[m][i].calls[j]
  }

  ghost function Keys(index: Index, from: Name, depth: nat): set<Key> {
    set n, d: nat | n in Callees(index) + {from} && d <= depth :: (n, d)
  }

  lemma {:induction false} NextInKeys(index: Index, goal: Goal, from: Name, depth: nat, cur: Item, item: Item)
    requires KeyOf(cur) in Keys(index, from, depth) && FromItem(index, goal, cur, item)
    ensures KeyOf(item) in Keys(index, from, depth)
  {
    var site :| site in SitesOf(index, cur.name) && FromSite(goal, cur, site, item);
    var h := item.chain[|item.chain| - 1];
    var i :| 0 <= i < |index[cur.name]| && index[cur.name][i] == site;
    var j :| 0 <= j < |site.calls| && site.calls[j] == h.callee;
    assert index[cur.name][i].calls[j] in Callees(index);
  }

  ghost predicate AllIn(queue: seq<Item>, keys: set<Key>) {
    forall i :: 0 <= i < |queue| ==> KeyOf(queue[i]) in keys
  }

  lemma {:induction false} ExpandIn(index: Index, goal: Goal, from: Name, depth: nat, queue: seq<Item>, pushed: seq<Item>)
    requires queue != [] && AllIn(queue, Keys(index, from, depth))
    requires forall item :: item in pushed ==> FromItem(index, goal, queue[0], item)
    ensures AllIn(queue[1..] + pushed, Keys(index, from, depth))
  {
    forall i | 0 <= i < |pushed| ensures KeyOf(pushed[i]) in Keys(index, from, depth) {
      assert pushed[i] in pushed;
      NextInKeys(index, goal, from, depth, queue[0], pushed[i]);
    }
  }

  lemma {:induction false} FewerLeft(keys: set<Key>, seen: set<Key>, key: Key)
    requires key in keys && key !in seen
    ensures |keys - (seen + {key})| < |keys - seen|
  {
    assert keys - (seen + {key}) == (keys - seen) - {key};
  }

  ghost predicate SearchInv(index: Index, goal: Goal, from: Name, depth: nat, seen: set<Key>, queue: seq<Item>) {
    AllReached(index, goal, from, depth, queue) && Levelled(queue) && Known(seen, queue, (from, depth)) &&
    AllSettled(index, goal, seen, queue)
  }

  lemma {:induction false} SkipKeeps(index: Index, goal: Goal, from: Name, depth: nat, seen: set<Key>, queue: seq<Item>)
    requires SearchInv(index, goal, from, depth, seen, queue) && queue != [] && KeyOf(queue[0]) in seen
    ensures SearchInv(index, goal, from, depth, seen, queue[1..])
  {
    assert queue[1..] + [] == queue[1..];
    KnownKept(seen, seen, queue, [], (from, depth));
    SettledKept(index, goal, seen, seen, queue, []);
  }

  lemma {:induction false} ExpandKeeps(index: Index, goal: Goal, from: Name, depth: nat, seen: set<Key>, queue: seq<Item>, pushed: seq<Item>)
    requires SearchInv(index, goal, from, depth, seen, queue) && queue != [] && ItemDone(index, goal, queue[0], pushed)
    ensures SearchInv(index, goal, from, depth, seen + {KeyOf(queue[0])}, queue[1..] + pushed)
  {
    var now := seen + {KeyOf(queue[0])};
    KnownKept(seen, now, queue, pushed, (from, depth));
    SettledKept(index, goal, seen, now, queue, pushed);
    ExpandedSettled(index, goal, queue[0], now, queue[1..], pushed);
    ExpandReached(index, goal, from, depth, queue, pushed);
  }

  lemma {:induction false} FoundShortest(index: Index, goal: Goal, from: Name, depth: nat, seen: set<Key>, queue: seq<Item>, h: Hop)
    requires SearchInv(index, goal, from, depth, seen, queue) && queue != []
    requires Leaves(index, queue[0].name, h) && goal.lands(h.file, h.callee)
    ensures var found := queue[0].chain + [h];
            Walk(index, goal, from, found) && |found| <= depth + 1 &&
            forall w :: Walk(index, goal, from, w) ==> |found| <= |w|
  {
    var cur := queue[0];
    var found := cur.chain + [h];
    assert Reached(index, goal, from, depth, cur);
    TrailLands(index, goal, from, cur.chain, h, found);
    forall w | Walk(index, goal, from, w) ensures |found| <= |w| {
      NoShorterWalk(index, goal, from, depth, seen, queue, w);
    }
  }

  /** A found chain is a walk within the depth and no walk is shorter; without
      one there is no walk within the depth. */
  method Search(index: Index, goal: Goal, from: Name, depth: nat) returns (chain: Option<seq<Hop>>)
    ensures chain.Some? ==> Walk(index, goal, from, chain.value) && |chain.value| <= depth + 1
    ensures chain.Some? ==> forall w :: Walk(index, goal, from, w) ==> |chain.value| <= |w|
    ensures chain.None? ==> forall w :: Walk(index, goal, from, w) ==> |w| > depth + 1
  {
    var queue := [Item(from, depth, [])];
    var seen: set<Key> := {};
    assert KeyOf(queue[0]) == (from, depth);
    while queue != []
      invariant SearchInv(index, goal, from, depth, seen, queue)
      invariant AllIn(queue, Keys(index, from, depth))
      decreases |Keys(index, from, depth) - seen|, |queue|
    {
      var cur := queue[0];
      if KeyOf(cur) in seen {
        SkipKeeps(index, goal, from, depth, seen, queue);
        queue := queue[1..];
        continue;
      }
      var landed, pushed := Expand(index, goal, cur);
      if landed.Some? {
        FoundShortest(index, goal, from, depth, seen, queue, landed.value);
        return Some(cur.chain + [landed.value]);
      }
      ExpandKeeps(index, goal, from, depth, seen, queue, pushed);
      ExpandIn(index, goal, from, depth, queue, pushed);
      FewerLeft(Keys(index, from, depth), seen, KeyOf(cur));
      seen := seen + {KeyOf(cur)};
      queue := queue[1..] + pushed;
    }
    forall w | Walk(index, goal, from, w) ensures |w| > depth + 1 {
      NoWalkLeft(index, goal, from, depth, seen, w);
    }
    return None;
  }

  // ----- the two searches and the resolution --------------------------------------------------

  /** `pathReaches`: a call of the target lands if its file is licensed; no call
      of the target is followed. */
  function ProductionGoal(target: Name, licensed: Option<set<string>>): Goal {
    Goal((file, callee) => callee == target && (licensed.None? || file in licensed.value), callee => callee == target)
  }

  predicate EndsWith(s: string, suffix: string) { |suffix| <= |s| && s[|s| - |suffix|..] == suffix }

  /** `pathReachesLocal`: any name that ends with the target lands. */
  function LocalGoal(target: Name): Goal {
    Goal((file, callee) => callee == target || EndsWith(callee, target), callee => false)
  }

  /** The calls of one test file as an index: one site for each name. */
  function LocalIndex(file: string, calls: map<Name, seq<Name>>): Index {
    map m | m in calls :: [Site(file, m, calls[m])]
  }

  datatype Resolution = ByProduction(chain: seq<Hop>) | ByTestFile(chain: seq<Hop>) | IsTarget | Unresolved

  ghost predicate Reaches(index: Index, goal: Goal, from: Name, depth: nat) {
    exists w :: Walk(index, goal, from, w) && |w| <= depth + 1
  }

  /** `resolveEntryToTarget`. */
  method ResolveEntry(index: Index, file: string, calls: map<Name, seq<Name>>, from: Name, target: Name,
                      licensed: Option<set<string>>) returns (r: Resolution)
    ensures r.ByProduction? <==> Reaches(index, ProductionGoal(target, licensed), from, 4)
    ensures r.ByProduction? ==> Walk(index, ProductionGoal(target, licensed), from, r.chain)
    ensures r.ByProduction? ==> forall w :: Walk(index, ProductionGoal(target, licensed), from, w) ==> |r.chain| <= |w|
    ensures r.ByTestFile? <==>
              !r.ByProduction? && Reaches(LocalIndex(file, calls), LocalGoal(target), from, 4)
    ensures r.ByTestFile? ==> Walk(LocalIndex(file, calls), LocalGoal(target), from, r.chain)
    ensures r.IsTarget? <==> !r.ByProduction? && !r.ByTestFile? && from == target
  {
    var production := Search(index, ProductionGoal(target, licensed), from, SEARCH_DEPTH);
    if production.Some? {
      return ByProduction(production.value);
    }
    var local := Search(LocalIndex(file, calls), LocalGoal(target), from, SEARCH_DEPTH);
    if local.Some? {
      return ByTestFile(local.value);
    }
    return if from == target then IsTarget else Unresolved;
  }

  /** Hop i is a call from a definition of the method called before it; the last
      hop and no other calls the target, from a licensed file if files are. */
  ghost predicate ProductionHop(index: Index, target: Name, licensed: Option<set<string>>, from: Name, w: seq<Hop>, i: nat)
    requires i < |w|
  {
    var caller := if i == 0 then from else w[i - 1].callee;
    && caller in index
    && (exists site :: site in index[caller] && site.file == w[i].file && site.symbol == w[i].symbol && w[i].callee in site.calls)
    && (w[i].callee == target <==> i == |w| - 1)
    && (i == |w| - 1 && licensed.Some? ==> w[i].file in licensed.value)
  }

  /** What the production search looks for. */
  lemma {:induction false} ProductionWalk(index: Index, target: Name, licensed: Option<set<string>>, from: Name, w: seq<Hop>)
    ensures Walk(index, ProductionGoal(target, licensed), from, w) <==>
      w != [] && forall i: nat :: i < |w| ==> ProductionHop(index, target, licensed, from, w, i)
  {
    var goal := ProductionGoal(target, licensed);
    forall i: nat | i < |w|
      ensures GoodHop(index, goal, w, Before(from, w, i), i) <==> ProductionHop(index, target, licensed, from, w, i)
    {
      LeavesIff(index, Before(from, w, i), w[i]);
    }
  }

  lemma {:induction false} LeavesIff(index: Index, m: Name, h: Hop)
    ensures Leaves(index, m, h) <==>
      m in index && exists site :: site in index[m] && site.file == h.file && site.symbol == h.symbol && h.callee in site.calls
  {
    if m in index {
      forall site | site in index[m] && site.file == h.file && site.symbol == h.symbol && h.callee in site.calls
        ensures Leaves(index, m, h)
      {
        assert site in SitesOf(index, m) && Makes(site, h);
      }
    }
  }

  ghost predicate EndsIn(s: string, suffix: string) { exists head: string :: head + suffix == s }

  lemma {:induction false} LandsIff(target: Name, file: string, callee: Name)
    ensures LocalGoal(target).lands(file, callee) <==> EndsIn(callee, target)
  {
    if EndsWith(callee, target) {
      assert callee[..|callee| - |target|] + target == callee;
    }
    if EndsIn(callee, target) {
      var head: string :| head + target == callee;
      assert callee[|callee| - |target|..] == target;
    }
    assert [] + target == target;
  }

  /** What the search in a test file looks for: calls that follow one another in
      that file, of which the last and no other ends in the name of the target. */
  lemma {:induction false} LocalWalk(file: string, calls: map<Name, seq<Name>>, target: Name, from: Name, w: seq<Hop>)
    ensures Walk(LocalIndex(file, calls), LocalGoal(target), from, w) <==>
      w != [] && forall i: nat :: i < |w| ==> LocalHop(file, calls, target, from, w, i)
  {
    var index, goal := LocalIndex(file, calls), LocalGoal(target);
    forall i: nat | i < |w|
      ensures GoodHop(index, goal, w, Before(from, w, i), i) <==> LocalHop(file, calls, target, from, w, i)
    {
      LandsIff(target, w[i].file, w[i].callee);
      LocalLeaves(file, calls, Before(from, w, i), w[i]);
    }
  }

  ghost predicate LocalHop(file: string, calls: map<Name, seq<Name>>, target: Name, from: Name, w: seq<Hop>, i: nat)
    requires i < |w|
  {
    var caller := if i == 0 then from else w[i - 1].callee;
    && w[i].file == file && w[i].symbol == caller && caller in calls && w[i].callee in calls[caller]
    && (EndsIn(w[i].callee, target) <==> i == |w| - 1)
  }

  lemma {:induction false} LocalLeaves(file: string, calls: map<Name, seq<Name>>, m: Name, h: Hop)
    ensures Leaves(LocalIndex(file, calls), m, h) <==> h.file == file && h.symbol == m && m in calls && h.callee in calls[m]
  {
    if m in calls {
      assert SitesOf(LocalIndex(file, calls), m) == [Site(file, m, calls[m])];
      assert Site(file, m, calls[m]) in SitesOf(LocalIndex(file, calls), m);
    }
  }
}
