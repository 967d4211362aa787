/** Shape theorems about a registry whose checks report nothing: what no single
    check states. */
module WorkItemShape {
  import opened Wrappers
  import opened WorkItems

  lemma {:induction false} ByIdExact(items: seq<WorkItem>, item: WorkItem)
    requires DistinctIds(items) && item in items
    ensures item.id in ById(items) && ById(items)[item.id] == item
  {
    var n := |items| - 1;
    var i :| 0 <= i < |items| && items[i] == item;
    if i < n {
      assert items[i].id != items[n].id;
      assert items[..n][i] == item;
      ByIdExact(items[..n], item);
    }
  }

  // ----- the chain ------------------------------------------------------------------

  ghost predicate Successive(chain: seq<WorkItem>) {
    forall i :: 0 <= i < |chain| - 1 ==>
      chain[i].successor == Some(chain[i + 1].id) && chain[i + 1].predecessor == Some(chain[i].id)
  }

  /** One single successor chain that visits each canonical Section exactly once. */
  ghost predicate IsChain(items: seq<WorkItem>, chain: seq<WorkItem>) {
    && DistinctIds(chain)
    && (forall item :: item in chain <==> item in OfKind(items, Section))
    && Successive(chain)
    && (chain != [] ==> !Linked(chain[0].predecessor) && !Linked(chain[|chain| - 1].successor))
  }

  lemma {:induction false} FollowDistinct(byId: map<Id, WorkItem>, current: WorkItem, seen: set<Id>)
    requires Indexed(byId) && current.id in byId
    ensures var walk := Follow(byId, current, seen); DistinctIds(walk) && forall x :: x in walk ==> x.id !in seen
    decreases |byId.Keys - seen|
  {
    if current.id !in seen && Linked(current.successor) && current.successor.value in byId {
      FollowSnoc(byId, [], current, seen);
      SmallerSet(byId.Keys - (seen + {current.id}), byId.Keys - seen);
      var rest := Follow(byId, byId[current.successor.value], seen + {current.id});
      FollowDistinct(byId, byId[current.successor.value], seen + {current.id});
      assert forall j :: 0 <= j < |rest| ==> rest[j] in rest;
    }
  }

  ghost predicate Steps(byId: map<Id, WorkItem>, walk: seq<WorkItem>) {
    forall i :: 0 <= i < |walk| - 1 ==> Linked(walk[i].successor) && walk[i].successor.value in byId && walk[i + 1] == byId[walk[i].successor.value]
  }

  lemma {:induction false} FollowSteps(byId: map<Id, WorkItem>, current: WorkItem, seen: set<Id>)
    requires Indexed(byId) && current.id in byId
    ensures var walk := Follow(byId, current, seen);
      Steps(byId, walk) && (current.id !in seen ==> walk != [] && walk[0] == current)
    decreases |byId.Keys - seen|
  {
    if current.id !in seen && Linked(current.successor) && current.successor.value in byId {
      FollowSnoc(byId, [], current, seen);
      SmallerSet(byId.Keys - (seen + {current.id}), byId.Keys - seen);
      FollowSteps(byId, byId[current.successor.value], seen + {current.id});
    }
  }

  lemma {:induction false} FollowEnd(byId: map<Id, WorkItem>, current: WorkItem, seen: set<Id>)
    requires Indexed(byId) && current.id in byId && current.id !in seen
    ensures var walk := Follow(byId, current, seen);
      walk != [] && var link := walk[|walk| - 1].successor;
      Linked(link) && link.value in byId ==> link.value in seen + Ids(walk)
    decreases |byId.Keys - seen|
  {
    if Linked(current.successor) && current.successor.value in byId {
      var next := byId[current.successor.value];
      FollowSnoc(byId, [], current, seen);
      SmallerSet(byId.Keys - (seen + {current.id}), byId.Keys - seen);
      var rest := Follow(byId, next, seen + {current.id});
      IdsCons(current, rest);
      if next.id !in seen + {current.id} { FollowEnd(byId, next, seen + {current.id}); }
    }
  }

  lemma {:induction false} IdsCons(first: WorkItem, rest: seq<WorkItem>)
    ensures Ids([first] + rest) == {first.id} + Ids(rest)
  {
    if rest == [] {
      assert [first] + rest == [] + [first];
      IdsSnoc([], first);
    } else {
      var init, last := rest[..|rest| - 1], rest[|rest| - 1];
      assert ([first] + rest)[..|rest|] == [first] + init;
      IdsCons(first, init);
    }
  }

  lemma {:induction false} SuccessorIsSection(items: seq<WorkItem>, item: WorkItem)
    requires WellFormed(items) && item in OfKind(items, Section) && Linked(item.successor)
    ensures item.successor.value in ById(items)
    ensures var next := ById(items)[item.successor.value]; next in OfKind(items, Section) && next.predecessor == Some(item.id)
  {
    assert LinksOk(item, ById(items));
    ByIdIn(items, item.successor.value);
  }

  lemma {:induction false} PredecessorIsSection(items: seq<WorkItem>, item: WorkItem)
    requires WellFormed(items) && item in OfKind(items, Section) && Linked(item.predecessor)
    ensures item.predecessor.value in ById(items)
    ensures var prev := ById(items)[item.predecessor.value]; prev in OfKind(items, Section) && prev.successor == Some(item.id)
  {
    var byId := ById(items);
    assert ItemOk(item) && item.id != OtherId("");
    assert LinksOk(item, byId);
    ByIdIn(items, item.predecessor.value);
    var prev := byId[item.predecessor.value];
    assert LinksOk(prev, byId);
    ByIdExact(items, item);
  }

  lemma {:induction false} WalkStaysInSections(items: seq<WorkItem>, walk: seq<WorkItem>, i: nat)
    requires WellFormed(items) && i < |walk| && walk[0] in OfKind(items, Section)
    requires forall k :: 0 <= k < |walk| - 1 ==> Linked(walk[k].successor) && walk[k].successor.value in ById(items) && walk[k + 1] == ById(items)[walk[k].successor.value]
    ensures walk[i] in OfKind(items, Section)
  {
    if i > 0 {
      WalkStaysInSections(items, walk, i - 1);
      SuccessorIsSection(items, walk[i - 1]);
    }
  }

  /** The chain the checks walk. */
  function Chain(items: seq<WorkItem>): seq<WorkItem> {
    var starts := Starts(OfKind(items, Section));
    if starts == [] then [] else
      assert starts[0] in items;
      MemberIndexed(items, starts[0]);
      Follow(ById(items), starts[0], {})
  }

  lemma {:induction false} MemberIndexed(items: seq<WorkItem>, item: WorkItem)
    requires item in items
    ensures item.id in ById(items)
  {
    var n := |items| - 1;
    assert items == items[..n] + [items[n]];
    if item != items[n] { MemberIndexed(items[..n], item); }
  }

  lemma {:induction false} ChainStart(items: seq<WorkItem>) returns (start: WorkItem)
    requires WellFormed(items) && OfKind(items, Section) != []
    ensures start in OfKind(items, Section) && start in items && start.id in ById(items)
    ensures Starts(OfKind(items, Section)) == [start] && Chain(items) == Follow(ById(items), start, {})
    ensures forall item {:trigger item in OfKind(items, Section)} :: item in OfKind(items, Section) ==> item.id in Ids(Chain(items))
  {
    assert KindLinear(items, Section);
    ChildrenIndexed(items, Section, OtherId(""));
    assert LinearGraph(OfKind(items, Section), ById(items));
    start := Starts(OfKind(items, Section))[0];
    assert start in Starts(OfKind(items, Section));
    MemberIndexed(items, start);
  }

  lemma {:induction false} ChainMembers(items: seq<WorkItem>)
    requires WellFormed(items)
    ensures forall item :: item in Chain(items) <==> item in OfKind(items, Section)
  {
    var sections, chain := OfKind(items, Section), Chain(items);
    if sections == [] {
      assert Starts(sections) == [];
    } else {
      var start := ChainStart(items);
      FollowSteps(ById(items), start, {});
      forall item | item in chain ensures item in sections {
        var i :| 0 <= i < |chain| && chain[i] == item;
        WalkStaysInSections(items, chain, i);
      }
      forall item | item in sections ensures item in chain {
        var there := IdsHolder(chain, item.id);
        var i :| 0 <= i < |chain| && chain[i] == there;
        WalkStaysInSections(items, chain, i);
        ByIdExact(items, item);
        ByIdExact(items, there);
      }
    }
  }

  lemma {:induction false} ChainSuccessive(items: seq<WorkItem>)
    requires WellFormed(items)
    ensures DistinctIds(Chain(items)) && Successive(Chain(items))
  {
    var chain := Chain(items);
    ChainMembers(items);
    if chain != [] {
      assert chain[0] in chain;
      var start := ChainStart(items);
      FollowDistinct(ById(items), start, {});
      FollowSteps(ById(items), start, {});
      forall i | 0 <= i < |chain| - 1
        ensures chain[i].successor == Some(chain[i + 1].id) && chain[i + 1].predecessor == Some(chain[i].id)
      {
        assert chain[i] in chain;
        SuccessorIsSection(items, chain[i]);
      }
    }
  }

  /** No error: the canonical Sections form one chain, each visited exactly once. */
  lemma {:induction false} SectionsFormOneChain(items: seq<WorkItem>)
    requires WellFormed(items)
    ensures IsChain(items, Chain(items))
  {
    var chain := Chain(items);
    ChainSuccessive(items);
    ChainMembers(items);
    if chain != [] {
      ChainEnds(items, chain);
    }
  }

  lemma {:induction false} ChainEnds(items: seq<WorkItem>, chain: seq<WorkItem>)
    requires WellFormed(items) && chain != [] && chain == Chain(items)
    requires DistinctIds(chain) && Successive(chain)
    requires forall item :: item in chain <==> item in OfKind(items, Section)
    ensures !Linked(chain[0].predecessor) && !Linked(chain[|chain| - 1].successor)
  {
    assert chain[0] in chain;
    var start := ChainStart(items);
    assert start in Starts(OfKind(items, Section));
    FollowSteps(ById(items), start, {});
    FollowEnd(ById(items), start, {});
    if Linked(start.predecessor) { PredecessorIsSection(items, start); }
    var last := chain[|chain| - 1];
    assert last in chain;
    assert ItemOk(last);
    forall j | 0 <= j < |chain| ensures chain[j].predecessor != Some(last.id) {
      if j > 0 { assert chain[j - 1].successor == Some(chain[j].id); }
    }
    if Linked(last.successor) {
      SuccessorIsSection(items, last);
    }
  }

  // ----- phases are contiguous -------------------------------------------------------------

  ghost predicate Contiguous(chain: seq<WorkItem>, parent: Id) {
    forall i, j, k :: 0 <= i < j < k < |chain| && chain[i].parent == Some(parent) && chain[k].parent == Some(parent) ==> chain[j].parent == Some(parent)
  }

  /** The items whose predecessor lies outside the group. */
  ghost predicate GroupStart(chain: seq<WorkItem>, parent: Id, i: nat)
    requires i < |chain|
  {
    chain[i].parent == Some(parent) && (i == 0 || chain[i - 1].parent != Some(parent))
  }

  lemma {:induction false} StartsAreGroupStarts(items: seq<WorkItem>, parent: Id, i: nat)
    requires WellFormed(items) && i < |Chain(items)|
    ensures IsChain(items, Chain(items))
    ensures Chain(items)[i] in Starts(Children(items, Section, parent)) <==> GroupStart(Chain(items), parent, i)
  {
    SectionsFormOneChain(items);
    var chain, group := Chain(items), Children(items, Section, parent);
    var item := chain[i];
    assert item in chain;
    if i > 0 {
      var prev := chain[i - 1];
      assert prev in chain && item.predecessor == Some(prev.id);
      assert ItemOk(prev);
      if prev.id in Ids(group) {
        var there := IdsHolder(group, prev.id);
        ByIdExact(items, there);
        ByIdExact(items, prev);
      }
    }
  }

  lemma {:induction false} FirstOfGroup(chain: seq<WorkItem>, parent: Id, lo: nat, i: nat) returns (m: nat)
    requires lo <= i < |chain| && chain[i].parent == Some(parent)
    requires lo == 0 || chain[lo - 1].parent != Some(parent)
    ensures lo <= m <= i && GroupStart(chain, parent, m)
    decreases i
  {
    if i == lo || chain[i - 1].parent != Some(parent) { m := i; } else { m := FirstOfGroup(chain, parent, lo, i - 1); }
  }

  lemma {:induction false} TwoMembers(s: seq<WorkItem>, a: WorkItem, b: WorkItem)
    requires a in s && b in s && a != b
    ensures |s| >= 2
  {
    var i :| 0 <= i < |s| && s[i] == a;
    var j :| 0 <= j < |s| && s[j] == b;
  }

  lemma {:induction false} SelectDistinct(items: seq<WorkItem>, keep: WorkItem -> bool)
    requires DistinctIds(items)
    ensures DistinctIds(Select(items, keep))
  {
    if items != [] {
      var n := |items| - 1;
      SelectDistinct(items[..n], keep);
      var rest := Select(items[..n], keep);
      forall i | 0 <= i < |rest| ensures rest[i].id != items[n].id {
        assert rest[i] in rest;
        var k :| 0 <= k < n && items[..n][k] == rest[i];
        assert items[k].id != items[n].id;
      }
    }
  }

  lemma {:induction false} OneStartContiguous(chain: seq<WorkItem>, starts: seq<WorkItem>, parent: Id)
    requires DistinctIds(chain) && |starts| <= 1
    requires forall i :: 0 <= i < |chain| && GroupStart(chain, parent, i) ==> chain[i] in starts
    ensures Contiguous(chain, parent)
  {
    forall i, j, k | 0 <= i < j < k < |chain| && chain[i].parent == Some(parent) && chain[k].parent == Some(parent)
      ensures chain[j].parent == Some(parent)
    {
      if chain[j].parent != Some(parent) {
        var a := FirstOfGroup(chain, parent, 0, i);
        var b := FirstOfGroup(chain, parent, j + 1, k);
        assert chain[a].id != chain[b].id;
        TwoMembers(starts, chain[a], chain[b]);
      }
    }
  }

  lemma {:induction false} GroupStartsCoincide(chain: seq<WorkItem>, parent: Id, a: nat, b: nat)
    requires Contiguous(chain, parent) && a < |chain| && b < |chain|
    requires GroupStart(chain, parent, a) && GroupStart(chain, parent, b)
    ensures a == b
  {
    var lo, hi := if a < b then a else b, if a < b then b else a;
  }

  /** For any parent, the Sections under it are contiguous in the chain exactly when
      at most one of them has its predecessor outside the group. */
  lemma {:induction false} ContiguousIffOneStart(items: seq<WorkItem>, parent: Id)
    requires WellFormed(items)
    ensures Contiguous(Chain(items), parent) <==> |Starts(Children(items, Section, parent))| <= 1
  {
    var chain, starts := Chain(items), Starts(Children(items, Section, parent));
    if |starts| <= 1 {
      SectionsFormOneChain(items);
      forall i | 0 <= i < |chain| && GroupStart(chain, parent, i) ensures chain[i] in starts {
        StartsAreGroupStarts(items, parent, i);
      }
      OneStartContiguous(chain, starts, parent);
    } else if Contiguous(chain, parent) {
      SectionsFormOneChain(items);
      StartsDistinct(items, parent);
      assert starts[0] in starts && starts[1] in starts;
      var a :| 0 <= a < |chain| && chain[a] == starts[0];
      var b :| 0 <= b < |chain| && chain[b] == starts[1];
      StartsAreGroupStarts(items, parent, a);
      StartsAreGroupStarts(items, parent, b);
      GroupStartsCoincide(chain, parent, a, b);
    }
  }

  lemma {:induction false} StartsDistinct(items: seq<WorkItem>, parent: Id)
    requires DistinctIds(items)
    ensures DistinctIds(Starts(Children(items, Section, parent)))
  {
    SelectDistinct(items, Canonical);
    SelectDistinct(CanonicalItems(items), (item: WorkItem) => item.kind == Section);
    SelectDistinct(OfKind(items, Section), (item: WorkItem) => item.parent == Some(parent));
    var group := Children(items, Section, parent);
    var ids := Ids(group);
    SelectDistinct(group, (item: WorkItem) => !(Linked(item.predecessor) && item.predecessor.value in ids));
  }

  /** The Sections of each canonical Phase are a contiguous block of the chain. */
  lemma {:induction false} CanonicalPhasesContiguous(items: seq<WorkItem>, phase: WorkItem)
    requires WellFormed(items) && phase in OfKind(items, Phase)
    ensures Contiguous(Chain(items), phase.id)
  {
    ContiguousIffOneStart(items, phase.id);
    assert GroupLinear(items, Section, phase.id);
    ChildrenIndexed(items, Section, phase.id);
    var group := Children(items, Section, phase.id);
    assert LinearGraph(group, ById(items));
    assert group == [] ==> Starts(group) == [];
  }

  // ----- statuses along the chain ------------------------------------------------------------

  /** COMPLETE Sections, then at most one under way or blocked, then NOT_STARTED ones. */
  ghost predicate StatusesInOrder(chain: seq<WorkItem>) {
    exists k :: 0 <= k <= |chain|
      && (forall i :: 0 <= i < k ==> chain[i].status.Complete?)
      && (k < |chain| ==> chain[k].status.InProgress? || chain[k].status.Blocked? || chain[k].status.NotStarted?)
      && (forall i :: k < i < |chain| ==> chain[i].status.NotStarted?)
  }

  lemma {:induction false} CompletePrefix(chain: seq<WorkItem>, k: nat) returns (j: nat)
    requires k <= |chain| && forall i :: 0 <= i < k ==> chain[i].status.Complete?
    ensures k <= j <= |chain| && (forall i :: 0 <= i < j ==> chain[i].status.Complete?) && (j < |chain| ==> !chain[j].status.Complete?)
    decreases |chain| - k
  {
    if k < |chain| && chain[k].status.Complete? { j := CompletePrefix(chain, k + 1); } else { j := k; }
  }

  ghost predicate InTurn(chain: seq<WorkItem>) {
    forall i :: 0 < i < |chain| ==> chain[i - 1].status.Complete? || chain[i].status.NotStarted?
  }

  lemma {:induction false} ChainInTurn(items: seq<WorkItem>)
    requires WellFormed(items)
    ensures InTurn(Chain(items))
  {
    SectionsFormOneChain(items);
    var chain := Chain(items);
    forall i | 0 < i < |chain| ensures chain[i - 1].status.Complete? || chain[i].status.NotStarted? {
      assert chain[i] in chain && chain[i - 1] in chain;
      assert StartedInTurn(chain[i], ById(items));
      ByIdExact(items, chain[i - 1]);
      assert ItemOk(chain[i - 1]);
      assert chain[i - 1].successor == Some(chain[i].id);
    }
  }

  lemma {:induction false} NotStartedFrom(chain: seq<WorkItem>, k: nat, i: nat)
    requires InTurn(chain) && k < i < |chain| && !chain[k].status.Complete?
    ensures chain[i].status.NotStarted?
  {
    if i > k + 1 { NotStartedFrom(chain, k, i - 1); }
  }

  lemma {:induction false} InTurnIsInOrder(chain: seq<WorkItem>)
    requires InTurn(chain) && forall i :: 0 <= i < |chain| ==> !chain[i].status.UnknownStatus?
    ensures StatusesInOrder(chain)
  {
    var k := CompletePrefix(chain, 0);
    forall i | k < i < |chain| ensures chain[i].status.NotStarted? { NotStartedFrom(chain, k, i); }
  }

  lemma {:induction false} SectionStatusesInOrder(items: seq<WorkItem>)
    requires WellFormed(items)
    ensures StatusesInOrder(Chain(items))
  {
    var chain := Chain(items);
    SectionsFormOneChain(items);
    forall i | 0 <= i < |chain| ensures !chain[i].status.UnknownStatus? {
      assert chain[i] in chain;
      assert ItemOk(chain[i]);
    }
    ChainInTurn(items);
    InTurnIsInOrder(chain);
  }

  /** An unfinished Section lies strictly later in the chain than a COMPLETE one. */
  lemma {:induction false} UnfinishedIsLater(items: seq<WorkItem>, i: nat, j: nat)
    requires WellFormed(items) && i < |Chain(items)| && j < |Chain(items)|
    requires Chain(items)[i].status.Complete? && !Chain(items)[j].status.Complete?
    ensures i < j
  {
    ChainInTurn(items);
    if j < i { NotStartedFrom(Chain(items), j, i); }
  }

  lemma {:induction false} ChildOnChain(items: seq<WorkItem>, parent: Id, section: WorkItem)
    requires WellFormed(items)
    ensures section in Children(items, Section, parent) <==> section in Chain(items) && section.parent == Some(parent)
  {
    SectionsFormOneChain(items);
  }

  /** A canonical Phase with Sections is COMPLETE exactly when all of them are, is
      IN_PROGRESS as long as one of them is, and is NOT_STARTED as long as its
      predecessor is not COMPLETE. */
  lemma {:induction false} PhaseFollowsSections(items: seq<WorkItem>, phase: WorkItem, i: nat)
    requires WellFormed(items) && phase in OfKind(items, Phase) && i < |Chain(items)| && Chain(items)[i].parent == Some(phase.id)
    ensures phase.status.Complete? <==>
      forall k :: 0 <= k < |Chain(items)| && Chain(items)[k].parent == Some(phase.id) ==> Chain(items)[k].status.Complete?
    ensures Chain(items)[i].status.InProgress? ==> phase.status.InProgress?
    ensures forall before :: before in items && phase.predecessor == Some(before.id) && !before.status.Complete? ==> phase.status.NotStarted?
  {
    var chain, children := Chain(items), Children(items, Section, phase.id);
    assert PhaseStatusOk(phase, children, ById(items));
    forall section ensures section in children <==> section in chain && section.parent == Some(phase.id) {
      ChildOnChain(items, phase.id, section);
    }
    assert chain[i] in children;
    assert forall k :: 0 <= k < |chain| ==> chain[k] in chain;
    forall before | before in items && phase.predecessor == Some(before.id) && !before.status.Complete?
      ensures phase.status.NotStarted?
    {
      ByIdExact(items, before);
      assert ItemOk(before);
    }
  }

  /** Every Section of a COMPLETE canonical Phase lies before every Section of one
      that is not COMPLETE. */
  lemma {:induction false} CompletePhasesComeFirst(items: seq<WorkItem>, p: WorkItem, q: WorkItem, i: nat, j: nat)
    requires WellFormed(items) && p in OfKind(items, Phase) && q in OfKind(items, Phase)
    requires p.status.Complete? && !q.status.Complete?
    requires i < |Chain(items)| && j < |Chain(items)|
    requires Chain(items)[i].parent == Some(p.id) && Chain(items)[j].parent == Some(q.id)
    ensures i < j
  {
    var k := UnfinishedAfter(items, p, q, i, j);
    CanonicalPhasesContiguous(items, q);
    assert p.id != q.id by { DistinctPhases(items, p, q); }
    OutsideIsBefore(Chain(items), q.id, i, j, k);
  }

  lemma {:induction false} OutsideIsBefore(chain: seq<WorkItem>, parent: Id, i: nat, j: nat, k: nat)
    requires Contiguous(chain, parent) && i < k < |chain| && j < |chain|
    requires chain[j].parent == Some(parent) && chain[k].parent == Some(parent) && chain[i].parent != Some(parent)
    ensures i < j
  {
  }

  lemma {:induction false} UnfinishedAfter(items: seq<WorkItem>, p: WorkItem, q: WorkItem, i: nat, j: nat) returns (k: nat)
    requires WellFormed(items) && p in OfKind(items, Phase) && q in OfKind(items, Phase)
    requires p.status.Complete? && !q.status.Complete?
    requires i < |Chain(items)| && j < |Chain(items)|
    requires Chain(items)[i].parent == Some(p.id) && Chain(items)[j].parent == Some(q.id)
    ensures i < k < |Chain(items)| && Chain(items)[k].parent == Some(q.id)
  {
    assert Chain(items)[i].status.Complete? by { PhaseFollowsSections(items, p, i); }
    PhaseFollowsSections(items, q, j);
    k :| 0 <= k < |Chain(items)| && Chain(items)[k].parent == Some(q.id) && !Chain(items)[k].status.Complete?;
    UnfinishedIsLater(items, i, k);
  }

  lemma {:induction false} DistinctPhases(items: seq<WorkItem>, p: WorkItem, q: WorkItem)
    requires DistinctIds(items) && p in items && q in items && p != q
    ensures p.id != q.id
  {
    var a :| 0 <= a < |items| && items[a] == p;
    var b :| 0 <= b < |items| && items[b] == q;
  }

  // ----- links go both ways ---------------------------------------------------------------------

  /** One item names another as its successor exactly if that one names it as its
      predecessor; both are then canonical and of one kind. A candidate has no
      links at all. */
  lemma {:induction false} LinksAreMutual(items: seq<WorkItem>, a: WorkItem, b: WorkItem)
    requires WellFormed(items) && a in items && b in items
    ensures a.successor == Some(b.id) <==> b.predecessor == Some(a.id)
    ensures a.successor == Some(b.id) ==> a.kind == b.kind && !a.decision.Candidate? && !b.decision.Candidate?
    ensures a.decision.Candidate? ==> a.predecessor == None && a.successor == None
  {
    ByIdExact(items, a);
    ByIdExact(items, b);
    assert ItemOk(a) && ItemOk(b) && LinksOk(a, ById(items)) && LinksOk(b, ById(items));
  }

  // ----- ids say where an item belongs -------------------------------------------------------

  /** The parts of the id of a canonical Section or Increment name its parent, and
      the parent is there and of the right kind. */
  lemma {:induction false} IdsNameParents(items: seq<WorkItem>, item: WorkItem)
    requires WellFormed(items) && item in CanonicalItems(items)
    ensures item.kind == Phase ==> item.id.PhaseId? && item.parent == None
    ensures item.kind == Section ==> item.id.SectionId? && item.parent == Some(PhaseId(item.id.phase))
    ensures item.kind == Section ==> exists p :: p in items && p.id == PhaseId(item.id.phase) && p.kind == Phase
    ensures item.kind == Increment ==> item.id.IncrementId? && item.parent == Some(SectionId(item.id.phase, item.id.section))
    ensures item.kind == Increment ==>
      exists s :: s in items && s.id == SectionId(item.id.phase, item.id.section) && s.kind == Section
  {
    assert item in items && ItemOk(item) && LinksOk(item, ById(items)) && ParentFitsId(item);
    if item.kind == Section || item.kind == Increment {
      assert Linked(item.parent);
      ByIdIn(items, item.parent.value);
    }
  }

  // ----- a candidate Phase is not checked ---------------------------------------------------

  function Plain(id: Id, kind: Kind, decision: Decision, parent: Option<Id>, predecessor: Option<Id>, successor: Option<Id>): WorkItem {
    WorkItem(id, kind, NotStarted, decision, parent, predecessor, successor)
  }

  const P1: Id := PhaseId(1)
  const P2: Id := PhaseId(2)
  const A: Id := SectionId(2, 1)
  const B: Id := SectionId(1, 1)
  const C: Id := SectionId(2, 2)

  /** FE-P2 is only a candidate; its two accepted Sections c and e enclose the one of FE-P1. */
  ghost predicate Split(a: WorkItem, b: WorkItem, c: WorkItem, d: WorkItem, e: WorkItem) {
    && a == Plain(P1, Phase, Accepted, None, None, None)
    && b == Plain(P2, Phase, Candidate, None, None, None)
    && c == Plain(A, Section, Accepted, Some(P2), None, Some(B))
    && d == Plain(B, Section, Accepted, Some(P1), Some(A), Some(C))
    && e == Plain(C, Section, Accepted, Some(P2), Some(B), None)
  }

  lemma {:induction false} SelectSnoc(init: seq<WorkItem>, last: WorkItem, keep: WorkItem -> bool)
    ensures Select(init + [last], keep) == Select(init, keep) + if keep(last) then [last] else []
  {
    assert (init + [last])[..|init|] == init;
  }

  lemma {:induction false} SelectThree(a: WorkItem, b: WorkItem, c: WorkItem, keep: WorkItem -> bool)
    ensures Select([a, b, c], keep) == (if keep(a) then [a] else []) + (if keep(b) then [b] else []) + (if keep(c) then [c] else [])
  {
    SelectSnoc([], a, keep);
    SelectSnoc([a], b, keep);
    SelectSnoc([a, b], c, keep);
    assert [] + [a] == [a] && [a] + [b] == [a, b] && [a, b] + [c] == [a, b, c];
  }

  lemma {:induction false} SelectOne(a: WorkItem, keep: WorkItem -> bool)
    ensures Select([a], keep) == if keep(a) then [a] else []
  {
    SelectSnoc([], a, keep);
    assert [] + [a] == [a];
  }

  lemma {:induction false} SelectFour(a: WorkItem, b: WorkItem, c: WorkItem, d: WorkItem, keep: WorkItem -> bool)
    ensures Select([a, b, c, d], keep) == Select([a, b, c], keep) + if keep(d) then [d] else []
  {
    SelectSnoc([a, b, c], d, keep);
    assert [a, b, c] + [d] == [a, b, c, d];
  }

  lemma {:induction false} SplitKind(items: seq<WorkItem>, a: WorkItem, c: WorkItem, d: WorkItem, e: WorkItem, kind: Kind)
    requires CanonicalItems(items) == [a, c, d, e]
    ensures OfKind(items, kind) ==
      (if a.kind == kind then [a] else []) + (if c.kind == kind then [c] else []) + (if d.kind == kind then [d] else []) + (if e.kind == kind then [e] else [])
  {
    KindOfFour(a, c, d, e, kind);
  }

  lemma {:induction false} SplitParts(items: seq<WorkItem>, a: WorkItem, c: WorkItem, d: WorkItem, e: WorkItem)
    requires CanonicalItems(items) == [a, c, d, e]
    requires a.kind == Phase && c.kind == Section && d.kind == Section && e.kind == Section
    ensures OfKind(items, Phase) == [a] && OfKind(items, Section) == [c, d, e] && OfKind(items, Increment) == []
  {
    SplitKind(items, a, c, d, e, Phase);
    SplitKind(items, a, c, d, e, Section);
    SplitKind(items, a, c, d, e, Increment);
  }

  lemma {:induction false} CanonicalOfFive(a: WorkItem, b: WorkItem, c: WorkItem, d: WorkItem, e: WorkItem)
    requires Canonical(a) && !Canonical(b) && Canonical(c) && Canonical(d) && Canonical(e)
    ensures CanonicalItems([a, b, c, d, e]) == [a, c, d, e]
  {
    SelectThree(a, b, c, Canonical);
    SelectFour(a, b, c, d, Canonical);
    var four := [a, b, c, d];
    SelectSnoc(four, e, Canonical);
    assert four + [e] == [a, b, c, d, e];
  }

  lemma {:induction false} KindOfFour(a: WorkItem, c: WorkItem, d: WorkItem, e: WorkItem, kind: Kind)
    ensures Select([a, c, d, e], (item: WorkItem) => item.kind == kind) ==
      (if a.kind == kind then [a] else []) + (if c.kind == kind then [c] else []) + (if d.kind == kind then [d] else []) + (if e.kind == kind then [e] else [])
  {
    SelectFour(a, c, d, e, (item: WorkItem) => item.kind == kind);
    SelectThree(a, c, d, (item: WorkItem) => item.kind == kind);
  }

  lemma {:induction false} SplitChildren(items: seq<WorkItem>, c: WorkItem, d: WorkItem, e: WorkItem, p: Id)
    requires OfKind(items, Section) == [c, d, e] && OfKind(items, Increment) == []
    requires c.parent != Some(p) && d.parent == Some(p) && e.parent != Some(p)
    ensures Children(items, Section, p) == [d]
    ensures forall q :: Children(items, Increment, q) == []
  {
    SelectThree(c, d, e, (item: WorkItem) => item.parent == Some(p));
  }

  lemma {:induction false} IdsOfThree(c: WorkItem, d: WorkItem, e: WorkItem)
    ensures Ids([c]) == {c.id} && Ids([c, d]) == {c.id, d.id} && Ids([c, d, e]) == {c.id, d.id, e.id}
  {
    IdsSnoc([], c); IdsSnoc([c], d); IdsSnoc([c, d], e);
    assert [] + [c] == [c] && [c] + [d] == [c, d] && [c, d] + [e] == [c, d, e];
  }

  /** A path c, d, e inside an index is a linear graph. */
  lemma {:induction false} PathOfThree(byId: map<Id, WorkItem>, c: WorkItem, d: WorkItem, e: WorkItem)
    requires Indexed(byId) && c.id in byId && d.id in byId && e.id in byId
    requires byId[c.id] == c && byId[d.id] == d && byId[e.id] == e
    requires c.id != d.id && d.id != e.id && c.id != e.id
    requires c.id != OtherId("") && d.id != OtherId("") && e.id != OtherId("")
    requires c.predecessor == None && d.predecessor == Some(c.id) && e.predecessor == Some(d.id)
    requires c.successor == Some(d.id) && d.successor == Some(e.id) && e.successor == None
    ensures Ids([c, d, e]) <= byId.Keys && LinearGraph([c, d, e], byId)
    ensures Starts([c, d, e]) == [c] && Follow(byId, c, {}) == [c, d, e] && Follow(byId, d, {}) == [d, e]
  {
    IdsOfThree(c, d, e);
    assert c in [c, d, e] && d in [c, d, e] && e in [c, d, e];
    var ids := Ids([c, d, e]);
    SelectThree(c, d, e, (item: WorkItem) => !(Linked(item.predecessor) && item.predecessor.value in ids));
    SelectThree(c, d, e, (item: WorkItem) => !(Linked(item.successor) && item.successor.value in ids));
    assert {} + {c.id} == {c.id} && {} + {d.id} == {d.id} && {c.id} + {d.id} == {c.id, d.id};
    assert Follow(byId, e, {c.id, d.id}) == [e] && Follow(byId, e, {d.id}) == [e];
    assert Follow(byId, d, {c.id}) == [d] + [e] && Follow(byId, d, {}) == [d] + [e];
    assert Follow(byId, c, {}) == [c] + ([d] + [e]);
    assert !Cycles(byId, ids, e, {c.id, d.id}) && !Cycles(byId, ids, e, {d.id}) && !Cycles(byId, ids, e, {});
    assert !Cycles(byId, ids, d, {c.id}) && !Cycles(byId, ids, d, {});
    assert !Cycles(byId, ids, c, {});
    assert Follow(byId, c, {}) == [c, d, e];
    forall item | item in [c, d, e] ensures item.id in Ids(Follow(byId, c, {})) {
      assert item.id in Ids([c, d, e]);
    }
  }

  /** A single item whose neighbours, if any, lie outside the graph. */
  lemma {:induction false} SingleItem(byId: map<Id, WorkItem>, d: WorkItem)
    requires Indexed(byId) && d.id in byId && byId[d.id] == d
    requires d.predecessor != Some(d.id) && d.successor != Some(d.id)
    ensures Ids([d]) <= byId.Keys && LinearGraph([d], byId)
  {
    IdsOfThree(d, d, d);
    var ids := Ids([d]);
    SelectOne(d, (item: WorkItem) => !(Linked(item.predecessor) && item.predecessor.value in ids));
    SelectOne(d, (item: WorkItem) => !(Linked(item.successor) && item.successor.value in ids));
    FollowSteps(byId, d, {});
    assert Follow(byId, d, {})[0] in Follow(byId, d, {});
    assert !Cycles(byId, ids, d, {});
  }

  lemma {:induction false} EmptyGroup(items: seq<WorkItem>, p: Id)
    requires Children(items, Increment, p) == []
    ensures GroupLinear(items, Increment, p)
  {
    ChildrenIndexed(items, Increment, p);
    assert Starts([]) == [];
  }

  lemma {:induction false} SplitGroups(items: seq<WorkItem>, a: WorkItem, d: WorkItem)
    requires Children(items, Section, a.id) == [d] && forall q :: Children(items, Increment, q) == []
    requires Ids([d]) <= ById(items).Keys && LinearGraph([d], ById(items))
    ensures GroupLinear(items, Section, a.id) && forall q :: GroupLinear(items, Increment, q)
  {
    forall p ensures GroupLinear(items, Increment, p) { EmptyGroup(items, p); }
  }

  lemma {:induction false} SplitKinds(items: seq<WorkItem>, kind: Kind, graph: seq<WorkItem>)
    requires OfKind(items, kind) == graph && Ids(graph) <= ById(items).Keys && LinearGraph(graph, ById(items))
    ensures KindLinear(items, kind)
  {
  }

  lemma {:induction false} SplitGraphs(items: seq<WorkItem>, a: WorkItem, c: WorkItem, d: WorkItem, e: WorkItem)
    requires OfKind(items, Phase) == [a]
    requires KindLinear(items, Phase) && KindLinear(items, Section)
    requires GroupLinear(items, Section, a.id) && forall q :: GroupLinear(items, Increment, q)
    ensures GraphsLinear(items)
  {
  }

  lemma {:induction false} NoneActive(a: WorkItem, c: WorkItem, d: WorkItem, e: WorkItem)
    requires a.status == NotStarted && c.status == NotStarted && d.status == NotStarted && e.status == NotStarted
    ensures Active([a]) == [] && Active([c, d, e]) == []
  {
    SelectOne(a, (item: WorkItem) => item.status.InProgress?);
    SelectThree(c, d, e, (item: WorkItem) => item.status.InProgress?);
  }

  lemma {:induction false} SplitLinks(byId: map<Id, WorkItem>, a: WorkItem, b: WorkItem, c: WorkItem, d: WorkItem, e: WorkItem)
    requires Split(a, b, c, d, e)
    requires a.id in byId && b.id in byId && c.id in byId && d.id in byId && e.id in byId
    requires byId[a.id] == a && byId[b.id] == b && byId[c.id] == c && byId[d.id] == d && byId[e.id] == e
    ensures LinksOk(a, byId) && LinksOk(b, byId) && LinksOk(c, byId) && LinksOk(d, byId) && LinksOk(e, byId)
    ensures ItemOk(a) && ItemOk(b) && ItemOk(c) && ItemOk(d) && ItemOk(e)
  {
  }

  lemma {:induction false} SplitIndexed(items: seq<WorkItem>, a: WorkItem, b: WorkItem, c: WorkItem, d: WorkItem, e: WorkItem)
    requires Split(a, b, c, d, e) && items == [a, b, c, d, e]
    ensures DistinctIds(items)
    ensures forall x :: x in items ==> x.id in ById(items) && ById(items)[x.id] == x
    ensures a in items && b in items && c in items && d in items && e in items
  {
    assert items[0] in items && items[1] in items && items[2] in items && items[3] in items && items[4] in items;
    forall x | x in items ensures x.id in ById(items) && ById(items)[x.id] == x { ByIdExact(items, x); }
  }

  lemma {:induction false} SplitShape(items: seq<WorkItem>, a: WorkItem, b: WorkItem, c: WorkItem, d: WorkItem, e: WorkItem)
    requires Split(a, b, c, d, e) && items == [a, b, c, d, e]
    ensures CanonicalItems(items) == [a, c, d, e] && OfKind(items, Phase) == [a] && OfKind(items, Section) == [c, d, e]
    ensures Children(items, Section, P1) == [d]
    ensures GraphsLinear(items) && Chain(items) == [c, d, e]
  {
    CanonicalOfFive(a, b, c, d, e);
    SplitParts(items, a, c, d, e);
    SplitChildren(items, c, d, e, P1);
    SplitIndexed(items, a, b, c, d, e);
    PathOfThree(ById(items), c, d, e);
    SingleItem(ById(items), a);
    SingleItem(ById(items), d);
    SplitKinds(items, Phase, [a]);
    SplitKinds(items, Section, [c, d, e]);
    SplitGroups(items, a, d);
    SplitGraphs(items, a, c, d, e);
  }

  lemma {:induction false} SplitItems(items: seq<WorkItem>, a: WorkItem, b: WorkItem, c: WorkItem, d: WorkItem, e: WorkItem)
    requires Split(a, b, c, d, e) && items == [a, b, c, d, e]
    ensures DistinctIds(items) && forall item :: item in items ==> ItemOk(item) && LinksOk(item, ById(items))
  {
    SplitIndexed(items, a, b, c, d, e);
    SplitLinks(ById(items), a, b, c, d, e);
    forall item | item in items ensures ItemOk(item) && LinksOk(item, ById(items)) {
      assert item == a || item == b || item == c || item == d || item == e;
    }
  }

  lemma {:induction false} SplitActive(items: seq<WorkItem>, a: WorkItem, c: WorkItem, d: WorkItem, e: WorkItem)
    requires OfKind(items, Phase) == [a] && OfKind(items, Section) == [c, d, e]
    requires a.status == NotStarted && c.status == NotStarted && d.status == NotStarted && e.status == NotStarted
    ensures |Active(OfKind(items, Section))| <= 1 && |Active(OfKind(items, Phase))| <= 1
  {
    NoneActive(a, c, d, e);
  }

  lemma {:induction false} SplitWellFormed(items: seq<WorkItem>, a: WorkItem, b: WorkItem, c: WorkItem, d: WorkItem, e: WorkItem)
    requires Split(a, b, c, d, e) && items == [a, b, c, d, e]
    ensures WellFormed(items) && Chain(items) == [c, d, e]
  {
    SplitItems(items, a, b, c, d, e);
    SplitShape(items, a, b, c, d, e);
    SplitActive(items, a, c, d, e);
    SplitStatuses(items, a, b, c, d, e);
  }

  lemma {:induction false} SplitStatuses(items: seq<WorkItem>, a: WorkItem, b: WorkItem, c: WorkItem, d: WorkItem, e: WorkItem)
    requires Split(a, b, c, d, e)
    requires CanonicalItems(items) == [a, c, d, e] && OfKind(items, Phase) == [a] && OfKind(items, Section) == [c, d, e]
    requires Children(items, Section, P1) == [d]
    ensures forall item :: item in CanonicalItems(items) ==> ParentFitsId(item)
    ensures forall phase {:trigger phase in OfKind(items, Phase)} :: phase in OfKind(items, Phase) ==> PhaseStatusOk(phase, Children(items, Section, phase.id), ById(items))
    ensures forall section :: section in OfKind(items, Section) ==> StartedInTurn(section, ById(items))
  {
  }

  /** Not every Phase: a registry that passes every check, and yet the two Sections of
      its candidate Phase are not contiguous. */
  lemma {:induction false} CandidatePhaseCanBeSplit()
    ensures exists items: seq<WorkItem>, phase: WorkItem ::
      WellFormed(items) && phase in items && phase.kind.Phase? && phase.decision.Candidate? && !Contiguous(Chain(items), phase.id)
  {
    var a := Plain(P1, Phase, Accepted, None, None, None);
    var b := Plain(P2, Phase, Candidate, None, None, None);
    var c := Plain(A, Section, Accepted, Some(P2), None, Some(B));
    var d := Plain(B, Section, Accepted, Some(P1), Some(A), Some(C));
    var e := Plain(C, Section, Accepted, Some(P2), Some(B), None);
    var items := [a, b, c, d, e];
    SplitWellFormed(items, a, b, c, d, e);
    NotContiguous([c, d, e]);
    assert items[1] in items;
  }

  lemma {:induction false} NotContiguous(chain: seq<WorkItem>)
    requires |chain| == 3 && chain[0].parent == Some(P2) && chain[1].parent == Some(P1) && chain[2].parent == Some(P2)
    ensures !Contiguous(chain, P2)
  {
  }
}
