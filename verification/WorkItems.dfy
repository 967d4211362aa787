/** The frontend work item registry: the checks on its doubly linked graph, and
    what an empty error list says about the registry as a whole. */
module WorkItems {
  import opened Wrappers

  // ----- registry ---------------------------------------------------------------

  /** Ids by the pattern their text fits (`FE-P1`, `FE-P1-S2`, `FE-P1-S2-I03`). */
  datatype Id = PhaseId(phase: nat) | SectionId(phase: nat, section: nat) | IncrementId(phase: nat, section: nat, digits: string) | OtherId(text: string)

  datatype Kind = Phase | Section | Increment | UnknownKind(text: string)

  datatype Status = NotStarted | InProgress | Blocked | Complete | UnknownStatus(text: string)

  datatype Decision = Migrated | Candidate | Accepted

  datatype WorkItem = WorkItem(
    id: Id, kind: Kind, status: Status, decision: Decision,
    parent: Option<Id>, predecessor: Option<Id>, successor: Option<Id>)

  /** A reference that is there and is not the empty string. */
  predicate Linked(r: Option<Id>) { r.Some? && r.value != OtherId("") }

  predicate Canonical(item: WorkItem) { item.decision != Candidate }

  function ById(items: seq<WorkItem>): (m: map<Id, WorkItem>)
    ensures m.Keys == Ids(items)
    ensures forall id :: id in m ==> m[id].id == id
  {
    if items == [] then map[] else
      var last := items[|items| - 1];
      assert items == items[..|items| - 1] + [last];
      ById(items[..|items| - 1])[last.id := last]
  }

  lemma {:induction false} ByIdIn(items: seq<WorkItem>, id: Id)
    requires id in ById(items)
    ensures ById(items)[id] in items
  {
    var init, last := items[..|items| - 1], items[|items| - 1];
    assert items == init + [last];
    if last.id != id { ByIdIn(init, id); }
  }

  function Select(items: seq<WorkItem>, keep: WorkItem -> bool): (r: seq<WorkItem>)
    ensures forall item :: item in r <==> item in items && keep(item)
  {
    if items == [] then []
    else
      var init, last := items[..|items| - 1], items[|items| - 1];
      assert items == init + [last];
      if keep(last) then Select(init, keep) + [last] else Select(init, keep)
  }

  function Ids(items: seq<WorkItem>): (r: set<Id>)
    ensures forall item {:trigger item in items} :: item in items ==> item.id in r
  {
    if items == [] then {}
    else
      var init, last := items[..|items| - 1], items[|items| - 1];
      assert items == init + [last];
      Ids(init) + {last.id}
  }

  lemma {:induction false} IdsHolder(items: seq<WorkItem>, id: Id) returns (item: WorkItem)
    requires id in Ids(items)
    ensures item in items && item.id == id
  {
    var init, last := items[..|items| - 1], items[|items| - 1];
    assert items == init + [last];
    if last.id == id { item := last; } else { item := IdsHolder(init, id); }
  }

  lemma {:induction false} IdsSnoc(items: seq<WorkItem>, item: WorkItem)
    ensures Ids(items + [item]) == Ids(items) + {item.id}
  {
    assert (items + [item])[..|items|] == items;
  }

  ghost predicate DistinctIds(items: seq<WorkItem>) {
    forall i, j :: 0 <= i < j < |items| ==> items[i].id != items[j].id
  }

  lemma {:induction false} DistinctSnoc(items: seq<WorkItem>, i: nat)
    requires i < |items|
    ensures DistinctIds(items[..i + 1]) <==> DistinctIds(items[..i]) && items[i].id !in Ids(items[..i])
  {
    var a, b := items[..i], items[..i + 1];
    assert forall k :: 0 <= k < i ==> b[k] == a[k];
    if items[i].id in Ids(a) {
      var item := IdsHolder(a, items[i].id);
      var k :| 0 <= k < i && a[k] == item;
      assert b[k].id == b[i].id;
    } else {
      assert forall k :: 0 <= k < i ==> a[k] in a;
    }
  }

  // ----- checks on single items and their links -------------------------------------

  predicate IdFits(item: WorkItem) {
    match item.kind
    case Phase => item.id.PhaseId? && 1 <= item.id.phase <= 5
    case Section => item.id.SectionId? && 1 <= item.id.phase <= 5 && item.id.section >= 1
    case _ => item.id.IncrementId? && 1 <= item.id.phase <= 5 && item.id.section >= 1
  }

  predicate ItemOk(item: WorkItem) {
    && !item.kind.UnknownKind? && !item.status.UnknownStatus? && IdFits(item)
    && (item.decision.Candidate? ==> item.status.NotStarted?)
  }

  function KindAt(byId: map<Id, WorkItem>, r: Option<Id>): Option<Kind> {
    if Linked(r) && r.value in byId then Some(byId[r.value].kind) else None
  }

  predicate LinksOk(item: WorkItem, byId: map<Id, WorkItem>) {
    && (Linked(item.parent) ==> item.parent.value in byId)
    && (item.kind.Phase? ==> item.parent.None?)
    && (item.kind.Section? ==> KindAt(byId, item.parent) == Some(Phase))
    && (item.kind.Increment? ==> KindAt(byId, item.parent) == Some(Section))
    && (Linked(item.predecessor) ==> item.predecessor.value in byId)
    && (Linked(item.successor) ==> item.successor.value in byId)
    && (Linked(item.predecessor) && item.predecessor.value in byId ==>
          byId[item.predecessor.value].successor == Some(item.id) && !byId[item.predecessor.value].decision.Candidate?)
    && (Linked(item.successor) && item.successor.value in byId ==>
          var next := byId[item.successor.value];
          next.kind == item.kind && !next.decision.Candidate? && next.predecessor == Some(item.id))
    && (item.decision.Candidate? ==> item.predecessor.None? && item.successor.None?)
  }

  // ----- linear graphs ------------------------------------------------------------------

  function Starts(graph: seq<WorkItem>): seq<WorkItem> {
    var ids := Ids(graph);
    Select(graph, (item: WorkItem) => !(Linked(item.predecessor) && item.predecessor.value in ids))
  }

  function Ends(graph: seq<WorkItem>): seq<WorkItem> {
    var ids := Ids(graph);
    Select(graph, (item: WorkItem) => !(Linked(item.successor) && item.successor.value in ids))
  }

  ghost predicate Indexed(byId: map<Id, WorkItem>) { forall id :: id in byId ==> byId[id].id == id }

  /** The items met by following successors from `current`, up to the first repeat. */
  function Follow(byId: map<Id, WorkItem>, current: WorkItem, seen: set<Id>): seq<WorkItem>
    requires Indexed(byId) && current.id in byId
    decreases |byId.Keys - seen|
  {
    if current.id in seen then []
    else if Linked(current.successor) && current.successor.value in byId then
      assert byId.Keys - (seen + {current.id}) < byId.Keys - seen by {
        assert current.id in byId.Keys - seen;
      }
      SmallerSet(byId.Keys - (seen + {current.id}), byId.Keys - seen);
      [current] + Follow(byId, byId[current.successor.value], seen + {current.id})
    else [current]
  }

  lemma {:induction false} SmallerSet<T>(a: set<T>, b: set<T>)
    requires a < b
    ensures |a| < |b|
  {
    assert b == a + (b - a);
    assert b - a != {};
  }

  /** Whether the walk inside `ids` comes back to a visited item. */
  function Cycles(byId: map<Id, WorkItem>, ids: set<Id>, current: WorkItem, seen: set<Id>): bool
    requires Indexed(byId) && ids <= byId.Keys && current.id in ids
    decreases |ids - seen|
  {
    if !Linked(current.successor) then false
    else if current.id in seen then true
    else if current.successor.value !in ids then false
    else
      assert ids - (seen + {current.id}) < ids - seen by {
        assert current.id in ids - seen;
      }
      SmallerSet(ids - (seen + {current.id}), ids - seen);
      Cycles(byId, ids, byId[current.successor.value], seen + {current.id})
  }

  /** Items joined by successors that stay inside `ids`. */
  ghost predicate GroupPath(byId: map<Id, WorkItem>, ids: set<Id>, path: seq<WorkItem>)
    requires ids <= byId.Keys
  {
    |path| < 2 ||
    (Linked(path[0].successor) && path[0].successor.value in ids && path[1] == byId[path[0].successor.value] &&
     GroupPath(byId, ids, path[1..]))
  }

  /** The path ends at an item that it, or `seen`, met before and that has a
      successor. */
  ghost predicate Returns(path: seq<WorkItem>, seen: set<Id>) {
    path != [] &&
    var n := |path| - 1;
    Linked(path[n].successor) && (path[n].id in seen || path[n].id in Ids(path[..n]))
  }

  /** The group's successor path from this item comes back to an item. */
  ghost predicate Revisits(byId: map<Id, WorkItem>, ids: set<Id>, start: WorkItem)
    requires ids <= byId.Keys
  {
    exists path: seq<WorkItem> :: Returns(path, {}) && path[0] == start && GroupPath(byId, ids, path)
  }

  lemma {:induction false} IdsPrepend(item: WorkItem, items: seq<WorkItem>)
    ensures Ids([item] + items) == {item.id} + Ids(items)
  {
    if items == [] {
      assert [item] + items == [item];
      assert [item][..0] == [];
    } else {
      var n := |items| - 1;
      assert ([item] + items)[..n + 1] == [item] + items[..n];
      IdsPrepend(item, items[..n]);
    }
  }

  lemma {:induction false} CyclesHavePath(byId: map<Id, WorkItem>, ids: set<Id>, current: WorkItem, seen: set<Id>) returns (path: seq<WorkItem>)
    requires Indexed(byId) && ids <= byId.Keys && current.id in ids && Cycles(byId, ids, current, seen)
    ensures Returns(path, seen) && path[0] == current && GroupPath(byId, ids, path)
    decreases |ids - seen|
  {
    if current.id in seen {
      path := [current];
    } else {
      assert current.id in ids - seen;
      SmallerSet(ids - (seen + {current.id}), ids - seen);
      var rest := CyclesHavePath(byId, ids, byId[current.successor.value], seen + {current.id});
      path := [current] + rest;
      assert path[1..] == rest;
      IdsPrepend(current, rest[..|rest| - 1]);
      assert path[..|path| - 1] == [current] + rest[..|rest| - 1];
    }
  }

  lemma {:induction false} PathCycles(byId: map<Id, WorkItem>, ids: set<Id>, path: seq<WorkItem>, seen: set<Id>)
    requires Indexed(byId) && ids <= byId.Keys && path != [] && path[0].id in ids
    requires Returns(path, seen) && GroupPath(byId, ids, path)
    ensures Cycles(byId, ids, path[0], seen)
    decreases |path|
  {
    if |path| > 1 {
      var current, rest := path[0], path[1..];
      if current.id !in seen {
        IdsPrepend(current, rest[..|rest| - 1]);
        assert path[..|path| - 1] == [current] + rest[..|rest| - 1];
        PathCycles(byId, ids, rest, seen + {current.id});
      }
    }
  }

  /** What the cycle walk answers: whether the group's successor path revisits an
      item. */
  lemma {:induction false} CyclesIffRevisits(byId: map<Id, WorkItem>, ids: set<Id>, start: WorkItem)
    requires Indexed(byId) && ids <= byId.Keys && start.id in ids
    ensures Cycles(byId, ids, start, {}) <==> Revisits(byId, ids, start)
  {
    if Cycles(byId, ids, start, {}) {
      var path := CyclesHavePath(byId, ids, start, {});
    }
    if Revisits(byId, ids, start) {
      var path: seq<WorkItem> :| Returns(path, {}) && path[0] == start && GroupPath(byId, ids, path);
      PathCycles(byId, ids, path, {});
    }
  }

  ghost predicate LinearGraph(graph: seq<WorkItem>, byId: map<Id, WorkItem>)
    requires Indexed(byId) && Ids(graph) <= byId.Keys
  {
    && (graph != [] ==> |Starts(graph)| == 1 && |Ends(graph)| == 1)
    && (forall item :: item in graph ==> !Cycles(byId, Ids(graph), item, {}))
    && (|Starts(graph)| == 1 ==>
          assert Starts(graph)[0] in Starts(graph) && Starts(graph)[0] in graph;
          forall item {:trigger item in graph} :: item in graph ==> item.id in Ids(Follow(byId, Starts(graph)[0], {})))
  }

  method Reached(byId: map<Id, WorkItem>, start: WorkItem) returns (reached: set<Id>)
    requires Indexed(byId) && start.id in byId
    ensures reached == Ids(Follow(byId, start, {}))
  {
    reached := {};
    var current, going := start, true;
    ghost var walked: seq<WorkItem> := [];
    while going && current.id !in reached
      invariant current.id in byId
      invariant Ids(walked) == reached
      invariant Follow(byId, start, {}) == walked + if going then Follow(byId, current, reached) else []
      decreases going, |byId.Keys - reached|
    {
      IdsSnoc(walked, current);
      FollowSnoc(byId, walked, current, reached);
      SmallerSet(byId.Keys - (reached + {current.id}), byId.Keys - reached);
      walked := walked + [current];
      reached := reached + {current.id};
      if Linked(current.successor) && current.successor.value in byId {
        current := byId[current.successor.value];
      } else {
        going := false;
      }
    }
    assert walked + [] == walked;
  }

  lemma {:induction false} FollowSnoc(byId: map<Id, WorkItem>, walked: seq<WorkItem>, current: WorkItem, seen: set<Id>)
    requires Indexed(byId) && current.id in byId && current.id !in seen
    ensures current.id in byId.Keys - seen
    ensures byId.Keys - (seen + {current.id}) < byId.Keys - seen
    ensures walked + Follow(byId, current, seen) == (walked + [current]) +
      if Linked(current.successor) && current.successor.value in byId then Follow(byId, byId[current.successor.value], seen + {current.id}) else []
  {
    assert current.id in byId.Keys - seen;
  }

  method HasCycle(byId: map<Id, WorkItem>, ids: set<Id>, start: WorkItem) returns (cycle: bool)
    requires Indexed(byId) && ids <= byId.Keys && start.id in ids
    ensures cycle == Cycles(byId, ids, start, {})
    ensures cycle <==> Revisits(byId, ids, start)
  {
    CyclesIffRevisits(byId, ids, start);
    var visited, current := {}, start;
    while Linked(current.successor)
      invariant current.id in ids && visited <= ids
      invariant Cycles(byId, ids, start, {}) == Cycles(byId, ids, current, visited)
      decreases |ids - visited|
    {
      if current.id in visited { return true; }
      SmallerSet(ids - (visited + {current.id}), ids - visited);
      var before := visited;
      visited := visited + {current.id};
      if current.successor.value !in ids { return false; }
      current := byId[current.successor.value];
    }
    return false;
  }

  datatype Issue =
    | DuplicateId(id: Id) | ItemIssue(id: Id) | LinkIssue(id: Id)
    | StartCount(n: nat) | EndCount(n: nat) | Cycle(id: Id) | Unreachable(id: Id)
    | WrongParent(id: Id) | ManyActive(kind: Kind) | PhaseStatus(id: Id) | StartedEarly(id: Id)

  method ValidateLinearGraph(graph: seq<WorkItem>, byId: map<Id, WorkItem>) returns (errors: seq<Issue>)
    requires Indexed(byId) && Ids(graph) <= byId.Keys
    ensures errors == [] <==> LinearGraph(graph, byId)
  {
    var ids, starts, ends := Ids(graph), Starts(graph), Ends(graph);
    errors := if |graph| > 0 && |starts| != 1 then [StartCount(|starts|)] else [];
    errors := errors + if |graph| > 0 && |ends| != 1 then [EndCount(|ends|)] else [];
    var cycles := CheckCycles(graph, byId);
    var unreachable: seq<Issue> := [];
    assert |starts| == 1 ==> starts[0] in starts && starts[0] in graph;
    if |starts| == 1 { unreachable := CheckReached(graph, byId, starts[0]); }
    errors := errors + cycles + unreachable;
  }

  method CheckCycles(graph: seq<WorkItem>, byId: map<Id, WorkItem>) returns (errors: seq<Issue>)
    requires Indexed(byId) && Ids(graph) <= byId.Keys
    ensures errors == [] <==> forall item :: item in graph ==> !Cycles(byId, Ids(graph), item, {})
  {
    errors := [];
    assert forall k :: 0 <= k < |graph| ==> graph[k] in graph;
    for i := 0 to |graph|
      invariant errors == [] <==> forall k :: 0 <= k < i ==> !Cycles(byId, Ids(graph), graph[k], {})
    {
      var cycle := HasCycle(byId, Ids(graph), graph[i]);
      if cycle { errors := errors + [Cycle(graph[i].id)]; }
    }
  }

  method CheckReached(graph: seq<WorkItem>, byId: map<Id, WorkItem>, start: WorkItem) returns (errors: seq<Issue>)
    requires Indexed(byId) && start.id in byId
    ensures errors == [] <==> forall item {:trigger item in graph} :: item in graph ==> item.id in Ids(Follow(byId, start, {}))
  {
    errors := [];
    var reached := Reached(byId, start);
    for i := 0 to |graph|
      invariant errors == [] <==> forall k :: 0 <= k < i ==> graph[k].id in reached
    {
      if graph[i].id !in reached { errors := errors + [Unreachable(graph[i].id)]; }
    }
    assert forall k :: 0 <= k < |graph| ==> graph[k] in graph;
  }

  // ----- status rules ---------------------------------------------------------------------

  function CanonicalItems(items: seq<WorkItem>): seq<WorkItem> { Select(items, Canonical) }

  function OfKind(items: seq<WorkItem>, kind: Kind): seq<WorkItem> {
    Select(CanonicalItems(items), (item: WorkItem) => item.kind == kind)
  }

  function Children(items: seq<WorkItem>, kind: Kind, parent: Id): seq<WorkItem> {
    Select(OfKind(items, kind), (item: WorkItem) => item.parent == Some(parent))
  }

  predicate ParentFitsId(item: WorkItem) {
    match item.id
    case SectionId(p, _) => item.kind.Section? && 1 <= p <= 5 ==> item.parent == Some(PhaseId(p))
    case IncrementId(p, s, _) => item.kind.Increment? && 1 <= p <= 5 && s >= 1 ==> item.parent == Some(SectionId(p, s))
    case _ => true
  }

  function Active(items: seq<WorkItem>): seq<WorkItem> { Select(items, (item: WorkItem) => item.status.InProgress?) }

  predicate StartedInTurn(item: WorkItem, byId: map<Id, WorkItem>) {
    Linked(item.predecessor) && item.predecessor.value in byId && !byId[item.predecessor.value].status.Complete? ==> item.status.NotStarted?
  }

  predicate PhaseStatusOk(phase: WorkItem, children: seq<WorkItem>, byId: map<Id, WorkItem>) {
    children == [] ||
    (var all := forall child :: child in children ==> child.status.Complete?;
     && (all <==> phase.status.Complete?)
     && ((exists child :: child in children && child.status.InProgress?) ==> phase.status.InProgress?)
     && StartedInTurn(phase, byId))
  }

  /** The graph and status checks of the registry, as one condition. */
  ghost predicate WellFormed(items: seq<WorkItem>) {
    var byId := ById(items);
    && DistinctIds(items)
    && (forall item :: item in items ==> ItemOk(item) && LinksOk(item, byId))
    && GraphsLinear(items)
    && (forall item :: item in CanonicalItems(items) ==> ParentFitsId(item))
    && |Active(OfKind(items, Section))| <= 1 && |Active(OfKind(items, Phase))| <= 1
    && (forall phase {:trigger phase in OfKind(items, Phase)} :: phase in OfKind(items, Phase) ==> PhaseStatusOk(phase, Children(items, Section, phase.id), byId))
    && (forall section :: section in OfKind(items, Section) ==> StartedInTurn(section, byId))
  }

  ghost predicate GraphsLinear(items: seq<WorkItem>) {
    && KindLinear(items, Phase)
    && KindLinear(items, Section)
    && (forall phase {:trigger phase in OfKind(items, Phase)} :: phase in OfKind(items, Phase) ==> GroupLinear(items, Section, phase.id))
    && (forall section {:trigger section in OfKind(items, Section)} :: section in OfKind(items, Section) ==> GroupLinear(items, Increment, section.id))
  }

  ghost predicate KindLinear(items: seq<WorkItem>, kind: Kind) {
    ChildrenIndexed(items, kind, OtherId(""));
    LinearGraph(OfKind(items, kind), ById(items))
  }

  ghost predicate GroupLinear(items: seq<WorkItem>, kind: Kind, parent: Id) {
    ChildrenIndexed(items, kind, parent);
    LinearGraph(Children(items, kind, parent), ById(items))
  }

  lemma {:induction false} ByIdSnoc(items: seq<WorkItem>, i: nat)
    requires i < |items|
    ensures ById(items[..i + 1]) == ById(items[..i])[items[i].id := items[i]]
  {
    assert items[..i + 1][..i] == items[..i];
  }

  method IndexItems(items: seq<WorkItem>) returns (byId: map<Id, WorkItem>, duplicates: seq<Issue>)
    ensures byId == ById(items)
    ensures duplicates == [] <==> DistinctIds(items)
  {
    byId, duplicates := map[], [];
    for i := 0 to |items|
      invariant byId == ById(items[..i])
      invariant duplicates == [] <==> DistinctIds(items[..i])
    {
      var item := items[i];
      DistinctSnoc(items, i);
      ByIdSnoc(items, i);
      if item.id in byId { duplicates := duplicates + [DuplicateId(item.id)]; }
      byId := byId[item.id := item];
    }
    assert items[..|items|] == items;
  }

  method CheckItems(items: seq<WorkItem>) returns (errors: seq<Issue>)
    ensures errors == [] <==> forall item :: item in items ==> ItemOk(item)
  {
    errors := [];
    for i := 0 to |items|
      invariant errors == [] <==> forall k :: 0 <= k < i ==> ItemOk(items[k])
    {
      if !ItemOk(items[i]) { errors := errors + [ItemIssue(items[i].id)]; }
    }
  }

  lemma {:induction false} ChildrenIndexed(items: seq<WorkItem>, kind: Kind, parent: Id)
    ensures Ids(Children(items, kind, parent)) <= ById(items).Keys
    ensures Ids(OfKind(items, kind)) <= ById(items).Keys
  {
    forall id | id in Ids(Children(items, kind, parent)) ensures id in ById(items) {
      var item := IdsHolder(Children(items, kind, parent), id);
    }
    forall id | id in Ids(OfKind(items, kind)) ensures id in ById(items) {
      var item := IdsHolder(OfKind(items, kind), id);
    }
  }

  method CheckGroup(items: seq<WorkItem>, byId: map<Id, WorkItem>, parent: Id, kind: Kind) returns (errors: seq<Issue>)
    requires byId == ById(items)
    ensures errors == [] <==> GroupLinear(items, kind, parent)
  {
    ChildrenIndexed(items, kind, parent);
    errors := ValidateLinearGraph(Children(items, kind, parent), byId);
  }

  method CheckGroups(items: seq<WorkItem>, byId: map<Id, WorkItem>, parents: seq<WorkItem>, kind: Kind) returns (errors: seq<Issue>)
    requires byId == ById(items)
    ensures errors == [] <==> forall p :: p in parents ==> GroupLinear(items, kind, p.id)
  {
    errors := [];
    for i := 0 to |parents|
      invariant errors == [] <==> forall k :: 0 <= k < i ==> GroupLinear(items, kind, parents[k].id)
    {
      var found := CheckGroup(items, byId, parents[i].id, kind);
      if found != [] { errors := errors + found; }
    }
  }

  method CheckLinks(items: seq<WorkItem>, byId: map<Id, WorkItem>) returns (errors: seq<Issue>)
    ensures errors == [] <==> forall item :: item in items ==> LinksOk(item, byId)
  {
    errors := [];
    for i := 0 to |items|
      invariant errors == [] <==> forall k :: 0 <= k < i ==> LinksOk(items[k], byId)
    {
      if !LinksOk(items[i], byId) { errors := errors + [LinkIssue(items[i].id)]; }
    }
  }

  method CheckGraphs(items: seq<WorkItem>, byId: map<Id, WorkItem>) returns (errors: seq<Issue>)
    requires byId == ById(items)
    ensures errors == [] <==> GraphsLinear(items)
  {
    var phases, sections := OfKind(items, Phase), OfKind(items, Section);
    ChildrenIndexed(items, Phase, OtherId(""));
    ChildrenIndexed(items, Section, OtherId(""));
    var phaseGraph := ValidateLinearGraph(phases, byId);
    var sectionGraph := ValidateLinearGraph(sections, byId);
    var phaseGroups := CheckGroups(items, byId, phases, Section);
    var sectionGroups := CheckGroups(items, byId, sections, Increment);
    errors := phaseGraph + sectionGraph + phaseGroups + sectionGroups;
  }

  method CheckParents(canonical: seq<WorkItem>) returns (errors: seq<Issue>)
    ensures errors == [] <==> forall item :: item in canonical ==> ParentFitsId(item)
  {
    errors := [];
    for i := 0 to |canonical|
      invariant errors == [] <==> forall k :: 0 <= k < i ==> ParentFitsId(canonical[k])
    {
      if !ParentFitsId(canonical[i]) { errors := errors + [WrongParent(canonical[i].id)]; }
    }
  }

  method CheckPhases(items: seq<WorkItem>, phases: seq<WorkItem>, byId: map<Id, WorkItem>) returns (errors: seq<Issue>)
    ensures errors == [] <==> forall phase {:trigger phase in phases} :: phase in phases ==> PhaseStatusOk(phase, Children(items, Section, phase.id), byId)
  {
    errors := [];
    for i := 0 to |phases|
      invariant errors == [] <==> forall k :: 0 <= k < i ==> PhaseStatusOk(phases[k], Children(items, Section, phases[k].id), byId)
    {
      if !PhaseStatusOk(phases[i], Children(items, Section, phases[i].id), byId) { errors := errors + [PhaseStatus(phases[i].id)]; }
    }
    assert forall k :: 0 <= k < |phases| ==> phases[k] in phases;
  }

  method CheckTurns(sections: seq<WorkItem>, byId: map<Id, WorkItem>) returns (errors: seq<Issue>)
    ensures errors == [] <==> forall section :: section in sections ==> StartedInTurn(section, byId)
  {
    errors := [];
    for i := 0 to |sections|
      invariant errors == [] <==> forall k :: 0 <= k < i ==> StartedInTurn(sections[k], byId)
    {
      if !StartedInTurn(sections[i], byId) { errors := errors + [StartedEarly(sections[i].id)]; }
    }
  }

  /** The checks of `collectWorkItemErrors` on the graph and the statuses. Its checks
      on documents, contracts and approval texts can only add errors. */
  method CollectWorkItemErrors(items: seq<WorkItem>) returns (errors: seq<Issue>)
    ensures errors == [] <==> WellFormed(items)
  {
    var byId, first := IndexItems(items);
    var single := CheckItems(items);
    var links := CheckLinks(items, byId);
    var graphs := CheckGraphs(items, byId);
    var parents := CheckParents(CanonicalItems(items));
    var phases, sections := OfKind(items, Phase), OfKind(items, Section);
    var active: seq<Issue> := if |Active(sections)| > 1 then [ManyActive(Section)] else [];
    active := active + if |Active(phases)| > 1 then [ManyActive(Phase)] else [];
    var statuses := CheckPhases(items, phases, byId);
    var turns := CheckTurns(sections, byId);
    errors := first + single + links + graphs + parents + active + statuses + turns;
  }
}
