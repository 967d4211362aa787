/** Completion manifests: what a COMPLETE Section may leave unpassed, and who
    then owns it. */
module CompletionScope {
  import opened Wrappers
  import opened WorkItems
  import opened WorkItemShape

  /** `documented`: the decision document exists and, where it can be read, is
      approved with the amendment's own approver and date. */
  datatype Amendment = Amendment(id: string, approved: bool, signed: bool, documented: bool, affectedCriteria: seq<string>, newOwner: Id)

  datatype Criterion = Criterion(id: string, mandatory: bool, passed: bool, scopeAmendment: Option<string>)

  datatype Manifest = Manifest(amendments: seq<Amendment>, criteria: seq<Criterion>)

  datatype Issue = DuplicateAmendment(id: string) | Undocumented(id: string) | UnknownCriterion(id: string) | BadOwner(id: string) | BadReference(id: string) | Unpassed(id: string)

  predicate Refers(c: Criterion) { c.scopeAmendment.Some? && c.scopeAmendment.value != "" }

  ghost predicate Repeated(amendments: seq<Amendment>, id: string) {
    exists i, j :: 0 <= i < j < |amendments| && amendments[i].id == id && amendments[j].id == id
  }

  ghost predicate Authoritative(amendments: seq<Amendment>, a: Amendment) {
    a.approved && a.signed && a.documented && !Repeated(amendments, a.id)
  }

  predicate OwnerOk(a: Amendment, self: Id, canonical: map<Id, WorkItem>) {
    a.newOwner in canonical && a.newOwner != self && !canonical[a.newOwner].status.Complete?
  }

  ghost predicate ReferenceOk(manifest: Manifest, c: Criterion) {
    c.scopeAmendment.Some? && c.scopeAmendment != Some("") ==> exists a :: a in manifest.amendments && a.id == c.scopeAmendment.value && Authoritative(manifest.amendments, a) && c.id in a.affectedCriteria
  }

  ghost predicate ManifestOk(item: WorkItem, manifest: Manifest, canonical: map<Id, WorkItem>) {
    && (forall a :: a in manifest.amendments ==>
          && !Repeated(manifest.amendments, a.id)
          && (a.approved ==> a.signed && a.documented)
          && (forall id :: id in a.affectedCriteria ==> exists c :: c in manifest.criteria && c.id == id)
          && a.newOwner in canonical && a.newOwner != item.id && !canonical[a.newOwner].status.Complete?)
    && (forall c :: c in manifest.criteria ==> ReferenceOk(manifest, c))
    && (forall c :: c in manifest.criteria && item.status.Complete? && c.mandatory && !c.passed ==> c.scopeAmendment.Some? && c.scopeAmendment != Some(""))
  }

  function IdsOf(criteria: seq<Criterion>): set<string> { set c | c in criteria :: c.id }

  /** The first pass: each id once, the amendment first met under it, and the ids met again. */
  method IndexAmendments(amendments: seq<Amendment>) returns (byId: map<string, Amendment>, repeated: set<string>)
    ensures forall id :: id in repeated <==> Repeated(amendments, id)
    ensures forall a :: a in amendments ==> a.id in byId
    ensures forall id :: id in byId ==> byId[id] in amendments && byId[id].id == id
  {
    byId, repeated := map[], {};
    ghost var first: map<string, nat> := map[];
    for i := 0 to |amendments|
      invariant first.Keys == byId.Keys
      invariant forall k :: 0 <= k < i ==> amendments[k].id in byId
      invariant forall id :: id in byId ==> first[id] < i && amendments[first[id]] == byId[id] && byId[id].id == id
      invariant forall id :: id in repeated ==> Repeated(amendments, id)
      invariant forall k :: 0 <= k < i ==> amendments[k].id in repeated || first[amendments[k].id] == k
    {
      var a := amendments[i];
      if a.id in byId {
        assert amendments[first[a.id]].id == amendments[i].id;
        repeated := repeated + {a.id};
      } else {
        byId, first := byId[a.id := a], first[a.id := i];
      }
    }
  }

  lemma {:induction false} UniqueAmendment(amendments: seq<Amendment>, a: Amendment, b: Amendment)
    requires a in amendments && b in amendments && a.id == b.id && !Repeated(amendments, a.id)
    ensures a == b
  {
    var i :| 0 <= i < |amendments| && amendments[i] == a;
    var j :| 0 <= j < |amendments| && amendments[j] == b;
  }

  method CheckAmendments(item: WorkItem, manifest: Manifest, canonical: map<Id, WorkItem>, repeated: set<string>)
    returns (errors: seq<Issue>, approved: set<string>)
    requires forall id :: id in repeated <==> Repeated(manifest.amendments, id)
    ensures errors == [] <==> forall a :: a in manifest.amendments ==>
      && (a.approved ==> a.signed && a.documented)
      && (forall id :: id in a.affectedCriteria ==> id in IdsOf(manifest.criteria))
      && OwnerOk(a, item.id, canonical)
    ensures forall a :: a in manifest.amendments && Authoritative(manifest.amendments, a) ==> a.id in approved
    ensures forall id :: id in approved ==> exists a :: a in manifest.amendments && a.id == id && Authoritative(manifest.amendments, a)
  {
    errors, approved := [], {};
    var amendments, known := manifest.amendments, IdsOf(manifest.criteria);
    for i := 0 to |amendments|
      invariant errors == [] <==> forall k :: 0 <= k < i ==>
        && (amendments[k].approved ==> amendments[k].signed && amendments[k].documented)
        && (forall id :: id in amendments[k].affectedCriteria ==> id in known)
        && OwnerOk(amendments[k], item.id, canonical)
      invariant forall k :: 0 <= k < i && Authoritative(amendments, amendments[k]) ==> amendments[k].id in approved
      invariant forall id :: id in approved ==> exists a :: a in amendments && a.id == id && Authoritative(amendments, a)
    {
      var a := amendments[i];
      if a.approved && a.signed && a.documented && a.id !in repeated {
        assert a in amendments && Authoritative(amendments, a);
        approved := approved + {a.id};
      }
      if a.approved && !(a.signed && a.documented) { errors := errors + [Undocumented(a.id)]; }
      if !(forall id :: id in a.affectedCriteria ==> id in known) { errors := errors + [UnknownCriterion(a.id)]; }
      if !OwnerOk(a, item.id, canonical) { errors := errors + [BadOwner(a.id)]; }
    }
  }

  lemma {:induction false} ReferenceMeans(manifest: Manifest, byId: map<string, Amendment>, approved: set<string>, c: Criterion)
    requires forall a :: a in manifest.amendments ==> a.id in byId
    requires forall id :: id in byId ==> byId[id] in manifest.amendments && byId[id].id == id
    requires forall id :: id in approved <==> exists a :: a in manifest.amendments && a.id == id && Authoritative(manifest.amendments, a)
    ensures Refers(c) ==> var r := c.scopeAmendment.value;
      ReferenceOk(manifest, c) <==> r in byId && r in approved && c.id in byId[r].affectedCriteria
  {
    if Refers(c) {
      var r := c.scopeAmendment.value;
      forall a | a in manifest.amendments && a.id == r && Authoritative(manifest.amendments, a) ensures a == byId[r] {
        UniqueAmendment(manifest.amendments, a, byId[r]);
      }
    }
  }

  method CheckCriteria(item: WorkItem, manifest: Manifest, byId: map<string, Amendment>, repeated: set<string>, approved: set<string>)
    returns (errors: seq<Issue>)
    requires forall a :: a in manifest.amendments ==> a.id in byId
    requires forall id :: id in byId ==> byId[id] in manifest.amendments && byId[id].id == id
    requires forall id :: id in approved <==> exists a :: a in manifest.amendments && a.id == id && Authoritative(manifest.amendments, a)
    ensures errors == [] <==>
      && (forall c :: c in manifest.criteria ==> ReferenceOk(manifest, c))
      && (forall c :: c in manifest.criteria && item.status.Complete? && c.mandatory && !c.passed ==> Refers(c))
  {
    errors := [];
    var criteria := manifest.criteria;
    for i := 0 to |criteria|
      invariant errors == [] <==> forall k :: 0 <= k < i ==>
        ReferenceOk(manifest, criteria[k]) && (item.status.Complete? && criteria[k].mandatory && !criteria[k].passed ==> Refers(criteria[k]))
    {
      var c := criteria[i];
      ReferenceMeans(manifest, byId, approved, c);
      if Refers(c) {
        var r := c.scopeAmendment.value;
        if r !in byId || r !in approved || c.id !in byId[r].affectedCriteria {
          errors := errors + [BadReference(c.id)];
        }
      }
      if item.status.Complete? && c.mandatory && !c.passed && (!Refers(c) || c.scopeAmendment.value !in approved) {
        errors := errors + [Unpassed(c.id)];
      }
    }
  }

  /** The amendment and criterion checks of `collectCompletionInvariantErrors` for one
      Section with a manifest; its other checks can only add errors. */
  method CollectManifestErrors(item: WorkItem, manifest: Manifest, canonical: map<Id, WorkItem>) returns (errors: seq<Issue>)
    ensures errors == [] <==> ManifestOk(item, manifest, canonical)
  {
    var byId, repeated := IndexAmendments(manifest.amendments);
    var again: seq<Issue> := [];
    for i := 0 to |manifest.amendments|
      invariant again == [] <==> forall k :: 0 <= k < i ==> manifest.amendments[k].id !in repeated
    {
      if manifest.amendments[i].id in repeated { again := again + [DuplicateAmendment(manifest.amendments[i].id)]; }
    }
    var first, approved := CheckAmendments(item, manifest, canonical, repeated);
    var second := CheckCriteria(item, manifest, byId, repeated, approved);
    errors := again + first + second;
  }

  ghost predicate LaterInChain(items: seq<WorkItem>, earlier: WorkItem, later: WorkItem) {
    exists i, j :: 0 <= i < j < |Chain(items)| && Chain(items)[i] == earlier && Chain(items)[j] == later
  }

  lemma {:induction false} CompleteIsCanonical(items: seq<WorkItem>, item: WorkItem)
    requires WellFormed(items) && item in items && item.kind.Section? && item.status.Complete?
    ensures item in OfKind(items, Section)
  {
    assert ItemOk(item);
  }

  lemma {:induction false} SectionLater(items: seq<WorkItem>, item: WorkItem, owner: WorkItem)
    requires WellFormed(items) && item in OfKind(items, Section) && owner in OfKind(items, Section)
    requires item.status.Complete? && !owner.status.Complete?
    ensures LaterInChain(items, item, owner)
  {
    ChainMembers(items);
    var chain := Chain(items);
    assert item in chain && owner in chain;
    var i :| 0 <= i < |chain| && chain[i] == item;
    var j :| 0 <= j < |chain| && chain[j] == owner;
    UnfinishedIsLater(items, i, j);
  }

  ghost predicate HandedOn(items: seq<WorkItem>, item: WorkItem, manifest: Manifest, c: Criterion, a: Amendment, owner: WorkItem) {
    && a in manifest.amendments && a.approved && a.signed && a.documented
    && c.scopeAmendment == Some(a.id) && c.id in a.affectedCriteria
    && owner in CanonicalItems(items) && owner.id == a.newOwner && owner != item && !owner.status.Complete?
    && (owner.kind.Section? ==> LaterInChain(items, item, owner))
  }

  lemma {:induction false} OwnerIsCanonical(items: seq<WorkItem>, item: WorkItem, a: Amendment)
    requires OwnerOk(a, item.id, ById(CanonicalItems(items)))
    ensures var owner := ById(CanonicalItems(items))[a.newOwner];
      owner in CanonicalItems(items) && owner.id == a.newOwner && owner != item && !owner.status.Complete?
  {
    ByIdIn(CanonicalItems(items), a.newOwner);
  }

  /** Both checkers silent: whatever mandatory criterion a COMPLETE Section left
      unpassed has been handed, by an approved amendment that names it, to an
      unfinished canonical item, and to a strictly later Section if it is a Section. */
  lemma {:induction false} UnpassedIsHandedOn(items: seq<WorkItem>, item: WorkItem, manifest: Manifest, c: Criterion)
    requires WellFormed(items) && item in items && item.kind.Section? && item.status.Complete?
    requires ManifestOk(item, manifest, ById(CanonicalItems(items)))
    requires c in manifest.criteria && c.mandatory && !c.passed
    ensures exists a, owner :: HandedOn(items, item, manifest, c, a, owner)
  {
    assert Refers(c) && ReferenceOk(manifest, c);
    var a :| a in manifest.amendments && a.id == c.scopeAmendment.value && Authoritative(manifest.amendments, a) && c.id in a.affectedCriteria;
    OwnerIsCanonical(items, item, a);
    var owner := ById(CanonicalItems(items))[a.newOwner];
    CompleteIsCanonical(items, item);
    if owner.kind.Section? { SectionLater(items, item, owner); }
    assert HandedOn(items, item, manifest, c, a, owner);
  }
}
