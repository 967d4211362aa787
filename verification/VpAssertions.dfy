/** The current assertions of the knowledge view, rebuilt from the newest version
    of each source and the newest settled candidate batch of that version. */
module VpAssertions {
  import opened Wrappers
  import opened Sorting

  type Id = string

  datatype Version = Version(sourceId: Id, sourceVersionId: Id, number: int, completed: bool, revisionId: Option<Id>)

  datatype Batch = Batch(id: Id, sourceVersionId: Id, revisionId: Id, createdAt: int)

  datatype Evidence = Evidence(sourceId: Id, sourceVersionId: Id, revisionId: Id, exact: string,
                               accessScope: seq<string>, sensitivity: string)

  datatype Candidate = Candidate(id: Id, batchId: Id, sourceVersionId: Id, claimText: string, evidenceId: Id,
                                 evidence: Option<Evidence>, accessScope: seq<string>, sensitivity: string,
                                 status: string, validationStatus: Option<string>)

  datatype Assertion = Assertion(id: Id, candidateId: Id, sourceId: Id, sourceVersionId: Id, evidenceId: Id,
                                 claimText: string, accessScope: seq<string>, sensitivity: string)

  datatype Rows = Rows(versions: seq<Version>, batches: seq<Batch>, candidates: seq<Candidate>, assertions: seq<Assertion>)

  const READY := "READY"
  const PENDING_VALIDATION := "PENDING_VALIDATION"

  /** The keys the tables guarantee. */
  ghost predicate Keyed(rows: Rows) {
    (forall i, j :: 0 <= i < j < |rows.versions| ==>
       rows.versions[i].sourceId != rows.versions[j].sourceId || rows.versions[i].number != rows.versions[j].number) &&
    (forall i, j :: 0 <= i < j < |rows.batches| ==> rows.batches[i].id != rows.batches[j].id) &&
    (forall i, j :: 0 <= i < j < |rows.assertions| ==> rows.assertions[i].candidateId != rows.assertions[j].candidateId)
  }

  // ----- does an assertion record its candidate -----------------------------------

  /** `sameStrings`: both lists sorted, then compared. */
  function SameStrings(a: seq<string>, b: seq<string>): bool {
    |a| == |b| && Sorted(TextNotAfter, a) == Sorted(TextNotAfter, b)
  }

  lemma {:induction false} SameStringsIffPermuted(a: seq<string>, b: seq<string>)
    ensures SameStrings(a, b) <==> multiset(a) == multiset(b)
  {
    TextTotalOrder();
    SortedEqualIffPermuted(TextNotAfter, a, b);
    assert |multiset(a)| == |a| && |multiset(b)| == |b|;
  }

  predicate PartAt(text: string, part: string, i: nat) {
    i + |part| <= |text| && text[i..i + |part|] == part
  }

  predicate Includes(text: string, part: string) {
    exists i: nat :: i <= |text| && PartAt(text, part, i)
  }

  predicate Evidenced(c: Candidate, v: Version) {
    c.evidence.Some? &&
    var e := c.evidence.value;
    e.sourceVersionId == v.sourceVersionId && Some(e.revisionId) == v.revisionId && c.claimText != "" &&
    Includes(e.exact, c.claimText) && SameStrings(e.accessScope, c.accessScope) && e.sensitivity == c.sensitivity
  }

  predicate Matches(c: Candidate, v: Version, a: Assertion) {
    Evidenced(c, v) &&
    a.sourceId == c.evidence.value.sourceId && a.sourceVersionId == c.sourceVersionId && a.evidenceId == c.evidenceId &&
    a.claimText == c.claimText && SameStrings(a.accessScope, c.accessScope) && a.sensitivity == c.sensitivity
  }

  // ----- the newest version of each source ------------------------------------------

  ghost predicate Newest(versions: seq<Version>, v: Version) {
    v in versions && forall w :: w in versions && w.sourceId == v.sourceId ==> w.number <= v.number
  }

  ghost predicate NewestOfEach(versions: seq<Version>, latest: map<Id, Version>) {
    (forall s :: s in latest ==> latest[s].sourceId == s && Newest(versions, latest[s])) &&
    (forall v :: v in versions ==> v.sourceId in latest)
  }

  method LatestVersions(versions: seq<Version>) returns (latest: map<Id, Version>)
    ensures NewestOfEach(versions, latest)
  {
    latest := map[];
    for n := 0 to |versions|
      invariant NewestOfEach(versions[..n], latest)
    {
      var v := versions[n];
      assert versions[..n + 1] == versions[..n] + [v];
      if v.sourceId !in latest || v.number > latest[v.sourceId].number {
        latest := latest[v.sourceId := v];
      }
    }
    assert versions[..|versions|] == versions;
  }

  // ----- the newest settled batch of a version -----------------------------------------

  predicate OfVersion(b: Batch, v: Version) {
    b.sourceVersionId == v.sourceVersionId && Some(b.revisionId) == v.revisionId
  }

  predicate Ledgered(assertions: seq<Assertion>, c: Candidate) {
    exists a :: a in assertions && a.candidateId == c.id
  }

  /** A candidate whose state is final and, if it is READY, has its assertion. */
  predicate Settled(assertions: seq<Assertion>, c: Candidate) {
    c.status != PENDING_VALIDATION && c.validationStatus == Some(c.status) && (c.status == READY ==> Ledgered(assertions, c))
  }

  predicate Eligible(rows: Rows, b: Batch) {
    forall c :: c in rows.candidates && c.batchId == b.id ==> Settled(rows.assertions, c)
  }

  /** The order of batches: newest first, ties by id downwards. `collate` is the
      collation of ids (`localeCompare`). */
  predicate NewerFirst(collate: (Id, Id) -> bool, a: Batch, b: Batch) {
    a.createdAt > b.createdAt || (a.createdAt == b.createdAt && collate(b.id, a.id))
  }

  function OfVersionOnly(batches: seq<Batch>, v: Version): (r: seq<Batch>)
    ensures forall b :: b in r <==> b in batches && OfVersion(b, v)
  {
    if batches == [] then [] else
      var init, last := batches[..|batches| - 1], batches[|batches| - 1];
      assert batches == init + [last];
      OfVersionOnly(init, v) + if OfVersion(last, v) then [last] else []
  }

  function VersionBatches(collate: (Id, Id) -> bool, batches: seq<Batch>, v: Version): seq<Batch> {
    Sorted((a, b) => NewerFirst(collate, a, b), OfVersionOnly(batches, v))
  }

  lemma {:induction false} NewerFirstPreorder(collate: (Id, Id) -> bool)
    requires TotalOrder(collate)
    ensures TotalPreorder((a, b) => NewerFirst(collate, a, b))
  {
    var order := (a, b) => NewerFirst(collate, a, b);
    forall a: Batch, b: Batch ensures order(a, b) || order(b, a) {
      assert collate(a.id, b.id) || collate(b.id, a.id);
    }
    forall a: Batch, b: Batch, c: Batch | order(a, b) && order(b, c) ensures order(a, c) {
      if a.createdAt == c.createdAt {
        assert collate(c.id, b.id) && collate(b.id, a.id);
      }
    }
  }

  lemma {:induction false} VersionBatchesExact(collate: (Id, Id) -> bool, batches: seq<Batch>, v: Version)
    requires TotalOrder(collate)
    ensures var s := VersionBatches(collate, batches, v);
            (forall b :: b in s <==> b in batches && OfVersion(b, v)) &&
            (forall i, j :: 0 <= i < j < |s| ==> NewerFirst(collate, s[i], s[j]))
  {
    var order := (a, b) => NewerFirst(collate, a, b);
    var own := OfVersionOnly(batches, v);
    var s := VersionBatches(collate, batches, v);
    NewerFirstPreorder(collate);
    SortedOrders(order, own);
    SortedKeeps(order, own);
    assert forall b :: b in s <==> b in multiset(s);
    assert forall b :: b in own <==> b in multiset(own);
    forall i, j | 0 <= i < j < |s| ensures NewerFirst(collate, s[i], s[j]) {
      assert order(s[i], s[j]);
    }
  }

  /** b is the newest of the version's eligible batches: no other was created
      later, and none created at the same time has a greater id. */
  ghost predicate Selected(collate: (Id, Id) -> bool, rows: Rows, v: Version, b: Batch) {
    b in rows.batches && OfVersion(b, v) && Eligible(rows, b) &&
    forall other :: other in rows.batches && OfVersion(other, v) && Eligible(rows, other) ==>
      other.createdAt <= b.createdAt && (other.createdAt == b.createdAt ==> collate(other.id, b.id))
  }

  /** Filters the sorted batches and takes the first that is eligible. */
  method SelectBatch(collate: (Id, Id) -> bool, rows: Rows, v: Version) returns (selected: Option<Batch>)
    requires TotalOrder(collate)
    ensures selected.Some? ==> Selected(collate, rows, v, selected.value)
    ensures selected.Some? ==> forall b :: b in rows.batches && OfVersion(b, v) && Eligible(rows, b) ==>
              b.createdAt <= selected.value.createdAt && (b.createdAt == selected.value.createdAt ==> collate(b.id, selected.value.id))
    ensures selected.None? ==> forall b :: b in rows.batches && OfVersion(b, v) ==> !Eligible(rows, b)
  {
    var ordered := VersionBatches(collate, rows.batches, v);
    VersionBatchesExact(collate, rows.batches, v);
    for i := 0 to |ordered|
      invariant forall k :: 0 <= k < i ==> !Eligible(rows, ordered[k])
    {
      if Eligible(rows, ordered[i]) {
        FirstEligible(collate, rows, v, ordered, i);
        return Some(ordered[i]);
      }
    }
    return None;
  }

  lemma {:induction false} FirstEligible(collate: (Id, Id) -> bool, rows: Rows, v: Version, ordered: seq<Batch>, i: nat)
    requires TotalOrder(collate) && i < |ordered|
    requires forall b :: b in ordered <==> b in rows.batches && OfVersion(b, v)
    requires forall p, q :: 0 <= p < q < |ordered| ==> NewerFirst(collate, ordered[p], ordered[q])
    requires Eligible(rows, ordered[i]) && forall k :: 0 <= k < i ==> !Eligible(rows, ordered[k])
    ensures Selected(collate, rows, v, ordered[i])
  {
    assert ordered[i] in ordered;
    forall other | other in rows.batches && OfVersion(other, v) && Eligible(rows, other)
      ensures other.createdAt <= ordered[i].createdAt && (other.createdAt == ordered[i].createdAt ==> collate(other.id, ordered[i].id))
    {
      assert other in ordered;
      var k :| 0 <= k < |ordered| && ordered[k] == other;
      if k == i {
        assert collate(other.id, other.id) || collate(other.id, other.id);
      }
    }
  }

  // ----- the expected assertions -------------------------------------------------------

  predicate Completed(v: Version) { v.completed && v.revisionId.Some? && v.revisionId.value != "" }

  /** Why an assertion is current: the newest version of its source is processed,
      the candidate lies in that version's newest settled batch, and the
      assertion records exactly what the candidate and its evidence say. */
  ghost predicate Current(collate: (Id, Id) -> bool, rows: Rows, a: Assertion, v: Version, b: Batch, c: Candidate) {
    Newest(rows.versions, v) && Completed(v) && Selected(collate, rows, v, b) &&
    c in rows.candidates && c.batchId == b.id && c.status == READY &&
    a in rows.assertions && a.candidateId == c.id && Matches(c, v, a)
  }

  ghost predicate Expected(collate: (Id, Id) -> bool, rows: Rows, id: Id) {
    exists a, v, b, c :: Current(collate, rows, a, v, b, c) && a.id == id
  }

  /** The expected assertions of one version whose batch is selected. */
  ghost predicate ExpectedFrom(rows: Rows, v: Version, b: Batch, candidates: seq<Candidate>, id: Id) {
    exists a, c :: Accepts(rows, v, b, candidates, a, c) && a.id == id
  }

  ghost predicate Accepts(rows: Rows, v: Version, b: Batch, candidates: seq<Candidate>, a: Assertion, c: Candidate) {
    c in candidates && c.batchId == b.id && c.status == READY &&
    a in rows.assertions && a.candidateId == c.id && Matches(c, v, a)
  }

  /** The last assertion of a candidate; there is at most one. */
  function AssertionOf(assertions: seq<Assertion>, candidate: Id): (r: Option<Assertion>)
    ensures r.Some? ==> r.value in assertions && r.value.candidateId == candidate
    ensures r.None? ==> forall a :: a in assertions ==> a.candidateId != candidate
  {
    if assertions == [] then None else
      var init, last := assertions[..|assertions| - 1], assertions[|assertions| - 1];
      assert assertions == init + [last];
      if last.candidateId == candidate then Some(last) else AssertionOf(init, candidate)
  }

  lemma {:induction false} OneAssertion(rows: Rows, a: Assertion, b: Assertion)
    requires Keyed(rows) && a in rows.assertions && b in rows.assertions && a.candidateId == b.candidateId
    ensures a == b
  {
    var i :| 0 <= i < |rows.assertions| && rows.assertions[i] == a;
    var j :| 0 <= j < |rows.assertions| && rows.assertions[j] == b;
  }

  method CollectFromBatch(rows: Rows, v: Version, b: Batch) returns (ids: set<Id>)
    requires Keyed(rows)
    ensures forall id :: id in ids <==> ExpectedFrom(rows, v, b, rows.candidates, id)
  {
    ids := {};
    for n := 0 to |rows.candidates|
      invariant forall id :: id in ids <==> ExpectedFrom(rows, v, b, rows.candidates[..n], id)
    {
      var c := rows.candidates[n];
      var before, after := rows.candidates[..n], rows.candidates[..n + 1];
      assert after == before + [c];
      var found := AssertionOf(rows.assertions, c.id);
      ghost var taken := ids;
      if c.batchId == b.id && c.status == READY && found.Some? && Matches(c, v, found.value) {
        ids := ids + {found.value.id};
        assert Accepts(rows, v, b, after, found.value, c);
      }
      forall id ensures id in ids <==> ExpectedFrom(rows, v, b, after, id) {
        if id in taken {
          var a, d :| Accepts(rows, v, b, before, a, d) && a.id == id;
          assert Accepts(rows, v, b, after, a, d);
        }
        if ExpectedFrom(rows, v, b, after, id) {
          var a, d :| Accepts(rows, v, b, after, a, d) && a.id == id;
          if d == c {
            OneAssertion(rows, a, found.value);
          } else {
            assert Accepts(rows, v, b, before, a, d);
          }
        }
      }
    }
    assert rows.candidates[..|rows.candidates|] == rows.candidates;
  }

  /** Newest batches are unique, so the first eligible one is the selected one. */
  lemma {:induction false} OneSelected(collate: (Id, Id) -> bool, rows: Rows, v: Version, a: Batch, b: Batch)
    requires TotalOrder(collate) && Keyed(rows) && Selected(collate, rows, v, a) && Selected(collate, rows, v, b)
    ensures a == b
  {
    assert NewerFirst(collate, a, b) && NewerFirst(collate, b, a);
    assert collate(a.id, b.id) && collate(b.id, a.id);
    var i :| 0 <= i < |rows.batches| && rows.batches[i] == a;
    var j :| 0 <= j < |rows.batches| && rows.batches[j] == b;
  }

  lemma {:induction false} OneNewest(rows: Rows, v: Version, w: Version)
    requires Keyed(rows) && Newest(rows.versions, v) && Newest(rows.versions, w) && v.sourceId == w.sourceId
    ensures v == w
  {
    var i :| 0 <= i < |rows.versions| && rows.versions[i] == v;
    var j :| 0 <= j < |rows.versions| && rows.versions[j] == w;
  }

  ghost predicate ExpectedOf(collate: (Id, Id) -> bool, rows: Rows, sources: set<Id>, id: Id) {
    exists a, v, b, c :: Current(collate, rows, a, v, b, c) && v.sourceId in sources && a.id == id
  }

  lemma {:induction false} SourcesSplit(collate: (Id, Id) -> bool, rows: Rows, done: set<Id>, source: Id)
    ensures forall id :: ExpectedOf(collate, rows, done + {source}, id) <==>
              ExpectedOf(collate, rows, done, id) || ExpectedOf(collate, rows, {source}, id)
  {
    forall id ensures ExpectedOf(collate, rows, done + {source}, id) <==>
                        ExpectedOf(collate, rows, done, id) || ExpectedOf(collate, rows, {source}, id)
    {
      if ExpectedOf(collate, rows, done + {source}, id) {
        var a, v, b, c :| Current(collate, rows, a, v, b, c) && v.sourceId in done + {source} && a.id == id;
        assert v.sourceId in done || v.sourceId in {source};
      }
      if ExpectedOf(collate, rows, done, id) {
        var a, v, b, c :| Current(collate, rows, a, v, b, c) && v.sourceId in done && a.id == id;
        assert v.sourceId in done + {source};
      }
      if ExpectedOf(collate, rows, {source}, id) {
        var a, v, b, c :| Current(collate, rows, a, v, b, c) && v.sourceId in {source} && a.id == id;
        assert v.sourceId in done + {source};
      }
    }
  }

  lemma {:induction false} NotCompleted(collate: (Id, Id) -> bool, rows: Rows, v: Version)
    requires Keyed(rows) && Newest(rows.versions, v) && !Completed(v)
    ensures forall id :: !ExpectedOf(collate, rows, {v.sourceId}, id)
  {
    forall id ensures !ExpectedOf(collate, rows, {v.sourceId}, id) {
      if ExpectedOf(collate, rows, {v.sourceId}, id) {
        var a, w, b, c :| Current(collate, rows, a, w, b, c) && w.sourceId in {v.sourceId} && a.id == id;
        OneNewest(rows, v, w);
      }
    }
  }

  lemma {:induction false} OneSource(collate: (Id, Id) -> bool, rows: Rows, v: Version, selected: Option<Batch>, added: set<Id>)
    requires TotalOrder(collate) && Keyed(rows) && Newest(rows.versions, v) && Completed(v)
    requires selected.Some? ==> Selected(collate, rows, v, selected.value)
    requires selected.Some? ==> forall id :: id in added <==> ExpectedFrom(rows, v, selected.value, rows.candidates, id)
    requires selected.None? ==> added == {} && forall b :: b in rows.batches && OfVersion(b, v) ==> !Eligible(rows, b)
    ensures forall id :: id in added <==> ExpectedOf(collate, rows, {v.sourceId}, id)
  {
    forall id ensures id in added <==> ExpectedOf(collate, rows, {v.sourceId}, id) {
      if ExpectedOf(collate, rows, {v.sourceId}, id) {
        var a, w, b, c :| Current(collate, rows, a, w, b, c) && w.sourceId in {v.sourceId} && a.id == id;
        OneNewest(rows, v, w);
        if selected.Some? {
          OneSelected(collate, rows, v, b, selected.value);
          assert Accepts(rows, v, b, rows.candidates, a, c);
        }
      }
      if id in added {
        var a, c :| Accepts(rows, v, selected.value, rows.candidates, a, c) && a.id == id;
        assert Current(collate, rows, a, v, selected.value, c);
      }
    }
  }

  /** The current assertions of the newest version of one source. */
  method SourceAssertions(collate: (Id, Id) -> bool, rows: Rows, v: Version) returns (ids: set<Id>)
    requires TotalOrder(collate) && Keyed(rows) && Newest(rows.versions, v)
    ensures Exactly(collate, rows, {v.sourceId}, ids)
  {
    ids := {};
    if !Completed(v) {
      NotCompleted(collate, rows, v);
      return;
    }
    var selected := SelectBatch(collate, rows, v);
    if selected.Some? {
      ids := CollectFromBatch(rows, v, selected.value);
    }
    OneSource(collate, rows, v, selected, ids);
  }

  /** The ids are exactly the expected assertions of these sources. */
  ghost predicate Exactly(collate: (Id, Id) -> bool, rows: Rows, sources: set<Id>, ids: set<Id>) {
    forall id :: id in ids <==> ExpectedOf(collate, rows, sources, id)
  }

  lemma {:induction false} OneMoreSource(collate: (Id, Id) -> bool, rows: Rows, done: set<Id>, source: Id, ids: set<Id>, added: set<Id>)
    requires Exactly(collate, rows, done, ids) && Exactly(collate, rows, {source}, added)
    ensures Exactly(collate, rows, done + {source}, ids + added)
  {
    SourcesSplit(collate, rows, done, source);
  }

  /** The rebuilt set of current assertions. */
  method ExpectedAssertions(collate: (Id, Id) -> bool, rows: Rows) returns (ids: set<Id>)
    requires TotalOrder(collate) && Keyed(rows)
    ensures forall id :: id in ids <==> Expected(collate, rows, id)
  {
    var latest := LatestVersions(rows.versions);
    ids := FromSources(collate, rows, latest);
    AllSources(collate, rows, latest);
  }

  lemma {:induction false} NewestListed(versions: seq<Version>, latest: map<Id, Version>, source: Id)
    requires NewestOfEach(versions, latest) && source in latest
    ensures Newest(versions, latest[source]) && latest[source].sourceId == source
  {
  }

  method AddSource(collate: (Id, Id) -> bool, rows: Rows, latest: map<Id, Version>, ghost done: set<Id>, source: Id, before: set<Id>) returns (ids: set<Id>)
    requires TotalOrder(collate) && Keyed(rows) && NewestOfEach(rows.versions, latest) && source in latest
    requires Exactly(collate, rows, done, before)
    ensures Exactly(collate, rows, done + {source}, ids)
  {
    NewestListed(rows.versions, latest, source);
    var added := SourceAssertions(collate, rows, latest[source]);
    OneMoreSource(collate, rows, done, source, before, added);
    ids := before + added;
  }

  method FromSources(collate: (Id, Id) -> bool, rows: Rows, latest: map<Id, Version>) returns (ids: set<Id>)
    requires TotalOrder(collate) && Keyed(rows) && NewestOfEach(rows.versions, latest)
    ensures Exactly(collate, rows, latest.Keys, ids)
  {
    var left := latest.Keys;
    ids := {};
    ghost var done: set<Id> := {};
    while left != {}
      invariant Split(latest.Keys, left, done)
      invariant Exactly(collate, rows, done, ids)
      decreases |left|
    {
      var source :| source in left;
      SplitOne(latest.Keys, left, done, source);
      ids := AddSource(collate, rows, latest, done, source, ids);
      left := left - {source};
      done := done + {source};
    }
    SplitAll(latest.Keys, done);
  }

  lemma {:induction false} AllSources(collate: (Id, Id) -> bool, rows: Rows, latest: map<Id, Version>)
    requires NewestOfEach(rows.versions, latest)
    ensures forall id :: Expected(collate, rows, id) <==> ExpectedOf(collate, rows, latest.Keys, id)
  {
    forall id ensures Expected(collate, rows, id) <==> ExpectedOf(collate, rows, latest.Keys, id) {
      if Expected(collate, rows, id) {
        var a, v, b, c :| Current(collate, rows, a, v, b, c) && a.id == id;
        assert v.sourceId in latest.Keys;
      }
    }
  }

  /** Why an assertion is expected, spelled out: it records a READY candidate of a
      batch of the source's highest version; every eligible batch of that version
      was created no later, with ids deciding among those created together. */
  lemma {:induction false} ExpectedIsNewest(collate: (Id, Id) -> bool, rows: Rows, id: Id) returns (a: Assertion, v: Version, b: Batch, c: Candidate)
    requires Expected(collate, rows, id)
    ensures a in rows.assertions && a.id == id && a.candidateId == c.id && a.claimText == c.claimText
    ensures c in rows.candidates && c.batchId == b.id && c.status == "READY"
    ensures v in rows.versions && v.completed && forall w :: w in rows.versions && w.sourceId == v.sourceId ==> w.number <= v.number
    ensures b in rows.batches && b.sourceVersionId == v.sourceVersionId && Some(b.revisionId) == v.revisionId
    ensures forall other :: other in rows.batches && OfVersion(other, v) && Eligible(rows, other) ==>
              other.createdAt <= b.createdAt && (other.createdAt == b.createdAt ==> collate(other.id, b.id))
  {
    a, v, b, c :| Current(collate, rows, a, v, b, c) && a.id == id;
  }

  /** When a batch may be selected: each of its candidates is decided, as its
      validation says, and a READY one has its assertion. */
  lemma {:induction false} EligibleIff(rows: Rows, b: Batch)
    ensures Eligible(rows, b) <==> forall c :: c in rows.candidates && c.batchId == b.id ==>
      && c.status != "PENDING_VALIDATION" && c.validationStatus == Some(c.status)
      && (c.status == "READY" ==> exists a :: a in rows.assertions && a.candidateId == c.id)
  {
  }

  /** When an assertion records its candidate: the evidence is of this version and
      revision, contains the claim, and has the candidate's sensitivity and, in any
      order, its access scope; the assertion repeats all of it. */
  lemma {:induction false} MatchesIff(c: Candidate, v: Version, a: Assertion)
    ensures Matches(c, v, a) <==> (
      && c.evidence.Some?
      && var e := c.evidence.value;
      && e.sourceVersionId == v.sourceVersionId && v.revisionId == Some(e.revisionId) && e.sensitivity == c.sensitivity
      && multiset(e.accessScope) == multiset(c.accessScope)
      && |c.claimText| > 0 && (exists before, after :: before + c.claimText + after == e.exact)
      && a.sourceId == e.sourceId && a.sourceVersionId == c.sourceVersionId && a.evidenceId == c.evidenceId
      && a.claimText == c.claimText && a.sensitivity == c.sensitivity && multiset(a.accessScope) == multiset(c.accessScope))
  {
    SameStringsIffPermuted(a.accessScope, c.accessScope);
    if c.evidence.Some? {
      var e := c.evidence.value;
      SameStringsIffPermuted(e.accessScope, c.accessScope);
      IncludesIff(e.exact, c.claimText);
    }
  }

  lemma {:induction false} IncludesIff(text: string, part: string)
    ensures Includes(text, part) <==> exists before, after :: before + part + after == text
  {
    forall before, after | before + part + after == text ensures Includes(text, part) {
      assert PartAt(before + part + after, part, |before|);
    }
    if i: nat :| i <= |text| && PartAt(text, part, i) {
      assert text[..i] + part + text[i + |part|..] == text;
    }
  }

  // ----- order of the rows ----------------------------------------------------------------

  ghost predicate Reordered(a: Rows, b: Rows) {
    multiset(a.versions) == multiset(b.versions) && multiset(a.batches) == multiset(b.batches) &&
    multiset(a.candidates) == multiset(b.candidates) && multiset(a.assertions) == multiset(b.assertions)
  }

  lemma {:induction false} SameMembers<T>(a: seq<T>, b: seq<T>)
    requires multiset(a) == multiset(b)
    ensures forall x :: x in a <==> x in b
  {
    assert forall x :: x in a <==> x in multiset(a);
    assert forall x :: x in b <==> x in multiset(b);
  }

  /** The expected assertions do not depend on the order of any of the rows. */
  lemma {:induction false} ExpectedIgnoresOrder(collate: (Id, Id) -> bool, a: Rows, b: Rows, id: Id)
    requires Reordered(a, b) && Expected(collate, a, id)
    ensures Expected(collate, b, id)
  {
    SameMembers(a.versions, b.versions);
    SameMembers(a.batches, b.batches);
    SameMembers(a.candidates, b.candidates);
    SameMembers(a.assertions, b.assertions);
    var x, v, batch, c :| Current(collate, a, x, v, batch, c) && x.id == id;
    assert forall k :: Ledgered(a.assertions, k) <==> Ledgered(b.assertions, k);
    assert forall k :: Eligible(a, k) <==> Eligible(b, k);
    assert Newest(b.versions, v);
    assert Selected(collate, b, v, batch);
    assert Current(collate, b, x, v, batch, c);
  }
}
