/** The transaction audit as a function of the source bytes: candidates become
    boundaries or duplicates, and each boundary names the test that calls it.
    What the TypeScript parser extracts is given by functions of the bytes. */
module AuditShape {
  import opened Wrappers

  /** The bytes of every audited file under a root. */
  type Sources = map<string, string>

  datatype Kind = SafeHelper | Raw

  datatype Candidate = Candidate(id: string, kind: Kind, file: string, method_: string, functionKey: string, begins: bool)

  datatype Status = Proven | PortInferred | TestOnlyOrDead | ReviewRequired

  datatype TestHit = TestHit(id: string, file: string, testName: string)

  datatype Evidence = Evidence(hit: TestHit, covers: string, entry: string)

  /** What is extracted from the sources. Strings stand for the call index, the
      reachability index and the caller records. */
  datatype Extractors = Extractors(
    candidates: Sources -> seq<Candidate>,
    rawSites: Sources -> seq<Candidate>,
    callIndex: Sources -> string,
    reachIndex: Sources -> string,
    testHit: (Sources, string) -> Option<TestHit>,
    callers: (Sources, string, Candidate) -> seq<string>,
    qualified: (Sources, string, Candidate) -> (Status, seq<string>))

  datatype Boundary = Boundary(id: string, status: Status, callers: seq<string>, legacyCallers: nat, evidenceIds: seq<string>)

  datatype Row = Row(id: string, classification: Option<Status>, reachable: bool, canonical: string)

  datatype Shape = Shape(candidates: seq<Candidate>, rawSites: seq<Candidate>, boundaries: seq<Boundary>,
                         excluded: seq<(string, string)>, rows: seq<Row>, evidence: seq<Evidence>)

  // ----- which candidates are boundaries ------------------------------------------

  /** `rawBoundary`: the first raw candidate of the same function that begins a
      transaction. */
  function RawOwner(all: seq<Candidate>, c: Candidate): Option<Candidate> {
    if all == [] then None
    else if all[0].kind == Raw && all[0].functionKey == c.functionKey && all[0].begins then Some(all[0])
    else RawOwner(all[1..], c)
  }

  predicate IsBoundary(all: seq<Candidate>, c: Candidate) {
    c.kind == SafeHelper || RawOwner(all, c).None? || RawOwner(all, c).value.id == c.id
  }

  /** The candidates a boundary is made for, in order: each asks for the test
      evidence of its method, in either mode. */
  function Asked(all: seq<Candidate>, n: nat): seq<Candidate>
    requires n <= |all|
  {
    if n == 0 then [] else Asked(all, n - 1) + if IsBoundary(all, all[n - 1]) then [all[n - 1]] else []
  }

  // ----- test evidence -----------------------------------------------------------------

  predicate Named(method_: string) { method_ != "" && method_[0] != '<' }

  function EvidenceOf(x: Extractors, sources: Sources, method_: string, asker: string): Option<Evidence> {
    match x.testHit(sources, method_)
    case None => None
    case Some(hit) => Some(Evidence(hit, asker, method_))
  }

  function FirstAsker(asked: seq<Candidate>, method_: string): Option<string> {
    if asked == [] then None
    else if asked[0].method_ == method_ then Some(asked[0].id)
    else FirstAsker(asked[1..], method_)
  }

  /** What a method's evidence is in an audit: it covers the first boundary that
      asks for it, whoever asks later. */
  function Given(x: Extractors, sources: Sources, method_: string): Option<Evidence> {
    var all := x.candidates(sources);
    match FirstAsker(Asked(all, |all|), method_)
    case None => None
    case Some(asker) => if Named(method_) then EvidenceOf(x, sources, method_, asker) else None
  }

  // ----- the shape -----------------------------------------------------------------------

  function LegacyCallers(x: Extractors, sources: Sources, c: Candidate): seq<string> {
    x.callers(sources, x.callIndex(sources), c)
  }

  function Verdict(x: Extractors, sources: Sources, legacy: bool, c: Candidate): (Status, seq<string>) {
    if legacy
    then (if LegacyCallers(x, sources, c) != [] then Proven else TestOnlyOrDead, LegacyCallers(x, sources, c))
    else x.qualified(sources, x.reachIndex(sources), c)
  }

  function Ids(evidence: Option<Evidence>): seq<string> { if evidence.Some? then [evidence.value.hit.id] else [] }

  predicate Listed(evidence: seq<Evidence>, id: string) { exists e :: e in evidence && e.hit.id == id }

  function WithEvidence(evidence: seq<Evidence>, found: Option<Evidence>): seq<Evidence> {
    if found.None? || Listed(evidence, found.value.hit.id) then evidence else evidence + [found.value]
  }

  function WithDuplicate(s: Shape, c: Candidate, owner: string): Shape {
    s.(excluded := s.excluded + [(c.id, owner)], rows := s.rows + [Row(c.id, None, true, owner)])
  }

  function WithBoundary(s: Shape, c: Candidate, verdict: (Status, seq<string>), legacyCallers: nat, found: Option<Evidence>): Shape {
    s.(boundaries := s.boundaries + [Boundary(c.id, verdict.0, verdict.1, legacyCallers, Ids(found))],
       rows := s.rows + [Row(c.id, Some(verdict.0), verdict.0 == Proven, c.id)],
       evidence := WithEvidence(s.evidence, found))
  }

  /** The audit of the first n candidates. */
  function ShapeUpTo(x: Extractors, sources: Sources, legacy: bool, n: nat): Shape
    requires n <= |x.candidates(sources)|
  {
    var all := x.candidates(sources);
    if n == 0 then Shape(all, x.rawSites(sources), [], [], [], [])
    else
      var before, c := ShapeUpTo(x, sources, legacy, n - 1), all[n - 1];
      if !IsBoundary(all, c) then WithDuplicate(before, c, RawOwner(all, c).value.id)
      else WithBoundary(before, c, Verdict(x, sources, legacy, c), |LegacyCallers(x, sources, c)|, Given(x, sources, c.method_))
  }

  /** The audit of the current bytes; nothing in it depends on earlier audits. */
  function AuditOf(x: Extractors, sources: Sources, legacy: bool): Shape {
    ShapeUpTo(x, sources, legacy, |x.candidates(sources)|)
  }

  // ----- asking in order ------------------------------------------------------------------

  lemma {:induction false} FirstAskerEnd(asked: seq<Candidate>, c: Candidate, method_: string)
    ensures FirstAsker(asked + [c], method_) ==
            if FirstAsker(asked, method_).Some? then FirstAsker(asked, method_)
            else if c.method_ == method_ then Some(c.id) else None
  {
    if asked == [] {
      assert asked + [c] == [c];
    } else {
      assert (asked + [c])[1..] == asked[1..] + [c];
      FirstAskerEnd(asked[1..], c, method_);
    }
  }

  /** Later boundaries do not change who asked first. */
  lemma {:induction false} FirstAskerStays(all: seq<Candidate>, n: nat, m: nat, method_: string)
    requires n <= m <= |all| && FirstAsker(Asked(all, n), method_).Some?
    ensures FirstAsker(Asked(all, m), method_) == FirstAsker(Asked(all, n), method_)
  {
    if n < m {
      FirstAskerStays(all, n, m - 1, method_);
      FirstAskerEnd(Asked(all, m - 1), all[m - 1], method_);
      assert Asked(all, m - 1) + [] == Asked(all, m - 1);
    }
  }

  /** The boundary that asks when no earlier one has is the first asker. */
  lemma {:induction false} AsksFirst(all: seq<Candidate>, n: nat)
    requires n < |all| && IsBoundary(all, all[n]) && FirstAsker(Asked(all, n), all[n].method_).None?
    ensures FirstAsker(Asked(all, |all|), all[n].method_) == Some(all[n].id)
  {
    FirstAskerEnd(Asked(all, n), all[n], all[n].method_);
    FirstAskerStays(all, n + 1, |all|, all[n].method_);
  }

  // ----- what the shape says -----------------------------------------------------------------

  predicate SameBesidesVerdict(a: Boundary, b: Boundary) {
    a.id == b.id && a.evidenceIds == b.evidenceIds && a.legacyCallers == b.legacyCallers
  }

  /** Both modes reconcile the same candidates, exclude the same duplicates and
      carry the same evidence; only status and callers differ. */
  lemma {:induction false} ModesAgree(x: Extractors, sources: Sources, n: nat)
    requires n <= |x.candidates(sources)|
    ensures var a := ShapeUpTo(x, sources, false, n); var b := ShapeUpTo(x, sources, true, n);
            a.evidence == b.evidence && a.excluded == b.excluded && |a.boundaries| == |b.boundaries| &&
            |a.rows| == |b.rows| == n &&
            forall i :: 0 <= i < |a.boundaries| ==> SameBesidesVerdict(a.boundaries[i], b.boundaries[i])
  {
    if n > 0 {
      ModesAgree(x, sources, n - 1);
    }
  }

  /** The first raw candidate of the same function that begins a transaction stands
      at i. */
  ghost predicate OwnsAt(all: seq<Candidate>, c: Candidate, i: nat) {
    i < |all| && all[i].kind == Raw && all[i].functionKey == c.functionKey && all[i].begins &&
    forall j :: 0 <= j < i ==> !(all[j].kind == Raw && all[j].functionKey == c.functionKey && all[j].begins)
  }

  /** Who owns a lifecycle statement. */
  lemma {:induction false} RawOwnerIs(all: seq<Candidate>, c: Candidate)
    ensures RawOwner(all, c).None? <==>
              forall j :: 0 <= j < |all| ==> !(all[j].kind == Raw && all[j].functionKey == c.functionKey && all[j].begins)
    ensures RawOwner(all, c).Some? ==> exists i: nat :: OwnsAt(all, c, i) && RawOwner(all, c).value == all[i]
  {
    if all != [] {
      if all[0].kind == Raw && all[0].functionKey == c.functionKey && all[0].begins {
        assert OwnsAt(all, c, 0);
      } else {
        RawOwnerIs(all[1..], c);
        if RawOwner(all, c).Some? {
          var i: nat :| OwnsAt(all[1..], c, i) && RawOwner(all, c).value == all[1..][i];
          forall j | 0 <= j < i + 1 ensures !(all[j].kind == Raw && all[j].functionKey == c.functionKey && all[j].begins) {
            assert j > 0 ==> all[j] == all[1..][j - 1];
          }
          assert OwnsAt(all, c, i + 1);
        }
      }
    }
  }

  lemma {:induction false} OneOwner(all: seq<Candidate>, c: Candidate, j: nat, k: nat)
    requires OwnsAt(all, c, j) && OwnsAt(all, c, k)
    ensures j == k
  {
  }

  /** The boundary a candidate gives. */
  function BoundaryFor(x: Extractors, sources: Sources, legacy: bool, c: Candidate): Boundary {
    var verdict := Verdict(x, sources, legacy, c);
    Boundary(c.id, verdict.0, verdict.1, |LegacyCallers(x, sources, c)|, Ids(Given(x, sources, c.method_)))
  }

  /** Candidate i's row: its own boundary's, or a duplicate's. */
  ghost predicate RowFits(all: seq<Candidate>, row: Row, c: Candidate, status: Status) {
    row.id == c.id &&
    if IsBoundary(all, c)
    then row.classification == Some(status) && row.canonical == c.id && (row.reachable <==> status == Proven)
    else row.classification == None && row.reachable && RawOwner(all, c).Some? && row.canonical == RawOwner(all, c).value.id
  }

  lemma {:induction false} RowsCounted(x: Extractors, sources: Sources, legacy: bool, n: nat)
    requires n <= |x.candidates(sources)|
    ensures |ShapeUpTo(x, sources, legacy, n).rows| == n
  {
    if n > 0 {
      RowsCounted(x, sources, legacy, n - 1);
    }
  }

  lemma {:induction false} RowsFit(x: Extractors, sources: Sources, legacy: bool, n: nat, i: nat)
    requires i < n <= |x.candidates(sources)|
    ensures var s, c := ShapeUpTo(x, sources, legacy, n), x.candidates(sources)[i];
            |s.rows| == n && RowFits(x.candidates(sources), s.rows[i], c, Verdict(x, sources, legacy, c).0)
  {
    if i < n - 1 {
      RowsFit(x, sources, legacy, n - 1, i);
      RowKept(x, sources, legacy, n, i);
    } else {
      LastRowFits(x, sources, legacy, n);
    }
  }

  lemma {:induction false} RowKept(x: Extractors, sources: Sources, legacy: bool, n: nat, i: nat)
    requires i < n - 1 < |x.candidates(sources)|
    ensures |ShapeUpTo(x, sources, legacy, n).rows| == n && |ShapeUpTo(x, sources, legacy, n - 1).rows| == n - 1
    ensures ShapeUpTo(x, sources, legacy, n).rows[i] == ShapeUpTo(x, sources, legacy, n - 1).rows[i]
  {
    RowsCounted(x, sources, legacy, n - 1);
  }

  lemma {:induction false} LastRowFits(x: Extractors, sources: Sources, legacy: bool, n: nat)
    requires 0 < n <= |x.candidates(sources)|
    ensures var s, c := ShapeUpTo(x, sources, legacy, n), x.candidates(sources)[n - 1];
            |s.rows| == n && RowFits(x.candidates(sources), s.rows[n - 1], c, Verdict(x, sources, legacy, c).0)
  {
    RowsCounted(x, sources, legacy, n - 1);
  }

  lemma {:induction false} BoundariesFit(x: Extractors, sources: Sources, legacy: bool, n: nat)
    requires n <= |x.candidates(sources)|
    ensures var s, asked := ShapeUpTo(x, sources, legacy, n), Asked(x.candidates(sources), n);
            |s.boundaries| == |asked| &&
            forall k :: 0 <= k < |asked| ==> s.boundaries[k] == BoundaryFor(x, sources, legacy, asked[k])
  {
    if n > 0 {
      BoundariesFit(x, sources, legacy, n - 1);
    }
  }

  /** What a row of the audit says. A candidate that is a safe helper, or whose
      function has no raw candidate that begins a transaction, or the first such
      itself, is a boundary under its own id, and reachable exactly if that is
      PROVEN; in the legacy mode it is PROVEN exactly if it has callers, else
      TEST_ONLY_OR_DEAD. Any other is a duplicate: unclassified, reachable, and
      attributed to that first raw candidate. */
  lemma {:induction false} RowMeans(x: Extractors, sources: Sources, legacy: bool, i: nat)
    requires i < |x.candidates(sources)|
    ensures var (all, s) := (x.candidates(sources), AuditOf(x, sources, legacy));
      && |s.rows| == |all| && s.rows[i].id == all[i].id
      && (all[i].kind == SafeHelper || (forall j: nat :: OwnsAt(all, all[i], j) ==> all[j].id == all[i].id) ==>
            && s.rows[i].canonical == all[i].id
            && BoundaryFor(x, sources, legacy, all[i]) in s.boundaries
            && s.rows[i].classification == Some(BoundaryFor(x, sources, legacy, all[i]).status)
            && (s.rows[i].reachable <==> s.rows[i].classification == Some(Proven))
            && (legacy ==> s.rows[i].classification == Some(if |LegacyCallers(x, sources, all[i])| > 0 then Proven else TestOnlyOrDead)))
      && (forall j: nat :: all[i].kind == Raw && OwnsAt(all, all[i], j) && all[j].id != all[i].id ==>
            s.rows[i] == Row(all[i].id, None, true, all[j].id))
  {
    var all := x.candidates(sources);
    RowsFit(x, sources, legacy, |all|, i);
    RawOwnerIs(all, all[i]);
    BoundariesFit(x, sources, legacy, |all|);
    if IsBoundary(all, all[i]) {
      AskedHolds(all, |all|, i);
    }
    forall j: nat, k: nat | OwnsAt(all, all[i], j) && OwnsAt(all, all[i], k) ensures j == k {
      OneOwner(all, all[i], j, k);
    }
  }

  lemma {:induction false} AskedHolds(all: seq<Candidate>, n: nat, i: nat)
    requires i < n <= |all| && IsBoundary(all, all[i])
    ensures all[i] in Asked(all, n)
  {
    if i < n - 1 {
      AskedHolds(all, n - 1, i);
    }
  }

  predicate ListedOnce(evidence: seq<Evidence>) {
    forall i, j :: 0 <= i < j < |evidence| ==> evidence[i].hit.id != evidence[j].hit.id
  }

  lemma {:induction false} EvidenceAdded(evidence: seq<Evidence>, found: Option<Evidence>)
    requires ListedOnce(evidence)
    ensures ListedOnce(WithEvidence(evidence, found))
    ensures forall id :: Listed(evidence, id) ==> Listed(WithEvidence(evidence, found), id)
    ensures found.Some? ==> Listed(WithEvidence(evidence, found), found.value.hit.id)
  {
    var all := WithEvidence(evidence, found);
    if all != evidence {
      assert all == evidence + [found.value];
      assert found.value in all;
      forall i | 0 <= i < |evidence| ensures evidence[i].hit.id != found.value.hit.id {
        assert evidence[i] in evidence;
      }
      forall id | Listed(evidence, id) ensures Listed(all, id) {
        var e :| e in evidence && e.hit.id == id;
        assert e in all;
      }
    }
  }

  ghost predicate NamesListed(s: Shape) {
    ListedOnce(s.evidence) &&
    forall k :: 0 <= k < |s.boundaries| ==> forall id :: id in s.boundaries[k].evidenceIds ==> Listed(s.evidence, id)
  }

  /** Evidence is listed once, and whatever a boundary names is listed. */
  lemma {:induction false} EvidenceListed(x: Extractors, sources: Sources, legacy: bool, n: nat)
    requires n <= |x.candidates(sources)|
    ensures NamesListed(ShapeUpTo(x, sources, legacy, n))
  {
    if n > 0 {
      EvidenceListed(x, sources, legacy, n - 1);
      var before, c := ShapeUpTo(x, sources, legacy, n - 1), x.candidates(sources)[n - 1];
      EvidenceAdded(before.evidence, Given(x, sources, c.method_));
      var s := ShapeUpTo(x, sources, legacy, n);
      forall k, id | 0 <= k < |s.boundaries| && id in s.boundaries[k].evidenceIds ensures Listed(s.evidence, id) {
        if k < |before.boundaries| {
          assert s.boundaries[k] == before.boundaries[k];
        }
      }
    }
  }

  lemma {:induction false} FirstAskerOfAsked(asked: seq<Candidate>, c: Candidate)
    requires c in asked
    ensures FirstAsker(asked, c.method_).Some?
  {
    if asked[0].method_ != c.method_ {
      FirstAskerOfAsked(asked[1..], c);
    }
  }

  /** A boundary has evidence exactly if its method has a proper name (not empty,
      not in angle brackets) and a test calls it; the evidence is that test, for
      that method. */
  lemma {:induction false} EvidenceIff(x: Extractors, sources: Sources, i: nat)
    requires i < |x.candidates(sources)| && IsBoundary(x.candidates(sources), x.candidates(sources)[i])
    ensures var name := x.candidates(sources)[i].method_;
      && (Given(x, sources, name).Some? <==> |name| > 0 && name[0] != '<' && x.testHit(sources, name).Some?)
      && (Given(x, sources, name).Some? ==>
            Given(x, sources, name).value.hit == x.testHit(sources, name).value && Given(x, sources, name).value.entry == name)
  {
    var all := x.candidates(sources);
    AskedHolds(all, |all|, i);
    FirstAskerOfAsked(Asked(all, |all|), all[i]);
  }
}
