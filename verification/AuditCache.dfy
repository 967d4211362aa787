/** The audit's caches: per root the candidates, raw sites, call index,
    reachability index, test evidence by method, and the finished audits with the
    fingerprint of the bytes they were made from. */
module AuditCache {
  import opened Wrappers
  import opened AuditShape

  type Root = string

  /** SHA-256 over the paths and bytes of all audited files, as an injective
      constructor. */
  datatype Fingerprint = Sha256(sources: Sources)

  datatype Audits = Audits(fingerprint: Fingerprint, qualified: Option<Shape>, legacy: Option<Shape>)

  // ----- keys of the evidence cache ---------------------------------------------------

  function KeyOf(root: Root, method_: string): string { root + ":" + method_ }

  predicate StartsWith(s: string, prefix: string) { |prefix| <= |s| && s[..|prefix|] == prefix }

  predicate Plain(method_: string) { ':' !in method_ }

  /** Methods are identifiers, so the last colon of a key ends its root. */
  lemma {:induction false} KeyInjective(root: Root, method_: string, otherRoot: Root, other: string)
    requires KeyOf(root, method_) == KeyOf(otherRoot, other) && Plain(method_) && Plain(other)
    ensures root == otherRoot && method_ == other
  {
    var key := KeyOf(root, method_);
    assert key[|root|] == ':' && key[|otherRoot|] == ':';
    assert forall i :: |root| < i < |key| ==> key[i] == method_[i - |root| - 1];
    assert forall i :: |otherRoot| < i < |key| ==> key[i] == other[i - |otherRoot| - 1];
    assert |root| == |otherRoot|;
    assert root == key[..|root|] && otherRoot == key[..|root|];
    assert method_ == key[|root| + 1..] && other == key[|root| + 1..];
  }

  ghost predicate PlainMethods(all: seq<Candidate>) {
    forall i :: 0 <= i < |all| ==> Plain(all[i].method_)
  }

  // ----- what the caches hold -----------------------------------------------------------

  ghost predicate Fills<T>(cache: map<Root, T>, root: Root, value: T) { root in cache ==> cache[root] == value }

  /** The evidence cached under a root is what an audit of these sources gives. */
  ghost predicate EvidenceFits(x: Extractors, cache: map<string, Option<Evidence>>, root: Root, sources: Sources) {
    forall m :: Plain(m) && KeyOf(root, m) in cache ==>
      Named(m) && Asks(x, sources, m) && cache[KeyOf(root, m)] == Given(x, sources, m)
  }

  predicate Asks(x: Extractors, sources: Sources, method_: string) {
    FirstAsker(Asked(x.candidates(sources), |x.candidates(sources)|), method_).Some?
  }

  class AuditCaches {
    const x: Extractors
    var candidates: map<Root, seq<Candidate>>
    var rawSites: map<Root, seq<Candidate>>
    var callIndex: map<Root, string>
    var reachIndex: map<Root, string>
    var evidence: map<string, Option<Evidence>>
    var audits: map<Root, Audits>

    constructor (x: Extractors)
      ensures this.x == x && Valid()
      ensures candidates == map[] && rawSites == map[] && callIndex == map[] && reachIndex == map[]
      ensures evidence == map[] && audits == map[]
    {
      this.x := x;
      candidates, rawSites, callIndex, reachIndex, evidence, audits := map[], map[], map[], map[], map[], map[];
    }

    /** The caches of a root agree with these sources. */
    ghost predicate Fits(root: Root, sources: Sources)
      reads this
    {
      Fills(candidates, root, x.candidates(sources)) && Fills(rawSites, root, x.rawSites(sources)) &&
      Fills(callIndex, root, x.callIndex(sources)) && Fills(reachIndex, root, x.reachIndex(sources)) &&
      EvidenceFits(x, evidence, root, sources)
    }

    /** Every audited root's caches agree with the bytes behind its fingerprint. */
    ghost predicate Valid()
      reads this
    {
      forall root :: root in audits ==>
        root in candidates && Fits(root, audits[root].fingerprint.sources) && AuditsFit(x, audits[root])
    }

    /** Valid for every root but one, whose audits are being renewed. */
    ghost predicate ValidBut(root: Root)
      reads this
    {
      forall other :: other in audits && other != root ==>
        other in candidates && Fits(other, audits[other].fingerprint.sources) && AuditsFit(x, audits[other])
    }

    // ----- one layer at a time -----------------------------------------------------------

    method Candidates(root: Root, sources: Sources) returns (r: seq<Candidate>)
      requires Fits(root, sources)
      modifies this`candidates
      ensures r == x.candidates(sources)
      ensures candidates == old(candidates)[root := r]
    {
      if root !in candidates {
        candidates := candidates[root := x.candidates(sources)];
      }
      return candidates[root];
    }

    method RawSites(root: Root, sources: Sources) returns (r: seq<Candidate>)
      requires Fits(root, sources)
      modifies this`rawSites
      ensures r == x.rawSites(sources)
      ensures rawSites == old(rawSites)[root := r]
    {
      if root !in rawSites {
        rawSites := rawSites[root := x.rawSites(sources)];
      }
      return rawSites[root];
    }

    /** `callersFor`. */
    method Callers(root: Root, sources: Sources, c: Candidate) returns (r: seq<string>)
      requires Fits(root, sources)
      modifies this`callIndex
      ensures r == LegacyCallers(x, sources, c)
      ensures callIndex == old(callIndex)[root := x.callIndex(sources)]
    {
      if root !in callIndex {
        callIndex := callIndex[root := x.callIndex(sources)];
      }
      return x.callers(sources, callIndex[root], c);
    }

    /** `qualifiedResolve`. */
    method Qualified(root: Root, sources: Sources, c: Candidate) returns (r: (Status, seq<string>))
      requires Fits(root, sources)
      modifies this`reachIndex
      ensures r == Verdict(x, sources, false, c)
      ensures reachIndex == old(reachIndex)[root := x.reachIndex(sources)]
    {
      if root !in reachIndex {
        reachIndex := reachIndex[root := x.reachIndex(sources)];
      }
      return x.qualified(sources, reachIndex[root], c);
    }

    /** `testEvidenceFor`: a cached answer keeps the boundary that asked first. */
    method EvidenceFor(root: Root, sources: Sources, asker: string, method_: string) returns (r: Option<Evidence>)
      modifies this`evidence
      ensures var key := KeyOf(root, method_);
              if key in old(evidence) then r == old(evidence)[key] && evidence == old(evidence)
              else if !Named(method_) then r == None && evidence == old(evidence)
              else r == EvidenceOf(x, sources, method_, asker) && evidence == old(evidence)[key := r]
    {
      var key := KeyOf(root, method_);
      if key in evidence {
        return evidence[key];
      }
      if !Named(method_) {
        return None;
      }
      r := EvidenceOf(x, sources, method_, asker);
      evidence := evidence[key := r];
    }

    // ----- one audit -------------------------------------------------------------------------

    /** Every method asked for so far has its evidence cached. */
    ghost predicate AskedCached(root: Root, sources: Sources, n: nat)
      requires n <= |x.candidates(sources)|
      reads this
    {
      forall m :: FirstAsker(Asked(x.candidates(sources), n), m).Some? && Named(m) ==> KeyOf(root, m) in evidence
    }

    /** The evidence boundary n is given, whatever audits ran before. */
    method Ask(root: Root, sources: Sources, n: nat) returns (r: Option<Evidence>)
      requires PlainMethods(x.candidates(sources)) && Fits(root, sources) && ValidBut(root)
      requires n < |x.candidates(sources)| && IsBoundary(x.candidates(sources), x.candidates(sources)[n])
      requires AskedCached(root, sources, n)
      modifies this`evidence
      ensures r == Given(x, sources, x.candidates(sources)[n].method_)
      ensures Fits(root, sources) && ValidBut(root) && AskedCached(root, sources, n + 1)
    {
      var all := x.candidates(sources);
      var c := all[n];
      assert Plain(c.method_);
      ghost var before := evidence;
      FirstAskerAt(all, n);
      r := EvidenceFor(root, sources, c.id, c.method_);
      if KeyOf(root, c.method_) !in before {
        if Named(c.method_) {
          AsksFirst(all, n);
          PutFits(x, before, root, c.method_, r, sources);
        }
      }
      forall other | other in audits && other != root
        ensures EvidenceFits(x, evidence, other, audits[other].fingerprint.sources)
      {
        assert old(Fits(other, audits[other].fingerprint.sources));
        if KeyOf(root, c.method_) !in before && Named(c.method_) {
          PutFitsOther(x, before, root, c.method_, r, other, audits[other].fingerprint.sources);
        }
      }
      forall m | FirstAsker(Asked(all, n + 1), m).Some? && Named(m) ensures KeyOf(root, m) in evidence {
        FirstAskerEnd(Asked(all, n), c, m);
      }
    }

    /** `makeBoundary` for candidate n, in either mode. */
    method MakeBoundary(root: Root, sources: Sources, legacy: bool, n: nat, before: Shape) returns (after: Shape)
      requires PlainMethods(x.candidates(sources)) && Fits(root, sources) && ValidBut(root)
      requires n < |x.candidates(sources)| && IsBoundary(x.candidates(sources), x.candidates(sources)[n])
      requires AskedCached(root, sources, n) && before == ShapeUpTo(x, sources, legacy, n)
      modifies this`callIndex, this`reachIndex, this`evidence
      ensures after == ShapeUpTo(x, sources, legacy, n + 1)
      ensures Fits(root, sources) && ValidBut(root) && AskedCached(root, sources, n + 1)
    {
      var c := x.candidates(sources)[n];
      var legacyCallers := Callers(root, sources, c);
      var verdict: (Status, seq<string>);
      if legacy {
        verdict := (if legacyCallers != [] then Proven else TestOnlyOrDead, legacyCallers);
      } else {
        verdict := Qualified(root, sources, c);
      }
      var found := Ask(root, sources, n);
      after := WithBoundary(before, c, verdict, |legacyCallers|, found);
    }

    /** `computeAuditShape`, reading and filling the root's caches. */
    method ComputeAudit(root: Root, sources: Sources, legacy: bool) returns (shape: Shape)
      requires PlainMethods(x.candidates(sources)) && Fits(root, sources) && ValidBut(root)
      modifies this`candidates, this`rawSites, this`callIndex, this`reachIndex, this`evidence
      ensures shape == AuditOf(x, sources, legacy)
      ensures root in candidates && Fits(root, sources) && ValidBut(root)
    {
      var all := Candidates(root, sources);
      var sites := RawSites(root, sources);
      shape := Shape(all, sites, [], [], [], []);
      for n := 0 to |all|
        invariant root in candidates && Fits(root, sources) && ValidBut(root)
        invariant AskedCached(root, sources, n)
        invariant shape == ShapeUpTo(x, sources, legacy, n)
      {
        var c := all[n];
        if IsBoundary(all, c) {
          shape := MakeBoundary(root, sources, legacy, n, shape);
        } else {
          shape := WithDuplicate(shape, c, RawOwner(all, c).value.id);
          assert Asked(all, n + 1) == Asked(all, n);
        }
      }
    }

    // ----- the cached audit ------------------------------------------------------------------

    /** Forgets everything cached for a root; a key of another root may go too. */
    method Forget(root: Root)
      requires Valid()
      modifies this
      ensures root !in audits && ValidBut(root) && forall sources :: Fits(root, sources)
    {
      ghost var was := evidence;
      candidates := candidates - {root};
      rawSites := rawSites - {root};
      callIndex := callIndex - {root};
      reachIndex := reachIndex - {root};
      evidence := map key | key in evidence && !StartsWith(key, root + ":") :: evidence[key];
      audits := audits - {root};
      forall m ensures KeyOf(root, m) !in evidence {
        assert KeyOf(root, m)[..|root| + 1] == root + ":";
      }
      forall other | other in audits && other != root
        ensures other in candidates && Fits(other, audits[other].fingerprint.sources) && AuditsFit(x, audits[other])
      {
        assert old(Fits(other, audits[other].fingerprint.sources));
        assert EvidenceFits(x, was, other, audits[other].fingerprint.sources);
      }
    }

    /** `buildAuditShape` over the current bytes of a root: whatever was built
        before, and from whatever bytes, the answer is the audit of these. */
    method Build(root: Root, sources: Sources, legacy: bool) returns (shape: Shape)
      requires Valid() && PlainMethods(x.candidates(sources))
      modifies this
      ensures Valid()
      ensures shape == AuditOf(x, sources, legacy)
    {
      var fingerprint := Sha256(sources);
      if root !in audits || audits[root].fingerprint != fingerprint {
        Forget(root);
      }
      var cached := if root in audits then audits[root] else Audits(fingerprint, None, None);
      if legacy && cached.legacy.Some? {
        return cached.legacy.value;
      }
      if !legacy && cached.qualified.Some? {
        return cached.qualified.value;
      }
      shape := ComputeAudit(root, sources, legacy);
      audits := audits[root :=
        if legacy then Audits(fingerprint, cached.qualified, Some(shape)) else Audits(fingerprint, Some(shape), cached.legacy)];
    }

    /** `scanCurrentSource` called on its own between audits; it may answer with
        candidates of older bytes, but no audit will. */
    method ScanCurrentSource(root: Root, sources: Sources) returns (r: seq<Candidate>)
      requires Valid()
      modifies this`candidates
      ensures Valid()
      ensures root in candidates && r == candidates[root]
      ensures old(root !in candidates) ==> r == x.candidates(sources)
    {
      if root !in candidates {
        candidates := candidates[root := x.candidates(sources)];
      }
      return candidates[root];
    }
  }

  // ----- any history of edits --------------------------------------------------------------------

  /** One call: an audit of a root whose files hold these bytes by now, or a
      scan on its own. */
  datatype Call = AuditCall(root: Root, sources: Sources, legacy: bool) | ScanCall(root: Root, sources: Sources)

  ghost predicate PlainCalls(x: Extractors, calls: seq<Call>) {
    forall i :: 0 <= i < |calls| ==> PlainMethods(x.candidates(calls[i].sources))
  }

  /** Over any history of edits, roots and modes, every audit answered from the
      caches is the one that empty caches would give. */
  method Replay(x: Extractors, calls: seq<Call>) returns (answers: seq<Option<Shape>>)
    requires PlainCalls(x, calls)
    ensures |answers| == |calls|
    ensures forall i :: 0 <= i < |calls| ==>
      answers[i] == if calls[i].AuditCall? then Some(AuditOf(x, calls[i].sources, calls[i].legacy)) else None
  {
    var caches := new AuditCaches(x);
    answers := [];
    for i := 0 to |calls|
      invariant caches.x == x && caches.Valid() && fresh(caches)
      invariant |answers| == i
      invariant forall k :: 0 <= k < i ==>
        answers[k] == if calls[k].AuditCall? then Some(AuditOf(x, calls[k].sources, calls[k].legacy)) else None
    {
      var call := calls[i];
      if call.AuditCall? {
        var shape := caches.Build(call.root, call.sources, call.legacy);
        answers := answers + [Some(shape)];
      } else {
        var scanned := caches.ScanCurrentSource(call.root, call.sources);
        answers := answers + [None];
      }
    }
  }

  /** Once boundary n has asked, its method has a first asker. */
  lemma {:induction false} FirstAskerAt(all: seq<Candidate>, n: nat)
    requires n < |all| && IsBoundary(all, all[n])
    ensures FirstAsker(Asked(all, |all|), all[n].method_).Some?
    ensures FirstAsker(Asked(all, n), all[n].method_).Some? ==>
              FirstAsker(Asked(all, |all|), all[n].method_) == FirstAsker(Asked(all, n), all[n].method_)
  {
    FirstAskerEnd(Asked(all, n), all[n], all[n].method_);
    FirstAskerStays(all, n + 1, |all|, all[n].method_);
  }

  lemma {:induction false} PutFits(x: Extractors, cache: map<string, Option<Evidence>>, root: Root, method_: string,
                                   value: Option<Evidence>, sources: Sources)
    requires EvidenceFits(x, cache, root, sources) && Plain(method_) && Named(method_) && Asks(x, sources, method_)
    requires value == Given(x, sources, method_)
    ensures EvidenceFits(x, cache[KeyOf(root, method_) := value], root, sources)
  {
    var after := cache[KeyOf(root, method_) := value];
    forall m | Plain(m) && KeyOf(root, m) in after
      ensures Named(m) && Asks(x, sources, m) && after[KeyOf(root, m)] == Given(x, sources, m)
    {
      if KeyOf(root, m) == KeyOf(root, method_) {
        KeyInjective(root, m, root, method_);
      }
    }
  }

  lemma {:induction false} PutFitsOther(x: Extractors, cache: map<string, Option<Evidence>>, root: Root, method_: string,
                                        value: Option<Evidence>, other: Root, sources: Sources)
    requires EvidenceFits(x, cache, other, sources) && Plain(method_) && root != other
    ensures EvidenceFits(x, cache[KeyOf(root, method_) := value], other, sources)
  {
    var after := cache[KeyOf(root, method_) := value];
    forall m | Plain(m) && KeyOf(other, m) in after
      ensures Named(m) && Asks(x, sources, m) && after[KeyOf(other, m)] == Given(x, sources, m)
    {
      if KeyOf(other, m) == KeyOf(root, method_) {
        KeyInjective(other, m, root, method_);
      }
    }
  }

  ghost predicate AuditsFit(x: Extractors, a: Audits) {
    (a.qualified.Some? ==> a.qualified.value == AuditOf(x, a.fingerprint.sources, false)) &&
    (a.legacy.Some? ==> a.legacy.value == AuditOf(x, a.fingerprint.sources, true))
  }
}
