/** The barrier between backups and erasures: a backup may be taken or restored
    only if its knowledge epochs agree with the erasure journal. */
module EpochBarrier {
  import opened Wrappers
  import opened ErasureJournal

  type Epochs = map<string, int>

  function EpochOf(epochs: Epochs, project: string): int { if project in epochs then epochs[project] else 0 }

  // ----- the check as the source makes it -------------------------------------------

  function OfRequest(records: seq<Record>, requestId: string): seq<Record> {
    if records == [] then [] else
      var last := records[|records| - 1];
      OfRequest(records[..|records| - 1], requestId) + if last.payload.requestId == requestId then [last] else []
  }

  function OfEpoch(records: seq<Record>, project: string, epoch: int): seq<Record> {
    if records == [] then [] else
      var last := records[|records| - 1];
      OfEpoch(records[..|records| - 1], project, epoch) +
      if last.payload.projectId == project && last.payload.epoch == epoch then [last] else []
  }

  function OfPhase(records: seq<Record>, phase: Phase): nat {
    if records == [] then 0 else
      OfPhase(records[..|records| - 1], phase) + if records[|records| - 1].payload.phase == phase then 1 else 0
  }

  /** A request's records hold a PREPARED and a later VERIFIED. */
  predicate Completed(records: seq<Record>, requestId: string) {
    var prepared := FirstOf(records, requestId, Prepared);
    var verified := FirstOf(records, requestId, Verified);
    prepared.Some? && verified.Some? && prepared.value.payload.sequence < verified.value.payload.sequence
  }

  predicate OneTransition(records: seq<Record>, project: string, epoch: int) {
    OfPhase(OfEpoch(records, project, epoch), Verified) == 1 && OfPhase(OfEpoch(records, project, epoch), Prepared) == 1
  }

  predicate ProjectAllowed(records: seq<Record>, project: string, epoch: int) {
    Safe(epoch) && epoch >= 0 &&
    (forall r :: r in records && r.payload.projectId == project ==> r.payload.epoch <= epoch) &&
    (forall e :: 1 <= e <= epoch ==> OneTransition(records, project, e))
  }

  ghost predicate Mentioned(epochs: Epochs, records: seq<Record>, project: string) {
    project in epochs || exists r :: r in records && r.payload.projectId == project
  }

  ghost predicate Allowed(epochs: Epochs, records: seq<Record>) {
    (forall r :: r in records ==> Completed(records, r.payload.requestId)) &&
    (forall project :: Mentioned(epochs, records, project) ==> ProjectAllowed(records, project, EpochOf(epochs, project)))
  }

  lemma {:induction false} InOfEpoch(records: seq<Record>, project: string, epoch: int, r: Record)
    ensures r in OfEpoch(records, project, epoch) <==>
            r in records && r.payload.projectId == project && r.payload.epoch == epoch
  {
    if records != [] {
      var init, last := records[..|records| - 1], records[|records| - 1];
      assert records == init + [last];
      InOfEpoch(init, project, epoch, r);
    }
  }

  lemma {:induction false} InOfRequest(records: seq<Record>, requestId: string, r: Record)
    ensures r in OfRequest(records, requestId) <==> r in records && r.payload.requestId == requestId
  {
    if records != [] {
      var init, last := records[..|records| - 1], records[|records| - 1];
      assert records == init + [last];
      InOfRequest(init, requestId, r);
    }
  }

  /** Looking for a phase among a request's own records finds the same record. */
  lemma {:induction false} FirstOfOwn(records: seq<Record>, requestId: string, phase: Phase)
    ensures FirstOf(OfRequest(records, requestId), requestId, phase) == FirstOf(records, requestId, phase)
  {
    if records != [] {
      var init, last := records[..|records| - 1], records[|records| - 1];
      assert records == init + [last];
      FirstOfOwn(init, requestId, phase);
      FirstOfEnd(init, last, requestId, phase);
      FirstOfEnd(OfRequest(init, requestId), last, requestId, phase);
      assert OfRequest(init, requestId) + [] == OfRequest(init, requestId);
    }
  }

  lemma {:induction false} FirstOfEnd(records: seq<Record>, last: Record, requestId: string, phase: Phase)
    ensures FirstOf(records + [last], requestId, phase) ==
            if FirstOf(records, requestId, phase).Some? then FirstOf(records, requestId, phase)
            else if last.payload.requestId == requestId && last.payload.phase == phase then Some(last) else None
  {
    if records == [] {
      assert records + [last] == [last];
    } else {
      assert (records + [last])[1..] == records[1..] + [last];
      FirstOfEnd(records[1..], last, requestId, phase);
    }
  }

  // ----- the check over the source's maps ---------------------------------------------

  type ByRequest = map<string, seq<Record>>

  type ByEpoch = map<int, seq<Record>>

  type ByProject = map<string, ByEpoch>

  function ListedRequest(m: ByRequest, requestId: string): seq<Record> { if requestId in m then m[requestId] else [] }

  function EpochsListed(m: ByProject, project: string): ByEpoch { if project in m then m[project] else map[] }

  function Listed(m: ByProject, project: string, epoch: int): seq<Record> {
    if epoch in EpochsListed(m, project) then EpochsListed(m, project)[epoch] else []
  }

  function PutRequest(m: ByRequest, r: Record): ByRequest {
    m[r.payload.requestId := ListedRequest(m, r.payload.requestId) + [r]]
  }

  function PutEpoch(m: ByProject, r: Record): ByProject {
    var p, e := r.payload.projectId, r.payload.epoch;
    m[p := EpochsListed(m, p)[e := Listed(m, p, e) + [r]]]
  }

  ghost predicate RequestsIndexed(m: ByRequest, records: seq<Record>) {
    (forall q :: ListedRequest(m, q) == OfRequest(records, q)) && (forall q :: q in m ==> m[q] != [])
  }

  ghost predicate EpochsIndexed(m: ByProject, records: seq<Record>) {
    (forall p, e :: Listed(m, p, e) == OfEpoch(records, p, e)) && (forall p :: p in m ==> exists e :: e in m[p]) &&
    (forall p, e :: e in EpochsListed(m, p) ==> Listed(m, p, e) != [])
  }

  lemma {:induction false} PutRequestIndexed(m: ByRequest, records: seq<Record>, r: Record)
    requires RequestsIndexed(m, records)
    ensures RequestsIndexed(PutRequest(m, r), records + [r])
  {
    assert (records + [r])[..|records|] == records;
    forall q ensures ListedRequest(PutRequest(m, r), q) == OfRequest(records + [r], q) {
      assert ListedRequest(m, q) == OfRequest(records, q);
    }
  }

  lemma {:induction false} PutEpochIndexed(m: ByProject, records: seq<Record>, r: Record)
    requires EpochsIndexed(m, records)
    ensures EpochsIndexed(PutEpoch(m, r), records + [r])
  {
    assert (records + [r])[..|records|] == records;
    forall p, e ensures Listed(PutEpoch(m, r), p, e) == OfEpoch(records + [r], p, e) {
      assert Listed(m, p, e) == OfEpoch(records, p, e);
    }
    assert r.payload.epoch in PutEpoch(m, r)[r.payload.projectId];
    forall p, e | e in EpochsListed(PutEpoch(m, r), p) ensures Listed(PutEpoch(m, r), p, e) != [] {
      if p != r.payload.projectId || e != r.payload.epoch {
        assert e in EpochsListed(m, p);
        assert Listed(m, p, e) != [];
      }
    }
  }

  method IndexRecords(records: seq<Record>) returns (byRequest: ByRequest, byProject: ByProject)
    ensures RequestsIndexed(byRequest, records) && EpochsIndexed(byProject, records)
  {
    byRequest, byProject := map[], map[];
    for n := 0 to |records|
      invariant RequestsIndexed(byRequest, records[..n]) && EpochsIndexed(byProject, records[..n])
    {
      assert records[..n + 1] == records[..n] + [records[n]];
      PutRequestIndexed(byRequest, records[..n], records[n]);
      PutEpochIndexed(byProject, records[..n], records[n]);
      byRequest := PutRequest(byRequest, records[n]);
      byProject := PutEpoch(byProject, records[n]);
    }
    assert records[..|records|] == records;
  }

  method RequestsCompleted(byRequest: ByRequest, ghost records: seq<Record>) returns (ok: bool)
    requires RequestsIndexed(byRequest, records)
    ensures ok <==> forall r :: r in records ==> Completed(records, r.payload.requestId)
  {
    var left := byRequest.Keys;
    forall r | r in records ensures r.payload.requestId in left {
      InOfRequest(records, r.payload.requestId, r);
      assert ListedRequest(byRequest, r.payload.requestId) == OfRequest(records, r.payload.requestId);
    }
    while left != {}
      invariant left <= byRequest.Keys
      invariant forall r :: r in records && r.payload.requestId !in left ==> Completed(records, r.payload.requestId)
      decreases |left|
    {
      var q :| q in left;
      FirstOfOwn(records, q, Prepared);
      FirstOfOwn(records, q, Verified);
      assert ListedRequest(byRequest, q) == OfRequest(records, q);
      var prepared := FirstOf(byRequest[q], q, Prepared);
      var verified := FirstOf(byRequest[q], q, Verified);
      if prepared.None? || verified.None? || prepared.value.payload.sequence >= verified.value.payload.sequence {
        assert byRequest[q][0] in OfRequest(records, q);
        InOfRequest(records, q, byRequest[q][0]);
        return false;
      }
      left := left - {q};
    }
    return true;
  }

  /** A backup epoch, not negative, is below the greatest epoch of the journal. */
  predicate BelowMaximum(epoch: int, epochs: ByEpoch) { exists e :: e in epochs && epoch < e }

  predicate At(r: Record, project: string, epoch: int) { r.payload.projectId == project && r.payload.epoch == epoch }

  predicate SomeAt(records: seq<Record>, project: string, epoch: int) {
    exists r :: r in records && At(r, project, epoch)
  }

  lemma {:induction false} EpochKey(m: ByProject, records: seq<Record>, project: string, epoch: int)
    requires EpochsIndexed(m, records)
    ensures epoch in EpochsListed(m, project) <==> SomeAt(records, project, epoch)
  {
    var own := OfEpoch(records, project, epoch);
    assert Listed(m, project, epoch) == own;
    if epoch in EpochsListed(m, project) {
      assert own[0] in own;
      InOfEpoch(records, project, epoch, own[0]);
      assert At(own[0], project, epoch);
    }
    if SomeAt(records, project, epoch) {
      var r :| r in records && At(r, project, epoch);
      InOfEpoch(records, project, epoch, r);
    }
  }

  method CheckProject(byProject: ByProject, ghost records: seq<Record>, project: string, epoch: int) returns (ok: bool)
    requires EpochsIndexed(byProject, records)
    ensures ok <==> ProjectAllowed(records, project, epoch)
  {
    if !Safe(epoch) || epoch < 0 {
      return false;
    }
    if BelowMaximum(epoch, EpochsListed(byProject, project)) {
      var e: int :| e in EpochsListed(byProject, project) && epoch < e;
      EpochKey(byProject, records, project, e);
      return false;
    }
    forall r | r in records && r.payload.projectId == project ensures r.payload.epoch <= epoch {
      assert At(r, project, r.payload.epoch);
      EpochKey(byProject, records, project, r.payload.epoch);
    }
    ok := EpochsTransition(byProject, records, project, epoch);
  }

  method EpochTransition(byProject: ByProject, ghost records: seq<Record>, project: string, epoch: int) returns (good: bool)
    requires EpochsIndexed(byProject, records)
    ensures good <==> OneTransition(records, project, epoch)
  {
    assert Listed(byProject, project, epoch) == OfEpoch(records, project, epoch);
    var transitions := Listed(byProject, project, epoch);
    good := OfPhase(transitions, Verified) == 1 && OfPhase(transitions, Prepared) == 1;
  }

  ghost predicate TransitionsBelow(records: seq<Record>, project: string, epoch: int) {
    forall e :: 1 <= e < epoch ==> OneTransition(records, project, e)
  }

  lemma {:induction false} TransitionsNext(records: seq<Record>, project: string, epoch: int)
    requires epoch >= 1
    ensures TransitionsBelow(records, project, epoch + 1) <==> TransitionsBelow(records, project, epoch) && OneTransition(records, project, epoch)
  {
  }

  lemma {:induction false} TransitionsFewer(records: seq<Record>, project: string, epoch: int, more: int)
    requires epoch <= more && TransitionsBelow(records, project, more)
    ensures TransitionsBelow(records, project, epoch)
  {
  }

  method EpochsTransition(byProject: ByProject, ghost records: seq<Record>, project: string, epoch: int) returns (ok: bool)
    requires EpochsIndexed(byProject, records) && epoch >= 0
    ensures ok <==> TransitionsBelow(records, project, epoch + 1)
  {
    for e := 1 to epoch + 1
      invariant TransitionsBelow(records, project, e)
    {
      TransitionsNext(records, project, e);
      var good := EpochTransition(byProject, records, project, e);
      if !good {
        if TransitionsBelow(records, project, epoch + 1) {
          TransitionsFewer(records, project, e + 1, epoch + 1);
        }
        return false;
      }
    }
    return true;
  }

  lemma {:induction false} ProjectsMentioned(epochs: Epochs, m: ByProject, records: seq<Record>, project: string)
    requires EpochsIndexed(m, records)
    ensures project in epochs.Keys + m.Keys <==> Mentioned(epochs, records, project)
  {
    if project in m {
      var e: int :| e in m[project];
      EpochKey(m, records, project, e);
    }
    if exists r :: r in records && r.payload.projectId == project {
      var r :| r in records && r.payload.projectId == project;
      assert At(r, project, r.payload.epoch);
      EpochKey(m, records, project, r.payload.epoch);
    }
  }

  /** `assertBackupKnowledgeEpochsAllowed`. */
  method AssertEpochsAllowed(epochs: Epochs, records: seq<Record>) returns (ok: bool)
    ensures ok <==> Allowed(epochs, records)
  {
    var byRequest, byProject := IndexRecords(records);
    var completed := RequestsCompleted(byRequest, records);
    if !completed {
      return false;
    }
    var left := epochs.Keys + byProject.Keys;
    forall p ensures p in left <==> Mentioned(epochs, records, p) {
      ProjectsMentioned(epochs, byProject, records, p);
    }
    while left != {}
      invariant forall p :: p in left ==> Mentioned(epochs, records, p)
      invariant forall p :: Mentioned(epochs, records, p) && p !in left ==>
                  ProjectAllowed(records, p, EpochOf(epochs, p))
      decreases |left|
    {
      var project :| project in left;
      var allowed := CheckProject(byProject, records, project, EpochOf(epochs, project));
      if !allowed {
        return false;
      }
      left := left - {project};
    }
    return true;
  }

  // ----- what acceptance means ------------------------------------------------------------

  predicate Here(r: Record, project: string, epoch: int, phase: Phase) {
    At(r, project, epoch) && r.payload.phase == phase
  }

  function Count(records: seq<Record>, project: string, epoch: int, phase: Phase): nat {
    if records == [] then 0 else
      Count(records[..|records| - 1], project, epoch, phase) +
      if Here(records[|records| - 1], project, epoch, phase) then 1 else 0
  }

  lemma {:induction false} OfPhaseSnoc(records: seq<Record>, r: Record, phase: Phase)
    ensures OfPhase(records + [r], phase) == OfPhase(records, phase) + if r.payload.phase == phase then 1 else 0
  {
    assert (records + [r])[..|records|] == records;
  }

  lemma {:induction false} CountOfPhase(records: seq<Record>, project: string, epoch: int, phase: Phase)
    ensures OfPhase(OfEpoch(records, project, epoch), phase) == Count(records, project, epoch, phase)
  {
    if records != [] {
      var init, last := records[..|records| - 1], records[|records| - 1];
      CountOfPhase(init, project, epoch, phase);
      var own := OfEpoch(init, project, epoch);
      OfPhaseSnoc(own, last, phase);
      assert OfEpoch(records, project, epoch) == if At(last, project, epoch) then own + [last] else own;
    }
  }

  ghost predicate OnlyAt(records: seq<Record>, project: string, epoch: int, phase: Phase, i: nat) {
    i < |records| && Here(records[i], project, epoch, phase) &&
    forall j :: 0 <= j < |records| && Here(records[j], project, epoch, phase) ==> j == i
  }

  /** Exactly one place holds a record of the project at the epoch in the phase. */
  ghost predicate Once(records: seq<Record>, project: string, epoch: int, phase: Phase) {
    exists i: nat :: OnlyAt(records, project, epoch, phase, i)
  }

  lemma {:induction false} CountNone(records: seq<Record>, project: string, epoch: int, phase: Phase)
    ensures Count(records, project, epoch, phase) == 0 <==>
            forall i :: 0 <= i < |records| ==> !Here(records[i], project, epoch, phase)
  {
    if records != [] {
      CountNone(records[..|records| - 1], project, epoch, phase);
    }
  }

  lemma {:induction false} CountOne(records: seq<Record>, project: string, epoch: int, phase: Phase)
    ensures Count(records, project, epoch, phase) == 1 <==> Once(records, project, epoch, phase)
  {
    if records != [] {
      var n := |records| - 1;
      var init := records[..n];
      CountOne(init, project, epoch, phase);
      CountNone(init, project, epoch, phase);
      if Here(records[n], project, epoch, phase) {
        if Count(init, project, epoch, phase) == 0 {
          assert OnlyAt(records, project, epoch, phase, n);
        }
        if Once(records, project, epoch, phase) {
          var i: nat :| OnlyAt(records, project, epoch, phase, i);
          assert forall j :: 0 <= j < n ==> init[j] == records[j];
        }
      } else {
        if Once(init, project, epoch, phase) {
          var i: nat :| OnlyAt(init, project, epoch, phase, i);
          assert OnlyAt(records, project, epoch, phase, i);
        }
        if Once(records, project, epoch, phase) {
          var i: nat :| OnlyAt(records, project, epoch, phase, i);
          assert OnlyAt(init, project, epoch, phase, i);
        }
      }
    }
  }

  lemma {:induction false} OnceIsCountOne(records: seq<Record>, project: string, epoch: int, phase: Phase)
    ensures Once(records, project, epoch, phase) <==> OfPhase(OfEpoch(records, project, epoch), phase) == 1
  {
    CountOfPhase(records, project, epoch, phase);
    CountOne(records, project, epoch, phase);
  }

  /** The journal tells of exactly the erasures up to the backup's epochs: one
      PREPARED and one VERIFIED at each, nothing outside them. */
  ghost predicate Agrees(epochs: Epochs, records: seq<Record>) {
    (forall p :: p in epochs ==> Safe(epochs[p]) && epochs[p] >= 0) &&
    (forall p, e :: 1 <= e <= EpochOf(epochs, p) ==> Once(records, p, e, Prepared) && Once(records, p, e, Verified)) &&
    (forall r :: r in records ==> 1 <= r.payload.epoch <= EpochOf(epochs, r.payload.projectId))
  }

  lemma {:induction false} AllowedAgrees(isDate: string -> bool, key: string, epochs: Epochs, records: seq<Record>)
    requires WellBuilt(isDate, key, records) && Allowed(epochs, records)
    ensures Agrees(epochs, records)
  {
    forall p | p in epochs ensures Safe(epochs[p]) && epochs[p] >= 0 {
      assert Mentioned(epochs, records, p);
    }
    forall p, e | 1 <= e <= EpochOf(epochs, p) ensures Once(records, p, e, Prepared) && Once(records, p, e, Verified) {
      assert Mentioned(epochs, records, p);
      assert OneTransition(records, p, e);
      OnceIsCountOne(records, p, e, Prepared);
      OnceIsCountOne(records, p, e, Verified);
    }
    forall r | r in records ensures 1 <= r.payload.epoch <= EpochOf(epochs, r.payload.projectId) {
      var i :| 0 <= i < |records| && records[i] == r;
      SequenceOf(isDate, key, records, i);
      assert Mentioned(epochs, records, r.payload.projectId);
    }
  }

  lemma {:induction false} FirstIsOnly(records: seq<Record>, i: nat)
    requires Protocol(records) && i < |records|
    ensures FirstOf(records, records[i].payload.requestId, records[i].payload.phase) == Some(records[i])
  {
    var r := records[i];
    var found := FirstOf(records, r.payload.requestId, r.payload.phase);
    assert r in records;
    var j :| 0 <= j < |records| && records[j] == found.value;
    assert records[j].payload.requestId == r.payload.requestId && records[j].payload.phase == r.payload.phase;
  }

  /** The places of an epoch's two records; whatever request wrote record i at
      that epoch wrote both. */
  lemma {:induction false} SameTransition(records: seq<Record>, project: string, epoch: int, i: nat) returns (b: nat, v: nat)
    requires Protocol(records) && i < |records| && At(records[i], project, epoch)
    requires Once(records, project, epoch, Prepared) && Once(records, project, epoch, Verified)
    ensures OnlyAt(records, project, epoch, Prepared, b) && OnlyAt(records, project, epoch, Verified, v) && b < v
    ensures records[b].payload.requestId == records[v].payload.requestId == records[i].payload.requestId
  {
    b :| OnlyAt(records, project, epoch, Prepared, b);
    v :| OnlyAt(records, project, epoch, Verified, v);
    var ofVerified := PreparedBefore(records, v);
    var ofRecord := PreparedBefore(records, i);
    assert Here(records[ofVerified], project, epoch, Prepared);
    assert Here(records[ofRecord], project, epoch, Prepared);
  }

  /** In a journal that agrees, every request is completed. */
  lemma {:induction false} AgreedCompleted(isDate: string -> bool, key: string, epochs: Epochs, records: seq<Record>, i: nat)
    requires WellBuilt(isDate, key, records) && Agrees(epochs, records) && i < |records|
    ensures Completed(records, records[i].payload.requestId)
  {
    var p, e := records[i].payload.projectId, records[i].payload.epoch;
    assert records[i] in records;
    assert Once(records, p, e, Prepared) && Once(records, p, e, Verified);
    var b, v := SameTransition(records, p, e, i);
    FirstIsOnly(records, b);
    FirstIsOnly(records, v);
    SequenceOf(isDate, key, records, b);
    SequenceOf(isDate, key, records, v);
  }

  lemma {:induction false} SequenceOf(isDate: string -> bool, key: string, records: seq<Record>, i: nat)
    requires Chained(isDate, key, records) && i < |records|
    ensures records[i].payload.sequence == i + 1 && records[i].payload.epoch >= 1
  {
    assert Links(isDate, key, records[..i], records[i]);
  }

  /** On a journal built by appends the barrier accepts exactly the epochs the
      journal agrees with. */
  lemma {:induction false} AllowedIffAgrees(isDate: string -> bool, key: string, epochs: Epochs, records: seq<Record>)
    requires WellBuilt(isDate, key, records)
    ensures Allowed(epochs, records) <==> Agrees(epochs, records)
  {
    if Allowed(epochs, records) {
      AllowedAgrees(isDate, key, epochs, records);
    }
    if Agrees(epochs, records) {
      forall r | r in records ensures Completed(records, r.payload.requestId) {
        var i :| 0 <= i < |records| && records[i] == r;
        AgreedCompleted(isDate, key, epochs, records, i);
      }
      forall p | Mentioned(epochs, records, p) ensures ProjectAllowed(records, p, EpochOf(epochs, p)) {
        forall e | 1 <= e <= EpochOf(epochs, p) ensures OneTransition(records, p, e) {
          OnceIsCountOne(records, p, e, Prepared);
          OnceIsCountOne(records, p, e, Verified);
        }
      }
    }
  }

  // ----- one epoch map to a journal --------------------------------------------------------

  lemma {:induction false} RecordAtEpoch(records: seq<Record>, project: string, epoch: int) returns (r: Record)
    requires OneTransition(records, project, epoch)
    ensures r in records && At(r, project, epoch)
  {
    OnceIsCountOne(records, project, epoch, Verified);
    var i: nat :| OnlyAt(records, project, epoch, Verified, i);
    r := records[i];
  }

  /** What a journal accepted for one epoch map says of any longer journal's. */
  lemma {:induction false} LaterEpochsNotLess(a: Epochs, b: Epochs, records: seq<Record>, more: seq<Record>, project: string)
    requires Allowed(a, records) && Allowed(b, records + more)
    ensures EpochOf(a, project) <= EpochOf(b, project)
  {
    var e := EpochOf(a, project);
    if project in b {
      assert Mentioned(b, records + more, project);
    }
    if e > 0 {
      assert Mentioned(a, records, project);
      var r := RecordAtEpoch(records, project, e);
      assert r in records + more;
      assert Mentioned(b, records + more, project);
    }
  }

  /** A journal accepts one epoch map at most, zeros aside. */
  lemma {:induction false} OneEpochMap(a: Epochs, b: Epochs, records: seq<Record>, project: string)
    requires Allowed(a, records) && Allowed(b, records)
    ensures EpochOf(a, project) == EpochOf(b, project)
  {
    assert records + [] == records;
    LaterEpochsNotLess(a, b, records, [], project);
    LaterEpochsNotLess(b, a, records, [], project);
  }

  lemma {:induction false} OneMoreIsNotOnce(records: seq<Record>, more: seq<Record>, project: string, epoch: int, phase: Phase)
    requires Once(records, project, epoch, phase) && more != [] && Here(more[0], project, epoch, phase)
    ensures !Once(records + more, project, epoch, phase)
  {
    var all := records + more;
    var i: nat :| OnlyAt(records, project, epoch, phase, i);
    assert all[i] == records[i] && all[|records|] == more[0];
    forall k: nat ensures !OnlyAt(all, project, epoch, phase, k) {
      assert Here(all[i], project, epoch, phase) && Here(all[|records|], project, epoch, phase);
    }
  }

  /** Once a journal has grown, it rejects every backup it accepted before. */
  lemma {:induction false} GrowthRejects(isDate: string -> bool, key: string, epochs: Epochs, records: seq<Record>, more: seq<Record>)
    requires more != [] && Chained(isDate, key, records + more) && Allowed(epochs, records)
    ensures !Allowed(epochs, records + more)
  {
    var all, r := records + more, more[0];
    var p, e := r.payload.projectId, r.payload.epoch;
    assert all[|records|] == r;
    SequenceOf(isDate, key, all, |records|);
    assert r in all;
    assert Mentioned(epochs, all, p);
    if e <= EpochOf(epochs, p) {
      TransitionAt(epochs, records, p, e);
      TransitionLost(records, more);
    }
    assert !ProjectAllowed(all, p, EpochOf(epochs, p));
  }

  lemma {:induction false} TransitionAt(epochs: Epochs, records: seq<Record>, project: string, epoch: int)
    requires Allowed(epochs, records) && 1 <= epoch <= EpochOf(epochs, project)
    ensures OneTransition(records, project, epoch)
  {
    assert Mentioned(epochs, records, project);
  }

  lemma {:induction false} TransitionLost(records: seq<Record>, more: seq<Record>)
    requires more != [] && OneTransition(records, more[0].payload.projectId, more[0].payload.epoch)
    ensures !OneTransition(records + more, more[0].payload.projectId, more[0].payload.epoch)
  {
    var r := more[0].payload;
    OnceIsCountOne(records, r.projectId, r.epoch, r.phase);
    OnceIsCountOne(records + more, r.projectId, r.epoch, r.phase);
    OneMoreIsNotOnce(records, more, r.projectId, r.epoch, r.phase);
  }

  /** `restoreBackup`: the source's epochs are checked against the journal, then
      the manifest's (the journal may have grown in between), and no manifest
      epoch may exceed the source's. Passing all three leaves them equal. */
  lemma {:induction false} RestoredEpochsEqual(source: Epochs, manifest: Epochs, records: seq<Record>, more: seq<Record>, project: string)
    requires Allowed(source, records) && Allowed(manifest, records + more)
    requires forall p :: p in manifest ==> manifest[p] <= EpochOf(source, p)
    ensures EpochOf(source, project) == EpochOf(manifest, project)
  {
    LaterEpochsNotLess(source, manifest, records, more, project);
    if project in source {
      assert Mentioned(source, records, project);
    }
  }
}
