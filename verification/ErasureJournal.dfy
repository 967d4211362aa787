/** The external journal of knowledge erasures: an append-only file of records,
    each signed over its content and the signature of the record before it. */
module ErasureJournal {
  import opened Wrappers

  const MAX_SAFE_INTEGER := 9007199254740991

  datatype Phase = Prepared | Verified

  datatype Payload = Payload(sequence: int, previous: Option<Hmac>, projectId: string, epoch: int,
                             requestId: string, phase: Phase, recordedAt: string)

  /** A keyed signature (HMAC, section 2 of RFC 2104) as an injective constructor;
      Other is any text of the same form that nobody signed. */
  datatype Hmac = Signed(key: string, payload: Payload) | Other(text: string)

  datatype Record = Record(payload: Payload, hmac: Hmac)

  /** A line of the file: a JSON object with the nine keys of a record, or not. */
  datatype Line = Entry(record: Record) | Garbage(text: string)

  /** The file; torn when its last line lacks the newline. */
  datatype File = File(lines: seq<Line>, torn: bool)

  datatype Error = ConfigInvalid | Corrupt | TransitionInvalid

  datatype Request = Request(projectId: string, epoch: int, requestId: string, phase: Phase)

  predicate Safe(n: int) { -MAX_SAFE_INTEGER <= n <= MAX_SAFE_INTEGER }

  /** `validRecordShape`; `isDate` is what `Date.parse` accepts. */
  predicate ValidShape(isDate: string -> bool, r: Record) {
    Safe(r.payload.sequence) && r.payload.projectId != "" && Safe(r.payload.epoch) && r.payload.epoch > 0 &&
    0 < |r.payload.requestId| <= 200 && isDate(r.payload.recordedAt)
  }

  // ----- verification --------------------------------------------------------------

  function LastHmac(records: seq<Record>): Option<Hmac> {
    if records == [] then None else Some(records[|records| - 1].hmac)
  }

  /** What verification asks of record i, given those before it. */
  predicate Links(isDate: string -> bool, key: string, before: seq<Record>, r: Record) {
    ValidShape(isDate, r) && r.payload.sequence == |before| + 1 && r.payload.previous == LastHmac(before) &&
    r.hmac == Signed(key, r.payload)
  }

  predicate Chained(isDate: string -> bool, key: string, records: seq<Record>) {
    forall i :: 0 <= i < |records| ==> Links(isDate, key, records[..i], records[i])
  }

  /** Record i of a chain: numbered i + 1, well shaped, and signed with the key over
      all it says and the signature of the record before it. */
  ghost predicate InChain(isDate: string -> bool, key: string, records: seq<Record>, i: nat)
    requires i < |records|
  {
    var (p, hmac) := (records[i].payload, records[i].hmac);
    && p.sequence == i + 1 && p.sequence <= 0x1F_FFFF_FFFF_FFFF && 1 <= p.epoch <= 0x1F_FFFF_FFFF_FFFF
    && p.projectId != "" && 1 <= |p.requestId| <= 200 && isDate(p.recordedAt)
    && p.previous == (if i == 0 then None else Some(records[i - 1].hmac)) && hmac == Signed(key, p)
  }

  /** What verification accepts, spelled out. */
  lemma {:induction false} ChainedIff(isDate: string -> bool, key: string, records: seq<Record>)
    ensures Chained(isDate, key, records) <==> forall i: nat :: i < |records| ==> InChain(isDate, key, records, i)
  {
    forall i: nat | i < |records| ensures Links(isDate, key, records[..i], records[i]) <==> InChain(isDate, key, records, i) {
      assert i > 0 ==> records[..i][i - 1] == records[i - 1];
    }
  }

  function AsLines(records: seq<Record>): (r: seq<Line>)
    ensures |r| == |records|
    ensures forall i :: 0 <= i < |records| ==> r[i] == Entry(records[i])
  {
    seq(|records|, i requires 0 <= i < |records| => Entry(records[i]))
  }

  /** The file holds exactly this chain of records. */
  ghost predicate Holds(isDate: string -> bool, key: string, file: File, records: seq<Record>) {
    !file.torn && file.lines == AsLines(records) && Chained(isDate, key, records)
  }

  /** `readAndVerifyRecords`: it answers with the chain the file holds, and fails
      exactly when the file holds none. */
  method ReadAndVerify(isDate: string -> bool, key: string, file: File) returns (r: Result<seq<Record>, Error>)
    ensures r.Ok? ==> Holds(isDate, key, file, r.value)
    ensures r.Err? ==> r.error == Corrupt && forall records :: !Holds(isDate, key, file, records)
  {
    if file.torn {
      return Err(Corrupt);
    }
    var records: seq<Record> := [];
    for i := 0 to |file.lines|
      invariant AsLines(records) == file.lines[..i]
      invariant Chained(isDate, key, records)
    {
      if file.lines[i].Garbage? {
        return Err(Corrupt);
      }
      var candidate := file.lines[i].record;
      forall other | Holds(isDate, key, file, other) ensures Links(isDate, key, records, candidate) {
        SamePrefix(file.lines, other, records, i);
        assert Links(isDate, key, other[..i], other[i]);
      }
      if !Links(isDate, key, records, candidate) {
        return Err(Corrupt);
      }
      ChainedPush(isDate, key, records, candidate);
      records := records + [candidate];
    }
    assert file.lines[..|file.lines|] == file.lines;
    return Ok(records);
  }

  lemma {:induction false} HoldsOne(isDate: string -> bool, key: string, file: File, a: seq<Record>, b: seq<Record>)
    requires Holds(isDate, key, file, a) && Holds(isDate, key, file, b)
    ensures a == b
  {
    assert AsLines(b) == file.lines[..|file.lines|];
    SamePrefix(file.lines, a, b, |file.lines|);
    assert a[..|file.lines|] == a;
  }

  lemma {:induction false} SamePrefix(lines: seq<Line>, all: seq<Record>, records: seq<Record>, i: nat)
    requires i <= |lines| && lines == AsLines(all) && AsLines(records) == lines[..i]
    ensures records == all[..i]
  {
    forall k | 0 <= k < i ensures records[k] == all[k] {
      assert AsLines(records)[k] == lines[k];
    }
  }

  lemma {:induction false} ChainedPush(isDate: string -> bool, key: string, records: seq<Record>, r: Record)
    requires Chained(isDate, key, records) && Links(isDate, key, records, r)
    ensures Chained(isDate, key, records + [r])
  {
    var all := records + [r];
    forall i | 0 <= i < |all| ensures Links(isDate, key, all[..i], all[i]) {
      assert all[..i] == records[..i];
      assert records[..|records|] == records;
    }
  }

  lemma {:induction false} ChainedPrefix(isDate: string -> bool, key: string, records: seq<Record>, n: nat)
    requires Chained(isDate, key, records) && n <= |records|
    ensures Chained(isDate, key, records[..n])
  {
    forall i | 0 <= i < n ensures Links(isDate, key, records[..n][..i], records[..n][i]) {
      assert records[..n][..i] == records[..i];
    }
  }

  /** The last signature determines the whole journal. */
  lemma {:induction false} LastHmacDetermines(isDate: string -> bool, key: string, a: seq<Record>, b: seq<Record>)
    requires Chained(isDate, key, a) && Chained(isDate, key, b) && LastHmac(a) == LastHmac(b)
    ensures a == b
    decreases |a|
  {
    if a != [] && b != [] {
      var n, m := |a| - 1, |b| - 1;
      assert Links(isDate, key, a[..n], a[n]) && Links(isDate, key, b[..m], b[m]);
      ChainedPrefix(isDate, key, a, n);
      ChainedPrefix(isDate, key, b, m);
      LastHmacDetermines(isDate, key, a[..n], b[..m]);
      assert a == a[..n] + [a[n]] && b == b[..m] + [b[m]];
    }
  }

  // ----- appending -----------------------------------------------------------------------

  function FirstOf(records: seq<Record>, requestId: string, phase: Phase): (r: Option<Record>)
    ensures r.Some? ==> r.value in records && r.value.payload.requestId == requestId && r.value.payload.phase == phase
    ensures r.None? ==> forall x :: x in records && x.payload.requestId == requestId ==> x.payload.phase != phase
  {
    if records == [] then None
    else if records[0].payload.requestId == requestId && records[0].payload.phase == phase then Some(records[0])
    else FirstOf(records[1..], requestId, phase)
  }

  predicate Conflicts(records: seq<Record>, q: Request) {
    exists r :: r in records && r.payload.requestId == q.requestId &&
      (r.payload.projectId != q.projectId || r.payload.epoch != q.epoch)
  }

  predicate ValidRequest(q: Request) {
    q.projectId != "" && 0 < |q.requestId| <= 200 && Safe(q.epoch) && q.epoch > 0
  }

  function RecordFor(key: string, records: seq<Record>, q: Request, at: string): Record {
    var payload := Payload(|records| + 1, LastHmac(records), q.projectId, q.epoch, q.requestId, q.phase, at);
    Record(payload, Signed(key, payload))
  }

  /** What an append decides over a verified journal: None is "already there". */
  function Decide(key: string, records: seq<Record>, q: Request, at: string): Result<Option<Record>, Error> {
    if !ValidRequest(q) then Err(ConfigInvalid)
    else if Conflicts(records, q) then Err(TransitionInvalid)
    else if FirstOf(records, q.requestId, q.phase).Some? then Ok(None)
    else if q.phase == Verified && FirstOf(records, q.requestId, Prepared).None? then Err(TransitionInvalid)
    else Ok(Some(RecordFor(key, records, q, at)))
  }

  /** The request names a project, itself and a positive epoch, all in bounds. */
  predicate InBounds(q: Request) {
    q.projectId != "" && 1 <= |q.requestId| <= 200 && 1 <= q.epoch <= MAX_SAFE_INTEGER
  }

  /** Every record of the request is about the same project and epoch. */
  predicate SubjectsAgree(records: seq<Record>, q: Request) {
    forall r :: r in records && r.payload.requestId == q.requestId ==> r.payload.projectId == q.projectId && r.payload.epoch == q.epoch
  }

  predicate HasPhase(records: seq<Record>, q: Request, phase: Phase) {
    exists r :: r in records && r.payload.requestId == q.requestId && r.payload.phase == phase
  }

  /** When an append adds a record, when it finds one, and which error it gives. */
  lemma {:induction false} AppendDecides(key: string, records: seq<Record>, q: Request, at: string)
    ensures Decide(key, records, q, at) == Err(ConfigInvalid) <==> !InBounds(q)
    ensures Decide(key, records, q, at) == Ok(None) <==> InBounds(q) && SubjectsAgree(records, q) && HasPhase(records, q, q.phase)
    ensures Decide(key, records, q, at) == Ok(Some(RecordFor(key, records, q, at))) <==>
      InBounds(q) && SubjectsAgree(records, q) && !HasPhase(records, q, q.phase) && (q.phase == Verified ==> HasPhase(records, q, Prepared))
    ensures Decide(key, records, q, at) == Err(TransitionInvalid) <==>
      InBounds(q) && (!SubjectsAgree(records, q) || (q.phase == Verified && !HasPhase(records, q, Verified) && !HasPhase(records, q, Prepared)))
  {
  }

  /** An append adds a record exactly if the request is in bounds, agrees with its
      earlier records, has none of its phase, and a VERIFIED has its PREPARED; the
      new record carries the request, the next number, the last signature, and its
      own signature over all of that. */
  lemma {:induction false} AppendAddsIff(key: string, records: seq<Record>, q: Request, at: string)
    ensures Appended(key, records, q, at) != records <==>
      InBounds(q) && SubjectsAgree(records, q) && !HasPhase(records, q, q.phase) && (q.phase == Verified ==> HasPhase(records, q, Prepared))
    ensures Appended(key, records, q, at) != records ==>
      var payload := Payload(|records| + 1, LastHmac(records), q.projectId, q.epoch, q.requestId, q.phase, at);
      Appended(key, records, q, at) == records + [Record(payload, Signed(key, payload))]
  {
    AppendDecides(key, records, q, at);
    assert |records + [RecordFor(key, records, q, at)]| == |records| + 1;
  }

  /** The journal after an append that is not cut short. */
  function Appended(key: string, records: seq<Record>, q: Request, at: string): seq<Record> {
    match Decide(key, records, q, at)
    case Ok(Some(r)) => records + [r]
    case _ => records
  }

  class Journal {
    var file: File

    constructor ()
      ensures file == File([], false)
    {
      file := File([], false);
    }

    /** `appendSourceErasureJournalRecord` under the journal's lock. */
    method Append(isDate: string -> bool, key: string, q: Request, at: string) returns (r: Result<Record, Error>)
      modifies this
      ensures forall records :: Holds(isDate, key, old(file), records) ==>
                file == File(AsLines(Appended(key, records, q, at)), false) &&
                Answers(r, key, records, q, at)
      ensures (forall records :: !Holds(isDate, key, old(file), records)) ==> r.Err? && file == old(file)
    {
      if !ValidRequest(q) {
        return Err(ConfigInvalid);
      }
      var read := ReadAndVerify(isDate, key, file);
      if read.Err? {
        return Err(read.error);
      }
      var records := read.value;
      forall other | Holds(isDate, key, file, other) ensures other == records {
        HoldsOne(isDate, key, file, other, records);
      }
      var decision := Decide(key, records, q, at);
      if decision.Err? {
        return Err(decision.error);
      }
      if decision.value.None? {
        return Ok(FirstOf(records, q.requestId, q.phase).value);
      }
      var record := decision.value.value;
      file := File(file.lines + [Entry(record)], false);
      assert file.lines == AsLines(records + [record]);
      return Ok(record);
    }
  }

  /** The record an append returns: the new one, or the one already there. */
  ghost predicate Answers(r: Result<Record, Error>, key: string, records: seq<Record>, q: Request, at: string) {
    match Decide(key, records, q, at)
    case Err(e) => r == Err(e)
    case Ok(None) => r.Ok? && FirstOf(records, q.requestId, q.phase) == Some(r.value)
    case Ok(Some(record)) => r == Ok(record)
  }

  // ----- what every journal built by appends keeps ---------------------------------------

  predicate SameSubject(a: Record, b: Record) {
    a.payload.projectId == b.payload.projectId && a.payload.epoch == b.payload.epoch
  }

  /** Two records of one request differ in phase, PREPARED first, and agree on
      project and epoch; a VERIFIED has its PREPARED before it. */
  ghost predicate Protocol(records: seq<Record>) {
    (forall i, j :: 0 <= i < j < |records| && records[i].payload.requestId == records[j].payload.requestId ==>
       records[i].payload.phase == Prepared && records[j].payload.phase == Verified && SameSubject(records[i], records[j])) &&
    (forall j :: 0 <= j < |records| && records[j].payload.phase == Verified ==>
       exists i :: 0 <= i < j && records[i].payload.requestId == records[j].payload.requestId)
  }

  ghost predicate WellBuilt(isDate: string -> bool, key: string, records: seq<Record>) {
    Chained(isDate, key, records) && Protocol(records)
  }

  lemma {:induction false} AppendKeepsProtocol(key: string, records: seq<Record>, q: Request, at: string)
    requires Protocol(records)
    ensures Protocol(Appended(key, records, q, at))
  {
    var all := Appended(key, records, q, at);
    if all != records {
      var r := all[|records|];
      forall i | 0 <= i < |records| && records[i].payload.requestId == q.requestId
        ensures records[i].payload.phase == Prepared && r.payload.phase == Verified && SameSubject(records[i], r)
      {
        var prepared := PreparedBefore(records, i);
        assert records[i] in records && records[prepared] in records;
      }
      if q.phase == Verified {
        var prepared := FirstOf(records, q.requestId, Prepared).value;
        var i :| 0 <= i < |records| && records[i] == prepared;
        assert all[i].payload.requestId == q.requestId;
      }
      forall j | 0 <= j < |all| && all[j].payload.phase == Verified
        ensures exists i :: 0 <= i < j && all[i].payload.requestId == all[j].payload.requestId
      {
        if j < |records| {
          var i :| 0 <= i < j && records[i].payload.requestId == records[j].payload.requestId;
          assert all[i] == records[i];
        }
      }
    }
  }

  /** The place of the PREPARED record of record i's request. */
  lemma {:induction false} PreparedBefore(records: seq<Record>, i: nat) returns (p: nat)
    requires Protocol(records) && i < |records|
    ensures p <= i && records[p].payload.requestId == records[i].payload.requestId &&
            records[p].payload.phase == Prepared && SameSubject(records[p], records[i])
  {
    p := i;
    if records[i].payload.phase == Verified {
      p :| 0 <= p < i && records[p].payload.requestId == records[i].payload.requestId;
    }
  }

  /** An append keeps the chain, as long as its sequence number is a safe integer. */
  lemma {:induction false} AppendKeepsChain(isDate: string -> bool, key: string, records: seq<Record>, q: Request, at: string)
    requires Chained(isDate, key, records) && isDate(at) && |records| < MAX_SAFE_INTEGER
    ensures Chained(isDate, key, Appended(key, records, q, at))
  {
    var all := Appended(key, records, q, at);
    if all != records {
      ChainedPush(isDate, key, records, all[|records|]);
    }
  }

  /** Appending the same request again adds nothing and finds the same record. */
  lemma {:induction false} AppendTwice(key: string, records: seq<Record>, q: Request, at: string, later: string)
    requires Decide(key, records, q, at).Ok?
    ensures var once := Appended(key, records, q, at);
            Appended(key, once, q, later) == once && Decide(key, once, q, later) == Ok(None) &&
            (once != records ==> FirstOf(once, q.requestId, q.phase) == Some(RecordFor(key, records, q, at)))
  {
    var once := Appended(key, records, q, at);
    if once != records {
      FirstOfPush(records, once[|records|]);
      forall r | r in once && r.payload.requestId == q.requestId
        ensures r.payload.projectId == q.projectId && r.payload.epoch == q.epoch
      {
        if r in records {
          assert !Conflicts(records, q);
        }
      }
    }
  }

  lemma {:induction false} FirstOfPush(records: seq<Record>, r: Record)
    requires FirstOf(records, r.payload.requestId, r.payload.phase).None?
    ensures FirstOf(records + [r], r.payload.requestId, r.payload.phase) == Some(r)
  {
    if records == [] {
      assert records + [r] == [r];
    } else {
      assert (records + [r])[1..] == records[1..] + [r];
      FirstOfPush(records[1..], r);
    }
  }

  // ----- runs with crashes -------------------------------------------------------------------

  /** One use of the journal under its lock. A torn append is one whose process
      died while the line was being written; a process that dies after the line
      is on disk looks, to the file, like an append. */
  datatype Event = Append(request: Request, at: string) | TornAppend(request: Request, at: string)

  datatype State = Intact(records: seq<Record>) | Torn(records: seq<Record>)

  function Step(key: string, s: State, e: Event): State {
    match s
    case Torn(_) => s
    case Intact(records) =>
      match e
      case Append(q, at) => Intact(Appended(key, records, q, at))
      case TornAppend(q, at) => if Appended(key, records, q, at) == records then s else Torn(records)
  }

  function Run(key: string, events: seq<Event>): State {
    if events == [] then Intact([]) else Step(key, Run(key, events[..|events| - 1]), events[|events| - 1])
  }

  /** What the file of a state is; the torn tail itself is never read. */
  function FileOf(s: State): File { File(AsLines(s.records), s.Torn?) }

  /** Every journal any run of appends leaves behind is well built, so it passes
      verification unless the last append was cut short; and it never holds more
      records than there were appends. */
  lemma {:induction false} RunsAreWellBuilt(isDate: string -> bool, key: string, events: seq<Event>)
    requires |events| <= MAX_SAFE_INTEGER
    requires forall e :: e in events ==> isDate(e.at)
    ensures WellBuilt(isDate, key, Run(key, events).records) && |Run(key, events).records| <= |events|
  {
    if events != [] {
      var init, last := events[..|events| - 1], events[|events| - 1];
      assert last in events;
      RunsAreWellBuilt(isDate, key, init);
      var before := Run(key, init);
      if before.Intact? {
        AppendKeepsChain(isDate, key, before.records, last.request, last.at);
        AppendKeepsProtocol(key, before.records, last.request, last.at);
      }
    }
  }

  /** A torn journal stays as it is: no later append writes to it. */
  lemma {:induction false} TornIsFinal(key: string, before: seq<Event>, after: seq<Event>)
    requires Run(key, before).Torn?
    ensures Run(key, before + after) == Run(key, before)
    decreases |after|
  {
    if after == [] {
      assert before + after == before;
    } else {
      var n := |after| - 1;
      assert (before + after)[..|before + after| - 1] == before + after[..n];
      TornIsFinal(key, before, after[..n]);
    }
  }

  /** Verification refuses exactly the torn states of a run. */
  method VerifyRun(isDate: string -> bool, key: string, events: seq<Event>) returns (r: Result<seq<Record>, Error>)
    requires |events| <= MAX_SAFE_INTEGER
    requires forall e :: e in events ==> isDate(e.at)
    ensures match Run(key, events)
            case Intact(records) => r == Ok(records)
            case Torn(_) => r == Err(Corrupt)
  {
    RunsAreWellBuilt(isDate, key, events);
    var s := Run(key, events);
    r := ReadAndVerify(isDate, key, FileOf(s));
    if s.Intact? {
      assert Holds(isDate, key, FileOf(s), s.records);
      if r.Ok? {
        HoldsOne(isDate, key, FileOf(s), r.value, s.records);
      }
    }
  }
}
