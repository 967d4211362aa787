/** The PostgreSQL repository under concurrent writers: each call locks the
    current row, inserts its revision under a unique key and commits. The server's
    transaction and the client's view of it are kept apart: when the
    acknowledgement of a commit or rollback is lost, the client reads the outcome
    back while the server may still be about to land or drop the transaction. */
module AiConfigurationStore {
  import opened Wrappers
  import opened AiConfiguration

  /** How the columns of type uuid and timestamptz spell what is written to them. */
  datatype Columns = Columns(uuid: string -> string, time: string -> string)

  function Stored(columns: Columns, c: Configuration): Configuration {
    c.(credentialId := columns.uuid(c.credentialId), updatedAt := columns.time(c.updatedAt))
  }

  /** The configuration is spelled the way the database spells it. */
  predicate Canonical(columns: Columns, c: Configuration) { Stored(columns, c) == c }

  /** The server's side of a call. `existed` says whether the locked row was
      there. Refused has nothing to commit: its read or its insert already
      decided for CONFLICT. Committing has been sent its COMMIT but has not
      acknowledged it. */
  datatype Work =
    | Fresh
    | Locked(existed: bool)
    | Refused(existed: bool)
    | Written(existed: bool)
    | Committing(existed: bool)
    | Landed
    | Dropped

  /** One read-back: whether the query failed, and whether the call's own commit
      had landed by then, which the call itself does not know. */
  datatype Reading = Reading(failed: bool, landed: bool)

  /** How a call learned its outcome. */
  datatype Evidence = Transaction | RevisionRead(first: Reading) | CurrentRead(first: Reading, second: Reading)

  datatype Answer = Returned(outcome: Outcome) | Threw

  /** The client's side. In Unread the revision row was not read: the query
      failed or found nothing. */
  datatype Phase = Working | Unknown | Unread(first: Reading) | Done(answer: Answer, evidence: Evidence)

  datatype Call = Call(expected: int, next: Configuration, work: Work, phase: Phase)

  type CallId = int

  datatype State = State(store: Store, calls: map<CallId, Call>)

  datatype Event =
    | Begin(id: CallId, expected: int, next: Configuration)
    | SelectForUpdate(id: CallId)
    | InsertRevision(id: CallId)
    | Finish(id: CallId)            // the transaction ends and the client hears of it
    | LoseFinish(id: CallId)        // its end was asked for, the acknowledgement is lost
    | Abort(id: CallId, acknowledged: bool)
    | Land(id: CallId)              // the server carries out an unacknowledged commit
    | Drop(id: CallId)              // the server ends an abandoned transaction without effect
    | ReadRevision(id: CallId, fails: bool)
    | ReadCurrent(id: CallId, fails: bool)

  predicate Open(w: Work) { !w.Landed? && !w.Dropped? }

  /** The call's uncommitted row stands under its revision key. */
  predicate Writes(w: Work) { w.Written? || w.Committing? }

  /** The call's transaction holds the lock on the project's current row. */
  predicate HoldsRow(w: Work) { (w.Locked? || w.Refused? || Writes(w)) && w.existed }

  predicate RowFree(s: State, project: ProjectId) {
    forall id :: id in s.calls ==> !(s.calls[id].next.projectId == project && HoldsRow(s.calls[id].work))
  }

  predicate KeyFree(s: State, project: ProjectId, revision: int) {
    forall id :: id in s.calls ==>
      !(s.calls[id].next.projectId == project && s.calls[id].next.revision == revision && Writes(s.calls[id].work))
  }

  predicate At(c: Call, phase: Phase) { c.phase == phase }

  /** The transaction is ready to end. */
  predicate Ready(w: Work) { w.Written? || w.Refused? }

  predicate Enabled(s: State, e: Event) {
    match e
    case Begin(id, _, _) => id !in s.calls
    case SelectForUpdate(id) => id in s.calls && At(s.calls[id], Working) && s.calls[id].work.Fresh? && RowFree(s, s.calls[id].next.projectId)
    case InsertRevision(id) =>
      id in s.calls && At(s.calls[id], Working) && s.calls[id].work.Locked? && KeyFree(s, s.calls[id].next.projectId, s.calls[id].next.revision)
    case Finish(id) => id in s.calls && At(s.calls[id], Working) && Ready(s.calls[id].work)
    case LoseFinish(id) => id in s.calls && At(s.calls[id], Working) && Ready(s.calls[id].work)
    case Abort(id, _) => id in s.calls && At(s.calls[id], Working) && !s.calls[id].work.Refused?
    case Land(id) => id in s.calls && s.calls[id].work.Committing?
    case Drop(id) => id in s.calls && !At(s.calls[id], Working) && Open(s.calls[id].work)
    case ReadRevision(id, _) => id in s.calls && At(s.calls[id], Unknown)
    case ReadCurrent(id, _) => id in s.calls && s.calls[id].phase.Unread?
  }

  function Moved(s: State, id: CallId, work: Work, phase: Phase): State
    requires id in s.calls
  {
    s.(calls := s.calls[id := s.calls[id].(work := work, phase := phase)])
  }

  /** The outcome a call reports for its own configuration. */
  function Success(c: Call): Outcome { if c.expected == 0 then Created else Updated }

  function Apply(columns: Columns, s: State, e: Event): State
    requires Enabled(s, e)
  {
    if e.Begin? then s.(calls := s.calls[e.id := Call(e.expected, e.next, Fresh, Working)])
    else
      var id, c := e.id, s.calls[e.id];
      var key := (c.next.projectId, c.next.revision);
      match e
      case SelectForUpdate(_) =>
        var existed := c.next.projectId in s.store.current;
        if Revision(s.store, c.next.projectId) != c.expected || c.next.revision != c.expected + 1
        then Moved(s, id, Refused(existed), Working)
        else Moved(s, id, Locked(existed), Working)
      case InsertRevision(_) =>
        Moved(s, id, if key in s.store.history then Refused(c.work.existed) else Written(c.work.existed), Working)
      case Finish(_) =>
        if c.work.Refused? then Moved(s, id, Dropped, Done(Returned(Conflict), Transaction))
        else Moved(s.(store := Put(s.store, Stored(columns, c.next))), id, Landed,
                   Done(Returned(if c.work.existed then Updated else Created), Transaction))
      case LoseFinish(_) =>
        Moved(s, id, if c.work.Written? then Committing(c.work.existed) else c.work, Unknown)
      case Abort(_, acknowledged) =>
        if acknowledged then Moved(s, id, Dropped, Done(Threw, Transaction)) else Moved(s, id, c.work, Unknown)
      case Land(_) => Moved(s.(store := Put(s.store, Stored(columns, c.next))), id, Landed, c.phase)
      case Drop(_) => Moved(s, id, Dropped, c.phase)
      case ReadRevision(_, fails) =>
        var reading := Reading(fails, c.work.Landed?);
        Moved(s, id, c.work,
              if fails || key !in s.store.history then Unread(reading)
              else Done(Returned(if s.store.history[key] == c.next then Success(c) else Conflict), RevisionRead(reading)))
      case ReadCurrent(_, fails) =>
        Moved(s, id, c.work,
              Done(if !fails && Revision(s.store, c.next.projectId) > c.expected then Returned(Conflict) else Threw,
                   CurrentRead(c.phase.first, Reading(fails, c.work.Landed?))))
  }

  ghost predicate Steps(columns: Columns, before: State, e: Event, after: State) {
    Enabled(before, e) && after == Apply(columns, before, e)
  }

  /** A run from the empty store. */
  ghost predicate Trace(columns: Columns, states: seq<State>, events: seq<Event>) {
    |states| == |events| + 1 && states[0] == State(EMPTY, map[]) &&
    forall i: nat :: i < |events| ==> Steps(columns, states[i], events[i], states[i + 1])
  }

  // ----- the invariant ------------------------------------------------------------------

  /** The call's configuration is stored, as the database spells it, under its
      own revision. */
  predicate Holds(columns: Columns, store: Store, c: Call) {
    var key := (c.next.projectId, c.next.revision);
    c.next.revision == c.expected + 1 && key in store.history && store.history[key] == Stored(columns, c.next) &&
    Revision(store, c.next.projectId) >= c.next.revision
  }

  /** What the server's side of a call says about the store. */
  ghost predicate WorkSound(columns: Columns, store: Store, c: Call) {
    var now := Revision(store, c.next.projectId);
    match c.work
    case Locked(existed) =>
      c.next.revision == c.expected + 1 && if existed then c.expected == now > 0 else c.expected == 0
    case Written(existed) => c.next.revision == c.expected + 1 && c.expected == now && (existed <==> now > 0)
    case Committing(existed) =>
      c.next.revision == c.expected + 1 && c.expected == now && (existed <==> now > 0) && !c.phase.Working?
    case Landed => Holds(columns, store, c) && !c.phase.Working?
    case _ => true
  }

  /** A reading never saw a commit land that is not landed now. */
  predicate Seen(reading: Reading, c: Call) { reading.landed ==> c.work.Landed? }

  /** What the client's side of a call says about the store and its own commit. */
  ghost predicate PhaseSound(columns: Columns, store: Store, c: Call) {
    var key := (c.next.projectId, c.next.revision);
    match c.phase
    case Unread(first) => Seen(first, c) && (first.landed ==> first.failed)
    case Done(answer, Transaction) =>
      !c.work.Committing? &&
      if c.work.Landed? then answer == Returned(Success(c)) else answer == Threw || answer == Returned(Conflict)
    case Done(answer, RevisionRead(first)) =>
      !first.failed && (c.work.Landed? <==> first.landed) && !c.work.Committing? && key in store.history &&
      answer == Returned(if store.history[key] == c.next then Success(c) else Conflict)
    case Done(answer, CurrentRead(first, second)) =>
      && Seen(first, c) && Seen(second, c) && (first.landed ==> first.failed && second.landed)
      && (answer == Threw || answer == Returned(Conflict))
      && (c.work.Landed? ==> (answer == Returned(Conflict) <==> second.landed && !second.failed))
      && (c.work.Committing? ==> answer == Threw)
    case _ => true
  }

  ghost predicate Sound(columns: Columns, store: Store, c: Call) {
    WorkSound(columns, store, c) && PhaseSound(columns, store, c)
  }

  /** No two calls hold one project's row, nor one revision key. */
  predicate Apart(a: Call, b: Call) {
    a.next.projectId == b.next.projectId ==>
      !(HoldsRow(a.work) && HoldsRow(b.work)) &&
      !(Writes(a.work) && Writes(b.work) && a.next.revision == b.next.revision)
  }

  ghost predicate Exclusive(s: State) {
    forall a, b :: a in s.calls && b in s.calls && a != b ==> Apart(s.calls[a], s.calls[b])
  }

  ghost predicate Inv(columns: Columns, s: State) {
    WellNumbered(s.store) && (forall id :: id in s.calls ==> Sound(columns, s.store, s.calls[id])) && Exclusive(s)
  }

  /** Committing puts exactly the next revision on top. */
  lemma {:induction false} PutNext(columns: Columns, store: Store, c: Call)
    requires WellNumbered(store) && c.next.revision == c.expected + 1 && c.expected == Revision(store, c.next.projectId)
    ensures Save(store, c.expected, Stored(columns, c.next)) == (Put(store, Stored(columns, c.next)), Success(c))
    ensures WellNumbered(Put(store, Stored(columns, c.next)))
    ensures Holds(columns, Put(store, Stored(columns, c.next)), c)
  {
    assert Numbered(store, c.next.projectId);
    SaveKeepsNumbers(store, c.expected, Stored(columns, c.next));
  }

  /** What another call's commit leaves of a call that holds no conflicting lock. */
  lemma {:induction false} CommitKeepsOther(columns: Columns, store: Store, c: Call, other: Call)
    requires WellNumbered(store) && Writes(c.work) && Sound(columns, store, c)
    requires Sound(columns, store, other) && Apart(c, other)
    ensures Sound(columns, Put(store, Stored(columns, c.next)), other)
  {
    assert Numbered(store, c.next.projectId);
  }

  /** A call that holds nothing more than before leaves the locks exclusive. */
  lemma {:induction false} MovedApart(s: State, after: State, id: CallId)
    requires Exclusive(s) && id in s.calls && id in after.calls
    requires after.calls == s.calls[id := s.calls[id].(work := after.calls[id].work, phase := after.calls[id].phase)]
    requires HoldsRow(after.calls[id].work) ==> HoldsRow(s.calls[id].work)
    requires Writes(after.calls[id].work) ==> Writes(s.calls[id].work)
    ensures Exclusive(after)
  {
    forall a, b | a in after.calls && b in after.calls && a != b ensures Apart(after.calls[a], after.calls[b]) {
      assert Apart(s.calls[a], s.calls[b]);
    }
  }

  /** The two steps that carry out a commit. */
  predicate Commits(s: State, e: Event)
    requires Enabled(s, e)
  {
    e.Land? || (e.Finish? && s.calls[e.id].work.Written?)
  }

  lemma {:induction false} CommitKeeps(columns: Columns, s: State, e: Event)
    requires Inv(columns, s) && Enabled(s, e) && Commits(s, e)
    ensures Inv(columns, Apply(columns, s, e))
  {
    var c := s.calls[e.id];
    var after := Apply(columns, s, e);
    assert Sound(columns, s.store, c) && Numbered(s.store, c.next.projectId);
    PutNext(columns, s.store, c);
    forall other | other in after.calls ensures Sound(columns, after.store, after.calls[other]) {
      if other != e.id {
        assert Apart(c, s.calls[other]);
        CommitKeepsOther(columns, s.store, c, s.calls[other]);
      }
    }
    MovedApart(s, after, e.id);
  }

  lemma {:induction false} SelectKeeps(columns: Columns, s: State, e: Event)
    requires Inv(columns, s) && Enabled(s, e) && e.SelectForUpdate?
    ensures Inv(columns, Apply(columns, s, e))
  {
    var after := Apply(columns, s, e);
    assert Sound(columns, s.store, s.calls[e.id]) && Numbered(s.store, s.calls[e.id].next.projectId);
    forall a, b | a in after.calls && b in after.calls && a != b ensures Apart(after.calls[a], after.calls[b]) {
      assert Apart(s.calls[a], s.calls[b]);
    }
  }

  lemma {:induction false} InsertKeeps(columns: Columns, s: State, e: Event)
    requires Inv(columns, s) && Enabled(s, e) && e.InsertRevision?
    ensures Inv(columns, Apply(columns, s, e))
  {
    var after := Apply(columns, s, e);
    assert Sound(columns, s.store, s.calls[e.id]) && Numbered(s.store, s.calls[e.id].next.projectId);
    forall a, b | a in after.calls && b in after.calls && a != b ensures Apart(after.calls[a], after.calls[b]) {
      assert Apart(s.calls[a], s.calls[b]);
    }
  }

  /** A step after which the store is the same and the call is sound and holds no
      more than before. */
  lemma {:induction false} QuietKeeps(columns: Columns, s: State, id: CallId, work: Work, phase: Phase)
    requires Inv(columns, s) && id in s.calls && Sound(columns, s.store, s.calls[id].(work := work, phase := phase))
    requires (HoldsRow(work) ==> HoldsRow(s.calls[id].work)) && (Writes(work) ==> Writes(s.calls[id].work))
    ensures Inv(columns, Moved(s, id, work, phase))
  {
    MovedApart(s, Moved(s, id, work, phase), id);
  }

  /** The steps that neither commit nor lock leave their call sound. */
  lemma {:induction false} QuietSound(columns: Columns, s: State, e: Event)
    requires Inv(columns, s) && Enabled(s, e) && !e.Begin? && !e.SelectForUpdate? && !e.InsertRevision? && !Commits(s, e)
    ensures var after := Apply(columns, s, e).calls[e.id];
      && Sound(columns, s.store, after) && (HoldsRow(after.work) ==> HoldsRow(s.calls[e.id].work))
      && (Writes(after.work) ==> Writes(s.calls[e.id].work)) && Apply(columns, s, e) == Moved(s, e.id, after.work, after.phase)
  {
    assert Sound(columns, s.store, s.calls[e.id]) && Numbered(s.store, s.calls[e.id].next.projectId);
  }

  lemma {:induction false} BeginKeeps(columns: Columns, s: State, e: Event)
    requires Inv(columns, s) && Enabled(s, e) && e.Begin?
    ensures Inv(columns, Apply(columns, s, e))
  {
    var after := Apply(columns, s, e);
    forall a, b | a in after.calls && b in after.calls && a != b ensures Apart(after.calls[a], after.calls[b]) {
      if a != e.id && b != e.id {
        assert Apart(s.calls[a], s.calls[b]);
      }
    }
  }

  lemma {:induction false} StepKeeps(columns: Columns, s: State, e: Event)
    requires Inv(columns, s) && Enabled(s, e)
    ensures Inv(columns, Apply(columns, s, e))
  {
    if e.Begin? {
      BeginKeeps(columns, s, e);
    } else if e.SelectForUpdate? {
      SelectKeeps(columns, s, e);
    } else if e.InsertRevision? {
      InsertKeeps(columns, s, e);
    } else if Commits(s, e) {
      CommitKeeps(columns, s, e);
    } else {
      var after := Apply(columns, s, e).calls[e.id];
      QuietSound(columns, s, e);
      QuietKeeps(columns, s, e.id, after.work, after.phase);
    }
  }

  /** In every run, in every state: each project's history is exactly revisions
      1..n, the current row is revision n, and each call is sound. */
  lemma {:induction false} RunKeepsInvariant(columns: Columns, states: seq<State>, events: seq<Event>, i: nat)
    requires Trace(columns, states, events) && i < |states|
    ensures Inv(columns, states[i])
  {
    if i == 0 {
      forall p ensures Numbered(EMPTY, p) {
      }
    } else {
      RunKeepsInvariant(columns, states, events, i - 1);
      assert Steps(columns, states[i - 1], events[i - 1], states[i]);
      StepKeeps(columns, states[i - 1], events[i - 1]);
    }
  }

  /** A stored revision is never changed or removed. */
  lemma {:induction false} StepKeepsHistory(columns: Columns, s: State, e: Event, key: (ProjectId, int))
    requires Inv(columns, s) && Enabled(s, e) && key in s.store.history
    ensures var after := Apply(columns, s, e).store;
            key in after.history && after.history[key] == s.store.history[key]
  {
    if Commits(s, e) {
      var c := s.calls[e.id];
      assert Sound(columns, s.store, c);
      PutNext(columns, s.store, c);
      SaveKeepsHistory(s.store, c.expected, Stored(columns, c.next), key);
    }
  }

  // ----- refinement of the in-memory repository -----------------------------------------

  /** What the in-memory repository would do with the call at this moment. */
  function Reference(columns: Columns, s: State, id: CallId): (Store, Outcome)
    requires id in s.calls
  {
    Save(s.store, s.calls[id].expected, Stored(columns, s.calls[id].next))
  }

  /** The call is refused for good, or has answered CONFLICT, without a commit. */
  predicate TurnedAway(c: Call) {
    c.work.Refused? || (c.phase.Done? && c.phase.answer == Returned(Conflict) && !c.work.Landed?)
  }

  /** Every step either leaves the store as it is or performs the in-memory save
      of the call it belongs to; and a call is turned away at a moment at which
      that save is refused. */
  lemma {:induction false} StepRefines(columns: Columns, s: State, e: Event)
    requires Inv(columns, s) && Enabled(s, e)
    ensures var after := Apply(columns, s, e);
            if Commits(s, e) then Reference(columns, s, e.id) == (after.store, Success(s.calls[e.id])) else after.store == s.store
    ensures !e.Begin? && TurnedAway(Apply(columns, s, e).calls[e.id]) && !TurnedAway(s.calls[e.id]) ==>
              Reference(columns, s, e.id).1 == Conflict
  {
    if !e.Begin? {
      var c := s.calls[e.id];
      assert Sound(columns, s.store, c);
      assert Numbered(s.store, c.next.projectId);
      if Commits(s, e) {
        PutNext(columns, s.store, c);
      }
    }
  }

  /** A call that answers CONFLICT without a commit had, at some moment of the
      run, its save refused by the in-memory repository. */
  lemma {:induction false} ConflictHasMoment(columns: Columns, states: seq<State>, events: seq<Event>, i: nat, id: CallId) returns (k: nat)
    requires Trace(columns, states, events) && i < |states| && id in states[i].calls && TurnedAway(states[i].calls[id])
    ensures k < i && id in states[k].calls && Reference(columns, states[k], id).1 == Conflict
  {
    assert i > 0;
    k := i - 1;
    assert Steps(columns, states[k], events[k], states[i]);
    RunKeepsInvariant(columns, states, events, k);
    StepRefines(columns, states[k], events[k]);
    if id in states[k].calls && TurnedAway(states[k].calls[id]) {
      k := ConflictHasMoment(columns, states, events, i - 1, id);
    }
  }

  // ----- what an answer means to the caller -----------------------------------------------

  /** Success means that the caller's configuration stands at its revision, to
      the letter if it was spelled canonically or was read back. */
  lemma {:induction false} SuccessMeansStored(columns: Columns, states: seq<State>, events: seq<Event>, i: nat, id: CallId)
    requires Trace(columns, states, events) && i < |states| && id in states[i].calls
    requires var phase := states[i].calls[id].phase; phase.Done? && phase.answer.Returned? && phase.answer.outcome != Conflict
    ensures var c := states[i].calls[id]; var key := (c.next.projectId, c.next.revision);
            && key in states[i].store.history
            && (states[i].store.history[key] == c.next || states[i].store.history[key] == Stored(columns, c.next))
            && (Canonical(columns, c.next) ==> states[i].store.history[key] == c.next)
            && c.phase.answer == Returned(Success(c))
  {
    RunKeepsInvariant(columns, states, events, i);
    assert Sound(columns, states[i].store, states[i].calls[id]);
  }

  /** A call that lost its acknowledgement, whose commit has taken effect and that
      has answered returned CONFLICT in exactly three cases: it read its own
      revision back and its configuration was not spelled as the database spells
      it; or it read the current row after its commit landed, having either failed
      to read its revision or read it before the commit landed. */
  lemma {:induction false} ConflictWithOwnCommit(columns: Columns, states: seq<State>, events: seq<Event>, i: nat, id: CallId)
    requires Trace(columns, states, events) && i < |states| && id in states[i].calls
    requires var c := states[i].calls[id]; c.work.Landed? && c.phase.Done? && !c.phase.evidence.Transaction?
    ensures var c := states[i].calls[id];
            c.phase.answer == Returned(Conflict) <==>
              match c.phase.evidence
              case RevisionRead(_) => !Canonical(columns, c.next)
              case CurrentRead(first, second) => second.landed && !second.failed && (first.failed || !first.landed)
              case Transaction => false
  {
    RunKeepsInvariant(columns, states, events, i);
    assert Sound(columns, states[i].store, states[i].calls[id]);
  }

  /** A commit lands between the two reads of its call: a successful read of the
      revision, the landing, and a later step. */
  ghost predicate LandsBetween(events: seq<Event>, id: CallId, i: nat)
    requires i <= |events|
  {
    exists r, l :: 0 <= r < l < i && events[r] == ReadRevision(id, false) && events[l] == Land(id)
  }

  /** In a run, CONFLICT means that the call added nothing and never will, unless
      its configuration was not spelled canonically, the read of its revision
      failed, or its commit landed after that read. */
  lemma {:induction false} ConflictAddsNothing(columns: Columns, states: seq<State>, events: seq<Event>, i: nat, k: nat, id: CallId)
    requires Trace(columns, states, events) && i <= k < |states| && id in states[i].calls
    requires var phase := states[i].calls[id].phase; phase.Done? && phase.answer == Returned(Conflict)
    requires Canonical(columns, states[i].calls[id].next)
    requires (forall j :: 0 <= j < i ==> events[j] != ReadRevision(id, true)) && !LandsBetween(events, id, i)
    ensures id in states[k].calls && !states[k].calls[id].work.Landed? && !states[k].calls[id].work.Committing?
  {
    if i == k {
      RunKeepsInvariant(columns, states, events, i);
      assert Sound(columns, states[i].store, states[i].calls[id]);
      ReadsInOrder(columns, states, events, i, id);
    } else {
      ConflictAddsNothing(columns, states, events, i, k - 1, id);
      assert Steps(columns, states[k - 1], events[k - 1], states[k]);
      DoneStays(columns, states, events, i, k - 1, id);
    }
  }

  /** An answer is final. */
  lemma {:induction false} DoneStays(columns: Columns, states: seq<State>, events: seq<Event>, i: nat, k: nat, id: CallId)
    requires Trace(columns, states, events) && i <= k < |states| && id in states[i].calls && states[i].calls[id].phase.Done?
    ensures id in states[k].calls && states[k].calls[id].phase == states[i].calls[id].phase
  {
    if i < k {
      DoneStays(columns, states, events, i, k - 1, id);
      assert Steps(columns, states[k - 1], events[k - 1], states[k]);
    }
  }

  /** What the readings of a call say about the events of its run. */
  lemma {:induction false} ReadsInOrder(columns: Columns, states: seq<State>, events: seq<Event>, i: nat, id: CallId)
    requires Trace(columns, states, events) && i < |states| && id in states[i].calls
    requires forall j :: 0 <= j < i ==> events[j] != ReadRevision(id, true)
    ensures var c := states[i].calls[id];
            && (c.phase.Unread? ==>
                  !c.phase.first.failed && (exists r :: 0 <= r < i && events[r] == ReadRevision(id, false)) &&
                  (c.work.Landed? ==> LandsBetween(events, id, i)))
            && (c.phase.Done? && c.phase.evidence.CurrentRead? && c.phase.evidence.second.landed ==> LandsBetween(events, id, i))
  {
    if i > 0 {
      var before, e := states[i - 1], events[i - 1];
      assert Steps(columns, before, e, states[i]);
      if id in before.calls {
        ReadsInOrder(columns, states, events, i - 1, id);
        RunKeepsInvariant(columns, states, events, i - 1);
        ReadStep(columns, before, e, id);
        if e == Land(id) && before.calls[id].phase.Unread? {
          var r :| 0 <= r < i - 1 && events[r] == ReadRevision(id, false);
          assert events[r] == ReadRevision(id, false) && events[i - 1] == Land(id);
          assert LandsBetween(events, id, i);
        }
        assert LandsBetween(events, id, i - 1) ==> LandsBetween(events, id, i);
      }
    }
  }

  /** What one step does to the readings of a call. */
  lemma {:induction false} ReadStep(columns: Columns, s: State, e: Event, id: CallId)
    requires Inv(columns, s) && Enabled(s, e) && id in s.calls
    ensures var c, after := s.calls[id], Apply(columns, s, e).calls[id];
            && (after.phase.Unread? && !c.phase.Unread? ==>
                  e.ReadRevision? && e.id == id && after.phase.first.failed == e.fails && (after.work.Landed? ==> e.fails))
            && (after.phase.Unread? && c.phase.Unread? ==> after.phase == c.phase && (after.work.Landed? && !c.work.Landed? ==> e == Land(id)))
            && (after.phase.Done? && after.phase.evidence.CurrentRead? && !c.phase.Done? ==>
                  c.phase.Unread? && (after.phase.evidence.second.landed <==> c.work.Landed?))
            && (c.phase.Done? ==> after.phase == c.phase)
  {
    assert Sound(columns, s.store, s.calls[id]);
  }

  // ----- the three cases happen ------------------------------------------------------------

  /** One more step of a run. */
  lemma {:induction false} Prolonged(columns: Columns, states: seq<State>, events: seq<Event>, e: Event) returns (more: seq<State>, longer: seq<Event>)
    requires Trace(columns, states, events) && Enabled(states[|events|], e)
    ensures Trace(columns, more, longer) && longer == events + [e]
    ensures more == states + [Apply(columns, states[|events|], e)]
  {
    more, longer := states + [Apply(columns, states[|events|], e)], events + [e];
    forall i: nat | i < |longer| ensures Steps(columns, more[i], longer[i], more[i + 1]) {
      assert i < |events| ==> Steps(columns, states[i], events[i], states[i + 1]);
    }
  }

  function LostEvents(next: Configuration): seq<Event> {
    [Begin(0, 0, next), SelectForUpdate(0), InsertRevision(0), LoseFinish(0)]
  }

  /** A first save whose commit is sent and whose acknowledgement is lost. */
  lemma {:induction false} LostSave(columns: Columns, next: Configuration) returns (states: seq<State>, events: seq<Event>)
    requires next.revision == 1
    ensures Trace(columns, states, events) && events == LostEvents(next)
    ensures states[|events|] == State(EMPTY, map[0 := Call(0, next, Committing(false), Unknown)])
  {
    events := LostEvents(next);
    var s0 := State(EMPTY, map[]);
    var s1 := Apply(columns, s0, events[0]);
    var s2 := Apply(columns, s1, events[1]);
    var s3 := Apply(columns, s2, events[2]);
    var s4 := Apply(columns, s3, events[3]);
    states := [s0, s1, s2, s3, s4];
    assert s4.calls == map[0 := Call(0, next, Committing(false), Unknown)];
  }

  /** The run ends with call 0 told CONFLICT although its own commit is the
      current revision. */
  ghost predicate ConflictOverOwn(columns: Columns, next: Configuration, s: State) {
    0 in s.calls && s.calls[0].next == next && s.calls[0].work.Landed? && s.calls[0].phase.Done? &&
    s.calls[0].phase.answer == Returned(Conflict) &&
    next.projectId in s.store.current && s.store.current[next.projectId] == Stored(columns, next)
  }

  /** The commit lands and the read of the revision fails. */
  lemma {:induction false} ConflictDespiteCommit(columns: Columns, next: Configuration) returns (states: seq<State>, events: seq<Event>)
    requires next.revision == 1
    ensures Trace(columns, states, events) && ConflictOverOwn(columns, next, states[|events|])
    ensures events == LostEvents(next) + [Land(0), ReadRevision(0, true), ReadCurrent(0, false)]
  {
    states, events := LostSave(columns, next);
    states, events := Prolonged(columns, states, events, Land(0));
    states, events := Prolonged(columns, states, events, ReadRevision(0, true));
    states, events := Prolonged(columns, states, events, ReadCurrent(0, false));
  }

  /** No read fails and the spelling is canonical, but the commit lands after the
      revision was looked for and before the current row is read. */
  lemma {:induction false} ConflictWhenLandingBetween(columns: Columns, next: Configuration) returns (states: seq<State>, events: seq<Event>)
    requires next.revision == 1
    ensures Trace(columns, states, events) && ConflictOverOwn(columns, next, states[|events|])
    ensures events == LostEvents(next) + [ReadRevision(0, false), Land(0), ReadCurrent(0, false)]
  {
    states, events := LostSave(columns, next);
    states, events := Prolonged(columns, states, events, ReadRevision(0, false));
    states, events := Prolonged(columns, states, events, Land(0));
    states, events := Prolonged(columns, states, events, ReadCurrent(0, false));
  }

  /** The commit lands and is read back, but the database spells it differently. */
  lemma {:induction false} ConflictOverSpelling(columns: Columns, next: Configuration) returns (states: seq<State>, events: seq<Event>)
    requires next.revision == 1 && !Canonical(columns, next)
    ensures Trace(columns, states, events) && ConflictOverOwn(columns, next, states[|events|])
    ensures events == LostEvents(next) + [Land(0), ReadRevision(0, false)]
  {
    states, events := LostSave(columns, next);
    states, events := Prolonged(columns, states, events, Land(0));
    states, events := Prolonged(columns, states, events, ReadRevision(0, false));
  }
}
