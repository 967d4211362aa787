/** Blob puts, owner registration, lease expiry, collector applies and crashes as
    one state machine. The maintenance lock is held either by any number of
    runtime sessions (shared) or by one collector (exclusive); a collector that
    crashes loses it. Every file operation and every owner query of the collector
    is a step of its own, so a crash or a clock tick may fall between any two. */
module CasProtocol {
  import opened Wrappers
  import opened Blobs
  import opened CasStore

  /** What the collector holding the exclusive lock is doing. `at` is the database
      clock it read when its phase began. */
  datatype Collector =
    | Absent
    | Quarantining(at: int, run: RunId, roots: Roots, todo: seq<Item>, moved: seq<Item>)
    | Pruning(at: int, run: RunId, moved: seq<Item>)
    | Recording(at: int, run: RunId, manifest: Manifest)
    | Sweeping(at: int, age: int, order: seq<RunId>)
    | InRun(at: int, age: int, order: seq<RunId>, run: RunId, items: seq<Item>)
    | Decided(at: int, age: int, order: seq<RunId>, run: RunId, items: seq<Item>, k: Key, verdict: Verdict)

  datatype State = State(store: Store, rows: seq<Entry>, leases: seq<Lease>, now: int, sessions: nat, collector: Collector)

  datatype Event =
    | Tick(to: int)
    | OpenSession | CloseSession
    | Put(bytes: Bytes)
    | AddRow(entry: Entry) | AddLease(lease: Lease)
    | SetOwners(rows: seq<Entry>, leases: seq<Lease>)  // rows and leases dropped by a runtime session
    | BeginQuarantine(run: RunId, selected: seq<Item>)
    | QuarantineNext
    | Prune
    | TearManifest | WriteManifest
    | BeginSweep(age: int, order: seq<RunId>)
    | OpenRun(listing: seq<Key>)  // what the directory walk saw, should a manifest have to be rebuilt
    | TearRecovery                // writing a rebuilt manifest fails half way
    | JudgeNext
    | PerformVerdict
    | Crash

  predicate Distinct(listing: seq<Key>) { forall i, j :: 0 <= i < j < |listing| ==> listing[i] != listing[j] }

  predicate Subseq<T(==)>(a: seq<T>, b: seq<T>) { forall x :: x in a ==> x in b }

  function SetManifest(store: Store, run: RunId, manifest: ManifestFile): Store
    requires run in store.runs
  {
    store.(runs := store.runs[run := store.runs[run].(manifest := manifest)])
  }

  /** One step; None when the event is not enabled. A session is needed to write
      owners or blobs; a collector phase needs that nobody holds the lock. Put is
      the rename that ends a store write, whatever the earlier check saw; the
      selected candidates of a quarantine are arbitrary, as is the sweep's order. */
  function Next(s: State, e: Event): Option<State> {
    match e
    case Tick(to) => if to >= s.now then Some(s.(now := to)) else None
    case OpenSession => if s.collector.Absent? then Some(s.(sessions := s.sessions + 1)) else None
    case CloseSession => if s.sessions > 0 then Some(s.(sessions := s.sessions - 1)) else None
    case Put(bytes) =>
      if s.sessions > 0 then Some(s.(store := s.store.(canonical := s.store.canonical[Sha256(bytes) := bytes]))) else None
    case AddRow(entry) => if s.sessions > 0 then Some(s.(rows := s.rows + [entry])) else None
    case AddLease(lease) => if s.sessions > 0 then Some(s.(leases := s.leases + [lease])) else None
    case SetOwners(rows, leases) =>
      if s.sessions > 0 && Subseq(rows, s.rows) && Subseq(leases, s.leases) then Some(s.(rows := rows, leases := leases)) else None
    case BeginQuarantine(run, selected) =>
      if s.sessions == 0 && s.collector.Absent? && run !in s.store.runs then
        (match ProtectedRoots(s.rows, s.leases, s.now)
         case None => Some(s)
         case Some(roots) => Some(s.(collector := Quarantining(s.now, run, roots, selected, []))))
      else None
    case QuarantineNext =>
      if !s.collector.Quarantining? then None
      else
        var c := s.collector;
        if c.todo == [] then Some(s.(collector := Pruning(c.at, c.run, c.moved)))
        else if c.todo[0].key in c.roots.finalDb || c.todo[0].key in c.roots.staging then Some(s.(collector := c.(todo := c.todo[1..])))
        else
          (match Quarantine(s.store, c.run, c.todo[0])
           case None => Some(s.(collector := Absent))
           case Some(store) => Some(s.(store := store, collector := c.(todo := c.todo[1..], moved := c.moved + [c.todo[0]]))))
    case Prune =>
      if !s.collector.Pruning? then None
      else
        var c := s.collector;
        Some(s.(leases := LiveLeases(s.leases, c.at),
                collector := if c.moved == [] then Absent else Recording(c.at, c.run, Manifest(c.run, c.at, false, c.moved))))
    case TearManifest =>
      if s.collector.Recording? && s.collector.run in s.store.runs then Some(s.(store := SetManifest(s.store, s.collector.run, Torn))) else None
    case WriteManifest =>
      if s.collector.Recording? && s.collector.run in s.store.runs then
        Some(s.(store := SetManifest(s.store, s.collector.run, Recorded(s.collector.manifest)), collector := Absent))
      else None
    case BeginSweep(age, order) =>
      if s.sessions == 0 && s.collector.Absent? && age > 0 then Some(s.(collector := Sweeping(s.now, age, order))) else None
    case OpenRun(listing) =>
      if !s.collector.Sweeping? || !Distinct(listing) then None
      else
        var c := s.collector;
        if c.order == [] then Some(s.(collector := Absent))
        else
          var run, rest := c.order[0], c.order[1..];
          if run !in s.store.runs then Some(s.(collector := Sweeping(c.at, c.age, rest)))
          else
            var (manifest, dir) := ReadManifest(run, s.store.runs[run], listing, c.at);
            var store := s.store.(runs := s.store.runs[run := dir]);
            if manifest.None? || c.at - manifest.value.quarantinedAt < c.age then Some(s.(store := store, collector := Sweeping(c.at, c.age, rest)))
            else Some(s.(store := store, collector := InRun(c.at, c.age, rest, run, manifest.value.moved)))
    case TearRecovery =>
      if !s.collector.Sweeping? then None
      else
        var c := s.collector;
        if c.order == [] || c.order[0] !in s.store.runs || !s.store.runs[c.order[0]].manifest.Missing? then None
        else Some(s.(store := SetManifest(s.store, c.order[0], Torn), collector := Sweeping(c.at, c.age, c.order[1..])))
    case JudgeNext =>
      if !s.collector.InRun? then None
      else
        var c := s.collector;
        if c.items == [] then Some(s.(collector := Sweeping(c.at, c.age, c.order)))
        else
          var verdict := Judge(s.store, c.run, c.items[0], s.rows, s.leases, c.at);
          Some(s.(collector := Decided(c.at, c.age, c.order, c.run, c.items[1..], c.items[0].key, verdict)))
    case PerformVerdict =>
      if !s.collector.Decided? then None
      else
        var c := s.collector;
        if c.verdict != Keep && !(c.run in s.store.runs && c.k in s.store.runs[c.run].files) then None
        else Some(s.(store := Perform(s.store, c.run, c.k, c.verdict), collector := InRun(c.at, c.age, c.order, c.run, c.items)))
    case Crash => Some(s.(collector := Absent))
  }

  function LiveLeases(leases: seq<Lease>, now: int): (r: seq<Lease>)
    ensures forall l :: l in r <==> l in leases && l.expiresAt > now
  {
    if leases == [] then []
    else if leases[0].expiresAt > now then [leases[0]] + LiveLeases(leases[1..], now)
    else LiveLeases(leases[1..], now)
  }

  function Trace(s: State, events: seq<Event>): Option<State>
    decreases |events|
  {
    if events == [] then Some(s)
    else
      match Next(s, events[0])
      case None => None
      case Some(s') => Trace(s', events[1..])
  }

  // ----- what holds in every state --------------------------------------------

  /** The clock of an active phase. */
  function PhaseClock(c: Collector): int
    requires !c.Absent?
  { c.at }

  ghost predicate NoOwner(s: State, k: Key, at: int) {
    (forall e: Entry :: e in s.rows ==> e.key != k) &&
    (forall l :: l in s.leases && l.expiresAt > at ==> l.entry.key != k)
  }

  ghost predicate RootsCover(s: State, roots: Roots, at: int) {
    forall k :: k !in roots.finalDb && k !in roots.staging ==> NoOwner(s, k, at)
  }

  ghost predicate Inv(s: State) {
    && (!s.collector.Absent? ==> s.sessions == 0 && PhaseClock(s.collector) <= s.now)
    && (forall r :: r in s.store.runs && s.store.runs[r].manifest.Recorded? ==>
          s.store.runs[r].manifest.manifest.quarantinedAt <= s.now)
    && match s.collector
       case Quarantining(at, run, roots, todo, moved) =>
         RootsCover(s, roots, at) && (moved != [] ==> run in s.store.runs) && (run in s.store.runs ==> s.store.runs[run].manifest.Missing?)
       case Pruning(at, run, moved) =>
         (moved != [] ==> run in s.store.runs) && (run in s.store.runs ==> s.store.runs[run].manifest.Missing?)
       case Recording(at, run, m) =>
         run in s.store.runs && !s.store.runs[run].manifest.Recorded? && m.quarantinedAt == at
       case Sweeping(_, age, _) => age > 0
       case InRun(at, age, _, run, _) => AgedIn(s.store, run, at, age)
       case Decided(at, age, _, run, _, k, verdict) =>
         && AgedIn(s.store, run, at, age)
         && (verdict != Keep ==> k in s.store.runs[run].files && Sha256(s.store.runs[run].files[k]) == k && k !in s.store.canonical)
         && (verdict.Delete? ==> NoOwner(s, k, at))
       case _ => true
  }

  ghost predicate AgedIn(store: Store, run: RunId, at: int, age: int) {
    && age > 0 && run in store.runs && store.runs[run].manifest.Recorded?
    && store.runs[run].manifest.manifest.quarantinedAt + age <= at
  }

  lemma {:induction false} RootsCoverLive(s: State)
    requires ProtectedRoots(s.rows, s.leases, s.now).Some?
    ensures RootsCover(s, ProtectedRoots(s.rows, s.leases, s.now).value, s.now)
  {
    var roots := ProtectedRoots(s.rows, s.leases, s.now).value;
    forall k | k !in roots.finalDb && k !in roots.staging
      ensures NoOwner(s, k, s.now)
    {
      forall l | l in s.leases && l.expiresAt > s.now ensures l.entry.key != k {
        assert l.entry in LiveEntries(s.leases, s.now);
      }
    }
  }

  lemma {:induction false} JudgeSound(s: State, run: RunId, item: Item, at: int)
    ensures var verdict := Judge(s.store, run, item, s.rows, s.leases, at);
      && (verdict != Keep ==> run in s.store.runs && item.key in s.store.runs[run].files)
      && (verdict != Keep ==> Sha256(s.store.runs[run].files[item.key]) == item.key && item.key !in s.store.canonical)
      && (verdict.Delete? ==> NoOwner(s, item.key, at))
  {
    if Judge(s.store, run, item, s.rows, s.leases, at).Delete? {
      forall l | l in s.leases && l.expiresAt > at ensures l.entry.key != item.key {
        assert l.entry in LiveEntries(s.leases, at);
      }
    }
  }

  predicate QuarantineStep(e: Event) { e.QuarantineNext? || e.Prune? || e.TearManifest? || e.WriteManifest? }

  predicate SweepStep(e: Event) { e.OpenRun? || e.TearRecovery? || e.JudgeNext? || e.PerformVerdict? }

  lemma {:induction false} InvKeptInQuarantine(s: State, e: Event)
    requires Inv(s) && Next(s, e).Some? && QuarantineStep(e)
    ensures Inv(Next(s, e).value)
  {
  }

  lemma {:induction false} InvKeptInSweep(s: State, e: Event)
    requires Inv(s) && Next(s, e).Some? && SweepStep(e)
    ensures Inv(Next(s, e).value)
  {
    if e.JudgeNext? && s.collector.items != [] {
      JudgeSound(s, s.collector.run, s.collector.items[0], s.collector.at);
    }
  }

  lemma {:induction false} InvKeptInSession(s: State, e: Event)
    requires Inv(s) && Next(s, e).Some? && !QuarantineStep(e) && !SweepStep(e) && s.sessions > 0
    ensures Inv(Next(s, e).value)
  {
  }

  lemma {:induction false} InvKeptAside(s: State, e: Event)
    requires Inv(s) && Next(s, e).Some? && !QuarantineStep(e) && !SweepStep(e) && s.sessions == 0
    ensures Inv(Next(s, e).value)
  {
    match e
    case BeginQuarantine(_, _) => QuarantineBegins(s, e);
    case Tick(_) =>
    case OpenSession =>
    case BeginSweep(_, _) =>
    case Crash =>
  }

  lemma {:induction false} QuarantineBegins(s: State, e: Event)
    requires Inv(s) && Next(s, e).Some? && e.BeginQuarantine?
    ensures Inv(Next(s, e).value)
  {
    if ProtectedRoots(s.rows, s.leases, s.now).Some? {
      RootsCoverLive(s);
    }
  }

  lemma {:induction false} InvKept(s: State, e: Event)
    requires Inv(s) && Next(s, e).Some?
    ensures Inv(Next(s, e).value)
  {
    if QuarantineStep(e) {
      InvKeptInQuarantine(s, e);
    } else if SweepStep(e) {
      InvKeptInSweep(s, e);
    } else if s.sessions > 0 {
      InvKeptInSession(s, e);
    } else {
      InvKeptAside(s, e);
    }
  }

  /** Whether `k` has an owner that matches its bytes right now. */
  ghost predicate Owned(s: State, k: Key) {
    var entry := Entry(k, Meta(k, |k.preimage|));
    entry in s.rows || exists l :: l in s.leases && l.expiresAt > s.now && l.entry == entry
  }

  /** An owner of now is an owner for a phase that began earlier. */
  lemma {:induction false} OwnedNow(s: State, k: Key)
    requires Inv(s) && Owned(s, k)
    ensures !s.collector.Absent? ==> !NoOwner(s, k, s.collector.at)
  {
    if !s.collector.Absent? && Entry(k, Meta(k, |k.preimage|)) !in s.rows {
      var l :| l in s.leases && l.expiresAt > s.now && l.entry == Entry(k, Meta(k, |k.preimage|));
      assert l.expiresAt > s.collector.at;
    }
  }

  /** A correct blob at its key leaves it only by being quarantined, which needs
      that it has no owner. */
  lemma {:induction false} IntactKept(s: State, e: Event, k: Key)
    requires Inv(s) && Next(s, e).Some? && Intact(s.store, k)
    ensures Intact(Next(s, e).value.store, k) || (e.QuarantineNext? && s.collector.Quarantining? && NoOwner(s, k, s.collector.at))
  {
  }

  /** A correct quarantined blob stays where it is unless a verdict moves it. */
  lemma {:induction false} QuarantinedKept(s: State, e: Event, r: RunId, k: Key)
    requires Next(s, e).Some? && r in s.store.runs && k in s.store.runs[r].files
    requires !(e.PerformVerdict? && s.collector.run == r && s.collector.k == k && s.collector.verdict != Keep)
    ensures var after := Next(s, e).value.store;
            r in after.runs && k in after.runs[r].files && after.runs[r].files[k] == s.store.runs[r].files[k]
  {
  }

  /** No step takes away the last correct copy of a blob that has a matching owner. */
  lemma {:induction false} NoOwnedCopyLost(s: State, e: Event, k: Key)
    requires Inv(s) && Next(s, e).Some? && Owned(s, k) && Copy(s.store, k)
    ensures Copy(Next(s, e).value.store, k)
  {
    if Intact(s.store, k) {
      IntactKept(s, e, k);
      OwnedNow(s, k);
    } else {
      var r :| r in s.store.runs && k in s.store.runs[r].files && Sha256(s.store.runs[r].files[k]) == k;
      if e.PerformVerdict? && s.collector.run == r && s.collector.k == k && s.collector.verdict != Keep {
        OwnedNow(s, k);
        assert Intact(Next(s, e).value.store, k);
      } else {
        QuarantinedKept(s, e, r, k);
      }
    }
  }

  ghost predicate OwnedThroughout(s: State, events: seq<Event>, k: Key)
    decreases |events|
  {
    Owned(s, k) && (events == [] || (Next(s, events[0]).Some? && OwnedThroughout(Next(s, events[0]).value, events[1..], k)))
  }

  /** Over any interleaving: a blob with a correct copy that keeps a matching
      owner keeps a correct copy. */
  lemma {:induction false} OwnedCopySurvives(s: State, events: seq<Event>, k: Key)
    requires Inv(s) && OwnedThroughout(s, events, k) && Copy(s.store, k)
    ensures Trace(s, events).Some? && Copy(Trace(s, events).value.store, k)
    decreases |events|
  {
    if events != [] {
      InvKept(s, events[0]);
      NoOwnedCopyLost(s, events[0], k);
      OwnedCopySurvives(Next(s, events[0]).value, events[1..], k);
    }
  }

  /** Whoever drops rows or live leases is a session: every other step keeps each
      row, and each lease that has not expired. */
  lemma {:induction false} OwnersStay(s: State, e: Event)
    requires Inv(s) && Next(s, e).Some? && !e.SetOwners?
    ensures s.rows <= Next(s, e).value.rows
    ensures forall l :: l in s.leases && l.expiresAt > s.now ==> l in Next(s, e).value.leases
    ensures forall l :: l in Next(s, e).value.leases ==> l in s.leases || e == AddLease(l)
    ensures e.Prune? ==> forall l :: l in Next(s, e).value.leases ==> l.expiresAt > s.collector.at
  {
  }

  // ----- owned blobs stay readable -----------------------------------------------

  /** Writers register an owner only for bytes they have put at its key. */
  ghost predicate PutFirst(s: State, e: Event) {
    match e
    case AddRow(entry) => Intact(s.store, entry.key)
    case AddLease(lease) => Intact(s.store, lease.entry.key)
    case _ => true
  }

  ghost predicate PutFirstThroughout(s: State, events: seq<Event>)
    decreases |events|
  {
    events == [] || (PutFirst(s, events[0]) && Next(s, events[0]).Some? && PutFirstThroughout(Next(s, events[0]).value, events[1..]))
  }

  ghost predicate Readable(s: State) {
    && (forall e: Entry :: e in s.rows ==> Intact(s.store, e.key))
    && (forall l :: l in s.leases && l.expiresAt > s.now ==> Intact(s.store, l.entry.key))
  }

  lemma {:induction false} ReadableKept(s: State, e: Event)
    requires Inv(s) && Readable(s) && PutFirst(s, e) && Next(s, e).Some?
    ensures Readable(Next(s, e).value)
  {
    var s' := Next(s, e).value;
    forall k | Intact(s.store, k) && !Intact(s'.store, k)
      ensures NoOwner(s, k, s.now)
    {
      assert e.QuarantineNext?;
      assert NoOwner(s, k, s.collector.at);
    }
  }

  /** In every reachable state each row and each unexpired lease finds the right
      bytes at its own key: the collector never even moves an owned blob away. */
  lemma {:induction false} OwnersAlwaysReadable(s: State, events: seq<Event>)
    requires Inv(s) && Readable(s) && PutFirstThroughout(s, events)
    ensures Trace(s, events).Some? && Readable(Trace(s, events).value)
    decreases |events|
  {
    if events != [] {
      InvKept(s, events[0]);
      ReadableKept(s, events[0]);
      OwnersAlwaysReadable(Next(s, events[0]).value, events[1..]);
    }
  }

  // ----- the waiting time -----------------------------------------------------------

  ghost predicate Deletes(s: State, e: Event, run: RunId) {
    e.PerformVerdict? && s.collector.Decided? && s.collector.run == run && s.collector.verdict.Delete?
  }

  /** The only step that makes a blob file disappear is a Delete verdict, and its
      run was recorded at least the sweep's age before the sweep clock. */
  lemma {:induction false} DeletionIsAged(s: State, e: Event, run: RunId, k: Key)
    requires Inv(s) && Next(s, e).Some? && run in s.store.runs && k in s.store.runs[run].files
    requires var s' := Next(s, e).value; !(run in s'.store.runs && k in s'.store.runs[run].files)
    ensures s.collector.Decided? && s.collector.run == run && s.collector.k == k && s.collector.age > 0
    ensures Deletes(s, e, run) || (k in Next(s, e).value.store.canonical && Next(s, e).value.store.canonical[k] == s.store.runs[run].files[k])
    ensures s.store.runs[run].manifest.Recorded?
    ensures s.store.runs[run].manifest.manifest.quarantinedAt + s.collector.age <= s.collector.at <= s.now
  {
  }

  ghost predicate RecordedSince(s: State, run: RunId, t: int) {
    && run in s.store.runs
    && (s.store.runs[run].manifest.Recorded? ==> s.store.runs[run].manifest.manifest.quarantinedAt >= t)
    && (!s.collector.Absent? ==> PhaseClock(s.collector) >= t)
    && t <= s.now
  }

  lemma {:induction false} RecordedSinceKept(s: State, e: Event, run: RunId, t: int)
    requires Inv(s) && RecordedSince(s, run, t) && Next(s, e).Some?
    ensures RecordedSince(Next(s, e).value, run, t)
  {
  }

  lemma {:induction false} RecordedSinceTrace(s: State, events: seq<Event>, run: RunId, t: int)
    requires Inv(s) && RecordedSince(s, run, t) && Trace(s, events).Some?
    ensures Inv(Trace(s, events).value) && RecordedSince(Trace(s, events).value, run, t)
    decreases |events|
  {
    if events != [] {
      InvKept(s, events[0]);
      RecordedSinceKept(s, events[0], run, t);
      RecordedSinceTrace(Next(s, events[0]).value, events[1..], run, t);
    }
  }

  /** A run left without a manifest by a crash waits its full time again: whatever
      happens later, nothing of it is deleted before its age has passed since. */
  lemma {:induction false} LostManifestRestartsWait(s: State, events: seq<Event>, e: Event, run: RunId)
    requires Inv(s) && s.collector.Absent? && run in s.store.runs && s.store.runs[run].manifest.Missing?
    requires Trace(s, events).Some? && Deletes(Trace(s, events).value, e, run) && Next(Trace(s, events).value, e).Some?
    ensures var late := Trace(s, events).value; late.collector.age > 0 && s.now + late.collector.age <= late.now
  {
    RecordedSinceTrace(s, events, run, s.now);
  }

  // ----- the steps and the sequential sweep agree -----------------------------------

  function ItemSteps(n: nat): seq<Event> {
    if n == 0 then [] else [JudgeNext, PerformVerdict] + ItemSteps(n - 1)
  }

  /** Judging and performing one item is the one-item sweep. */
  lemma {:induction false} ItemStep(s: State)
    requires s.collector.InRun? && s.collector.items != []
    ensures var c := s.collector;
      Next(s, JudgeNext).Some? &&
      Next(Next(s, JudgeNext).value, PerformVerdict) ==
        Some(s.(store := SweepItems(s.store, c.run, [c.items[0]], s.rows, s.leases, c.at).0,
                collector := InRun(c.at, c.age, c.order, c.run, c.items[1..])))
  {
    assert [s.collector.items[0]][..0] == [];
  }

  lemma {:induction false} TraceTwo(s: State, e: Event, f: Event, rest: seq<Event>)
    requires Next(s, e).Some? && Next(Next(s, e).value, f).Some?
    ensures Trace(s, [e, f] + rest) == Trace(Next(Next(s, e).value, f).value, rest)
  {
    assert ([e, f] + rest)[1..] == [f] + rest;
    assert ([f] + rest)[1..] == rest;
  }

  /** Left alone, the item steps of a run leave the store that the sequential
      sweep of its items computes. */
  lemma {:induction false} StepsSweepItems(s: State)
    requires s.collector.InRun?
    ensures var c := s.collector;
      Trace(s, ItemSteps(|c.items|)) ==
        Some(s.(store := SweepItems(s.store, c.run, c.items, s.rows, s.leases, c.at).0, collector := InRun(c.at, c.age, c.order, c.run, [])))
    decreases |s.collector.items|
  {
    var c := s.collector;
    if c.items != [] {
      ItemStep(s);
      var done := Next(Next(s, JudgeNext).value, PerformVerdict).value;
      assert c.items == [c.items[0]] + c.items[1..];
      SweepItemsSplit(s.store, c.run, [c.items[0]], c.items[1..], s.rows, s.leases, c.at);
      StepsSweepItems(done);
      TraceTwo(s, JudgeNext, PerformVerdict, ItemSteps(|c.items| - 1));
    }
  }

  /** Empty store, no owners: where every run of the system starts. */
  function Initial(now: int): State { State(Store(map[], map[]), [], [], now, 0, Absent) }

  lemma {:induction false} InitiallyFine(now: int)
    ensures Inv(Initial(now)) && Readable(Initial(now))
  {
  }
}
