/** When a sweep puts a quarantined blob back: the manifests that the collector can
    leave behind, the runs that no later event changes, and the exact condition
    under which a complete sweep restores the only correct copy of a blob. */
module CasRestore {
  import opened Wrappers
  import opened Blobs
  import opened CasStore
  import opened CasProtocol

  // ----- manifests of reachable runs --------------------------------------------

  /** Each item describes the correct bytes of its key. */
  predicate TrueItems(items: seq<Item>) { forall item :: item in items ==> item == ItemFor(item.key) }

  predicate OncePerKey(items: seq<Item>) { forall i, j :: 0 <= i < j < |items| ==> items[i].key != items[j].key }

  predicate Truthful(run: RunId, m: Manifest) { m.runId == run && TrueItems(m.moved) && OncePerKey(m.moved) }

  predicate FileIn(store: Store, run: RunId, k: Key) { run in store.runs && k in store.runs[run].files }

  predicate CorrectIn(store: Store, run: RunId, k: Key) { FileIn(store, run, k) && Sha256(store.runs[run].files[k]) == k }

  predicate ItemsIn(store: Store, run: RunId, items: seq<Item>) { forall item :: item in items ==> FileIn(store, run, item.key) }

  predicate NoEmptyBlob(m: Manifest) { forall item :: item in m.moved ==> |item.key.preimage| > 0 }

  /** What the collector is moving or sweeping is listed truthfully too. */
  ghost predicate PhaseTruthful(s: State) {
    match s.collector
    case Quarantining(_, run, _, _, moved) => TrueItems(moved) && OncePerKey(moved) && ItemsIn(s.store, run, moved)
    case Pruning(_, run, moved) => TrueItems(moved) && OncePerKey(moved)
    case Recording(_, run, m) => Truthful(run, m)
    case InRun(_, _, _, run, items) => TrueItems(items) && UnderReader(s.store, run)
    case Decided(_, _, _, run, items, _, _) => TrueItems(items) && UnderReader(s.store, run)
    case _ => true
  }

  /** The run's manifest lists no empty blob: its reader let it pass. */
  predicate UnderReader(store: Store, run: RunId) {
    run in store.runs && store.runs[run].manifest.Recorded? && NoEmptyBlob(store.runs[run].manifest.manifest)
  }

  ghost predicate ManifestsTruthful(s: State) {
    PhaseTruthful(s) &&
    forall r :: r in s.store.runs && s.store.runs[r].manifest.Recorded? ==> Truthful(r, s.store.runs[r].manifest.manifest)
  }

  lemma {:induction false} RecoveredOnce(files: map<Key, Bytes>, listing: seq<Key>)
    requires Distinct(listing)
    ensures OncePerKey(RecoverItems(files, listing))
  {
    if listing != [] {
      assert Distinct(listing[1..]);
      RecoveredOnce(files, listing[1..]);
    }
  }

  lemma {:induction false} RecoveredTruthful(run: RunId, files: map<Key, Bytes>, listing: seq<Key>, now: int)
    requires Distinct(listing)
    ensures Truthful(run, RecoveredManifest(run, files, listing, now))
  {
    RecoveredOnce(files, listing);
  }

  /** Reading a truthful manifest lets it pass exactly if no blob is empty. */
  lemma {:induction false} ReadableIff(m: Manifest, run: RunId, now: int)
    requires Truthful(run, m)
    ensures CasStore.Readable(m, run, now) <==> m.quarantinedAt <= now && NoEmptyBlob(m)
  {
    forall item | item in m.moved ensures item.sizeBytes > 0 && item.contentHash == item.key <==> |item.key.preimage| > 0 {
      assert item == ItemFor(item.key);
    }
  }

  lemma {:induction false} QuarantineNextTruthful(s: State)
    requires Inv(s) && ManifestsTruthful(s) && Next(s, QuarantineNext).Some?
    ensures ManifestsTruthful(Next(s, QuarantineNext).value)
  {
    var c := s.collector;
    var after := Next(s, QuarantineNext).value;
    if c.todo != [] && after.store != s.store {
      var item := c.todo[0];
      assert item == ItemFor(item.key);
      forall i, j | 0 <= i < j < |c.moved + [item]| ensures (c.moved + [item])[i].key != (c.moved + [item])[j].key {
        if j == |c.moved| {
          assert c.moved[i] in c.moved;
        }
      }
    }
  }

  lemma {:induction false} OpenRunTruthful(s: State, listing: seq<Key>)
    requires Inv(s) && ManifestsTruthful(s) && Next(s, OpenRun(listing)).Some?
    ensures ManifestsTruthful(Next(s, OpenRun(listing)).value)
  {
    var c := s.collector;
    if c.order != [] && c.order[0] in s.store.runs {
      var run := c.order[0];
      var dir := s.store.runs[run];
      RecoveredTruthful(run, dir.files, listing, c.at);
      if dir.manifest.Recorded? {
        ReadableIff(dir.manifest.manifest, run, c.at);
      }
    }
  }

  /** Every manifest in a reachable state describes the correct files it lists,
      each once. */
  lemma {:induction false} TruthfulKept(s: State, e: Event)
    requires Inv(s) && ManifestsTruthful(s) && Next(s, e).Some?
    ensures ManifestsTruthful(Next(s, e).value)
  {
    match e
    case QuarantineNext => QuarantineNextTruthful(s);
    case OpenRun(listing) => OpenRunTruthful(s, listing);
    case _ =>
  }

  lemma {:induction false} TraceTruthful(s: State, events: seq<Event>)
    requires Inv(s) && ManifestsTruthful(s) && Trace(s, events).Some?
    ensures Inv(Trace(s, events).value) && ManifestsTruthful(Trace(s, events).value)
    decreases |events|
  {
    if events != [] {
      InvKept(s, events[0]);
      TruthfulKept(s, events[0]);
      TraceTruthful(Next(s, events[0]).value, events[1..]);
    }
  }

  // ----- manifests that miss nothing ------------------------------------------------

  /** Every correct file of the run is listed. */
  ghost predicate ListsAll(files: map<Key, Bytes>, moved: seq<Item>) {
    forall k :: k in files && Sha256(files[k]) == k ==> ItemFor(k) in moved
  }

  ghost predicate AllListed(s: State) {
    && (forall r :: r in s.store.runs && s.store.runs[r].manifest.Recorded? ==>
          ListsAll(s.store.runs[r].files, s.store.runs[r].manifest.manifest.moved))
    && match s.collector
       case Quarantining(_, run, _, _, moved) => ListsAll(Files(s.store, run), moved)
       case Pruning(_, run, moved) => ListsAll(Files(s.store, run), moved)
       case Recording(_, run, m) => ListsAll(Files(s.store, run), m.moved)
       case _ => true
  }

  /** The walk over a run whose manifest is rebuilt sees all its files. */
  ghost predicate SeesAll(s: State, e: Event) {
    e.OpenRun? && s.collector.Sweeping? && s.collector.order != [] && s.collector.order[0] in s.store.runs &&
    s.store.runs[s.collector.order[0]].manifest.Missing? ==>
      forall k :: k in s.store.runs[s.collector.order[0]].files ==> k in e.listing
  }

  ghost predicate SeesAllThroughout(s: State, events: seq<Event>)
    decreases |events|
  {
    events == [] || (SeesAll(s, events[0]) && Next(s, events[0]).Some? && SeesAllThroughout(Next(s, events[0]).value, events[1..]))
  }

  lemma {:induction false} QuarantineNextLists(s: State)
    requires Inv(s) && AllListed(s) && Next(s, QuarantineNext).Some?
    ensures AllListed(Next(s, QuarantineNext).value)
  {
    var c := s.collector;
    var after := Next(s, QuarantineNext).value;
    if c.todo != [] && after.store != s.store {
      forall k | k in Files(after.store, c.run) && Sha256(Files(after.store, c.run)[k]) == k ensures ItemFor(k) in c.moved + [c.todo[0]] {
        if k == c.todo[0].key {
          assert c.todo[0] == ItemFor(k);
        } else {
          assert k in Files(s.store, c.run);
        }
      }
    }
  }

  lemma {:induction false} OpenRunLists(s: State, e: Event)
    requires Inv(s) && AllListed(s) && SeesAll(s, e) && e.OpenRun? && Next(s, e).Some?
    ensures AllListed(Next(s, e).value)
  {
  }

  lemma {:induction false} PerformLists(s: State)
    requires Inv(s) && AllListed(s) && Next(s, PerformVerdict).Some?
    ensures AllListed(Next(s, PerformVerdict).value)
  {
  }

  lemma {:induction false} ListedKept(s: State, e: Event)
    requires Inv(s) && AllListed(s) && SeesAll(s, e) && Next(s, e).Some?
    ensures AllListed(Next(s, e).value)
  {
    if e.QuarantineNext? {
      QuarantineNextLists(s);
    } else if e.OpenRun? {
      OpenRunLists(s, e);
    } else if e.PerformVerdict? {
      PerformLists(s);
    }
  }

  /** As long as each rebuilding walk sees all the files of its run, every manifest
      in every reachable state lists every correct file of its run. */
  lemma {:induction false} TraceListed(s: State, events: seq<Event>)
    requires Inv(s) && AllListed(s) && SeesAllThroughout(s, events)
    ensures Trace(s, events).Some? && AllListed(Trace(s, events).value)
    decreases |events|
  {
    if events != [] {
      InvKept(s, events[0]);
      ListedKept(s, events[0]);
      TraceListed(Next(s, events[0]).value, events[1..]);
    }
  }

  // ----- runs that nothing changes any more --------------------------------------------

  /** The run's manifest is torn and nobody is writing it, or it lists an empty
      blob. */
  ghost predicate Stuck(s: State, run: RunId) {
    run in s.store.runs &&
    match s.store.runs[run].manifest
    case Torn => !(s.collector.Recording? && s.collector.run == run)
    case Recorded(m) => !NoEmptyBlob(m)
    case Missing => false
  }

  lemma {:induction false} StuckUnread(s: State, e: Event, run: RunId)
    requires Inv(s) && ManifestsTruthful(s) && Stuck(s, run) && e.OpenRun? && Next(s, e).Some?
    ensures var after := Next(s, e).value; Stuck(after, run) && after.store.runs[run] == s.store.runs[run]
  {
    if s.store.runs[run].manifest.Recorded? {
      ReadableIff(s.store.runs[run].manifest.manifest, run, s.collector.at);
    }
  }

  lemma {:induction false} StuckKept(s: State, e: Event, run: RunId)
    requires Inv(s) && ManifestsTruthful(s) && Stuck(s, run) && Next(s, e).Some?
    ensures var after := Next(s, e).value; Stuck(after, run) && after.store.runs[run] == s.store.runs[run]
  {
    if e.OpenRun? {
      StuckUnread(s, e, run);
    }
  }

  /** A run with a torn manifest, or with an empty blob in its manifest, is never
      changed again: whatever happens, nothing of it is restored or deleted. */
  lemma {:induction false} StuckForever(s: State, events: seq<Event>, run: RunId)
    requires Inv(s) && ManifestsTruthful(s) && Stuck(s, run) && Trace(s, events).Some?
    ensures var late := Trace(s, events).value.store; run in late.runs && late.runs[run] == s.store.runs[run]
    decreases |events|
  {
    if events != [] {
      InvKept(s, events[0]);
      TruthfulKept(s, events[0]);
      StuckKept(s, events[0], run);
      StuckForever(Next(s, events[0]).value, events[1..], run);
    }
  }

  // ----- owners that a sweep accepts ------------------------------------------------------

  /** The blob has an owner, its owners describe it truthfully, and no two owners
      disagree about any key. */
  ghost predicate SoundOwners(k: Key, rows: seq<Entry>, leases: seq<Lease>, at: int) {
    var live := LiveEntries(leases, at);
    && !Disagree(rows) && !Disagree(live)
    && (Entry(k, Meta(k, |k.preimage|)) in rows || Entry(k, Meta(k, |k.preimage|)) in live)
    && forall e: Entry :: (e in rows || e in live) && e.key == k ==> e.meta == Meta(k, |k.preimage|)
  }

  /** A correct quarantined blob is restored exactly if its owners are sound and
      nothing stands at its key. */
  lemma {:induction false} JudgeRestoresIff(store: Store, run: RunId, rows: seq<Entry>, leases: seq<Lease>, at: int, k: Key)
    requires CorrectIn(store, run, k)
    ensures Judge(store, run, ItemFor(k), rows, leases, at).Restore? <==> k !in store.canonical && SoundOwners(k, rows, leases, at)
  {
    var live := LiveEntries(leases, at);
    var entry := Entry(k, Meta(k, |k.preimage|));
    if ProtectedRoots(rows, leases, at).Some? {
      var finalDb, staging := Authority(rows).value, Authority(live).value;
      assert k in finalDb ==> Entry(k, finalDb[k]) in rows;
      assert k in staging ==> Entry(k, staging[k]) in live;
      assert entry in rows ==> k in finalDb;
      assert entry in live ==> k in staging;
    }
  }

  // ----- what a complete sweep restores -----------------------------------------------------

  /** The steps of a sweep, with ticks between them: the exclusive lock keeps
      everybody else out, and the sweep does not crash. */
  predicate InSweep(e: Event) { e.Tick? || SweepStep(e) }

  /** The only correct copy of the blob lies in this run. */
  ghost predicate OnlyCopyIn(store: Store, run: RunId, k: Key) {
    CorrectIn(store, run, k) && !Intact(store, k) && forall r :: r != run ==> !CorrectIn(store, r, k)
  }

  /** The reader accepts the run's manifest, it is old enough, and it lists the blob. */
  ghost predicate Sweepable(store: Store, run: RunId, k: Key, at: int, age: int) {
    run in store.runs && store.runs[run].manifest.Recorded? &&
    var m := store.runs[run].manifest.manifest;
    m.quarantinedAt + age <= at && NoEmptyBlob(m) && ItemFor(k) in m.moved
  }

  predicate SweptAt(c: Collector, at: int, age: int) {
    match c
    case Sweeping(a, g, _) => a == at && g == age
    case InRun(a, g, _, _, _) => a == at && g == age
    case Decided(a, g, _, _, _, _, _) => a == at && g == age
    case _ => c.Absent?
  }

  /** The blob is back at its key, or the sweep still has it before it. */
  ghost predicate Due(s: State, run: RunId, k: Key, at: int, age: int) {
    Intact(s.store, k) ||
    (CorrectIn(s.store, run, k) && k !in s.store.canonical && SoundOwners(k, s.rows, s.leases, at) && Sweepable(s.store, run, k, at, age) &&
     match s.collector
     case Sweeping(_, _, order) => run in order
     case InRun(_, _, order, r, items) => run in order || (r == run && ItemFor(k) in items)
     case Decided(_, _, order, r, items, kk, verdict) =>
       !(kk == k && r == run && verdict.Delete?) &&
       (run in order || (r == run && (ItemFor(k) in items || (kk == k && verdict.Restore?))))
     case _ => false)
  }

  lemma {:induction false} DueKept(s: State, e: Event, run: RunId, k: Key, at: int, age: int)
    requires Inv(s) && ManifestsTruthful(s) && InSweep(e) && Next(s, e).Some?
    requires SweptAt(s.collector, at, age) && age > 0 && Due(s, run, k, at, age)
    ensures var after := Next(s, e).value; SweptAt(after.collector, at, age) && Due(after, run, k, at, age)
  {
    if Intact(s.store, k) {
      IntactKept(s, e, k);
    } else {
      match e
      case Tick(_) =>
      case OpenRun(_) => OpenRunDue(s, e, run, k, at, age);
      case TearRecovery =>
      case JudgeNext => JudgeNextDue(s, run, k, at, age);
      case PerformVerdict => PerformDue(s, run, k, at, age);
    }
  }

  lemma {:induction false} OpenRunDue(s: State, e: Event, run: RunId, k: Key, at: int, age: int)
    requires Inv(s) && ManifestsTruthful(s) && e.OpenRun? && Next(s, e).Some?
    requires SweptAt(s.collector, at, age) && Due(s, run, k, at, age) && !Intact(s.store, k)
    ensures var after := Next(s, e).value; SweptAt(after.collector, at, age) && Due(after, run, k, at, age)
  {
    ReadableIff(s.store.runs[run].manifest.manifest, run, at);
  }

  lemma {:induction false} JudgeNextDue(s: State, run: RunId, k: Key, at: int, age: int)
    requires Inv(s) && ManifestsTruthful(s) && Next(s, JudgeNext).Some?
    requires SweptAt(s.collector, at, age) && Due(s, run, k, at, age) && !Intact(s.store, k)
    ensures var after := Next(s, JudgeNext).value; SweptAt(after.collector, at, age) && Due(after, run, k, at, age)
  {
    var c := s.collector;
    if c.items != [] && c.run == run && c.items[0].key == k {
      assert c.items[0] == ItemFor(k);
      JudgeRestoresIff(s.store, run, s.rows, s.leases, at, k);
    }
  }

  lemma {:induction false} PerformDue(s: State, run: RunId, k: Key, at: int, age: int)
    requires Inv(s) && ManifestsTruthful(s) && Next(s, PerformVerdict).Some?
    requires SweptAt(s.collector, at, age) && Due(s, run, k, at, age) && !Intact(s.store, k)
    ensures var after := Next(s, PerformVerdict).value; SweptAt(after.collector, at, age) && Due(after, run, k, at, age)
  {
    var c := s.collector;
    var after := Next(s, PerformVerdict).value;
    if c.k == k && c.verdict.Restore? {
      assert Intact(after.store, k);
    }
  }

  /** The sweep cannot restore the blob: something stands at its key, its owners
      are not sound, or its run is not sweepable and no item of the blob is held. */
  ghost predicate Missed(s: State, run: RunId, k: Key, at: int, age: int) {
    && !Intact(s.store, k)
    && (forall r :: r != run ==> !CorrectIn(s.store, r, k))
    && (k in s.store.canonical || !SoundOwners(k, s.rows, s.leases, at) || Passed(s, run, k, at, age))
    && (s.collector.Decided? && s.collector.k == k ==> !s.collector.verdict.Restore?)
  }

  /** The run is not sweepable for the blob, nor is an item of it before the sweep. */
  ghost predicate Passed(s: State, run: RunId, k: Key, at: int, age: int) {
    && run in s.store.runs
    && !Sweepable(s.store, run, k, at, age)
    && (s.collector.InRun? && s.collector.run == run ==> ItemFor(k) !in s.collector.items)
    && (s.collector.Decided? && s.collector.run == run ==> ItemFor(k) !in s.collector.items)
  }

  /** A sweep brings no copy into a run. */
  lemma {:induction false} NoNewCopies(s: State, e: Event, k: Key)
    requires InSweep(e) && Next(s, e).Some?
    ensures forall r :: CorrectIn(Next(s, e).value.store, r, k) ==> CorrectIn(s.store, r, k)
  {
  }

  lemma {:induction false} OpenRunMissed(s: State, e: Event, run: RunId, k: Key, at: int, age: int)
    requires Inv(s) && ManifestsTruthful(s) && e.OpenRun? && Next(s, e).Some?
    requires SweptAt(s.collector, at, age) && age > 0 && Missed(s, run, k, at, age)
    ensures var after := Next(s, e).value; SweptAt(after.collector, at, age) && Missed(after, run, k, at, age)
  {
    var c := s.collector;
    NoNewCopies(s, e, k);
    if c.order != [] && c.order[0] == run && run in s.store.runs && s.store.runs[run].manifest.Recorded? {
      ReadableIff(s.store.runs[run].manifest.manifest, run, at);
    }
  }

  lemma {:induction false} JudgeNextMissed(s: State, run: RunId, k: Key, at: int, age: int)
    requires Inv(s) && ManifestsTruthful(s) && Next(s, JudgeNext).Some?
    requires SweptAt(s.collector, at, age) && Missed(s, run, k, at, age)
    ensures var after := Next(s, JudgeNext).value; SweptAt(after.collector, at, age) && Missed(after, run, k, at, age)
  {
    var c := s.collector;
    if c.items != [] && c.items[0].key == k {
      assert c.items[0] == ItemFor(k);
      var verdict := Judge(s.store, c.run, c.items[0], s.rows, s.leases, at);
      if verdict.Restore? {
        assert CorrectIn(s.store, c.run, k);
        JudgeRestoresIff(s.store, c.run, s.rows, s.leases, at, k);
      }
    }
  }

  lemma {:induction false} PerformMissed(s: State, run: RunId, k: Key, at: int, age: int)
    requires Inv(s) && ManifestsTruthful(s) && Next(s, PerformVerdict).Some?
    requires SweptAt(s.collector, at, age) && Missed(s, run, k, at, age)
    ensures var after := Next(s, PerformVerdict).value; SweptAt(after.collector, at, age) && Missed(after, run, k, at, age)
  {
    NoNewCopies(s, PerformVerdict, k);
  }

  lemma {:induction false} MissedKept(s: State, e: Event, run: RunId, k: Key, at: int, age: int)
    requires Inv(s) && ManifestsTruthful(s) && InSweep(e) && Next(s, e).Some?
    requires SweptAt(s.collector, at, age) && age > 0 && Missed(s, run, k, at, age)
    ensures var after := Next(s, e).value; SweptAt(after.collector, at, age) && Missed(after, run, k, at, age)
  {
    NoNewCopies(s, e, k);
    match e
    case Tick(_) =>
    case OpenRun(_) => OpenRunMissed(s, e, run, k, at, age);
    case TearRecovery =>
    case JudgeNext => JudgeNextMissed(s, run, k, at, age);
    case PerformVerdict => PerformMissed(s, run, k, at, age);
  }

  lemma {:induction false} SweepDecides(s: State, sweep: seq<Event>, run: RunId, k: Key, at: int, age: int)
    requires Inv(s) && ManifestsTruthful(s) && SweptAt(s.collector, at, age) && age > 0
    requires (forall e :: e in sweep ==> InSweep(e)) && Trace(s, sweep).Some?
    ensures Due(s, run, k, at, age) ==> Due(Trace(s, sweep).value, run, k, at, age)
    ensures Missed(s, run, k, at, age) ==> Missed(Trace(s, sweep).value, run, k, at, age)
    decreases |sweep|
  {
    if sweep != [] {
      var e, next := sweep[0], Next(s, sweep[0]).value;
      assert InSweep(e);
      InvKept(s, e);
      TruthfulKept(s, e);
      if Due(s, run, k, at, age) {
        DueKept(s, e, run, k, at, age);
      }
      if Missed(s, run, k, at, age) {
        MissedKept(s, e, run, k, at, age);
      }
      SweptAtKept(s, e, at, age);
      SweepDecides(next, sweep[1..], run, k, at, age);
    }
  }

  lemma {:induction false} SweptAtKept(s: State, e: Event, at: int, age: int)
    requires InSweep(e) && Next(s, e).Some? && SweptAt(s.collector, at, age)
    ensures SweptAt(Next(s, e).value.collector, at, age)
  {
  }

  /** In any reachable state, let the only correct copy of a blob lie in a run, and
      let a sweep that visits the run begin and come to its end, whatever else it
      visits. Then the blob is back at its key exactly if nothing stood there, its
      owners are sound, and the manifest of its run was there, intact, old enough,
      lists the blob and lists no empty blob. */
  lemma {:induction false} RestoredIff(start: int, events: seq<Event>, age: int, order: seq<RunId>, sweep: seq<Event>, run: RunId, k: Key)
    requires Trace(Initial(start), events).Some?
    requires var s := Trace(Initial(start), events).value;
      && Next(s, BeginSweep(age, order)).Some? && run in order && OnlyCopyIn(s.store, run, k)
      && (forall e :: e in sweep ==> InSweep(e))
      && Trace(Next(s, BeginSweep(age, order)).value, sweep).Some?
      && Trace(Next(s, BeginSweep(age, order)).value, sweep).value.collector.Absent?
    ensures var s := Trace(Initial(start), events).value;
      Intact(Trace(Next(s, BeginSweep(age, order)).value, sweep).value.store, k) <==>
        k !in s.store.canonical && SoundOwners(k, s.rows, s.leases, s.now) && Sweepable(s.store, run, k, s.now, age)
  {
    InitiallyFine(start);
    TraceTruthful(Initial(start), events);
    var s := Trace(Initial(start), events).value;
    var begun := Next(s, BeginSweep(age, order)).value;
    SweepDecides(begun, sweep, run, k, s.now, age);
  }

  /** In a run of the system in which every rebuilding walk sees all its files: a
      soundly owned blob whose only copy lies in a recorded, aged run is back at its
      key after a complete sweep if and only if no blob listed in the run is empty. */
  lemma {:induction false} RestoredIffNoEmptyBlob(start: int, events: seq<Event>, age: int, order: seq<RunId>, sweep: seq<Event>, run: RunId, k: Key)
    requires SeesAllThroughout(Initial(start), events) && Trace(Initial(start), events).Some?
    requires var s := Trace(Initial(start), events).value;
      && Next(s, BeginSweep(age, order)).Some? && run in order
      && OnlyCopyIn(s.store, run, k) && k !in s.store.canonical && SoundOwners(k, s.rows, s.leases, s.now)
      && s.store.runs[run].manifest.Recorded? && s.store.runs[run].manifest.manifest.quarantinedAt + age <= s.now
      && (forall e :: e in sweep ==> InSweep(e))
      && Trace(Next(s, BeginSweep(age, order)).value, sweep).Some?
      && Trace(Next(s, BeginSweep(age, order)).value, sweep).value.collector.Absent?
    ensures var s := Trace(Initial(start), events).value;
      Intact(Trace(Next(s, BeginSweep(age, order)).value, sweep).value.store, k) <==>
        NoEmptyBlob(s.store.runs[run].manifest.manifest)
  {
    InitiallyFine(start);
    TraceListed(Initial(start), events);
    RestoredIff(start, events, age, order, sweep, run, k);
  }

  // ----- the sequential sweep is one such sweep ---------------------------------------------

  lemma {:induction false} TraceConcat(s: State, a: seq<Event>, b: seq<Event>)
    requires Trace(s, a).Some?
    ensures Trace(s, a + b) == Trace(Trace(s, a).value, b)
    decreases |a|
  {
    if a == [] {
      assert a + b == b;
    } else {
      assert (a + b)[0] == a[0] && (a + b)[1..] == a[1..] + b;
      TraceConcat(Next(s, a[0]).value, a[1..], b);
    }
  }

  lemma {:induction false} ItemStepsInSweep(n: nat)
    ensures forall e :: e in ItemSteps(n) ==> InSweep(e)
  {
    if n > 0 {
      ItemStepsInSweep(n - 1);
    }
  }

  /** The items of the run that is open, then the run is left. */
  lemma {:induction false} RunItems(s: State) returns (events: seq<Event>)
    requires s.collector.InRun?
    ensures forall e :: e in events ==> InSweep(e)
    ensures var c := s.collector;
      Trace(s, events) == Some(s.(store := SweepItems(s.store, c.run, c.items, s.rows, s.leases, c.at).0,
                                  collector := Sweeping(c.at, c.age, c.order)))
  {
    var n := |s.collector.items|;
    ItemStepsInSweep(n);
    StepsSweepItems(s);
    var swept := Trace(s, ItemSteps(n)).value;
    assert Trace(swept, [JudgeNext]) == Next(swept, JudgeNext);
    TraceConcat(s, ItemSteps(n), [JudgeNext]);
    events := ItemSteps(n) + [JudgeNext];
  }

  lemma {:induction false} OneRun(s: State, listing: seq<Key>) returns (events: seq<Event>)
    requires s.collector.Sweeping? && s.collector.order != [] && Distinct(listing)
    ensures forall e :: e in events ==> InSweep(e)
    ensures var c := s.collector;
      Trace(s, events) == Some(s.(store := SweepRun(s.store, c.order[0], listing, s.rows, s.leases, c.at, c.age).0,
                                  collector := Sweeping(c.at, c.age, c.order[1..])))
  {
    var entered := Next(s, OpenRun(listing)).value;
    events := [OpenRun(listing)];
    assert Trace(s, events) == Some(entered);
    if entered.collector.InRun? {
      var items := RunItems(entered);
      TraceConcat(s, events, items);
      events := events + items;
    }
  }

  lemma {:induction false} FirstRuns(s: State, listings: seq<seq<Key>>, n: nat) returns (events: seq<Event>)
    requires s.collector.Sweeping? && |listings| == |s.collector.order| && n <= |listings|
    requires forall listing :: listing in listings ==> Distinct(listing)
    ensures forall e :: e in events ==> InSweep(e)
    ensures var c := s.collector;
      Trace(s, events) == Some(s.(store := SweepRuns(s.store, c.order[..n], listings[..n], s.rows, s.leases, c.at, c.age).0,
                                  collector := Sweeping(c.at, c.age, c.order[n..])))
  {
    var c := s.collector;
    if n == 0 {
      events := [];
    } else {
      var before := FirstRuns(s, listings, n - 1);
      assert c.order[..n][..n - 1] == c.order[..n - 1] && listings[..n][..n - 1] == listings[..n - 1];
      assert c.order[n - 1..][0] == c.order[n - 1] && c.order[n - 1..][1..] == c.order[n..];
      assert listings[n - 1] in listings;
      var last := OneRun(Trace(s, before).value, listings[n - 1]);
      TraceConcat(s, before, last);
      events := before + last;
    }
  }

  /** A sweep can always come to its end, and left alone its steps leave the store
      that the sequential sweep computes. */
  lemma {:induction false} StepsSweepRuns(s: State, age: int, order: seq<RunId>, listings: seq<seq<Key>>) returns (sweep: seq<Event>)
    requires Next(s, BeginSweep(age, order)).Some? && |listings| == |order|
    requires forall listing :: listing in listings ==> Distinct(listing)
    ensures forall e :: e in sweep ==> InSweep(e)
    ensures Trace(Next(s, BeginSweep(age, order)).value, sweep) ==
      Some(s.(store := SweepRuns(s.store, order, listings, s.rows, s.leases, s.now, age).0, collector := Absent))
  {
    var begun := Next(s, BeginSweep(age, order)).value;
    var runs := FirstRuns(begun, listings, |order|);
    assert order[..|order|] == order && listings[..|order|] == listings;
    var swept := Trace(begun, runs).value;
    assert Trace(swept, [OpenRun([])]) == Next(swept, OpenRun([]));
    TraceConcat(begun, runs, [OpenRun([])]);
    sweep := runs + [OpenRun([])];
  }

  /** The exact condition for the sequential sweep. */
  lemma {:induction false} SweepRestoresIff(start: int, events: seq<Event>, age: int, order: seq<RunId>, listings: seq<seq<Key>>, run: RunId, k: Key)
    requires Trace(Initial(start), events).Some? && |listings| == |order|
    requires forall listing :: listing in listings ==> Distinct(listing)
    requires var s := Trace(Initial(start), events).value;
      Next(s, BeginSweep(age, order)).Some? && run in order && OnlyCopyIn(s.store, run, k)
    ensures var s := Trace(Initial(start), events).value;
      Intact(SweepRuns(s.store, order, listings, s.rows, s.leases, s.now, age).0, k) <==>
        k !in s.store.canonical && SoundOwners(k, s.rows, s.leases, s.now) && Sweepable(s.store, run, k, s.now, age)
  {
    var sweep := StepsSweepRuns(Trace(Initial(start), events).value, age, order, listings);
    RestoredIff(start, events, age, order, sweep, run, k);
  }

  // ----- both blockers are reached ------------------------------------------------------------

  /** A run of the system and the state it reaches, one event longer. */
  lemma {:induction false} Further(start: int, events: seq<Event>, s: State, e: Event) returns (more: seq<Event>, next: State)
    requires Trace(Initial(start), events) == Some(s) && Next(s, e).Some?
    ensures more == events + [e] && Next(s, e) == Some(next) && Trace(Initial(start), more) == Some(next)
  {
    more, next := events + [e], Next(s, e).value;
    TraceConcat(Initial(start), events, [e]);
    assert Trace(next, [e][1..]) == Some(next);
  }

  /** The only copy of an owned blob lies in a run that nothing changes any more. */
  ghost predicate Buried(s: State, run: RunId, k: Key) {
    Stuck(s, run) && OnlyCopyIn(s.store, run, k) && k !in s.store.canonical && SoundOwners(k, s.rows, s.leases, s.now)
  }

  /** A quarantine of the given blobs about to move its first candidate. */
  function AboutToMove(start: int, run: RunId, blobs: map<Key, Bytes>, todo: seq<Item>): State {
    State(Store(blobs, map[]), [], [], start, 0, Quarantining(start, run, Roots(map[], map[]), todo, []))
  }

  lemma {:induction false} BeginMoving(start: int, run: RunId, before: seq<Event>, s: State, todo: seq<Item>) returns (events: seq<Event>, next: State)
    requires Trace(Initial(start), before) == Some(s) && s == Initial(start).(sessions := 1, store := Store(s.store.canonical, map[]))
    ensures Trace(Initial(start), events) == Some(next) && next == AboutToMove(start, run, s.store.canonical, todo)
  {
    events, next := Further(start, before, s, CloseSession);
    assert LiveEntries([], start) == [];
    assert ProtectedRoots([], [], start) == Some(Roots(map[], map[]));
    events, next := Further(start, events, next, BeginQuarantine(run, todo));
  }

  /** One candidate without an owner is moved. */
  lemma {:induction false} MoveNext(s: State, k: Key)
    requires s.collector.Quarantining? && s.collector.roots == Roots(map[], map[])
    requires s.collector.todo != [] && s.collector.todo[0] == ItemFor(k)
    requires k in s.store.canonical && s.store.canonical[k] == k.preimage && k !in Files(s.store, s.collector.run)
    requires s.collector.run in s.store.runs ==> s.store.runs[s.collector.run].manifest.Missing?
    ensures var c := s.collector;
      Next(s, QuarantineNext) ==
        Some(s.(store := Store(s.store.canonical - {k}, s.store.runs[c.run := Run(Files(s.store, c.run)[k := k.preimage], Missing)]),
                collector := Quarantining(c.at, c.run, c.roots, c.todo[1..], c.moved + [ItemFor(k)])))
  {
  }

  /** Once all candidates are moved the manifest is to be written. */
  lemma {:induction false} Moved(start: int, run: RunId, before: seq<Event>, s: State) returns (events: seq<Event>, next: State)
    requires Trace(Initial(start), before) == Some(s) && s.leases == []
    requires s.collector.Quarantining? && s.collector.moved != [] && s.collector == Quarantining(start, run, Roots(map[], map[]), [], s.collector.moved)
    ensures Trace(Initial(start), events) == Some(next)
    ensures next == s.(collector := Recording(start, run, Manifest(run, start, false, s.collector.moved)))
  {
    events, next := Further(start, before, s, QuarantineNext);
    events, next := Further(start, events, next, Prune);
  }

  /** A quarantined blob that nobody owns, its manifest about to be written. */
  lemma {:induction false} QuarantineOne(start: int, run: RunId, bytes: Bytes) returns (events: seq<Event>, s: State)
    ensures Trace(Initial(start), events) == Some(s)
    ensures s == State(Store(map[], map[run := Run(map[Sha256(bytes) := bytes], Missing)]), [], [], start, 0,
                       Recording(start, run, Manifest(run, start, false, [ItemFor(Sha256(bytes))])))
  {
    var k := Sha256(bytes);
    events, s := Further(start, [], Initial(start), OpenSession);
    events, s := Further(start, events, s, Put(bytes));
    events, s := BeginMoving(start, run, events, s, [ItemFor(k)]);
    MoveNext(s, k);
    events, s := Further(start, events, s, QuarantineNext);
    assert s.store.canonical == map[] && s.collector.moved == [ItemFor(k)];
    events, s := Moved(start, run, events, s);
  }

  /** The same with an empty blob besides. */
  lemma {:induction false} QuarantineTwo(start: int, run: RunId, bytes: Bytes) returns (events: seq<Event>, s: State)
    requires bytes != []
    ensures Trace(Initial(start), events) == Some(s)
    ensures s == State(Store(map[], map[run := Run(map[Sha256(bytes) := bytes, Sha256([]) := []], Missing)]), [], [], start, 0,
                       Recording(start, run, Manifest(run, start, false, [ItemFor(Sha256(bytes)), ItemFor(Sha256([]))])))
  {
    var k, empty := Sha256(bytes), Sha256([]);
    assert k.preimage != empty.preimage;
    events, s := Further(start, [], Initial(start), OpenSession);
    events, s := Further(start, events, s, Put(bytes));
    events, s := Further(start, events, s, Put([]));
    events, s := BeginMoving(start, run, events, s, [ItemFor(k), ItemFor(empty)]);
    events, s := MoveBoth(start, run, events, s, bytes);
  }

  lemma {:induction false} MoveBoth(start: int, run: RunId, before: seq<Event>, begun: State, bytes: Bytes) returns (events: seq<Event>, s: State)
    requires bytes != [] && Trace(Initial(start), before) == Some(begun)
    requires begun == AboutToMove(start, run, map[Sha256(bytes) := bytes, Sha256([]) := []], [ItemFor(Sha256(bytes)), ItemFor(Sha256([]))])
    ensures Trace(Initial(start), events) == Some(s)
    ensures s == State(Store(map[], map[run := Run(map[Sha256(bytes) := bytes, Sha256([]) := []], Missing)]), [], [], start, 0,
                       Recording(start, run, Manifest(run, start, false, [ItemFor(Sha256(bytes)), ItemFor(Sha256([]))])))
  {
    var k, empty := Sha256(bytes), Sha256([]);
    assert k.preimage != empty.preimage;
    MoveNext(begun, k);
    events, s := Further(start, before, begun, QuarantineNext);
    assert s.collector.todo == [ItemFor(empty)] && s.collector.moved == [ItemFor(k)] && Files(s.store, run) == map[k := bytes];
    MoveNext(s, empty);
    events, s := Further(start, events, s, QuarantineNext);
    assert s.collector.todo == [] && s.collector.moved == [ItemFor(k), ItemFor(empty)];
    assert s.store.canonical == map[] && s.store.runs == map[run := Run(map[k := bytes, empty := []], Missing)];
    events, s := Moved(start, run, events, s);
  }

  /** An owner of the blob comes back. */
  lemma {:induction false} OwnerReturns(start: int, before: seq<Event>, s: State, k: Key) returns (events: seq<Event>, late: State)
    requires Trace(Initial(start), before) == Some(s) && s.collector.Absent? && s.sessions == 0 && s.rows == [] && s.leases == []
    ensures Trace(Initial(start), events) == Some(late)
    ensures late == s.(rows := [Entry(k, Meta(k, |k.preimage|))]) && SoundOwners(k, late.rows, late.leases, late.now)
  {
    events, late := Further(start, before, s, OpenSession);
    events, late := Further(start, events, late, AddRow(Entry(k, Meta(k, |k.preimage|))));
    events, late := Further(start, events, late, CloseSession);
    assert LiveEntries([], late.now) == [];
    assert late.rows[0] in late.rows;
  }

  /** A crash while the manifest is written buries the only copy of a blob. */
  lemma {:induction false} TornManifestBuries(start: int, run: RunId, bytes: Bytes) returns (events: seq<Event>, s: State)
    ensures Trace(Initial(start), events) == Some(s) && Buried(s, run, Sha256(bytes)) && s.store.runs[run].manifest.Torn?
  {
    events, s := QuarantineOne(start, run, bytes);
    events, s := Further(start, events, s, TearManifest);
    events, s := Further(start, events, s, Crash);
    events, s := OwnerReturns(start, events, s, Sha256(bytes));
  }

  /** An empty blob quarantined with it buries the only copy of a blob. */
  lemma {:induction false} EmptyBlobBuries(start: int, run: RunId, bytes: Bytes) returns (events: seq<Event>, s: State)
    requires bytes != []
    ensures Trace(Initial(start), events) == Some(s) && Buried(s, run, Sha256(bytes)) && s.store.runs[run].manifest.Recorded?
  {
    events, s := QuarantineTwo(start, run, bytes);
    events, s := Further(start, events, s, WriteManifest);
    var m := s.store.runs[run].manifest.manifest;
    assert m.moved[1] in m.moved && |m.moved[1].key.preimage| == 0;
    events, s := OwnerReturns(start, events, s, Sha256(bytes));
  }
}
