/** When a sweep deletes a quarantined blob, and how many blobs it deletes: the
    exact conditions, read off the rows, the leases and the manifests. */
module CasDelete {
  import opened Wrappers
  import opened Blobs
  import opened CasStore
  import opened CasProtocol
  import opened CasRestore

  /** Nobody names the blob, and no two owners disagree about any key. */
  ghost predicate Unowned(k: Key, rows: seq<Entry>, leases: seq<Lease>, at: int) {
    var live := LiveEntries(leases, at);
    !Disagree(rows) && !Disagree(live) && forall e: Entry :: e in rows || e in live ==> e.key != k
  }

  /** A correct quarantined blob is deleted exactly if it has no owner and nothing
      stands at its key; owners of other keys do not matter. */
  lemma {:induction false} JudgeDeletesIff(store: Store, run: RunId, rows: seq<Entry>, leases: seq<Lease>, at: int, k: Key)
    requires CorrectIn(store, run, k)
    ensures Judge(store, run, ItemFor(k), rows, leases, at).Delete? <==> k !in store.canonical && Unowned(k, rows, leases, at)
  {
    var live := LiveEntries(leases, at);
    if ProtectedRoots(rows, leases, at).Some? {
      var finalDb, staging := Authority(rows).value, Authority(live).value;
      assert k in finalDb ==> Entry(k, finalDb[k]) in rows;
      assert k in staging ==> Entry(k, staging[k]) in live;
      assert forall e: Entry :: e in rows && e.key == k ==> k in finalDb;
      assert forall e: Entry :: e in live && e.key == k ==> k in staging;
    }
  }

  /** What has no owner is not restored. */
  lemma {:induction false} JudgeNeedsOwner(store: Store, run: RunId, item: Item, rows: seq<Entry>, leases: seq<Lease>, at: int)
    requires Unowned(item.key, rows, leases, at)
    ensures !Judge(store, run, item, rows, leases, at).Restore?
  {
    var live := LiveEntries(leases, at);
    if ProtectedRoots(rows, leases, at).Some? {
      var finalDb, staging := Authority(rows).value, Authority(live).value;
      assert forall k :: k in finalDb ==> Entry(k, finalDb[k]) in rows;
      assert forall k :: k in staging ==> Entry(k, staging[k]) in live;
      assert item.key !in finalDb && item.key !in staging;
    }
  }

  // ----- over the steps of a sweep -------------------------------------------------

  /** The blob is gone from its run, or the sweep is still to delete it. */
  ghost predicate Falling(s: State, run: RunId, k: Key, at: int, age: int) {
    && Unowned(k, s.rows, s.leases, at) && k !in s.store.canonical
    && (s.collector.Decided? && s.collector.k == k ==> !s.collector.verdict.Restore?)
    && (!FileIn(s.store, run, k) ||
        (CorrectIn(s.store, run, k) && Sweepable(s.store, run, k, at, age) &&
         match s.collector
         case Sweeping(_, _, order) => run in order
         case InRun(_, _, order, r, items) => run in order || (r == run && ItemFor(k) in items)
         case Decided(_, _, order, r, items, kk, verdict) =>
           run in order || (r == run && (ItemFor(k) in items || (kk == k && verdict.Delete?)))
         case _ => false))
  }

  lemma {:induction false} OpenRunFalling(s: State, e: Event, run: RunId, k: Key, at: int, age: int)
    requires Inv(s) && ManifestsTruthful(s) && e.OpenRun? && Next(s, e).Some?
    requires SweptAt(s.collector, at, age) && Falling(s, run, k, at, age)
    ensures Falling(Next(s, e).value, run, k, at, age)
  {
    if FileIn(s.store, run, k) && s.collector.order[0] == run {
      ReadableIff(s.store.runs[run].manifest.manifest, run, at);
    }
  }

  lemma {:induction false} JudgeNextFalling(s: State, run: RunId, k: Key, at: int, age: int)
    requires Inv(s) && ManifestsTruthful(s) && Next(s, JudgeNext).Some?
    requires SweptAt(s.collector, at, age) && Falling(s, run, k, at, age)
    ensures Falling(Next(s, JudgeNext).value, run, k, at, age)
  {
    var c := s.collector;
    if c.items != [] && c.items[0].key == k {
      assert c.items[0] == ItemFor(k);
      JudgeNeedsOwner(s.store, c.run, c.items[0], s.rows, s.leases, at);
      if c.run == run && FileIn(s.store, run, k) {
        JudgeDeletesIff(s.store, run, s.rows, s.leases, at, k);
      }
    }
  }

  lemma {:induction false} PerformFalling(s: State, run: RunId, k: Key, at: int, age: int)
    requires Inv(s) && ManifestsTruthful(s) && Next(s, PerformVerdict).Some?
    requires SweptAt(s.collector, at, age) && Falling(s, run, k, at, age)
    ensures Falling(Next(s, PerformVerdict).value, run, k, at, age)
  {
  }

  lemma {:induction false} FallingKept(s: State, e: Event, run: RunId, k: Key, at: int, age: int)
    requires Inv(s) && ManifestsTruthful(s) && InSweep(e) && Next(s, e).Some?
    requires SweptAt(s.collector, at, age) && Falling(s, run, k, at, age)
    ensures Falling(Next(s, e).value, run, k, at, age)
  {
    match e
    case Tick(_) =>
    case OpenRun(_) => OpenRunFalling(s, e, run, k, at, age);
    case TearRecovery =>
    case JudgeNext => JudgeNextFalling(s, run, k, at, age);
    case PerformVerdict => PerformFalling(s, run, k, at, age);
  }

  /** The sweep does not delete the blob: something stands at its key, somebody
      names it or owners disagree, or its run is not sweepable for it. */
  ghost predicate Spared(s: State, run: RunId, k: Key, at: int, age: int) {
    && (k in s.store.canonical || (CorrectIn(s.store, run, k) && (!Unowned(k, s.rows, s.leases, at) || Passed(s, run, k, at, age))))
    && (s.collector.Decided? && s.collector.run == run && s.collector.k == k ==> !s.collector.verdict.Delete?)
  }

  lemma {:induction false} OpenRunSpared(s: State, e: Event, run: RunId, k: Key, at: int, age: int)
    requires Inv(s) && ManifestsTruthful(s) && e.OpenRun? && Next(s, e).Some?
    requires SweptAt(s.collector, at, age) && age > 0 && Spared(s, run, k, at, age)
    ensures Spared(Next(s, e).value, run, k, at, age)
  {
    var c := s.collector;
    if c.order != [] && c.order[0] == run && run in s.store.runs && s.store.runs[run].manifest.Recorded? {
      ReadableIff(s.store.runs[run].manifest.manifest, run, at);
    }
  }

  lemma {:induction false} JudgeNextSpared(s: State, run: RunId, k: Key, at: int, age: int)
    requires Inv(s) && ManifestsTruthful(s) && Next(s, JudgeNext).Some?
    requires SweptAt(s.collector, at, age) && Spared(s, run, k, at, age)
    ensures Spared(Next(s, JudgeNext).value, run, k, at, age)
  {
    var c := s.collector;
    if c.items != [] && c.items[0].key == k && c.run == run {
      assert c.items[0] == ItemFor(k);
      if CorrectIn(s.store, run, k) {
        JudgeDeletesIff(s.store, run, s.rows, s.leases, at, k);
      }
    }
  }

  lemma {:induction false} PerformSpared(s: State, run: RunId, k: Key, at: int, age: int)
    requires Inv(s) && ManifestsTruthful(s) && Next(s, PerformVerdict).Some?
    requires SweptAt(s.collector, at, age) && Spared(s, run, k, at, age)
    ensures Spared(Next(s, PerformVerdict).value, run, k, at, age)
  {
  }

  lemma {:induction false} SparedKept(s: State, e: Event, run: RunId, k: Key, at: int, age: int)
    requires Inv(s) && ManifestsTruthful(s) && InSweep(e) && Next(s, e).Some?
    requires SweptAt(s.collector, at, age) && age > 0 && Spared(s, run, k, at, age)
    ensures Spared(Next(s, e).value, run, k, at, age)
  {
    match e
    case Tick(_) =>
    case OpenRun(_) => OpenRunSpared(s, e, run, k, at, age);
    case TearRecovery =>
    case JudgeNext => JudgeNextSpared(s, run, k, at, age);
    case PerformVerdict => PerformSpared(s, run, k, at, age);
  }

  lemma {:induction false} SweepDeletes(s: State, sweep: seq<Event>, run: RunId, k: Key, at: int, age: int)
    requires Inv(s) && ManifestsTruthful(s) && SweptAt(s.collector, at, age) && age > 0
    requires (forall e :: e in sweep ==> InSweep(e)) && Trace(s, sweep).Some?
    ensures Falling(s, run, k, at, age) ==> Falling(Trace(s, sweep).value, run, k, at, age)
    ensures Spared(s, run, k, at, age) ==> Spared(Trace(s, sweep).value, run, k, at, age)
    decreases |sweep|
  {
    if sweep != [] {
      var e := sweep[0];
      assert InSweep(e);
      InvKept(s, e);
      TruthfulKept(s, e);
      SweptAtKept(s, e, at, age);
      if Falling(s, run, k, at, age) {
        FallingKept(s, e, run, k, at, age);
      }
      if Spared(s, run, k, at, age) {
        SparedKept(s, e, run, k, at, age);
      }
      SweepDeletes(Next(s, e).value, sweep[1..], run, k, at, age);
    }
  }

  /** Gone for good: neither in the run nor at its key. */
  predicate Gone(store: Store, run: RunId, k: Key) { !FileIn(store, run, k) && k !in store.canonical }

  /** In any reachable state, let a correct copy of a blob lie in a run, and let a
      sweep that visits the run begin and come to its end. Then the run is without
      the file and the key is empty exactly if nothing stood at the key, no row and
      no unexpired lease names it, neither rows nor unexpired leases disagree about
      any key, and the run's manifest was there, intact, old enough, lists the blob
      and lists no empty blob. */
  lemma {:induction false} DeletedIff(start: int, events: seq<Event>, age: int, order: seq<RunId>, sweep: seq<Event>, run: RunId, k: Key)
    requires Trace(Initial(start), events).Some?
    requires var s := Trace(Initial(start), events).value;
      && Next(s, BeginSweep(age, order)).Some? && run in order && CorrectIn(s.store, run, k)
      && (forall e :: e in sweep ==> InSweep(e))
      && Trace(Next(s, BeginSweep(age, order)).value, sweep).Some?
      && Trace(Next(s, BeginSweep(age, order)).value, sweep).value.collector.Absent?
    ensures var s := Trace(Initial(start), events).value;
      Gone(Trace(Next(s, BeginSweep(age, order)).value, sweep).value.store, run, k) <==>
        k !in s.store.canonical && Unowned(k, s.rows, s.leases, s.now) && Sweepable(s.store, run, k, s.now, age)
  {
    InitiallyFine(start);
    TraceTruthful(Initial(start), events);
    var s := Trace(Initial(start), events).value;
    SweepDeletes(Next(s, BeginSweep(age, order)).value, sweep, run, k, s.now, age);
  }

  /** The exact condition for the sequential sweep. */
  lemma {:induction false} SweepDeletesIff(start: int, events: seq<Event>, age: int, order: seq<RunId>, listings: seq<seq<Key>>, run: RunId, k: Key)
    requires Trace(Initial(start), events).Some? && |listings| == |order|
    requires forall listing :: listing in listings ==> Distinct(listing)
    requires var s := Trace(Initial(start), events).value;
      Next(s, BeginSweep(age, order)).Some? && run in order && CorrectIn(s.store, run, k)
    ensures var s := Trace(Initial(start), events).value;
      Gone(SweepRuns(s.store, order, listings, s.rows, s.leases, s.now, age).0, run, k) <==>
        k !in s.store.canonical && Unowned(k, s.rows, s.leases, s.now) && Sweepable(s.store, run, k, s.now, age)
  {
    var sweep := StepsSweepRuns(Trace(Initial(start), events).value, age, order, listings);
    DeletedIff(start, events, age, order, sweep, run, k);
  }

  // ----- how many blobs a sweep deletes ----------------------------------------------------

  /** A correct file that the sweep of its run would delete, if listed. */
  ghost predicate Falls(store: Store, run: RunId, k: Key, rows: seq<Entry>, leases: seq<Lease>, at: int) {
    CorrectIn(store, run, k) && k !in store.canonical && Unowned(k, rows, leases, at)
  }

  ghost function FallingItems(store: Store, run: RunId, items: seq<Item>, rows: seq<Entry>, leases: seq<Lease>, at: int): (r: set<Place>)
    ensures forall p :: p in r <==> p.Quarantined? && p.run == run && ItemFor(p.k) in items && Falls(store, run, p.k, rows, leases, at)
  {
    var keys := set item | item in items :: item.key;
    set k | k in keys && ItemFor(k) in items && Falls(store, run, k, rows, leases, at) :: Quarantined(run, k)
  }

  lemma {:induction false} JudgeFalls(store: Store, run: RunId, rows: seq<Entry>, leases: seq<Lease>, at: int, k: Key)
    ensures Judge(store, run, ItemFor(k), rows, leases, at).Delete? <==> Falls(store, run, k, rows, leases, at)
  {
    if CorrectIn(store, run, k) {
      JudgeDeletesIff(store, run, rows, leases, at, k);
    }
  }

  /** What the items of other keys leave of a key. */
  lemma {:induction false} ItemsElsewhere(store: Store, run: RunId, items: seq<Item>, rows: seq<Entry>, leases: seq<Lease>, at: int, k: Key)
    requires forall item :: item in items ==> item.key != k
    ensures var after := SweepItems(store, run, items, rows, leases, at).0;
      && (CorrectIn(after, run, k) <==> CorrectIn(store, run, k))
      && (k in after.canonical <==> k in store.canonical)
  {
    if items != [] {
      var init := items[..|items| - 1];
      assert forall item :: item in init ==> item in items;
      ItemsElsewhere(store, run, init, rows, leases, at, k);
      assert items[|items| - 1] in items;
    }
  }

  lemma {:induction false} ItemsCount(store: Store, run: RunId, items: seq<Item>, rows: seq<Entry>, leases: seq<Lease>, at: int)
    requires TrueItems(items) && OncePerKey(items)
    ensures SweepItems(store, run, items, rows, leases, at).1 == |FallingItems(store, run, items, rows, leases, at)|
  {
    if items == [] {
      assert FallingItems(store, run, items, rows, leases, at) == {};
    } else {
      var init, last := items[..|items| - 1], items[|items| - 1];
      assert items == init + [last] && last in items && last == ItemFor(last.key);
      assert forall item :: item in init ==> item in items;
      ItemsCount(store, run, init, rows, leases, at);
      var before := SweepItems(store, run, init, rows, leases, at).0;
      ItemsElsewhere(store, run, init, rows, leases, at, last.key);
      JudgeFalls(before, run, rows, leases, at, last.key);
      FallingPush(store, run, init, last, rows, leases, at);
    }
  }

  lemma {:induction false} FallingPush(store: Store, run: RunId, items: seq<Item>, last: Item, rows: seq<Entry>, leases: seq<Lease>, at: int)
    requires last == ItemFor(last.key) && forall item :: item in items ==> item.key != last.key
    ensures |FallingItems(store, run, items + [last], rows, leases, at)| ==
            |FallingItems(store, run, items, rows, leases, at)| + if Falls(store, run, last.key, rows, leases, at) then 1 else 0
  {
    var fewer := FallingItems(store, run, items, rows, leases, at);
    assert Quarantined(run, last.key) !in fewer;
    assert FallingItems(store, run, items + [last], rows, leases, at) ==
      if Falls(store, run, last.key, rows, leases, at) then fewer + {Quarantined(run, last.key)} else fewer;
  }

  ghost function DoomedIn(store: Store, run: RunId, rows: seq<Entry>, leases: seq<Lease>, at: int, age: int): (r: set<Place>)
    ensures forall p :: p in r <==>
      p.Quarantined? && p.run == run && Falls(store, run, p.k, rows, leases, at) && Sweepable(store, run, p.k, at, age)
  {
    set p | p in QuarantinePlaces(store.runs) && p.run == run && Falls(store, run, p.k, rows, leases, at) && Sweepable(store, run, p.k, at, age)
  }

  ghost predicate RunTruthful(store: Store, run: RunId) {
    run in store.runs && store.runs[run].manifest.Recorded? ==> Truthful(run, store.runs[run].manifest.manifest)
  }

  lemma {:induction false} RunCount(store: Store, run: RunId, listing: seq<Key>, rows: seq<Entry>, leases: seq<Lease>, at: int, age: int)
    requires RunTruthful(store, run) && age > 0
    ensures SweepRun(store, run, listing, rows, leases, at, age).1 == |DoomedIn(store, run, rows, leases, at, age)|
  {
    var doomed := DoomedIn(store, run, rows, leases, at, age);
    if run in store.runs && store.runs[run].manifest.Recorded? {
      var m := store.runs[run].manifest.manifest;
      ReadableIff(m, run, at);
      assert store.runs[run := store.runs[run]] == store.runs;
      if m.quarantinedAt + age <= at && NoEmptyBlob(m) {
        ItemsCount(store, run, m.moved, rows, leases, at);
        assert doomed == FallingItems(store, run, m.moved, rows, leases, at);
      } else {
        assert doomed == {};
      }
    } else {
      assert doomed == {};
    }
  }

  /** What sweeping one run leaves of another run and of a key without owner. */
  lemma {:induction false} ItemsApart(store: Store, run: RunId, items: seq<Item>, rows: seq<Entry>, leases: seq<Lease>, at: int, other: RunId, k: Key)
    requires other != run
    ensures var after := SweepItems(store, run, items, rows, leases, at).0;
      && (other in after.runs <==> other in store.runs) && (other in store.runs ==> after.runs[other] == store.runs[other])
      && (Unowned(k, rows, leases, at) ==> (k in after.canonical <==> k in store.canonical))
  {
    if items != [] {
      var init, last := items[..|items| - 1], items[|items| - 1];
      ItemsApart(store, run, init, rows, leases, at, other, k);
      if Unowned(k, rows, leases, at) && last.key == k {
        JudgeNeedsOwner(SweepItems(store, run, init, rows, leases, at).0, run, last, rows, leases, at);
      }
    }
  }

  lemma {:induction false} RunApart(store: Store, run: RunId, listing: seq<Key>, rows: seq<Entry>, leases: seq<Lease>, at: int, age: int, other: RunId, k: Key)
    requires other != run
    ensures var after := SweepRun(store, run, listing, rows, leases, at, age).0;
      && (other in after.runs <==> other in store.runs) && (other in store.runs ==> after.runs[other] == store.runs[other])
      && (Unowned(k, rows, leases, at) ==> (k in after.canonical <==> k in store.canonical))
  {
    if run in store.runs {
      var (manifest, dir) := ReadManifest(run, store.runs[run], listing, at);
      if manifest.Some? {
        ItemsApart(store.(runs := store.runs[run := dir]), run, manifest.value.moved, rows, leases, at, other, k);
      }
    }
  }

  lemma {:induction false} RunsApart(store: Store, order: seq<RunId>, listings: seq<seq<Key>>, rows: seq<Entry>, leases: seq<Lease>, at: int, age: int, other: RunId, k: Key)
    requires |listings| == |order| && other !in order
    ensures var after := SweepRuns(store, order, listings, rows, leases, at, age).0;
      && (other in after.runs <==> other in store.runs) && (other in store.runs ==> after.runs[other] == store.runs[other])
      && (Unowned(k, rows, leases, at) ==> (k in after.canonical <==> k in store.canonical))
  {
    if order != [] {
      var n := |order| - 1;
      assert order[n] in order;
      RunsApart(store, order[..n], listings[..n], rows, leases, at, age, other, k);
      RunApart(SweepRuns(store, order[..n], listings[..n], rows, leases, at, age).0, order[n], listings[n], rows, leases, at, age, other, k);
    }
  }

  /** The places a sweep empties for good. */
  ghost function Doomed(store: Store, order: seq<RunId>, rows: seq<Entry>, leases: seq<Lease>, at: int, age: int): (r: set<Place>)
    ensures forall p :: p in r <==>
      p.Quarantined? && p.run in order && Falls(store, p.run, p.k, rows, leases, at) && Sweepable(store, p.run, p.k, at, age)
  {
    set p | p in QuarantinePlaces(store.runs) && p.run in order && Falls(store, p.run, p.k, rows, leases, at) && Sweepable(store, p.run, p.k, at, age)
  }

  predicate DistinctRuns(order: seq<RunId>) { forall i, j :: 0 <= i < j < |order| ==> order[i] != order[j] }

  lemma {:induction false} DoomedApart(store: Store, order: seq<RunId>, listings: seq<seq<Key>>, rows: seq<Entry>, leases: seq<Lease>, at: int, age: int, run: RunId)
    requires |listings| == |order| && run !in order
    ensures DoomedIn(SweepRuns(store, order, listings, rows, leases, at, age).0, run, rows, leases, at, age) ==
            DoomedIn(store, run, rows, leases, at, age)
    ensures RunTruthful(store, run) ==> RunTruthful(SweepRuns(store, order, listings, rows, leases, at, age).0, run)
  {
    var after := SweepRuns(store, order, listings, rows, leases, at, age).0;
    forall k ensures Quarantined(run, k) in DoomedIn(after, run, rows, leases, at, age) <==> Quarantined(run, k) in DoomedIn(store, run, rows, leases, at, age) {
      RunsApart(store, order, listings, rows, leases, at, age, run, k);
    }
    RunsApart(store, order, listings, rows, leases, at, age, run, Sha256([]));
  }

  lemma {:induction false} RunsCount(store: Store, order: seq<RunId>, listings: seq<seq<Key>>, rows: seq<Entry>, leases: seq<Lease>, at: int, age: int)
    requires |listings| == |order| && DistinctRuns(order) && age > 0
    requires forall r :: r in store.runs ==> RunTruthful(store, r)
    ensures SweepRuns(store, order, listings, rows, leases, at, age).1 == |Doomed(store, order, rows, leases, at, age)|
  {
    if order == [] {
      assert Doomed(store, order, rows, leases, at, age) == {};
    } else {
      var n := |order| - 1;
      var init, last := order[..n], order[n];
      assert order == init + [last] && last !in init;
      var before := SweepRuns(store, init, listings[..n], rows, leases, at, age).0;
      RunsCount(store, init, listings[..n], rows, leases, at, age);
      DoomedApart(store, init, listings[..n], rows, leases, at, age, last);
      assert RunTruthful(store, last);
      RunCount(before, last, listings[n], rows, leases, at, age);
      DoomedPush(store, init, last, rows, leases, at, age);
    }
  }

  lemma {:induction false} DoomedPush(store: Store, order: seq<RunId>, run: RunId, rows: seq<Entry>, leases: seq<Lease>, at: int, age: int)
    requires run !in order
    ensures |Doomed(store, order + [run], rows, leases, at, age)| ==
            |Doomed(store, order, rows, leases, at, age)| + |DoomedIn(store, run, rows, leases, at, age)|
  {
    var a, b := Doomed(store, order, rows, leases, at, age), DoomedIn(store, run, rows, leases, at, age);
    assert Doomed(store, order + [run], rows, leases, at, age) == a + b && a !! b;
  }

  /** The number a sweep returns is exactly the number of quarantined files that
      meet the condition when it begins: a correct file of a visited run, nothing
      at its key, no owner, and a manifest that was recorded, is old enough, lists
      the file and lists no empty blob. */
  lemma {:induction false} SweepCountIs(start: int, events: seq<Event>, age: int, order: seq<RunId>, listings: seq<seq<Key>>)
    requires Trace(Initial(start), events).Some? && |listings| == |order| && DistinctRuns(order) && age > 0
    ensures var s := Trace(Initial(start), events).value;
      SweepRuns(s.store, order, listings, s.rows, s.leases, s.now, age).1 == |Doomed(s.store, order, s.rows, s.leases, s.now, age)|
  {
    InitiallyFine(start);
    TraceTruthful(Initial(start), events);
    var s := Trace(Initial(start), events).value;
    RunsCount(s.store, order, listings, s.rows, s.leases, s.now, age);
  }

  // ----- a sweep that deletes --------------------------------------------------------------------

  /** A blob that nobody owns is deleted once its run is old enough, although
      another blob has an owner. */
  lemma {:induction false} UnownedIsDeleted(start: int, run: RunId, bytes: Bytes, owned: Key, age: int) returns (events: seq<Event>, s: State)
    requires bytes != [] && owned != Sha256(bytes) && age > 0
    ensures Trace(Initial(start), events) == Some(s) && CorrectIn(s.store, run, Sha256(bytes))
    ensures Entry(owned, Meta(owned, |owned.preimage|)) in s.rows
    ensures forall listing: seq<Key> :: Distinct(listing) ==>
      Gone(SweepRuns(s.store, [run], [listing], s.rows, s.leases, s.now, age).0, run, Sha256(bytes))
  {
    var k := Sha256(bytes);
    events, s := QuarantineOne(start, run, bytes);
    events, s := Further(start, events, s, WriteManifest);
    events, s := OwnerReturns(start, events, s, owned);
    events, s := Further(start, events, s, Tick(start + age));
    var m := s.store.runs[run].manifest.manifest;
    assert m.moved == [ItemFor(k)] && m.moved[0] in m.moved;
    assert LiveEntries(s.leases, s.now) == [];
    assert s.rows[0] in s.rows;
    assert Next(s, BeginSweep(age, [run])).Some?;
    forall listing: seq<Key> | Distinct(listing)
      ensures Gone(SweepRuns(s.store, [run], [listing], s.rows, s.leases, s.now, age).0, run, k)
    {
      SweepDeletesIff(start, events, age, [run], [listing], run, k);
    }
  }
}
