/** The content-addressed blob store on disk, the rows that own blobs, and what
    one quarantine or sweep pass of the garbage collector does to the files. */
module CasStore {
  import opened Wrappers
  import opened Blobs

  // ----- owners ------------------------------------------------------------

  datatype Meta = Meta(contentHash: Digest, sizeBytes: int)

  datatype Entry = Entry(key: Key, meta: Meta)

  datatype Lease = Lease(entry: Entry, expiresAt: int)

  datatype Roots = Roots(finalDb: map<Key, Meta>, staging: map<Key, Meta>)

  function LiveEntries(leases: seq<Lease>, now: int): (r: seq<Entry>)
    ensures forall e :: e in r <==> exists l :: l in leases && l.expiresAt > now && l.entry == e
  {
    if leases == [] then [] else
      var prefix := LiveEntries(leases[..|leases| - 1], now);
      var last := leases[|leases| - 1];
      assert leases == leases[..|leases| - 1] + [last];
      if last.expiresAt > now then prefix + [last.entry] else prefix
  }

  ghost predicate Disagree(entries: seq<Entry>) {
    exists e, f :: e in entries && f in entries && e.key == f.key && e.meta != f.meta
  }

  /** The owner map the source builds row by row; None is its exception on two
      rows that disagree about one key. */
  function Authority(entries: seq<Entry>): (r: Option<map<Key, Meta>>)
    ensures r.None? <==> Disagree(entries)
    ensures r.Some? ==> forall e: Entry :: e in entries <==> e.key in r.value && r.value[e.key] == e.meta
    ensures r.Some? ==> forall k :: k in r.value ==> Entry(k, r.value[k]) in entries
  {
    if entries == [] then Some(map[]) else
      var init, last := entries[..|entries| - 1], entries[|entries| - 1];
      assert entries == init + [last];
      match Authority(init)
      case None => None
      case Some(m) =>
        if last.key in m && m[last.key] != last.meta then
          assert Entry(last.key, m[last.key]) in entries;
          None
        else Some(m[last.key := last.meta])
  }

  function ProtectedRoots(rows: seq<Entry>, leases: seq<Lease>, now: int): Option<Roots> {
    match (Authority(rows), Authority(LiveEntries(leases, now)))
    case (Some(f), Some(s)) => Some(Roots(f, s))
    case _ => None
  }

  method CollectAuthority(entries: seq<Entry>) returns (r: Option<map<Key, Meta>>)
    ensures r == Authority(entries)
  {
    var owners: map<Key, Meta> := map[];
    for i := 0 to |entries|
      invariant Authority(entries[..i]) == Some(owners)
    {
      assert entries[..i + 1][..i] == entries[..i];
      var row := entries[i];
      if row.key in owners && owners[row.key] != row.meta {
        assert Authority(entries[..i + 1]).None?;
        assert forall e :: e in entries[..i + 1] ==> e in entries;
        assert Disagree(entries);
        return None;
      }
      owners := owners[row.key := row.meta];
    }
    assert entries[..|entries|] == entries;
    return Some(owners);
  }

  // ----- files -------------------------------------------------------------

  type RunId = string

  datatype Item = Item(key: Key, contentHash: Digest, sizeBytes: int)

  datatype Manifest = Manifest(runId: RunId, quarantinedAt: int, recovered: bool, moved: seq<Item>)

  /** Torn is a manifest cut short by a crash while it was being written. */
  datatype ManifestFile = Missing | Torn | Recorded(manifest: Manifest)

  datatype Run = Run(files: map<Key, Bytes>, manifest: ManifestFile)

  datatype Store = Store(canonical: map<Key, Bytes>, runs: map<RunId, Run>)

  predicate Intact(store: Store, k: Key) {
    k in store.canonical && Sha256(store.canonical[k]) == k
  }

  ghost predicate Copy(store: Store, k: Key) {
    Intact(store, k) ||
    exists r :: r in store.runs && k in store.runs[r].files && Sha256(store.runs[r].files[k]) == k
  }

  /** The item a run lists for a correct file. */
  function ItemFor(k: Key): Item { Item(k, k, |k.preimage|) }

  // ----- quarantine of one candidate ----------------------------------------

  /** `quarantineCandidate`: None is any of its exceptions. */
  function Quarantine(store: Store, run: RunId, candidate: Item): (r: Option<Store>) {
    var k := candidate.key;
    if k !in store.canonical then None
    else
      var bytes := store.canonical[k];
      if Sha256(bytes) != candidate.contentHash || |bytes| != candidate.sizeBytes || candidate.contentHash != k then None
      else
        var files := if run in store.runs then store.runs[run].files else map[];
        var manifest := if run in store.runs then store.runs[run].manifest else Missing;
        if k in files then None
        else Some(Store(store.canonical - {k}, store.runs[run := Run(files[k := bytes], manifest)]))
  }

  /** The locked first phase of an apply: candidates that gained an owner are
      skipped, the others move to the run; the first that no longer matches its
      description ends the pass (the last result is false: an exception). */
  function QuarantineAll(store: Store, run: RunId, selected: seq<Item>, roots: Roots): (Store, seq<Item>, bool) {
    if selected == [] then (store, [], true)
    else
      var candidate := selected[|selected| - 1];
      var (before, moved, ok) := QuarantineAll(store, run, selected[..|selected| - 1], roots);
      if !ok || candidate.key in roots.finalDb || candidate.key in roots.staging then (before, moved, ok)
      else
        match Quarantine(before, run, candidate)
        case None => (before, moved, false)
        case Some(after) => (after, moved + [candidate], true)
  }

  // ----- sweep of one item --------------------------------------------------

  datatype Verdict = Keep | Restore | Delete

  predicate Agrees(owners: map<Key, Meta>, item: Item) {
    item.key in owners ==> owners[item.key] == Meta(item.contentHash, item.sizeBytes)
  }

  function Judge(store: Store, run: RunId, item: Item, rows: seq<Entry>, leases: seq<Lease>, now: int): Verdict {
    if run !in store.runs || item.key !in store.runs[run].files then Keep
    else
      var bytes := store.runs[run].files[item.key];
      if item.contentHash != item.key || Sha256(bytes) != item.key || |bytes| != item.sizeBytes then Keep
      else
        match ProtectedRoots(rows, leases, now)
        case None => Keep
        case Some(roots) =>
          if !Agrees(roots.finalDb, item) || !Agrees(roots.staging, item) then Keep
          else if item.key in store.canonical then Keep
          else if item.key in roots.finalDb || item.key in roots.staging then Restore
          else Delete
  }

  function Perform(store: Store, run: RunId, k: Key, verdict: Verdict): Store
    requires verdict != Keep ==> run in store.runs && k in store.runs[run].files
  {
    if verdict.Keep? then store
    else
      var files := store.runs[run].files;
      var canonical := if verdict.Restore? then store.canonical[k := files[k]] else store.canonical;
      Store(canonical, store.runs[run := store.runs[run].(files := files - {k})])
  }

  function SweepItem(store: Store, run: RunId, item: Item, rows: seq<Entry>, leases: seq<Lease>, now: int): Store {
    Perform(store, run, item.key, Judge(store, run, item, rows, leases, now))
  }

  /** The items of one run, in order, with the number of files deleted. */
  function SweepItems(store: Store, run: RunId, items: seq<Item>, rows: seq<Entry>, leases: seq<Lease>, now: int): (Store, nat) {
    if items == [] then (store, 0)
    else
      var (before, deleted) := SweepItems(store, run, items[..|items| - 1], rows, leases, now);
      var item := items[|items| - 1];
      (SweepItem(before, run, item, rows, leases, now),
       deleted + if Judge(before, run, item, rows, leases, now).Delete? then 1 else 0)
  }

  // ----- manifests ----------------------------------------------------------

  predicate Readable(m: Manifest, run: RunId, now: int) {
    && m.runId == run
    && m.quarantinedAt <= now
    && forall item :: item in m.moved ==> item.sizeBytes > 0 && item.contentHash == item.key
  }

  /** Items of the correct files, in the order of the directory listing. */
  function RecoverItems(files: map<Key, Bytes>, listing: seq<Key>): (items: seq<Item>)
    ensures forall item :: item in items ==> item.key in listing && item.key in files && Sha256(files[item.key]) == item.key && item == ItemFor(item.key)
    ensures forall k :: k in listing && k in files && Sha256(files[k]) == k ==> ItemFor(k) in items
  {
    if listing == [] then []
    else
      var k := listing[0];
      var rest := RecoverItems(files, listing[1..]);
      if k in files && Sha256(files[k]) == k then [ItemFor(k)] + rest else rest
  }

  function RecoveredManifest(run: RunId, files: map<Key, Bytes>, listing: seq<Key>, now: int): Manifest {
    Manifest(run, now, true, RecoverItems(files, listing))
  }

  /** `readQuarantineManifest`: the manifest it returns, None when it throws, and
      the run it leaves (a missing manifest is rebuilt and written). */
  function ReadManifest(run: RunId, dir: Run, listing: seq<Key>, now: int): (Option<Manifest>, Run) {
    match dir.manifest
    case Torn => (None, dir)
    case Recorded(m) => (if Readable(m, run, now) then Some(m) else None, dir)
    case Missing =>
      var m := RecoveredManifest(run, dir.files, listing, now);
      (Some(m), dir.(manifest := Recorded(m)))
  }

  function SweepRun(store: Store, run: RunId, listing: seq<Key>, rows: seq<Entry>, leases: seq<Lease>, now: int, age: int): (Store, nat) {
    if run !in store.runs then (store, 0)
    else
      var (manifest, dir) := ReadManifest(run, store.runs[run], listing, now);
      var entered := store.(runs := store.runs[run := dir]);
      if manifest.None? || now - manifest.value.quarantinedAt < age then (entered, 0)
      else SweepItems(entered, run, manifest.value.moved, rows, leases, now)
  }

  function SweepRuns(store: Store, order: seq<RunId>, listings: seq<seq<Key>>, rows: seq<Entry>, leases: seq<Lease>, now: int, age: int): (Store, nat)
    requires |listings| == |order|
  {
    if order == [] then (store, 0)
    else
      var n := |order| - 1;
      var (before, deleted) := SweepRuns(store, order[..n], listings[..n], rows, leases, now, age);
      var (after, more) := SweepRun(before, order[n], listings[n], rows, leases, now, age);
      (after, deleted + more)
  }

  // ----- counting blobs -----------------------------------------------------

  datatype Place = Canonical(k: Key) | Quarantined(run: RunId, k: Key)

  predicate Holds(store: Store, p: Place) {
    match p
    case Canonical(k) => k in store.canonical
    case Quarantined(r, k) => r in store.runs && k in store.runs[r].files
  }

  ghost function QuarantinePlaces(runs: map<RunId, Run>): (places: set<Place>)
    ensures forall p :: p in places <==> p.Quarantined? && p.run in runs && p.k in runs[p.run].files
  {
    set r, k | r in runs && k in runs[r].files :: Quarantined(r, k)
  }

  /** Every blob file on disk, by the place it lies in. */
  ghost function Places(store: Store): (places: set<Place>)
    ensures forall p :: p in places <==> Holds(store, p)
  {
    (set k | k in store.canonical :: Canonical(k)) + QuarantinePlaces(store.runs)
  }

  /** Two stores that differ in one place gained and one place lost. */
  lemma {:induction false} MovedCount(before: set<Place>, after: set<Place>, gained: Place, lost: Place)
    requires lost in before && gained !in before && gained != lost
    requires forall p :: p in after <==> p == gained || (p in before && p != lost)
    ensures |after| == |before|
  {
    assert after == before - {lost} + {gained};
  }

  lemma {:induction false} QuarantineKeepsCount(store: Store, run: RunId, candidate: Item)
    ensures Quarantine(store, run, candidate).Some? ==>
      |Places(Quarantine(store, run, candidate).value)| == |Places(store)|
  {
    var r := Quarantine(store, run, candidate);
    if r.Some? {
      var k := candidate.key;
      forall p ensures Holds(r.value, p) <==> p == Quarantined(run, k) || (Holds(store, p) && p != Canonical(k)) {
        match p { case Canonical(_) => case Quarantined(_, _) => }
      }
      MovedCount(Places(store), Places(r.value), Quarantined(run, k), Canonical(k));
    }
  }

  lemma {:induction false} PerformCount(store: Store, run: RunId, k: Key, verdict: Verdict)
    requires verdict != Keep ==> run in store.runs && k in store.runs[run].files
    requires verdict.Restore? ==> k !in store.canonical
    ensures |Places(store)| == |Places(Perform(store, run, k, verdict))| + if verdict.Delete? then 1 else 0
  {
    var after := Perform(store, run, k, verdict);
    if verdict != Keep {
      forall p ensures Holds(after, p) <==> (verdict.Restore? && p == Canonical(k)) || (Holds(store, p) && p != Quarantined(run, k)) {
        match p { case Canonical(_) => case Quarantined(_, _) => }
      }
      if verdict.Restore? {
        MovedCount(Places(store), Places(after), Canonical(k), Quarantined(run, k));
      } else {
        assert Places(after) == Places(store) - {Quarantined(run, k)};
      }
    }
  }

  lemma {:induction false} SweepItemsCount(store: Store, run: RunId, items: seq<Item>, rows: seq<Entry>, leases: seq<Lease>, now: int)
    ensures |Places(store)| == |Places(SweepItems(store, run, items, rows, leases, now).0)| + SweepItems(store, run, items, rows, leases, now).1
  {
    if items != [] {
      var init, item := items[..|items| - 1], items[|items| - 1];
      SweepItemsCount(store, run, init, rows, leases, now);
      var before := SweepItems(store, run, init, rows, leases, now).0;
      PerformCount(before, run, item.key, Judge(before, run, item, rows, leases, now));
    }
  }

  lemma {:induction false} SweepRunCount(store: Store, run: RunId, listing: seq<Key>, rows: seq<Entry>, leases: seq<Lease>, now: int, age: int)
    ensures |Places(store)| == |Places(SweepRun(store, run, listing, rows, leases, now, age).0)| + SweepRun(store, run, listing, rows, leases, now, age).1
  {
    if run in store.runs {
      var (manifest, dir) := ReadManifest(run, store.runs[run], listing, now);
      var entered := store.(runs := store.runs[run := dir]);
      forall p ensures Holds(entered, p) <==> Holds(store, p) {
        match p { case Canonical(_) => case Quarantined(_, _) => }
      }
      assert Places(entered) == Places(store);
      if manifest.Some? {
        SweepItemsCount(entered, run, manifest.value.moved, rows, leases, now);
      }
    }
  }

  /** A whole sweep shrinks store plus quarantine by exactly the count it reports. */
  lemma {:induction false} SweepCount(store: Store, order: seq<RunId>, listings: seq<seq<Key>>, rows: seq<Entry>, leases: seq<Lease>, now: int, age: int)
    requires |listings| == |order|
    ensures |Places(store)| == |Places(SweepRuns(store, order, listings, rows, leases, now, age).0)| + SweepRuns(store, order, listings, rows, leases, now, age).1
  {
    if order != [] {
      var n := |order| - 1;
      SweepCount(store, order[..n], listings[..n], rows, leases, now, age);
      var before := SweepRuns(store, order[..n], listings[..n], rows, leases, now, age).0;
      SweepRunCount(before, order[n], listings[n], rows, leases, now, age);
    }
  }

  lemma {:induction false} QuarantineStops(store: Store, run: RunId, selected: seq<Item>, roots: Roots, i: nat)
    requires i <= |selected| && !QuarantineAll(store, run, selected[..i], roots).2
    ensures QuarantineAll(store, run, selected, roots) == QuarantineAll(store, run, selected[..i], roots)
    decreases |selected|
  {
    if i == |selected| {
      assert selected[..i] == selected;
    } else {
      var init := selected[..|selected| - 1];
      assert init[..i] == selected[..i];
      QuarantineStops(store, run, init, roots, i);
    }
  }

  lemma {:induction false} QuarantineAllCount(store: Store, run: RunId, selected: seq<Item>, roots: Roots)
    ensures |Places(QuarantineAll(store, run, selected, roots).0)| == |Places(store)|
  {
    if selected != [] {
      var init, candidate := selected[..|selected| - 1], selected[|selected| - 1];
      QuarantineAllCount(store, run, init, roots);
      QuarantineKeepsCount(QuarantineAll(store, run, init, roots).0, run, candidate);
    }
  }

  /** The item was moved out of the store and lies, byte for byte, in the run. */
  ghost predicate MovedTo(store: Store, run: RunId, item: Item) {
    && item == ItemFor(item.key) && item.key !in store.canonical
    && run in store.runs && item.key in store.runs[run].files && store.runs[run].files[item.key] == item.key.preimage
  }

  /** Quarantining a candidate moves it and nothing else. */
  lemma {:induction false} QuarantineMoves(store: Store, run: RunId, candidate: Item, other: Item)
    requires Quarantine(store, run, candidate).Some?
    ensures var after := Quarantine(store, run, candidate).value;
      && MovedTo(after, run, candidate)
      && (MovedTo(store, run, other) ==> MovedTo(after, run, other))
      && (forall k :: k in store.canonical && k != candidate.key ==> k in after.canonical && after.canonical[k] == store.canonical[k])
  {
  }

  lemma {:induction false} QuarantineAllSpares(store: Store, run: RunId, selected: seq<Item>, roots: Roots, k: Key)
    requires k in store.canonical && (k in roots.finalDb || k in roots.staging)
    ensures var after := QuarantineAll(store, run, selected, roots).0;
            k in after.canonical && after.canonical[k] == store.canonical[k]
  {
    if selected != [] {
      QuarantineAllSpares(store, run, selected[..|selected| - 1], roots, k);
    }
  }

  lemma {:induction false} QuarantineAllMoves(store: Store, run: RunId, selected: seq<Item>, roots: Roots, item: Item)
    requires item in QuarantineAll(store, run, selected, roots).1
    ensures MovedTo(QuarantineAll(store, run, selected, roots).0, run, item)
  {
    if selected != [] {
      var init, candidate := selected[..|selected| - 1], selected[|selected| - 1];
      var (before, moved, ok) := QuarantineAll(store, run, init, roots);
      if item in moved {
        QuarantineAllMoves(store, run, init, roots, item);
      }
      if Quarantine(before, run, candidate).Some? {
        QuarantineMoves(before, run, candidate, item);
      }
    }
  }

  /** What the first phase does, whichever candidates it is given: the number of
      blobs stays, no owned blob moves, and each moved blob is listed truthfully. */
  lemma {:induction false} QuarantineAllKeeps(store: Store, run: RunId, selected: seq<Item>, roots: Roots)
    ensures var (after, moved, _) := QuarantineAll(store, run, selected, roots);
      && |Places(after)| == |Places(store)|
      && (forall k :: k in store.canonical && (k in roots.finalDb || k in roots.staging) ==> k in after.canonical && after.canonical[k] == store.canonical[k])
      && (forall item :: item in moved ==> MovedTo(after, run, item))
  {
    var (after, moved, _) := QuarantineAll(store, run, selected, roots);
    QuarantineAllCount(store, run, selected, roots);
    forall k | k in store.canonical && (k in roots.finalDb || k in roots.staging)
      ensures k in after.canonical && after.canonical[k] == store.canonical[k]
    {
      QuarantineAllSpares(store, run, selected, roots, k);
    }
    forall item | item in moved ensures MovedTo(after, run, item) {
      QuarantineAllMoves(store, run, selected, roots, item);
    }
  }

  // ----- exactly which candidates move ---------------------------------------

  predicate Free(roots: Roots, k: Key) { k !in roots.finalDb && k !in roots.staging }

  /** The blob lies at its key as the candidate describes it. */
  predicate Described(store: Store, item: Item) {
    item.contentHash == item.key && item.key in store.canonical &&
    Sha256(store.canonical[item.key]) == item.key && |store.canonical[item.key]| == item.sizeBytes
  }

  function Files(store: Store, run: RunId): map<Key, Bytes> { if run in store.runs then store.runs[run].files else map[] }

  /** Candidate i is described truthfully, is not in the run yet, and is no repetition. */
  ghost predicate Movable(store: Store, run: RunId, selected: seq<Item>, roots: Roots, i: nat)
    requires i < |selected|
  {
    Described(store, selected[i]) && selected[i].key !in Files(store, run) &&
    forall j :: 0 <= j < i && Free(roots, selected[j].key) ==> selected[j].key != selected[i].key
  }

  function Unprotected(selected: seq<Item>, roots: Roots): (r: seq<Item>)
    ensures forall item :: item in r <==> item in selected && Free(roots, item.key)
  {
    if selected == [] then [] else
      var init, last := selected[..|selected| - 1], selected[|selected| - 1];
      assert selected == init + [last];
      Unprotected(init, roots) + if Free(roots, last.key) then [last] else []
  }

  /** The keys that move, and what the others find. */
  ghost predicate MovedOnly(store: Store, after: Store, run: RunId, moved: seq<Item>) {
    forall k ::
      && (k in after.canonical <==> k in store.canonical && forall item :: item in moved ==> item.key != k)
      && (k in after.canonical ==> after.canonical[k] == store.canonical[k])
      && (k in Files(after, run) <==> k in Files(store, run) || exists item :: item in moved && item.key == k)
  }

  lemma {:induction false} QuarantineMovesOnly(store: Store, before: Store, run: RunId, moved: seq<Item>, candidate: Item)
    requires MovedOnly(store, before, run, moved) && Quarantine(before, run, candidate).Some?
    ensures MovedOnly(store, Quarantine(before, run, candidate).value, run, moved + [candidate])
  {
    var after := Quarantine(before, run, candidate).value;
    forall k ensures
      && (k in after.canonical <==> k in store.canonical && forall item :: item in moved + [candidate] ==> item.key != k)
      && (k in after.canonical ==> after.canonical[k] == store.canonical[k])
      && (k in Files(after, run) <==> k in Files(store, run) || exists item :: item in moved + [candidate] && item.key == k)
    {
      assert k in before.canonical <==> k in store.canonical && forall item :: item in moved ==> item.key != k;
      assert candidate in moved + [candidate];
      if item :| item in moved && item.key == k {
        assert item in moved + [candidate];
      }
    }
  }

  lemma {:induction false} QuarantinableIff(store: Store, before: Store, run: RunId, selected: seq<Item>, roots: Roots, n: nat)
    requires n < |selected| && MovedOnly(store, before, run, Unprotected(selected[..n], roots))
    ensures Quarantine(before, run, selected[n]).Some? <==> Movable(store, run, selected, roots, n)
  {
    var k := selected[n].key;
    assert k in before.canonical <==> k in store.canonical && forall item :: item in Unprotected(selected[..n], roots) ==> item.key != k;
    forall j | 0 <= j < n ensures selected[j] in selected[..n] {
      assert selected[..n][j] == selected[j];
    }
  }

  ghost predicate AllMovable(store: Store, run: RunId, selected: seq<Item>, roots: Roots, n: nat)
    requires n <= |selected|
  {
    forall i :: 0 <= i < n && Free(roots, selected[i].key) ==> Movable(store, run, selected, roots, i)
  }

  lemma {:induction false} UnprotectedNext(selected: seq<Item>, roots: Roots, n: nat)
    requires n < |selected|
    ensures Unprotected(selected[..n + 1], roots) == Unprotected(selected[..n], roots) + if Free(roots, selected[n].key) then [selected[n]] else []
  {
    assert selected[..n + 1][..n] == selected[..n];
  }

  lemma {:induction false} QuarantineNextOf(store: Store, run: RunId, selected: seq<Item>, roots: Roots, n: nat)
    requires n < |selected|
    ensures var (before, moved, ok) := QuarantineAll(store, run, selected[..n], roots);
      QuarantineAll(store, run, selected[..n + 1], roots) ==
        if !ok || !Free(roots, selected[n].key) then (before, moved, ok)
        else if Quarantine(before, run, selected[n]).None? then (before, moved, false)
        else (Quarantine(before, run, selected[n]).value, moved + [selected[n]], true)
  {
    assert selected[..n + 1][..n] == selected[..n];
  }

  /** What a pass over the first n candidates has done. */
  ghost predicate PassedOver(store: Store, run: RunId, selected: seq<Item>, roots: Roots, n: nat, after: Store, moved: seq<Item>, ok: bool)
    requires n <= |selected|
  {
    (ok <==> AllMovable(store, run, selected, roots, n)) &&
    (ok ==> moved == Unprotected(selected[..n], roots) && MovedOnly(store, after, run, moved))
  }

  lemma {:induction false} AllMovableNext(store: Store, run: RunId, selected: seq<Item>, roots: Roots, n: nat)
    requires n < |selected|
    ensures AllMovable(store, run, selected, roots, n + 1) <==>
      AllMovable(store, run, selected, roots, n) && (Free(roots, selected[n].key) ==> Movable(store, run, selected, roots, n))
  {
  }

  lemma {:induction false} PassesOver(store: Store, run: RunId, selected: seq<Item>, roots: Roots, n: nat, before: Store, moved: seq<Item>)
    requires n < |selected| && PassedOver(store, run, selected, roots, n, before, moved, true)
    ensures if !Free(roots, selected[n].key) then PassedOver(store, run, selected, roots, n + 1, before, moved, true)
            else if Quarantine(before, run, selected[n]).None? then PassedOver(store, run, selected, roots, n + 1, before, moved, false)
            else PassedOver(store, run, selected, roots, n + 1, Quarantine(before, run, selected[n]).value, moved + [selected[n]], true)
  {
    AllMovableNext(store, run, selected, roots, n);
    UnprotectedNext(selected, roots, n);
    QuarantinableIff(store, before, run, selected, roots, n);
    if Quarantine(before, run, selected[n]).Some? {
      QuarantineMovesOnly(store, before, run, moved, selected[n]);
    }
  }

  lemma {:induction false} QuarantineAllOk(store: Store, run: RunId, selected: seq<Item>, roots: Roots, n: nat)
    requires n <= |selected|
    ensures var (after, moved, ok) := QuarantineAll(store, run, selected[..n], roots);
      PassedOver(store, run, selected, roots, n, after, moved, ok)
  {
    if n == 0 {
      assert Unprotected(selected[..0], roots) == [];
    } else {
      QuarantineAllOk(store, run, selected, roots, n - 1);
      QuarantineNextOf(store, run, selected, roots, n - 1);
      AllMovableNext(store, run, selected, roots, n - 1);
      var (before, moved, ok) := QuarantineAll(store, run, selected[..n - 1], roots);
      if ok {
        PassesOver(store, run, selected, roots, n - 1, before, moved);
      }
    }
  }

  /** The first phase runs to its end exactly if every candidate that has no owner
      lies at its key as described, is not in the run yet, and is listed once; then
      exactly those candidates are moved, in order, and no other key changes. */
  lemma {:induction false} QuarantineAllExact(store: Store, run: RunId, selected: seq<Item>, roots: Roots)
    ensures var (after, moved, ok) := QuarantineAll(store, run, selected, roots);
      && (ok <==> forall i :: 0 <= i < |selected| && Free(roots, selected[i].key) ==> Movable(store, run, selected, roots, i))
      && (ok ==> moved == Unprotected(selected, roots))
      && (ok ==> forall k :: k in after.canonical <==> k in store.canonical && !exists item :: item in selected && item.key == k && Free(roots, k))
  {
    QuarantineAllOk(store, run, selected, roots, |selected|);
    assert selected[..|selected|] == selected;
    var (after, moved, ok) := QuarantineAll(store, run, selected, roots);
    if ok {
      forall k ensures k in after.canonical <==> k in store.canonical && !exists item :: item in selected && item.key == k && Free(roots, k) {
        assert k in after.canonical <==> k in store.canonical && forall item :: item in moved ==> item.key != k;
      }
    }
  }

  /** Writing a run's manifest, if the run exists. */
  function Record(store: Store, run: RunId, manifest: ManifestFile): Store {
    if run in store.runs then store.(runs := store.runs[run := store.runs[run].(manifest := manifest)]) else store
  }

  lemma {:induction false} RecordMovesNothing(store: Store, run: RunId, manifest: ManifestFile)
    ensures Places(Record(store, run, manifest)) == Places(store)
  {
    forall p ensures Holds(Record(store, run, manifest), p) <==> Holds(store, p) {
      match p { case Canonical(_) => case Quarantined(_, _) => }
    }
  }

  /** Over a whole apply (the quarantine phase, whatever else writes the manifest,
      then the sweep) store plus quarantine shrink by exactly the swept count. */
  lemma {:induction false} ApplyCount(store: Store, run: RunId, selected: seq<Item>, roots: Roots, manifest: ManifestFile,
                   order: seq<RunId>, listings: seq<seq<Key>>, rows: seq<Entry>, leases: seq<Lease>, now: int, age: int)
    requires |listings| == |order|
    ensures var recorded := Record(QuarantineAll(store, run, selected, roots).0, run, manifest);
      var (after, swept) := SweepRuns(recorded, order, listings, rows, leases, now, age);
      |Places(after)| + swept == |Places(store)|
  {
    var quarantined := QuarantineAll(store, run, selected, roots).0;
    QuarantineAllKeeps(store, run, selected, roots);
    RecordMovesNothing(quarantined, run, manifest);
    SweepCount(Record(quarantined, run, manifest), order, listings, rows, leases, now, age);
  }

  /** Splitting a pass over the items of a run. */
  lemma {:induction false} SweepItemsSplit(store: Store, run: RunId, a: seq<Item>, b: seq<Item>, rows: seq<Entry>, leases: seq<Lease>, now: int)
    ensures SweepItems(store, run, a + b, rows, leases, now).0 ==
      SweepItems(SweepItems(store, run, a, rows, leases, now).0, run, b, rows, leases, now).0
    decreases |b|
  {
    if b == [] {
      assert a + b == a;
    } else {
      var n := |b| - 1;
      assert (a + b)[..|a + b| - 1] == a + b[..n];
      SweepItemsSplit(store, run, a, b[..n], rows, leases, now);
    }
  }

  // ----- the directory as the collector and the storage port change it -------

  datatype PutError = HashMismatch | ContentConflict

  class AssetRoot {
    var canonical: map<Key, Bytes>
    var runs: map<RunId, Run>

    ghost function State(): Store reads this { Store(canonical, runs) }

    constructor ()
      ensures State() == Store(map[], map[])
    {
      canonical, runs := map[], map[];
    }

    /** `LocalAssetStorage.put`: afterwards the key holds exactly these bytes, or
        an error names why and nothing changed. */
    method Put(contentHash: Digest, bytes: Bytes) returns (r: Result<Key, PutError>)
      modifies this`canonical
      ensures r == Err(HashMismatch) <==> contentHash != Sha256(bytes)
      ensures r == Err(ContentConflict) <==> contentHash == Sha256(bytes) && contentHash in old(canonical) && old(canonical)[contentHash] != bytes
      ensures r.Err? ==> canonical == old(canonical)
      ensures r.Ok? ==> r.value == contentHash && canonical == old(canonical)[contentHash := bytes]
    {
      if Sha256(bytes) != contentHash { return Err(HashMismatch); }
      if contentHash in canonical {
        if Sha256(canonical[contentHash]) != contentHash { return Err(ContentConflict); }
        assert canonical == canonical[contentHash := bytes];
        return Ok(contentHash);
      }
      canonical := canonical[contentHash := bytes];
      return Ok(contentHash);
    }

    method Read(key: Key) returns (r: Option<Bytes>)
      ensures r == if key in canonical then Some(canonical[key]) else None
    {
      if key in canonical { return Some(canonical[key]); }
      return None;
    }

    method Rename(run: RunId, k: Key)
      requires run in runs && k in runs[run].files
      modifies this
      ensures State() == Perform(old(State()), run, k, Restore)
    {
      canonical := canonical[k := runs[run].files[k]];
      runs := runs[run := runs[run].(files := runs[run].files - {k})];
    }

    method Remove(run: RunId, k: Key)
      requires run in runs && k in runs[run].files
      modifies this
      ensures State() == Perform(old(State()), run, k, Delete)
    {
      runs := runs[run := runs[run].(files := runs[run].files - {k})];
    }

    /** The checks on one listed item, in the order the source makes them. */
    method SweepOne(run: RunId, item: Item, rows: seq<Entry>, leases: seq<Lease>, now: int) returns (deleted: bool)
      modifies this
      ensures State() == SweepItem(old(State()), run, item, rows, leases, now)
      ensures deleted == Judge(old(State()), run, item, rows, leases, now).Delete?
    {
      if run !in runs || item.key !in runs[run].files { return false; }
      var bytes := runs[run].files[item.key];
      if item.contentHash != item.key || Sha256(bytes) != item.key || |bytes| != item.sizeBytes { return false; }
      var finalDb := CollectAuthority(rows);
      var staging := CollectAuthority(LiveEntries(leases, now));
      if finalDb.None? || staging.None? { return false; }
      if !Agrees(finalDb.value, item) || !Agrees(staging.value, item) { return false; }
      if item.key in finalDb.value || item.key in staging.value {
        if item.key in canonical { return false; }
        Rename(run, item.key);
        return false;
      }
      if item.key in canonical { return false; }
      Remove(run, item.key);
      return true;
    }

    method SweepListed(run: RunId, items: seq<Item>, rows: seq<Entry>, leases: seq<Lease>, now: int) returns (deleted: nat)
      modifies this
      ensures (State(), deleted) == SweepItems(old(State()), run, items, rows, leases, now)
    {
      deleted := 0;
      for i := 0 to |items|
        invariant (State(), deleted) == SweepItems(old(State()), run, items[..i], rows, leases, now)
      {
        assert items[..i + 1][..i] == items[..i];
        var gone := SweepOne(run, items[i], rows, leases, now);
        if gone { deleted := deleted + 1; }
      }
      assert items[..|items|] == items;
    }

    /** `sweepQuarantine` over the run directories in name order. */
    method SweepQuarantine(order: seq<RunId>, listings: seq<seq<Key>>, rows: seq<Entry>, leases: seq<Lease>, now: int, age: int)
      returns (deleted: nat)
      requires |listings| == |order|
      modifies this
      ensures (State(), deleted) == SweepRuns(old(State()), order, listings, rows, leases, now, age)
    {
      deleted := 0;
      for i := 0 to |order|
        invariant (State(), deleted) == SweepRuns(old(State()), order[..i], listings[..i], rows, leases, now, age)
      {
        assert order[..i + 1][..i] == order[..i] && listings[..i + 1][..i] == listings[..i];
        var run := order[i];
        if run in runs {
          var (manifest, dir) := ReadManifest(run, runs[run], listings[i], now);
          runs := runs[run := dir];
          if manifest.Some? && now - manifest.value.quarantinedAt >= age {
            var more := SweepListed(run, manifest.value.moved, rows, leases, now);
            deleted := deleted + more;
          }
        }
      }
      assert order[..|order|] == order && listings[..|listings|] == listings;
    }

    method QuarantineSelected(run: RunId, selected: seq<Item>, roots: Roots) returns (moved: seq<Item>, ok: bool)
      modifies this
      ensures (State(), moved, ok) == QuarantineAll(old(State()), run, selected, roots)
    {
      moved, ok := [], true;
      for i := 0 to |selected|
        invariant ok && (State(), moved, ok) == QuarantineAll(old(State()), run, selected[..i], roots)
      {
        assert selected[..i + 1][..i] == selected[..i];
        var candidate := selected[i];
        if candidate.key !in roots.finalDb && candidate.key !in roots.staging {
          var after := Quarantine(Store(canonical, runs), run, candidate);
          if after.None? {
            QuarantineStops(old(State()), run, selected, roots, i + 1);
            return moved, false;
          }
          canonical, runs := after.value.canonical, after.value.runs;
          moved := moved + [candidate];
        }
      }
      assert selected[..|selected|] == selected;
    }
  }
}
