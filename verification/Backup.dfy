/** Backups: what a backup directory holds, when it verifies, and what a restore
    from it leaves behind. The database is seen through its table digests. */
module Backup {
  import opened Wrappers
  import opened Blobs
  import opened ErasureJournal
  import opened EpochBarrier

  /** A relative path as written, cut at each "/". */
  type Key = seq<string>

  /** A path inside a root directory, without empty, "." and ".." segments. */
  type Path = seq<string>

  type Files = map<Path, Bytes>

  /** Row count and digest of each authoritative table. */
  type Tables = map<string, (nat, Digest)>

  datatype Reference = Reference(contentHash: Digest, sizeBytes: int)

  datatype Row = Row(key: Key, reference: Reference)

  datatype AssetEntry = AssetEntry(key: Key, reference: Reference, backupPath: Key, backupDigest: Digest)

  datatype ContractEntry = ContractEntry(repositoryPath: Key, backupPath: Key, sizeBytes: int, sha256: Digest)

  /** `reset` says whether the recorded migrations include the project reset. */
  datatype Manifest = Manifest(dumpSha256: Digest, reset: bool, assets: seq<AssetEntry>, contracts: seq<ContractEntry>,
                               tables: Tables, epochs: Option<Epochs>)

  /** A backup directory; `manifest` is its manifest file, decoded. */
  datatype Directory = Directory(files: Files, manifest: Option<Manifest>)

  datatype Failure = Failure(reason: string)

  const DUMP: Key := ["database.dump"]
  const MANIFEST: Path := ["manifest.json"]

  // ----- paths -------------------------------------------------------------------------

  /** A segment as a Windows path would cut it. */
  function Pieces(segment: string): seq<string> {
    if segment == "" then [""]
    else if segment[0] == '\\' then [""] + Pieces(segment[1..])
    else var rest := Pieces(segment[1..]); [[segment[0]] + rest[0]] + rest[1..]
  }

  function Clean(key: Key): Path {
    if key == [] then [] else (if key[0] == "" || key[0] == "." then [] else [key[0]]) + Clean(key[1..])
  }

  /** `resolveWithin`: no absolute path and no ".." segment. */
  function Resolve(key: Key): Option<Path> {
    if (|key| > 1 && key[0] == "") || (exists i :: 0 <= i < |key| && ".." in Pieces(key[i])) then None
    else Some(Clean(key))
  }

  /** Nothing stands at the path, above it as a file, or below it. */
  predicate Vacant(files: Files, path: Path) {
    path != [] && forall other :: other in files ==> !(other <= path) && !(path <= other)
  }

  /** One of the paths is the other or lies below it. */
  predicate Nested(a: Path, b: Path) { a <= b || b <= a }

  // ----- the assets of a backup -------------------------------------------------------------

  type References = map<Key, Reference>

  ghost predicate Disagree(rows: seq<Row>) {
    exists a, b :: a in rows && b in rows && a.key == b.key && a.reference != b.reference
  }

  ghost predicate Collects(refs: References, rows: seq<Row>) {
    (forall row :: row in rows ==> row.key in refs && refs[row.key] == row.reference) &&
    (forall key :: key in refs ==> Row(key, refs[key]) in rows)
  }

  /** `listReferencedAssets`: one reference for each key, or an error when two
      rows disagree about a key. */
  method ListReferencedAssets(rows: seq<Row>) returns (r: Result<References, Failure>)
    ensures r.Err? <==> Disagree(rows)
    ensures r.Ok? ==> Collects(r.value, rows)
  {
    var refs: References := map[];
    for i := 0 to |rows|
      invariant Collects(refs, rows[..i])
    {
      var row := rows[i];
      assert rows[..i + 1] == rows[..i] + [row];
      if row.key in refs && refs[row.key] != row.reference {
        assert Row(row.key, refs[row.key]) in rows;
        return Err(Failure("authority disagrees"));
      }
      refs := refs[row.key := row.reference];
    }
    assert rows[..|rows|] == rows;
    return Ok(refs);
  }

  /** An entry is what its reference says, and its bytes lie in the asset root. */
  predicate Sound(assets: Files, refs: References, e: AssetEntry) {
    e.key in refs && e.reference == refs[e.key] && Resolve(e.key).Some? &&
    var path := Resolve(e.key).value;
    path != [] && path in assets && Sha256(assets[path]) == e.reference.contentHash &&
    |assets[path]| == e.reference.sizeBytes && e.backupPath == ["assets"] + path && e.backupDigest == e.reference.contentHash
  }

  /** An entry's bytes lie in the backup where the entry says. */
  ghost predicate Kept(assets: Files, refs: References, e: AssetEntry, files: Files) {
    Sound(assets, refs, e) && e.backupPath in files && files[e.backupPath] == assets[Resolve(e.key).value]
  }

  predicate Lists(entries: seq<AssetEntry>, key: Key) { exists e :: e in entries && e.key == key }

  ghost predicate Copied(assets: Files, refs: References, done: set<Key>, entries: seq<AssetEntry>, files: Files) {
    (forall i :: 0 <= i < |entries| ==> entries[i].key in done && Kept(assets, refs, entries[i], files)) &&
    (forall key :: key in done ==> Lists(entries, key)) &&
    (forall i, j :: 0 <= i < j < |entries| ==> !Nested(entries[i].backupPath, entries[j].backupPath))
  }

  /** The asset root holds, at a path of its own, the bytes the reference describes. */
  predicate Sourced(assets: Files, key: Key, reference: Reference) {
    Resolve(key).Some? && Resolve(key).value != [] && Resolve(key).value in assets &&
    Sha256(assets[Resolve(key).value]) == reference.contentHash && |assets[Resolve(key).value]| == reference.sizeBytes
  }

  function AssetPath(key: Key): Path
    requires Resolve(key).Some?
  {
    ["assets"] + Resolve(key).value
  }

  /** These assets can be copied into a directory: each is sourced, its place is
      free, and no two places are nested. */
  ghost predicate Copyable(assets: Files, refs: References, keys: set<Key>, before: Files) {
    (forall key :: key in keys ==> key in refs && Sourced(assets, key, refs[key]) && Vacant(before, AssetPath(key))) &&
    (forall a, b :: a in keys && b in keys && a != b ==> !Nested(AssetPath(a), AssetPath(b)))
  }

  /** Every file is an old one or the copy of one of these assets. */
  ghost predicate FilesFrom(before: Files, files: Files, keys: set<Key>) {
    (forall p :: p in before ==> p in files) &&
    (forall key :: key in keys ==> Resolve(key).Some? && AssetPath(key) in files) &&
    (forall p :: p in files ==> p in before || exists key :: key in keys && Resolve(key).Some? && p == AssetPath(key))
  }

  /** Files are added under one name of the root only, and none is changed. */
  ghost predicate AddedUnder(name: string, before: Files, after: Files) {
    (forall p :: p in before ==> p in after && after[p] == before[p]) &&
    (forall p :: p in after && p !in before ==> p != [] && p[0] == name)
  }

  /** One asset: read, checked against its reference, and written to a path at
      which nothing stands yet. */
  method CopyAsset(refs: References, key: Key, assets: Files, files: Files) returns (r: Result<(AssetEntry, Files), Failure>)
    requires key in refs
    ensures r.Ok? <==> Sourced(assets, key, refs[key]) && Vacant(files, AssetPath(key))
    ensures r.Ok? ==> r.value.0.key == key && Sound(assets, refs, r.value.0) && Vacant(files, r.value.0.backupPath)
    ensures r.Ok? ==> r.value.1 == files[r.value.0.backupPath := assets[Resolve(key).value]]
  {
    var reference := refs[key];
    var source := Resolve(key);
    if source.None? || source.value == [] || source.value !in assets {
      return Err(Failure("no such asset"));
    }
    var bytes := assets[source.value];
    var digest := Sha256(bytes);
    if digest != reference.contentHash || |bytes| != reference.sizeBytes {
      return Err(Failure("asset failed hash or size"));
    }
    var backupPath := ["assets"] + source.value;
    if !Vacant(files, backupPath) {
      return Err(Failure("file exists"));
    }
    return Ok((AssetEntry(key, reference, backupPath, digest), files[backupPath := bytes]));
  }

  /** The copies of these assets are made. */
  ghost predicate Copying(assets: Files, refs: References, done: set<Key>, before: Files, entries: seq<AssetEntry>, files: Files) {
    done <= refs.Keys && Copied(assets, refs, done, entries, files) && AddedUnder("assets", before, files) &&
    Copyable(assets, refs, done, before) && FilesFrom(before, files, done)
  }

  method CopyNext(refs: References, assets: Files, ghost done: set<Key>, ghost before: Files, entries: seq<AssetEntry>, files: Files, key: Key)
    returns (r: Result<(seq<AssetEntry>, Files), Failure>)
    requires Copying(assets, refs, done, before, entries, files) && key in refs && key !in done
    ensures r.Ok? ==> Copying(assets, refs, done + {key}, before, r.value.0, r.value.1)
    ensures r.Err? ==> !Copyable(assets, refs, refs.Keys, before)
  {
    var copied := CopyAsset(refs, key, assets, files);
    if copied.Err? {
      StopsCopying(assets, refs, done, before, files, key);
      return Err(copied.error);
    }
    CopyingPush(assets, refs, done, before, entries, files, copied.value.0);
    return Ok((entries + [copied.value.0], copied.value.1));
  }

  lemma {:induction false} CopyingNothing(assets: Files, refs: References, before: Files)
    ensures Copying(assets, refs, {}, before, [], before)
  {
  }

  lemma {:induction false} CopyingAll(assets: Files, refs: References, before: Files, entries: seq<AssetEntry>, files: Files)
    requires Copying(assets, refs, refs.Keys, before, entries, files)
    ensures Copyable(assets, refs, refs.Keys, before) && Copied(assets, refs, refs.Keys, entries, files) && AddedUnder("assets", before, files)
  {
  }

  /** `copyAssets`; the entries are listed in the collation order of their keys in
      the source, on which nothing here depends. It succeeds exactly if every asset
      is there as referenced and no two of their places are nested. */
  method CopyAssets(refs: References, assets: Files, before: Files)
    returns (r: Result<(seq<AssetEntry>, Files), Failure>)
    ensures r.Ok? <==> Copyable(assets, refs, refs.Keys, before)
    ensures r.Ok? ==> Copied(assets, refs, refs.Keys, r.value.0, r.value.1) && AddedUnder("assets", before, r.value.1)
  {
    var files, entries: seq<AssetEntry> := before, [];
    var left := refs.Keys;
    ghost var done: set<Key> := {};
    CopyingNothing(assets, refs, before);
    while left != {}
      invariant Split(refs.Keys, left, done)
      invariant Copying(assets, refs, done, before, entries, files)
      decreases |left|
    {
      var key :| key in left;
      SplitOne(refs.Keys, left, done, key);
      var copied := CopyNext(refs, assets, done, before, entries, files, key);
      if copied.Err? {
        return Err(copied.error);
      }
      entries, files := copied.value.0, copied.value.1;
      left := left - {key};
      done := done + {key};
    }
    SplitAll(refs.Keys, done);
    CopyingAll(assets, refs, before, entries, files);
    return Ok((entries, files));
  }

  lemma {:induction false} CopyingPush(assets: Files, refs: References, done: set<Key>, before: Files, entries: seq<AssetEntry>, files: Files, e: AssetEntry)
    requires Copying(assets, refs, done, before, entries, files) && Sound(assets, refs, e) && e.key !in done && Vacant(files, e.backupPath)
    ensures Copying(assets, refs, done + {e.key}, before, entries + [e], files[e.backupPath := assets[Resolve(e.key).value]])
  {
    CopiedPush(assets, refs, done, entries, files, e);
    assert e.backupPath !in before;
    AddedPush("assets", before, files, e.backupPath, assets[Resolve(e.key).value]);
    GoesOnCopying(assets, refs, done, before, files, e.key);
  }

  lemma {:induction false} StopsCopying(assets: Files, refs: References, done: set<Key>, before: Files, files: Files, key: Key)
    requires key in refs && key !in done && done <= refs.Keys && FilesFrom(before, files, done)
    requires !(Sourced(assets, key, refs[key]) && Vacant(files, AssetPath(key)))
    ensures !Copyable(assets, refs, refs.Keys, before)
  {
    if Sourced(assets, key, refs[key]) {
      var other :| other in files && Nested(other, AssetPath(key));
      if other !in before {
        var k :| k in done && Resolve(k).Some? && other == AssetPath(k);
        assert k in refs.Keys && k != key && Nested(AssetPath(k), AssetPath(key));
      }
    }
  }

  lemma {:induction false} GoesOnCopying(assets: Files, refs: References, done: set<Key>, before: Files, files: Files, key: Key)
    requires key in refs && key !in done && Copyable(assets, refs, done, before) && FilesFrom(before, files, done)
    requires Sourced(assets, key, refs[key]) && Vacant(files, AssetPath(key))
    ensures Copyable(assets, refs, done + {key}, before)
    ensures FilesFrom(before, files[AssetPath(key) := assets[Resolve(key).value]], done + {key})
  {
    forall k | k in done ensures !Nested(AssetPath(k), AssetPath(key)) && !Nested(AssetPath(key), AssetPath(k)) {
      assert AssetPath(k) in files;
    }
  }

  lemma {:induction false} AddedPush(name: string, before: Files, after: Files, path: Path, bytes: Bytes)
    requires AddedUnder(name, before, after) && path !in before && path != [] && path[0] == name
    ensures AddedUnder(name, before, after[path := bytes])
  {
  }

  lemma {:induction false} CopiedPush(assets: Files, refs: References, done: set<Key>, entries: seq<AssetEntry>, files: Files, e: AssetEntry)
    requires Copied(assets, refs, done, entries, files) && Sound(assets, refs, e) && Vacant(files, e.backupPath)
    ensures Copied(assets, refs, done + {e.key}, entries + [e], files[e.backupPath := assets[Resolve(e.key).value]])
  {
    var all, after := entries + [e], files[e.backupPath := assets[Resolve(e.key).value]];
    forall i | 0 <= i < |all| ensures all[i].key in done + {e.key} && Kept(assets, refs, all[i], after) {
      if i < |entries| {
        assert Kept(assets, refs, entries[i], files);
        assert entries[i].backupPath != e.backupPath;
      }
    }
    forall key | key in done + {e.key} ensures Lists(all, key) {
      if key != e.key {
        assert Lists(entries, key);
      } else {
        assert e in all;
      }
    }
    forall i | 0 <= i < |entries| ensures !Nested(entries[i].backupPath, e.backupPath) {
      assert Kept(assets, refs, entries[i], files);
    }
  }

  // ----- the contracts of a backup -------------------------------------------------------------

  datatype Contract = Contract(repositoryPath: Key, content: Bytes)

  /** What a walk of the repository lists: clean relative paths, each once. */
  ghost predicate Walked(contracts: seq<Contract>) {
    (forall i :: 0 <= i < |contracts| ==>
       contracts[i].repositoryPath != [] && Resolve(contracts[i].repositoryPath) == Some(contracts[i].repositoryPath)) &&
    (forall i, j :: 0 <= i < j < |contracts| ==> contracts[i].repositoryPath != contracts[j].repositoryPath)
  }

  function ContractPath(c: Contract): Key { ["contracts"] + c.repositoryPath }

  predicate ContractKept(e: ContractEntry, c: Contract, files: Files) {
    e.repositoryPath == c.repositoryPath && e.backupPath == ContractPath(c) && e.sizeBytes == |c.content| &&
    e.sha256 == Sha256(c.content) && e.backupPath in files && files[e.backupPath] == c.content
  }

  ghost predicate AllContractsKept(entries: seq<ContractEntry>, contracts: seq<Contract>, files: Files) {
    |entries| == |contracts| && forall i :: 0 <= i < |entries| ==> ContractKept(entries[i], contracts[i], files)
  }

  /** `copyContracts`: `copyFile` replaces what it finds. */
  method CopyContracts(contracts: seq<Contract>, before: Files) returns (entries: seq<ContractEntry>, files: Files)
    requires Walked(contracts)
    ensures AllContractsKept(entries, contracts, files)
    ensures forall p :: p in before && p != [] && p[0] != "contracts" ==> p in files && files[p] == before[p]
    ensures forall p :: p in files && p !in before ==> p != [] && p[0] == "contracts"
  {
    files, entries := before, [];
    for n := 0 to |contracts|
      invariant AllContractsKept(entries, contracts[..n], files)
      invariant forall p :: p in before && p != [] && p[0] != "contracts" ==> p in files && files[p] == before[p]
      invariant forall p :: p in files && p !in before ==> p != [] && p[0] == "contracts"
    {
      var c := contracts[n];
      ghost var was := files;
      files := files[ContractPath(c) := c.content];
      entries := entries + [ContractEntry(c.repositoryPath, ContractPath(c), |c.content|, Sha256(c.content))];
      forall i | 0 <= i < n ensures ContractKept(entries[i], contracts[i], files) {
        assert ContractKept(entries[i], contracts[..n][i], was);
        assert ContractPath(contracts[i])[1..] == contracts[i].repositoryPath && ContractPath(c)[1..] == c.repositoryPath;
      }
    }
  }

  // ----- creating a backup -------------------------------------------------------------------------

  /** What a backup run reads: the tables measured before the dump, after it and
      after the assets were copied, the dump, the rows that own assets, the asset
      root, the contract files, the project epochs if the reset migration is in,
      and the erasure journal if one is configured. */
  datatype World = World(before: Tables, after: Tables, final: Tables, dump: Bytes, rows: seq<Row>, assets: Files,
                         contracts: seq<Contract>, epochs: Option<Epochs>, journal: Option<seq<Record>>)

  /** `verifyKnowledgeEpochsAgainstJournal`. */
  ghost predicate Barrier(epochs: Epochs, journal: Option<seq<Record>>, required: bool) {
    match journal
    case None => !required && forall p :: p in epochs ==> epochs[p] <= 0
    case Some(records) => Allowed(epochs, records)
  }

  method CheckBarrier(epochs: Epochs, journal: Option<seq<Record>>, required: bool) returns (ok: bool)
    ensures ok <==> Barrier(epochs, journal, required)
  {
    match journal {
      case None => return !required && forall p :: p in epochs ==> epochs[p] <= 0;
      case Some(records) => ok := AssertEpochsAllowed(epochs, records);
    }
  }

  /** What is true of every manifest and directory a backup run returns. */
  ghost predicate Created(w: World, m: Manifest, d: Directory) {
    && d.manifest == Some(m)
    && DUMP in d.files && d.files[DUMP] == w.dump && m.dumpSha256 == Sha256(w.dump)
    && w.before == w.after == w.final == m.tables
    && !Disagree(w.rows)
    && (exists refs :: Collects(refs, w.rows) && Copied(w.assets, refs, refs.Keys, m.assets, d.files))
    && AllContractsKept(m.contracts, w.contracts, d.files)
    && m.epochs == w.epochs && (m.reset <==> w.epochs.Some?)
    && (w.epochs.Some? ==> Barrier(w.epochs.value, w.journal, true))
  }

  /** Every row's asset is there as referenced, and no two rows of different keys
      have nested places. */
  ghost predicate RowsCopyable(assets: Files, rows: seq<Row>) {
    (forall row :: row in rows ==> Sourced(assets, row.key, row.reference)) &&
    (forall a, b :: a in rows && b in rows && a.key != b.key ==> !Nested(Resolve(a.key).value, Resolve(b.key).value))
  }

  /** A backup can be made: nothing changed meanwhile, the rows agree, their assets
      can be copied, and the journal allows the project epochs. */
  ghost predicate Backable(w: World) {
    w.before == w.after == w.final && !Disagree(w.rows) && RowsCopyable(w.assets, w.rows) &&
    (w.epochs.Some? ==> Barrier(w.epochs.value, w.journal, true))
  }

  lemma {:induction false} RowsCopyableIff(assets: Files, refs: References, rows: seq<Row>, dump: Bytes)
    requires Collects(refs, rows)
    ensures Copyable(assets, refs, refs.Keys, map[DUMP := dump]) <==> RowsCopyable(assets, rows)
  {
    if Copyable(assets, refs, refs.Keys, map[DUMP := dump]) {
      forall row | row in rows ensures Sourced(assets, row.key, row.reference) {
        assert row.key in refs.Keys;
      }
      forall a, b | a in rows && b in rows && a.key != b.key ensures !Nested(Resolve(a.key).value, Resolve(b.key).value) {
        assert a.key in refs.Keys && b.key in refs.Keys;
        NestedUnder("assets", Resolve(a.key).value, Resolve(b.key).value);
      }
    }
    if RowsCopyable(assets, rows) {
      forall key | key in refs.Keys ensures Sourced(assets, key, refs[key]) && Vacant(map[DUMP := dump], AssetPath(key)) {
        assert Row(key, refs[key]) in rows;
        assert DUMP[0] != AssetPath(key)[0];
      }
      forall a, b | a in refs.Keys && b in refs.Keys && a != b ensures !Nested(AssetPath(a), AssetPath(b)) {
        assert Row(a, refs[a]) in rows && Row(b, refs[b]) in rows;
        NestedUnder("assets", Resolve(a).value, Resolve(b).value);
      }
    }
  }

  lemma {:induction false} NestedUnder(name: string, a: Path, b: Path)
    ensures Nested([name] + a, [name] + b) <==> Nested(a, b)
  {
    assert ([name] + a)[1..] == a && ([name] + b)[1..] == b;
  }

  /** `createBackup`, under the shared maintenance lock, into an empty directory. */
  method CreateBackup(w: World) returns (r: Result<(Manifest, Directory), Failure>)
    requires Walked(w.contracts)
    ensures r.Ok? <==> Backable(w)
    ensures r.Ok? ==> Created(w, r.value.0, r.value.1)
  {
    var files: Files := map[DUMP := w.dump];
    if w.before != w.after {
      return Err(Failure("changed while the dump was made"));
    }
    var listed := ListReferencedAssets(w.rows);
    if listed.Err? {
      return Err(listed.error);
    }
    RowsCopyableIff(w.assets, listed.value, w.rows, w.dump);
    var copied := CopyAssets(listed.value, w.assets, files);
    if copied.Err? {
      return Err(copied.error);
    }
    var contracts, all := CopyContracts(w.contracts, copied.value.1);
    CopiedKept(w.assets, listed.value, copied.value.0, copied.value.1, all);
    if w.after != w.final {
      return Err(Failure("changed while assets were copied"));
    }
    if w.epochs.Some? {
      var allowed := CheckBarrier(w.epochs.value, w.journal, true);
      if !allowed {
        return Err(Failure("epochs not allowed"));
      }
    }
    assert MANIFEST !in all by {
      assert MANIFEST[0] == "manifest.json" && DUMP[0] == "database.dump";
    }
    var m := Manifest(Sha256(w.dump), w.epochs.Some?, copied.value.0, contracts, w.after, w.epochs);
    assert Collects(listed.value, w.rows) && Copied(w.assets, listed.value, listed.value.Keys, m.assets, all);
    return Ok((m, Directory(all, Some(m))));
  }

  /** Copying the contracts leaves the copied assets as they are. */
  lemma {:induction false} CopiedKept(assets: Files, refs: References, entries: seq<AssetEntry>, files: Files, all: Files)
    requires Copied(assets, refs, refs.Keys, entries, files)
    requires forall p :: p in files && p != [] && p[0] != "contracts" ==> p in all && all[p] == files[p]
    ensures Copied(assets, refs, refs.Keys, entries, all)
  {
    forall i | 0 <= i < |entries| ensures Kept(assets, refs, entries[i], all) {
      assert Kept(assets, refs, entries[i], files);
      assert entries[i].backupPath[0] == "assets";
    }
  }

  // ----- verifying a backup -------------------------------------------------------------------------

  /** `readManifest` and the digests of every file the manifest lists. */
  predicate ManifestValid(m: Manifest) {
    (m.reset <==> m.epochs.Some?) &&
    (m.epochs.Some? ==> forall p :: p in m.epochs.value ==> p != "" && Safe(m.epochs.value[p]) && m.epochs.value[p] >= 0)
  }

  predicate FileMatches(files: Files, path: Key, sizeBytes: int, digest: Digest) {
    Resolve(path).Some? && Resolve(path).value in files &&
    |files[Resolve(path).value]| == sizeBytes && Sha256(files[Resolve(path).value]) == digest
  }

  ghost predicate Verified(d: Directory) {
    d.manifest.Some? && ManifestValid(d.manifest.value) &&
    DUMP in d.files && Sha256(d.files[DUMP]) == d.manifest.value.dumpSha256 &&
    (forall e :: e in d.manifest.value.assets ==> FileMatches(d.files, e.backupPath, e.reference.sizeBytes, e.backupDigest)) &&
    (forall e :: e in d.manifest.value.contracts ==> FileMatches(d.files, e.backupPath, e.sizeBytes, e.sha256))
  }

  /** `verifyBackup`. */
  method VerifyBackup(d: Directory) returns (r: Result<Manifest, Failure>)
    ensures r.Ok? <==> Verified(d)
    ensures r.Ok? ==> d.manifest == Some(r.value)
  {
    if d.manifest.None? || !ManifestValid(d.manifest.value) {
      return Err(Failure("manifest"));
    }
    var m := d.manifest.value;
    if DUMP !in d.files || Sha256(d.files[DUMP]) != m.dumpSha256 {
      return Err(Failure("dump"));
    }
    for i := 0 to |m.assets|
      invariant forall e :: e in m.assets[..i] ==> FileMatches(d.files, e.backupPath, e.reference.sizeBytes, e.backupDigest)
    {
      var e := m.assets[i];
      assert m.assets[..i + 1] == m.assets[..i] + [e];
      if !FileMatches(d.files, e.backupPath, e.reference.sizeBytes, e.backupDigest) {
        return Err(Failure("asset"));
      }
    }
    assert m.assets[..|m.assets|] == m.assets;
    for i := 0 to |m.contracts|
      invariant forall e :: e in m.contracts[..i] ==> FileMatches(d.files, e.backupPath, e.sizeBytes, e.sha256)
    {
      var e := m.contracts[i];
      assert m.contracts[..i + 1] == m.contracts[..i] + [e];
      if !FileMatches(d.files, e.backupPath, e.sizeBytes, e.sha256) {
        return Err(Failure("contract"));
      }
    }
    assert m.contracts[..|m.contracts|] == m.contracts;
    return Ok(m);
  }

  // ----- every backup that was returned verifies -------------------------------------------------------

  predicate CleanSegment(segment: string) { segment != "" && segment != "." && ".." !in Pieces(segment) }

  predicate CleanPath(path: Path) { forall i :: 0 <= i < |path| ==> CleanSegment(path[i]) }

  lemma {:induction false} PlainPieces(s: string)
    requires '\\' !in s
    ensures Pieces(s) == [s]
  {
    if s != "" {
      assert forall i :: 0 <= i < |s[1..]| ==> s[1..][i] in s;
      PlainPieces(s[1..]);
      assert [s[0]] + s[1..] == s;
    }
  }

  lemma {:induction false} CleanIsClean(key: Key)
    requires forall i :: 0 <= i < |key| ==> ".." !in Pieces(key[i])
    ensures CleanPath(Clean(key))
  {
    if key != [] {
      CleanIsClean(key[1..]);
    }
  }

  lemma {:induction false} CleanTwice(path: Path)
    requires CleanPath(path)
    ensures Clean(path) == path
  {
    if path != [] {
      CleanTwice(path[1..]);
    }
  }

  /** What a key resolves to, under a plain name, resolves to itself. */
  lemma {:induction false} ResolveUnder(name: string, path: Path)
    requires name != "" && name != "." && name != ".." && '\\' !in name && CleanPath(path)
    ensures Resolve([name] + path) == Some([name] + path)
  {
    PlainPieces(name);
    var key := [name] + path;
    forall i | 0 <= i < |key| ensures CleanSegment(key[i]) {
      if i > 0 {
        assert key[i] == path[i - 1];
      }
    }
    CleanTwice(key);
  }

  lemma {:induction false} KeptMatches(assets: Files, refs: References, e: AssetEntry, files: Files)
    requires Kept(assets, refs, e, files)
    ensures FileMatches(files, e.backupPath, e.reference.sizeBytes, e.backupDigest)
  {
    CleanIsClean(e.key);
    ResolveUnder("assets", Resolve(e.key).value);
  }

  lemma {:induction false} ContractMatches(e: ContractEntry, c: Contract, files: Files)
    requires ContractKept(e, c, files) && Resolve(c.repositoryPath) == Some(c.repositoryPath)
    ensures FileMatches(files, e.backupPath, e.sizeBytes, e.sha256)
  {
    CleanIsClean(c.repositoryPath);
    ResolveUnder("contracts", c.repositoryPath);
  }

  lemma {:induction false} AssetsMatch(assets: Files, refs: References, entries: seq<AssetEntry>, files: Files)
    requires Copied(assets, refs, refs.Keys, entries, files)
    ensures forall e :: e in entries ==> FileMatches(files, e.backupPath, e.reference.sizeBytes, e.backupDigest)
  {
    forall e | e in entries ensures FileMatches(files, e.backupPath, e.reference.sizeBytes, e.backupDigest) {
      var i :| 0 <= i < |entries| && entries[i] == e;
      assert Kept(assets, refs, entries[i], files);
      KeptMatches(assets, refs, e, files);
    }
  }

  lemma {:induction false} ContractsMatch(entries: seq<ContractEntry>, contracts: seq<Contract>, files: Files)
    requires Walked(contracts) && AllContractsKept(entries, contracts, files)
    ensures forall e :: e in entries ==> FileMatches(files, e.backupPath, e.sizeBytes, e.sha256)
  {
    forall e | e in entries ensures FileMatches(files, e.backupPath, e.sizeBytes, e.sha256) {
      var i :| 0 <= i < |entries| && entries[i] == e;
      ContractMatches(e, contracts[i], files);
    }
  }

  lemma {:induction false} CreatedManifestValid(w: World, m: Manifest)
    requires m.epochs == w.epochs && (m.reset <==> w.epochs.Some?)
    requires w.epochs.Some? ==> Barrier(w.epochs.value, w.journal, true)
    ensures ManifestValid(m) <==> (w.epochs.Some? ==> "" !in w.epochs.value)
  {
    if w.epochs.Some? {
      AllowedEpochsSafe(w.epochs.value, w.journal);
    }
  }

  /** Untouched, the directory of every backup that was returned verifies, unless
      a project has the empty name. */
  lemma {:induction false} CreatedVerifies(w: World, m: Manifest, d: Directory)
    requires Walked(w.contracts) && Created(w, m, d)
    ensures Verified(d) <==> (w.epochs.Some? ==> "" !in w.epochs.value)
  {
    var refs := CreatedRefs(w, m, d);
    AssetsMatch(w.assets, refs, m.assets, d.files);
    ContractsMatch(m.contracts, w.contracts, d.files);
    CreatedManifestValid(w, m);
  }

  /** Such a backup: one project with the empty name and no erasure. It is what a
      backup run may return, and it does not verify. */
  lemma {:induction false} UnnamedProjectFails(dump: Bytes) returns (w: World, m: Manifest, d: Directory)
    ensures Walked(w.contracts) && Created(w, m, d) && w.epochs == Some(map["" := 0]) && !Verified(d)
  {
    var epochs: Epochs := map["" := 0];
    w := World(map[], map[], map[], dump, [], map[], [], Some(epochs), Some([]));
    m := Manifest(Sha256(dump), true, [], [], map[], Some(epochs));
    d := Directory(map[DUMP := dump], Some(m));
    assert Allowed(epochs, []) by {
      forall project | Mentioned(epochs, [], project) ensures ProjectAllowed([], project, EpochOf(epochs, project)) {
        assert project == "";
      }
    }
    var refs: References := map[];
    assert Collects(refs, w.rows) && Copied(w.assets, refs, refs.Keys, m.assets, d.files);
    assert "" in m.epochs.value;
  }

  lemma {:induction false} CreatedRefs(w: World, m: Manifest, d: Directory) returns (refs: References)
    requires Created(w, m, d)
    ensures Collects(refs, w.rows) && Copied(w.assets, refs, refs.Keys, m.assets, d.files)
  {
    refs :| Collects(refs, w.rows) && Copied(w.assets, refs, refs.Keys, m.assets, d.files);
  }

  lemma {:induction false} AllowedEpochsSafe(epochs: Epochs, journal: Option<seq<Record>>)
    requires Barrier(epochs, journal, true)
    ensures forall p :: p in epochs ==> Safe(epochs[p]) && epochs[p] >= 0
  {
    forall p | p in epochs ensures Safe(epochs[p]) && epochs[p] >= 0 {
      assert Mentioned(epochs, journal.value, p);
    }
  }

  // ----- restoring ---------------------------------------------------------------------------------------

  /** What a restore reads besides the backup: the epochs of the source database,
      the tables the manifest's migrations call for, the tables and epochs found
      in the target after pg_restore, and the journal, which may have grown by the
      second and the third time it is read. */
  datatype Site = Site(sourceEpochs: Epochs, expected: set<string>, restored: Tables, restoredEpochs: Epochs, required: bool,
                       first: Option<seq<Record>>, second: Option<seq<Record>>, third: Option<seq<Record>>)

  ghost predicate CopiedTo(entries: seq<AssetEntry>, source: Files, target: Files) {
    (forall i :: 0 <= i < |entries| ==> Landed(entries, i, source, target)) &&
    (forall p :: p in target ==> exists i :: 0 <= i < |entries| && Resolve(entries[i].key) == Some(p))
  }

  /** Entry i's file stands at its key, unless a later entry has the same path. */
  ghost predicate Landed(entries: seq<AssetEntry>, i: nat, source: Files, target: Files)
    requires i < |entries|
  {
    var e := entries[i];
    Resolve(e.key).Some? && Resolve(e.key).value in target &&
    ((forall j :: i < j < |entries| ==> Resolve(entries[j].key) != Resolve(e.key)) ==>
       Resolve(e.backupPath).Some? && Resolve(e.backupPath).value in source &&
       target[Resolve(e.key).value] == source[Resolve(e.backupPath).value] &&
       Sha256(target[Resolve(e.key).value]) == e.reference.contentHash)
  }

  /** A file can be written to the path: no file stands above it, and it is no
      directory. What stands there is replaced. */
  predicate Writable(files: Files, path: Path) {
    path != [] && forall other :: other in files ==> !(other < path) && !(path < other)
  }

  /** The listed file lies in the backup with its recorded hash. */
  predicate Restorable(e: AssetEntry, source: Files) {
    Resolve(e.backupPath).Some? && Resolve(e.key).Some? && Resolve(e.key).value != [] && Resolve(e.backupPath).value in source &&
    Sha256(source[Resolve(e.backupPath).value]) == e.reference.contentHash
  }

  /** Every listed file lies in the backup with its recorded hash, and no key lies
      below another. */
  ghost predicate AllRestorable(entries: seq<AssetEntry>, source: Files) {
    (forall i :: 0 <= i < |entries| ==> Restorable(entries[i], source)) &&
    (forall i, j :: 0 <= i < |entries| && 0 <= j < |entries| ==> !(Resolve(entries[i].key).value < Resolve(entries[j].key).value))
  }

  lemma {:induction false} RestorablePush(entries: seq<AssetEntry>, source: Files, target: Files, n: nat)
    requires n < |entries| && AllRestorable(entries[..n], source) && CopiedTo(entries[..n], source, target)
    ensures Restorable(entries[n], source) && Writable(target, Resolve(entries[n].key).value) <==> AllRestorable(entries[..n + 1], source)
  {
    var had, all := entries[..n], entries[..n + 1];
    assert all == had + [entries[n]];
    if Restorable(entries[n], source) {
      var path := Resolve(entries[n].key).value;
      forall i | 0 <= i < n ensures Resolve(had[i].key).value in target {
        assert Landed(had, i, source, target);
      }
      if !Writable(target, path) {
        var other :| other in target && (other < path || path < other);
        var i :| 0 <= i < n && Resolve(had[i].key) == Some(other);
        assert all[i] == had[i] && all[n] == entries[n];
      }
    } else {
      assert all[n] == entries[n];
    }
  }

  lemma {:induction false} FewerRestorable(entries: seq<AssetEntry>, source: Files, n: nat)
    requires n <= |entries| && AllRestorable(entries, source)
    ensures AllRestorable(entries[..n], source)
  {
  }

  /** `copyRestoredAssets`, into an empty directory. */
  method CopyRestoredAssets(entries: seq<AssetEntry>, source: Files) returns (r: Result<Files, Failure>)
    ensures r.Ok? <==> AllRestorable(entries, source)
    ensures r.Ok? ==> CopiedTo(entries, source, r.value)
  {
    var target: Files := map[];
    for n := 0 to |entries|
      invariant AllRestorable(entries[..n], source) && CopiedTo(entries[..n], source, target)
    {
      var e := entries[n];
      RestorablePush(entries, source, target, n);
      var from, to := Resolve(e.backupPath), Resolve(e.key);
      var sound := from.Some? && to.Some? && from.value in source && Writable(target, to.value) &&
                   Sha256(source[from.value]) == e.reference.contentHash;
      if !sound {
        if AllRestorable(entries, source) {
          FewerRestorable(entries, source, n + 1);
        }
        return Err(Failure("restored asset failed verification"));
      }
      CopiedToPush(entries[..n], source, target, e);
      assert entries[..n + 1] == entries[..n] + [e];
      target := target[to.value := source[from.value]];
    }
    assert entries[..|entries|] == entries;
    return Ok(target);
  }

  lemma {:induction false} CopiedToPush(entries: seq<AssetEntry>, source: Files, target: Files, e: AssetEntry)
    requires CopiedTo(entries, source, target) && Resolve(e.backupPath).Some? && Resolve(e.key).Some?
    requires Resolve(e.backupPath).value in source && Sha256(source[Resolve(e.backupPath).value]) == e.reference.contentHash
    ensures CopiedTo(entries + [e], source, target[Resolve(e.key).value := source[Resolve(e.backupPath).value]])
  {
    var all, n := entries + [e], |entries|;
    var after := target[Resolve(e.key).value := source[Resolve(e.backupPath).value]];
    assert all[n] == e;
    forall i | 0 <= i < |all| ensures Landed(all, i, source, after) {
      if i < n {
        assert Landed(entries, i, source, target);
        assert forall j :: i < j < n ==> all[j] == entries[j];
      }
    }
    forall p | p in after ensures exists i :: 0 <= i < |all| && Resolve(all[i].key) == Some(p) {
      if p == Resolve(e.key).value {
        assert Resolve(all[n].key) == Some(p);
      } else {
        var i :| 0 <= i < n && Resolve(entries[i].key) == Some(p);
        assert all[i] == entries[i];
      }
    }
  }

  /** `restoreBackup`, under the exclusive maintenance lock, into an empty
      database and an empty asset root. */
  method RestoreBackup(d: Directory, site: Site) returns (r: Result<(Manifest, Files), Failure>)
    ensures r.Ok? <==> Restores(d, site)
    ensures r.Ok? ==> d.manifest == Some(r.value.0) && Verified(d)
    ensures r.Ok? ==> CopiedTo(r.value.0.assets, d.files, r.value.1)
    ensures r.Ok? ==> site.restored == r.value.0.tables && r.value.0.tables.Keys == site.expected
    ensures r.Ok? ==> EpochsPassed(r.value.0, site)
  {
    var verified := VerifyBackup(d);
    if verified.Err? {
      return Err(verified.error);
    }
    var m := verified.value;
    if m.tables.Keys != site.expected {
      return Err(Failure("table set"));
    }
    var epochs := if m.epochs.Some? then m.epochs.value else map[];
    var sourceOk := CheckBarrier(site.sourceEpochs, site.first, site.required || m.reset);
    if !sourceOk {
      return Err(Failure("source epochs"));
    }
    var manifestOk := CheckBarrier(epochs, site.second, site.required || m.reset);
    if !manifestOk {
      return Err(Failure("manifest epochs"));
    }
    if exists p :: p in epochs && EpochOf(site.sourceEpochs, p) < epochs[p] {
      return Err(Failure("manifest epoch is newer"));
    }
    var copied := CopyRestoredAssets(m.assets, d.files);
    if copied.Err? {
      return Err(copied.error);
    }
    if site.restored != m.tables {
      return Err(Failure("restored tables"));
    }
    if m.epochs.Some? && site.restoredEpochs != epochs {
      return Err(Failure("restored epochs"));
    }
    var restoredOk := CheckBarrier(site.restoredEpochs, site.third, m.reset);
    if !restoredOk {
      return Err(Failure("restored epochs not allowed"));
    }
    return Ok((m, copied.value));
  }

  function EpochsOf(m: Manifest): Epochs { if m.epochs.Some? then m.epochs.value else map[] }

  ghost predicate EpochsPassed(m: Manifest, site: Site) {
    Barrier(site.sourceEpochs, site.first, site.required || m.reset) && Barrier(EpochsOf(m), site.second, site.required || m.reset) &&
    (forall p :: p in EpochsOf(m) ==> EpochsOf(m)[p] <= EpochOf(site.sourceEpochs, p)) &&
    (m.epochs.Some? ==> site.restoredEpochs == EpochsOf(m)) && Barrier(site.restoredEpochs, site.third, m.reset)
  }

  /** A restore succeeds: the directory verifies, its tables are the expected ones
      and come back as measured, the epochs pass, and its assets can be copied. */
  ghost predicate Restores(d: Directory, site: Site) {
    Verified(d) &&
    var m := d.manifest.value;
    m.tables.Keys == site.expected && site.restored == m.tables && EpochsPassed(m, site) && AllRestorable(m.assets, d.files)
  }

  /** The bytes the asset root held at a key stand at that key. */
  ghost predicate Restored(assets: Files, target: Files, key: Key) {
    Resolve(key).Some? && Resolve(key).value in target && Resolve(key).value in assets &&
    target[Resolve(key).value] == assets[Resolve(key).value]
  }

  predicate Refers(rows: seq<Row>, path: Path) { exists row :: row in rows && Resolve(row.key) == Some(path) }

  /** The restored asset root is exactly what the rows referred to when the backup
      was made, byte for byte. */
  ghost predicate RestoresRows(w: World, target: Files) {
    (forall row :: row in w.rows ==> Restored(w.assets, target, row.key)) &&
    (forall p :: p in target ==> Refers(w.rows, p))
  }

  lemma {:induction false} DistinctKeys(assets: Files, refs: References, a: AssetEntry, b: AssetEntry)
    requires Sound(assets, refs, a) && Sound(assets, refs, b) && a.backupPath != b.backupPath
    ensures Resolve(a.key) != Resolve(b.key)
  {
  }

  lemma {:induction false} EntryRestored(assets: Files, refs: References, entries: seq<AssetEntry>, files: Files, now: Files, target: Files, i: nat)
    requires Copied(assets, refs, refs.Keys, entries, files) && i < |entries| && Landed(entries, i, now, target)
    ensures Restored(assets, target, entries[i].key)
  {
    var e := entries[i];
    assert Kept(assets, refs, e, files);
    forall j | i < j < |entries| ensures Resolve(entries[j].key) != Resolve(e.key) {
      assert Kept(assets, refs, entries[j], files);
      DistinctKeys(assets, refs, entries[i], entries[j]);
    }
  }

  lemma {:induction false} AllRestored(assets: Files, refs: References, entries: seq<AssetEntry>, files: Files, now: Files, target: Files, key: Key)
    requires Copied(assets, refs, refs.Keys, entries, files) && CopiedTo(entries, now, target) && key in refs
    ensures Restored(assets, target, key)
  {
    assert Lists(entries, key);
    var e :| e in entries && e.key == key;
    var i :| 0 <= i < |entries| && entries[i] == e;
    EntryRestored(assets, refs, entries, files, now, target, i);
  }

  lemma {:induction false} OnlyReferred(assets: Files, refs: References, rows: seq<Row>, entries: seq<AssetEntry>, files: Files,
                                        now: Files, target: Files, p: Path)
    requires Collects(refs, rows) && Copied(assets, refs, refs.Keys, entries, files) && CopiedTo(entries, now, target) && p in target
    ensures Refers(rows, p)
  {
    var i :| 0 <= i < |entries| && Resolve(entries[i].key) == Some(p);
    assert entries[i].key in refs.Keys;
    assert Row(entries[i].key, refs[entries[i].key]) in rows;
  }

  /** A restore that succeeds from a backup's own manifest, whatever happened to
      the other files in its directory, leaves exactly the referenced storage keys
      with their original bytes, and tables equal to those measured before the
      dump, after it and after the asset copy. */
  lemma {:induction false} RestoreIsExact(w: World, m: Manifest, d: Directory, now: Directory, site: Site, target: Files)
    requires Created(w, m, d) && now.manifest == Some(m)
    requires CopiedTo(m.assets, now.files, target) && site.restored == m.tables
    ensures RestoresRows(w, target)
    ensures site.restored == w.before == w.after == w.final
  {
    var refs := CreatedRefs(w, m, d);
    forall row | row in w.rows ensures Restored(w.assets, target, row.key) {
      AllRestored(w.assets, refs, m.assets, d.files, now.files, target, row.key);
    }
    forall p | p in target ensures Refers(w.rows, p) {
      OnlyReferred(w.assets, refs, w.rows, m.assets, d.files, now.files, target, p);
    }
  }

  /** With a journal that only grew between the checks, a restore that succeeds
      leaves source, manifest and restored epochs equal. */
  lemma {:induction false} RestoredEpochsAgree(m: Manifest, site: Site, project: string)
    requires EpochsPassed(m, site) && m.epochs.Some? && site.first.Some? && site.second.Some?
    requires site.first.value <= site.second.value
    ensures EpochOf(site.sourceEpochs, project) == EpochOf(EpochsOf(m), project) == EpochOf(site.restoredEpochs, project)
  {
    var more := site.second.value[|site.first.value|..];
    assert site.first.value + more == site.second.value;
    RestoredEpochsEqual(site.sourceEpochs, EpochsOf(m), site.first.value, more, project);
  }

  // ----- untouched backups restore ---------------------------------------------------------------

  lemma {:induction false} KeptRestorable(assets: Files, refs: References, e: AssetEntry, files: Files)
    requires Kept(assets, refs, e, files)
    ensures Restorable(e, files)
  {
    CleanIsClean(e.key);
    ResolveUnder("assets", Resolve(e.key).value);
  }

  lemma {:induction false} CopiedRestorable(assets: Files, refs: References, entries: seq<AssetEntry>, files: Files)
    requires Copied(assets, refs, refs.Keys, entries, files)
    ensures AllRestorable(entries, files)
  {
    forall i | 0 <= i < |entries| ensures Restorable(entries[i], files) {
      assert Kept(assets, refs, entries[i], files);
      KeptRestorable(assets, refs, entries[i], files);
    }
    forall i, j | 0 <= i < |entries| && 0 <= j < |entries|
      ensures !(Resolve(entries[i].key).value < Resolve(entries[j].key).value)
    {
      assert Kept(assets, refs, entries[i], files) && Kept(assets, refs, entries[j], files);
      NestedUnder("assets", Resolve(entries[i].key).value, Resolve(entries[j].key).value);
      if i != j {
        assert if i < j then !Nested(entries[i].backupPath, entries[j].backupPath) else !Nested(entries[j].backupPath, entries[i].backupPath);
      }
    }
  }

  /** Untouched, the directory of every backup that was returned restores, unless a
      project has the empty name: with the journal as it was, source and restored
      epochs equal to the backup's, and the tables back as measured. A backup from
      before the project reset needs a journal, if one is configured, that allows
      a database without epochs. */
  lemma {:induction false} UntouchedRestores(w: World, m: Manifest, d: Directory, site: Site)
    requires Walked(w.contracts) && Created(w, m, d)
    requires w.epochs.Some? ==> "" !in w.epochs.value
    requires w.epochs.None? ==> Barrier(map[], w.journal, site.required)
    requires site.expected == m.tables.Keys && site.restored == m.tables
    requires site.sourceEpochs == EpochsOf(m) && site.restoredEpochs == EpochsOf(m)
    requires site.first == site.second == site.third == w.journal
    ensures Restores(d, site)
  {
    var refs := CreatedRefs(w, m, d);
    CreatedVerifies(w, m, d);
    CopiedRestorable(w.assets, refs, m.assets, d.files);
    assert EpochsPassed(m, site);
  }
}
