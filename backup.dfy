/**
  The backup command: it lists the snapshots of a data node, maps each one to
  its directory under the catalog's root, and brings the remote directory
  `timeDir/snapshotName/` in line with it: local files missing remotely are
  uploaded and remote files with no local counterpart are deleted.

  The URL parser, the local and remote file systems, the snapshot service and
  the clock are inputs: the `BackupEnv` and `Storage` oracles, and `timeDir`.
*/
module Backup {
  import opened Wrappers

  datatype Catalog = Unspecified | Stream | Measure | Property | OtherCatalog(code: int)

  datatype Snapshot = Snapshot(catalog: Catalog, name: string)

  /** The root directories of the three catalogs. */
  datatype Roots = Roots(stream: string, measure: string, property: string)

  datatype BackupError =
    | DestRequired
    | InvalidDestUrl(reason: string)
    | UnsupportedScheme(scheme: string)
    | UnknownCatalog
    | UnsupportedSchedule(style: string)
    | Io(message: string)   // an error of the file systems or the snapshot service

  /** The name of the snapshot directory under a catalog root. */
  const SnapshotDirName := "snapshots"

  /** Joining two path elements with a slash (without the cleaning of
      `..`, `.` and repeated slashes that Go's path joins also do). */
  function Join(a: string, b: string): string {
    a + "/" + b
  }

  // ---------------------------------------------------------------------
  // Snapshot directories and remote paths

  /** The directory of a snapshot: its catalog's root, then `snapshots`,
      then the snapshot name; an unknown catalog is an error. */
  function GetSnapshotDir(s: Snapshot, roots: Roots): (r: Result<string, BackupError>)
    ensures r.Err? <==> !(s.catalog.Stream? || s.catalog.Measure? || s.catalog.Property?)
    ensures r.Err? ==> r.error == UnknownCatalog
  {
    match s.catalog
    case Stream => Ok(Join(Join(roots.stream, SnapshotDirName), s.name))
    case Measure => Ok(Join(Join(roots.measure, SnapshotDirName), s.name))
    case Property => Ok(Join(Join(roots.property, SnapshotDirName), s.name))
    case _ => Err(UnknownCatalog)
  }

  /** The root a known catalog is stored under. */
  function CatalogRoot(c: Catalog, roots: Roots): string
    requires c.Stream? || c.Measure? || c.Property?
  {
    if c.Stream? then roots.stream else if c.Measure? then roots.measure else roots.property
  }

  /** A single clean path element: non-empty, without a slash, and neither
      `.` nor `..`. Joining such an element needs no cleaning. */
  predicate CleanElement(n: string) {
    n != "" && n != "." && n != ".." && '/' !in n
  }

  /** A resolved snapshot directory lies under `root/snapshots/`, and two
      snapshots of one catalog whose names are clean path elements share a
      directory only if they share a name. */
  lemma SnapshotDirLayout(s: Snapshot, s': Snapshot, roots: Roots)
    requires GetSnapshotDir(s, roots).Ok? && GetSnapshotDir(s', roots).Ok?
    requires CleanElement(s.name) && CleanElement(s'.name)
    ensures GetSnapshotDir(s, roots).value == CatalogRoot(s.catalog, roots) + "/" + SnapshotDirName + "/" + s.name
    ensures s.catalog == s'.catalog && GetSnapshotDir(s, roots) == GetSnapshotDir(s', roots) ==> s.name == s'.name
  {
    var prefix := CatalogRoot(s.catalog, roots) + "/" + SnapshotDirName + "/";
    assert GetSnapshotDir(s, roots).value == prefix + s.name;
    if s.catalog == s'.catalog && GetSnapshotDir(s, roots) == GetSnapshotDir(s', roots) {
      assert GetSnapshotDir(s', roots).value == prefix + s'.name;
      assert (prefix + s.name)[|prefix|..] == s.name;
      assert (prefix + s'.name)[|prefix|..] == s'.name;
    }
  }

  /** The prefix listed on the remote store for a snapshot. */
  function RemotePrefix(timeDir: string, name: string): string {
    Join(timeDir, name) + "/"
  }

  /** The remote path of a local file of a snapshot. */
  function RemotePath(timeDir: string, name: string, rel: string): string {
    Join(Join(timeDir, name), rel)
  }

  /** Remote paths lie under the listed prefix, and distinct local files of a
      snapshot have distinct remote paths. */
  lemma RemotePathInjective(timeDir: string, name: string, rel: string, rel': string)
    ensures RemotePath(timeDir, name, rel) == RemotePrefix(timeDir, name) + rel
    ensures RemotePath(timeDir, name, rel) == RemotePath(timeDir, name, rel') <==> rel == rel'
  {
    var p := RemotePrefix(timeDir, name);
    assert RemotePath(timeDir, name, rel) == p + rel;
    assert RemotePath(timeDir, name, rel') == p + rel';
    assert (p + rel)[|p|..] == rel;
    assert (p + rel')[|p|..] == rel';
  }

  // ---------------------------------------------------------------------
  // The synchronisation plan of one snapshot

  /** Whether `s` is one of the strings of `slice`. */
  method Contains(slice: seq<string>, s: string) returns (found: bool)
    ensures found <==> s in slice
  {
    for i := 0 to |slice|
      invariant s !in slice[..i]
    {
      if slice[i] == s {
        return true;
      }
    }
    assert slice[..|slice|] == slice;
    return false;
  }

  /** The remote paths a snapshot's local files should have. */
  function ExpectedSet(localFiles: seq<string>, timeDir: string, name: string): set<string> {
    set f | f in localFiles :: RemotePath(timeDir, name, f)
  }

  /** The remote files, in listing order, that no local file accounts for. */
  function Orphans(remoteFiles: seq<string>, expected: set<string>): (r: seq<string>)
    ensures forall x :: x in r <==> x in remoteFiles && x !in expected
  {
    if remoteFiles == [] then []
    else
      var last := remoteFiles[|remoteFiles| - 1];
      var init := remoteFiles[..|remoteFiles| - 1];
      assert remoteFiles == init + [last];
      Orphans(init, expected) + (if last in expected then [] else [last])
  }

  /** Deletes, from the remote store, every listed file that is not the
      remote path of some local file. A failed delete is only logged, so
      `deleted` lists every deletion attempted, in listing order. */
  method DeleteOrphanedFiles(localFiles: seq<string>, remoteFiles: seq<string>, timeDir: string, name: string)
    returns (deleted: seq<string>)
    ensures deleted == Orphans(remoteFiles, ExpectedSet(localFiles, timeDir, name))
    ensures forall x :: x in deleted <==> x in remoteFiles && x !in ExpectedSet(localFiles, timeDir, name)
  {
    var expected: set<string> := {};
    for i := 0 to |localFiles|
      invariant expected == ExpectedSet(localFiles[..i], timeDir, name)
    {
      assert localFiles[..i + 1] == localFiles[..i] + [localFiles[i]];
      expected := expected + {RemotePath(timeDir, name, localFiles[i])};
    }
    assert localFiles[..|localFiles|] == localFiles;
    deleted := [];
    for j := 0 to |remoteFiles|
      invariant deleted == Orphans(remoteFiles[..j], expected)
    {
      assert remoteFiles[..j + 1][..j] == remoteFiles[..j];
      if remoteFiles[j] !in expected {
        deleted := deleted + [remoteFiles[j]];
      }
    }
    assert remoteFiles[..|remoteFiles|] == remoteFiles;
  }

  /** The file-system calls of a backup, as oracles:
      - walk: the relative paths of the regular files under a directory;
      - list: the remote files under a prefix;
      - upload: uploading the local file `dir/rel` to a remote path. */
  datatype Storage = Storage(
    walk: string -> Result<seq<string>, BackupError>,
    list: string -> Result<seq<string>, BackupError>,
    upload: (string, string, string) -> Option<BackupError>)

  /** A change made to the remote store. */
  datatype FsAction = Upload(relPath: string, remotePath: string) | Delete(remotePath: string)

  /** The actions a backup run made, and the error it returned (if any). */
  datatype SyncRun = SyncRun(actions: seq<FsAction>, err: Option<BackupError>)

  /** The upload for each local file, in order, whose remote path is not
      listed remotely. */
  function MissingUploads(localFiles: seq<string>, remoteFiles: seq<string>, timeDir: string, name: string): (r: seq<FsAction>)
    ensures forall a :: a in r <==>
      a.Upload? && a.relPath in localFiles && a.remotePath == RemotePath(timeDir, name, a.relPath) && a.remotePath !in remoteFiles
  {
    if localFiles == [] then []
    else
      var rp := RemotePath(timeDir, name, localFiles[0]);
      (if rp in remoteFiles then [] else [Upload(localFiles[0], rp)])
        + MissingUploads(localFiles[1..], remoteFiles, timeDir, name)
  }

  /** The upload loop over the local files `todo`: a missing file is
      uploaded, and the first upload error ends the loop. */
  function UploadRun(st: Storage, dir: string, timeDir: string, name: string, todo: seq<string>, remoteFiles: seq<string>): SyncRun {
    if todo == [] then SyncRun([], None)
    else
      var rp := RemotePath(timeDir, name, todo[0]);
      if rp in remoteFiles then UploadRun(st, dir, timeDir, name, todo[1..], remoteFiles)
      else
        match st.upload(dir, todo[0], rp)
        case Some(e) => SyncRun([Upload(todo[0], rp)], Some(e))
        case None =>
          var rest := UploadRun(st, dir, timeDir, name, todo[1..], remoteFiles);
          SyncRun([Upload(todo[0], rp)] + rest.actions, rest.err)
  }

  /** One delete action per path. */
  function Deletes(paths: seq<string>): (r: seq<FsAction>)
    ensures |r| == |paths|
  {
    seq(|paths|, k requires 0 <= k < |paths| => Delete(paths[k]))
  }

  /** A whole backup of one snapshot: list the local files and the remote
      prefix, upload the missing files, then delete the orphans. */
  function SnapshotBackup(st: Storage, dir: string, name: string, timeDir: string): SyncRun {
    match st.walk(dir)
    case Err(e) => SyncRun([], Some(e))
    case Ok(localFiles) =>
      match st.list(RemotePrefix(timeDir, name))
      case Err(e) => SyncRun([], Some(e))
      case Ok(remoteFiles) =>
        var up := UploadRun(st, dir, timeDir, name, localFiles, remoteFiles);
        if up.err.Some? then up
        else SyncRun(up.actions + Deletes(Orphans(remoteFiles, ExpectedSet(localFiles, timeDir, name))), None)
  }

  /** Backs up one snapshot directory to `timeDir/name/` on the remote store. */
  method BackupSnapshot(st: Storage, dir: string, name: string, timeDir: string)
    returns (actions: seq<FsAction>, err: Option<BackupError>)
    ensures SyncRun(actions, err) == SnapshotBackup(st, dir, name, timeDir)
  {
    actions := [];
    var localFiles: seq<string>;
    match st.walk(dir) {
      case Err(e) => return [], Some(e);
      case Ok(files) => localFiles := files;
    }
    var remoteFiles: seq<string>;
    match st.list(RemotePrefix(timeDir, name)) {
      case Err(e) => return [], Some(e);
      case Ok(files) => remoteFiles := files;
    }
    actions, err := UploadMissing(st, dir, timeDir, name, localFiles, remoteFiles);
    if err.Some? {
      return;
    }
    var deleted := DeleteOrphanedFiles(localFiles, remoteFiles, timeDir, name);
    actions := actions + Deletes(deleted);
    err := None;
  }

  /** The upload loop of a snapshot backup: each local file whose remote
      path is not listed is uploaded, and the first failed upload ends the
      loop with its error. */
  method UploadMissing(st: Storage, dir: string, timeDir: string, name: string, localFiles: seq<string>, remoteFiles: seq<string>)
    returns (actions: seq<FsAction>, err: Option<BackupError>)
    ensures SyncRun(actions, err) == UploadRun(st, dir, timeDir, name, localFiles, remoteFiles)
  {
    actions := [];
    ghost var plan := UploadRun(st, dir, timeDir, name, localFiles, remoteFiles);
    for i := 0 to |localFiles|
      invariant plan == SyncRun(actions + UploadRun(st, dir, timeDir, name, localFiles[i..], remoteFiles).actions,
                                UploadRun(st, dir, timeDir, name, localFiles[i..], remoteFiles).err)
    {
      ghost var run := UploadRun(st, dir, timeDir, name, localFiles[i..], remoteFiles);
      ghost var rest := UploadRun(st, dir, timeDir, name, localFiles[i + 1..], remoteFiles);
      assert localFiles[i..][1..] == localFiles[i + 1..];
      UploadRunStep(st, dir, timeDir, name, localFiles[i..], remoteFiles);
      var relPath := localFiles[i];
      var remotePath := RemotePath(timeDir, name, relPath);
      var found := Contains(remoteFiles, remotePath);
      if !found {
        var e := st.upload(dir, relPath, remotePath);
        if e.Some? {
          assert run == SyncRun([Upload(relPath, remotePath)], e);
          return actions + [Upload(relPath, remotePath)], e;
        }
        assert run == SyncRun([Upload(relPath, remotePath)] + rest.actions, rest.err);
        assert actions + run.actions == (actions + [Upload(relPath, remotePath)]) + rest.actions;
        actions := actions + [Upload(relPath, remotePath)];
      } else {
        assert run == rest;
      }
    }
    assert localFiles[|localFiles|..] == [];
    err := None;
  }

  /** One turn of the upload loop. */
  lemma UploadRunStep(st: Storage, dir: string, timeDir: string, name: string, todo: seq<string>, remoteFiles: seq<string>)
    requires todo != []
    ensures var rp := RemotePath(timeDir, name, todo[0]);
      var run := UploadRun(st, dir, timeDir, name, todo, remoteFiles);
      var rest := UploadRun(st, dir, timeDir, name, todo[1..], remoteFiles);
      && (rp in remoteFiles ==> run == rest)
      && (rp !in remoteFiles && st.upload(dir, todo[0], rp).Some? ==>
            run == SyncRun([Upload(todo[0], rp)], st.upload(dir, todo[0], rp)))
      && (rp !in remoteFiles && st.upload(dir, todo[0], rp).None? ==>
            run == SyncRun([Upload(todo[0], rp)] + rest.actions, rest.err))
  {
  }

  // ---------------------------------------------------------------------
  // What the plan of a snapshot backup achieves

  /** The set of remote paths after applying the actions in order, each
      one taking effect. */
  function Apply(remote: set<string>, actions: seq<FsAction>): set<string>
    decreases actions
  {
    if actions == [] then remote
    else
      var next := match actions[0]
        case Upload(_, p) => remote + {p}
        case Delete(p) => remote - {p};
      Apply(next, actions[1..])
  }

  /** The paths of a listing, as a set. */
  function ListedSet(paths: seq<string>): set<string> {
    set x | x in paths
  }

  function Paths(actions: seq<FsAction>): set<string> {
    set a | a in actions :: a.remotePath
  }

  lemma {:induction false} ApplyUploads(remote: set<string>, actions: seq<FsAction>)
    requires forall a :: a in actions ==> a.Upload?
    ensures Apply(remote, actions) == remote + Paths(actions)
    decreases actions
  {
    if actions != [] {
      ApplyUploads(remote + {actions[0].remotePath}, actions[1..]);
      assert actions == [actions[0]] + actions[1..];
      assert Paths(actions) == {actions[0].remotePath} + Paths(actions[1..]);
    }
  }

  lemma {:induction false} ApplyDeletes(remote: set<string>, paths: seq<string>)
    ensures Apply(remote, Deletes(paths)) == remote - ListedSet(paths)
    decreases paths
  {
    if paths != [] {
      assert Deletes(paths)[1..] == Deletes(paths[1..]);
      ApplyDeletes(remote - {paths[0]}, paths[1..]);
      assert paths == [paths[0]] + paths[1..];
      assert ListedSet(paths) == {paths[0]} + ListedSet(paths[1..]);
    }
  }

  lemma {:induction false} ApplyAppend(remote: set<string>, a: seq<FsAction>, b: seq<FsAction>)
    ensures Apply(remote, a + b) == Apply(Apply(remote, a), b)
    decreases a
  {
    if a == [] {
      assert a + b == b;
    } else {
      assert (a + b)[0] == a[0];
      assert (a + b)[1..] == a[1..] + b;
      var next := match a[0]
        case Upload(_, p) => remote + {p}
        case Delete(p) => remote - {p};
      ApplyAppend(next, a[1..], b);
    }
  }

  /** The upload loop only uploads. */
  lemma {:induction false} UploadRunOnlyUploads(st: Storage, dir: string, timeDir: string, name: string, todo: seq<string>, remoteFiles: seq<string>)
    ensures forall a :: a in UploadRun(st, dir, timeDir, name, todo, remoteFiles).actions ==> a.Upload?
    decreases todo
  {
    if todo != [] {
      UploadRunOnlyUploads(st, dir, timeDir, name, todo[1..], remoteFiles);
    }
  }

  /** An upload loop that succeeds uploads every missing file, in local-file
      order, and nothing else. */
  lemma {:induction false} UploadRunUploadsMissing(st: Storage, dir: string, timeDir: string, name: string, todo: seq<string>, remoteFiles: seq<string>)
    ensures UploadRun(st, dir, timeDir, name, todo, remoteFiles).err.None? ==>
      UploadRun(st, dir, timeDir, name, todo, remoteFiles).actions == MissingUploads(todo, remoteFiles, timeDir, name)
    decreases todo
  {
    if todo != [] {
      UploadRunUploadsMissing(st, dir, timeDir, name, todo[1..], remoteFiles);
    }
  }

  /** An upload loop that fails stops at its first failed upload: what it
      uploaded is a prefix of the missing files. */
  lemma {:induction false} UploadRunStopsAtFailure(st: Storage, dir: string, timeDir: string, name: string, todo: seq<string>, remoteFiles: seq<string>)
    ensures var run := UploadRun(st, dir, timeDir, name, todo, remoteFiles);
      run.err.Some? ==> run.actions != [] && run.actions <= MissingUploads(todo, remoteFiles, timeDir, name)
    decreases todo
  {
    if todo != [] {
      UploadRunStopsAtFailure(st, dir, timeDir, name, todo[1..], remoteFiles);
      UploadRunStep(st, dir, timeDir, name, todo, remoteFiles);
      var rp := RemotePath(timeDir, name, todo[0]);
      var missing := MissingUploads(todo, remoteFiles, timeDir, name);
      var rest := MissingUploads(todo[1..], remoteFiles, timeDir, name);
      if rp in remoteFiles {
        assert missing == rest;
      } else {
        assert missing == [Upload(todo[0], rp)] + rest;
      }
    }
  }

  /** The last upload of a failed upload loop is the one that returned the
      error. */
  lemma {:induction false} UploadRunFailsAtLast(st: Storage, dir: string, timeDir: string, name: string, todo: seq<string>, remoteFiles: seq<string>)
    ensures var run := UploadRun(st, dir, timeDir, name, todo, remoteFiles);
      run.err.Some? ==>
        && run.actions != []
        && var last := run.actions[|run.actions| - 1];
           last.Upload? && st.upload(dir, last.relPath, last.remotePath) == run.err
    decreases todo
  {
    if todo != [] {
      UploadRunFailsAtLast(st, dir, timeDir, name, todo[1..], remoteFiles);
      UploadRunStep(st, dir, timeDir, name, todo, remoteFiles);
    }
  }

  /** The upload loop stops at the first failed upload: every upload before
      the last one succeeded, and so did the last one when the loop
      succeeded. */
  lemma {:induction false} UploadRunEarlierUploadsSucceeded(st: Storage, dir: string, timeDir: string, name: string, todo: seq<string>, remoteFiles: seq<string>)
    ensures var run := UploadRun(st, dir, timeDir, name, todo, remoteFiles);
      forall k :: 0 <= k < |run.actions| - (if run.err.Some? then 1 else 0) ==>
        run.actions[k].Upload? && st.upload(dir, run.actions[k].relPath, run.actions[k].remotePath).None?
    decreases todo
  {
    if todo != [] {
      UploadRunEarlierUploadsSucceeded(st, dir, timeDir, name, todo[1..], remoteFiles);
      UploadRunStep(st, dir, timeDir, name, todo, remoteFiles);
      var run := UploadRun(st, dir, timeDir, name, todo, remoteFiles);
      var rest := UploadRun(st, dir, timeDir, name, todo[1..], remoteFiles);
      var rp := RemotePath(timeDir, name, todo[0]);
      if rp !in remoteFiles && st.upload(dir, todo[0], rp).None? {
        forall k | 1 <= k < |run.actions| - (if run.err.Some? then 1 else 0)
          ensures run.actions[k] == rest.actions[k - 1]
        {
        }
      }
    }
  }

  /** The remote paths of the missing uploads are the expected paths that
      are not listed remotely. */
  lemma MissingUploadPaths(localFiles: seq<string>, remoteFiles: seq<string>, timeDir: string, name: string)
    ensures Paths(MissingUploads(localFiles, remoteFiles, timeDir, name))
      == ExpectedSet(localFiles, timeDir, name) - ListedSet(remoteFiles)
  {
    var ups := MissingUploads(localFiles, remoteFiles, timeDir, name);
    forall p | p in ExpectedSet(localFiles, timeDir, name) - ListedSet(remoteFiles)
      ensures p in Paths(ups)
    {
      var f :| f in localFiles && p == RemotePath(timeDir, name, f);
      assert Upload(f, p) in ups;
    }
  }

  /** The plan of a snapshot backup that succeeds is right: its uploads and
      attempted deletions, applied to the listing, give exactly the remote
      paths of the local files. (A failed delete is only logged, so the
      remote store itself may keep an orphan.) A failed backup attempts no
      deletion. */
  lemma SnapshotBackupSyncs(st: Storage, dir: string, name: string, timeDir: string)
    ensures var run := SnapshotBackup(st, dir, name, timeDir);
      run.err.Some? ==> forall a :: a in run.actions ==> a.Upload?
    ensures var run := SnapshotBackup(st, dir, name, timeDir);
      run.err.None? ==>
        && st.walk(dir).Ok? && st.list(RemotePrefix(timeDir, name)).Ok?
        && Apply(ListedSet(st.list(RemotePrefix(timeDir, name)).value), run.actions)
             == ExpectedSet(st.walk(dir).value, timeDir, name)
  {
    var run := SnapshotBackup(st, dir, name, timeDir);
    if st.walk(dir).Ok? && st.list(RemotePrefix(timeDir, name)).Ok? {
      var localFiles, remoteFiles := st.walk(dir).value, st.list(RemotePrefix(timeDir, name)).value;
      var up := UploadRun(st, dir, timeDir, name, localFiles, remoteFiles);
      UploadRunUploadsMissing(st, dir, timeDir, name, localFiles, remoteFiles);
      UploadRunOnlyUploads(st, dir, timeDir, name, localFiles, remoteFiles);
      if up.err.None? {
        var expected := ExpectedSet(localFiles, timeDir, name);
        var listed := ListedSet(remoteFiles);
        var orphans := Orphans(remoteFiles, expected);
        ApplyAppend(listed, up.actions, Deletes(orphans));
        ApplyUploads(listed, up.actions);
        MissingUploadPaths(localFiles, remoteFiles, timeDir, name);
        ApplyDeletes(listed + Paths(up.actions), orphans);
        assert ListedSet(orphans) == listed - expected;
      }
    }
  }

  // ---------------------------------------------------------------------
  // The backup command

  datatype Url = Url(scheme: string, path: string)

  /** The collaborators of the backup command:
      - parseUrl: the URL parser, or its error;
      - openLocal: opening the local file system at a path, or its error;
      - snapshots: the snapshots the data node reports, or the error;
      - storage: the local and remote file-system calls. */
  datatype BackupEnv = BackupEnv(
    parseUrl: string -> Result<Url, string>,
    openLocal: string -> Option<BackupError>,
    snapshots: Result<seq<Snapshot>, BackupError>,
    storage: Storage)

  /** Opens the remote store of a destination URL: only the `file` scheme
      is supported. The result is the root path of the store. */
  function NewFs(env: BackupEnv, dest: string): (r: Result<string, BackupError>)
    ensures r.Ok? <==> env.parseUrl(dest).Ok? && env.parseUrl(dest).value.scheme == "file"
                       && env.openLocal(env.parseUrl(dest).value.path).None?
    ensures r.Ok? ==> r.value == env.parseUrl(dest).value.path
    ensures env.parseUrl(dest).Ok? && env.parseUrl(dest).value.scheme != "file" ==>
      r == Err(UnsupportedScheme(env.parseUrl(dest).value.scheme))
  {
    match env.parseUrl(dest)
    case Err(reason) => Err(InvalidDestUrl(reason))
    case Ok(u) =>
      if u.scheme == "file" then
        match env.openLocal(u.path)
        case Some(e) => Err(e)
        case None => Ok(u.path)
      else Err(UnsupportedScheme(u.scheme))
  }

  /** What happens to one snapshot: it is skipped with the error of its
      directory, or it is backed up. */
  datatype Outcome = Skipped(error: BackupError) | Ran(run: SyncRun)

  function SnapshotOutcome(st: Storage, roots: Roots, timeDir: string, s: Snapshot): Outcome {
    match GetSnapshotDir(s, roots)
    case Err(e) => Skipped(e)
    case Ok(dir) => Ran(SnapshotBackup(st, dir, s.name, timeDir))
  }

  /** The actions of every backed-up snapshot, in snapshot order. */
  function AllActions(st: Storage, roots: Roots, timeDir: string, snaps: seq<Snapshot>): seq<FsAction> {
    if snaps == [] then []
    else
      var o := SnapshotOutcome(st, roots, timeDir, snaps[|snaps| - 1]);
      AllActions(st, roots, timeDir, snaps[..|snaps| - 1]) + (if o.Ran? then o.run.actions else [])
  }

  /** `multierr.AppendInto`: a nil error leaves the accumulated errors as
      they are; any other is appended. The empty list is a nil error. */
  function AppendInto(errs: seq<BackupError>, e: Option<BackupError>): seq<BackupError> {
    if e.None? then errs else errs + [e.value]
  }

  /** The error the snapshot loop returns as written: the error variable is
      reassigned for every snapshot, so only the last snapshot's outcome is
      left in it. */
  function LastOutcomeErrs(st: Storage, roots: Roots, timeDir: string, snaps: seq<Snapshot>): seq<BackupError> {
    if snaps == [] then []
    else
      match SnapshotOutcome(st, roots, timeDir, snaps[|snaps| - 1])
      case Skipped(e) => [e]
      case Ran(run) => AppendInto([], run.err)
  }

  /** The error the snapshot loop is evidently meant to return: the failure
      of every snapshot that was backed up, in order; skipped snapshots are
      only warned about. */
  function CollectedErrs(st: Storage, roots: Roots, timeDir: string, snaps: seq<Snapshot>): seq<BackupError> {
    if snaps == [] then []
    else
      var o := SnapshotOutcome(st, roots, timeDir, snaps[|snaps| - 1]);
      var errs := CollectedErrs(st, roots, timeDir, snaps[..|snaps| - 1]);
      if o.Ran? then AppendInto(errs, o.run.err) else errs
  }

  /** The backup action: check the destination, open the remote store, get
      the snapshots, and back up each snapshot whose directory resolves; a
      snapshot whose directory does not resolve is skipped with a warning.
      `errs` is the returned error (empty for nil): the failures of the
      backed-up snapshots, collected as the loop evidently means to (see
      `LastOutcomeErrs` for the loop as written). */
  method BackupAction(env: BackupEnv, dest: string, roots: Roots, timeDir: string)
    returns (actions: seq<FsAction>, errs: seq<BackupError>)
    ensures dest == "" ==> actions == [] && errs == [DestRequired]
    ensures dest != "" && NewFs(env, dest).Err? ==> actions == [] && errs == [NewFs(env, dest).error]
    ensures dest != "" && NewFs(env, dest).Ok? && env.snapshots.Err? ==> actions == [] && errs == [env.snapshots.error]
    ensures dest != "" && NewFs(env, dest).Ok? && env.snapshots.Ok? ==>
      && actions == AllActions(env.storage, roots, timeDir, env.snapshots.value)
      && errs == CollectedErrs(env.storage, roots, timeDir, env.snapshots.value)
  {
    actions := [];
    if dest == "" {
      return [], [DestRequired];
    }
    var fs := NewFs(env, dest);
    if fs.Err? {
      return [], [fs.error];
    }
    var snaps: seq<Snapshot>;
    match env.snapshots {
      case Err(e) => return [], [e];
      case Ok(ss) => snaps := ss;
    }
    errs := [];
    for i := 0 to |snaps|
      invariant actions == AllActions(env.storage, roots, timeDir, snaps[..i])
      invariant errs == CollectedErrs(env.storage, roots, timeDir, snaps[..i])
    {
      assert snaps[..i + 1][..i] == snaps[..i];
      var s := snaps[i];
      var dir := GetSnapshotDir(s, roots);
      if dir.Ok? {
        var acts, e := BackupSnapshot(env.storage, dir.value, s.name, timeDir);
        actions := actions + acts;
        errs := AppendInto(errs, e);
      }
    }
    assert snaps[..|snaps|] == snaps;
  }

  /** As written, the returned error depends on the last snapshot alone:
      whatever failed before it, a last snapshot that backs up cleanly makes
      the whole action return nil. */
  lemma LastSnapshotDecides(st: Storage, roots: Roots, timeDir: string, earlier: seq<Snapshot>, last: Snapshot)
    ensures LastOutcomeErrs(st, roots, timeDir, earlier + [last]) == LastOutcomeErrs(st, roots, timeDir, [last])
    ensures SnapshotOutcome(st, roots, timeDir, last).Ran? && SnapshotOutcome(st, roots, timeDir, last).run.err.None?
      ==> LastOutcomeErrs(st, roots, timeDir, earlier + [last]) == []
  {
    assert (earlier + [last])[|earlier + [last]| - 1] == last;
  }

  /** The discrepancy: a first snapshot whose backup fails followed by a
      second that succeeds gives a nil error from the loop as written, while
      the collected errors report the failure. */
  lemma {:induction false} EarlierFailureIsLost(st: Storage, roots: Roots, timeDir: string, first: Snapshot, second: Snapshot, e: BackupError)
    requires GetSnapshotDir(first, roots).Ok? && GetSnapshotDir(second, roots).Ok?
    requires SnapshotBackup(st, GetSnapshotDir(first, roots).value, first.name, timeDir).err == Some(e)
    requires SnapshotBackup(st, GetSnapshotDir(second, roots).value, second.name, timeDir).err.None?
    ensures LastOutcomeErrs(st, roots, timeDir, [first, second]) == []
    ensures CollectedErrs(st, roots, timeDir, [first, second]) == [e]
  {
    assert [first, second][..1] == [first];
    assert [first][..0] == [];
    assert CollectedErrs(st, roots, timeDir, []) == [];
    assert CollectedErrs(st, roots, timeDir, [first]) == [e];
  }

  /** The corrected loop reports a failure exactly when some backed-up
      snapshot failed; it reports every such failure, and nothing else (a
      skipped snapshot adds no error). */
  lemma {:induction false} CollectedErrsComplete(st: Storage, roots: Roots, timeDir: string, snaps: seq<Snapshot>)
    ensures CollectedErrs(st, roots, timeDir, snaps) == [] <==>
      forall i :: 0 <= i < |snaps| ==>
        var o := SnapshotOutcome(st, roots, timeDir, snaps[i]); o.Ran? ==> o.run.err.None?
    ensures forall i :: 0 <= i < |snaps| ==>
      var o := SnapshotOutcome(st, roots, timeDir, snaps[i]);
      o.Ran? && o.run.err.Some? ==> o.run.err.value in CollectedErrs(st, roots, timeDir, snaps)
    ensures forall x :: x in CollectedErrs(st, roots, timeDir, snaps) ==>
      exists i :: 0 <= i < |snaps| && SnapshotOutcome(st, roots, timeDir, snaps[i]).Ran?
        && SnapshotOutcome(st, roots, timeDir, snaps[i]).run.err == Some(x)
  {
    if snaps != [] {
      var init := snaps[..|snaps| - 1];
      CollectedErrsComplete(st, roots, timeDir, init);
      assert forall i :: 0 <= i < |init| ==> init[i] == snaps[i];
      var last := |snaps| - 1;
      forall x | x in CollectedErrs(st, roots, timeDir, snaps)
        ensures exists i :: (0 <= i < |snaps| && SnapshotOutcome(st, roots, timeDir, snaps[i]).Ran?
                             && SnapshotOutcome(st, roots, timeDir, snaps[i]).run.err == Some(x))
      {
        if x !in CollectedErrs(st, roots, timeDir, init) {
          assert SnapshotOutcome(st, roots, timeDir, snaps[last]).Ran?
            && SnapshotOutcome(st, roots, timeDir, snaps[last]).run.err == Some(x);
        }
      }
    }
  }

  // ---------------------------------------------------------------------
  // Scheduling

  /** The cron expressions of the supported schedule styles. */
  const ScheduleExprMap: map<string, string> := map["hourly" := "5 * * * *", "daily" := "5 0 * * *"]

  /** How the command runs: one backup now, or backups on a cron schedule. */
  datatype RunPlan = RunOnce | Scheduled(cronExpr: string)

  function PlanRun(scheduleStyle: string): Result<RunPlan, BackupError> {
    if scheduleStyle == "" then Ok(RunOnce)
    else if scheduleStyle in ScheduleExprMap then Ok(Scheduled(ScheduleExprMap[scheduleStyle]))
    else Err(UnsupportedSchedule(scheduleStyle))
  }

  /** No schedule runs one backup; `hourly` runs at minute 5 of every hour,
      `daily` at 00:05; any other style is refused. */
  lemma ScheduleStyles(scheduleStyle: string)
    ensures PlanRun("") == Ok(RunOnce)
    ensures PlanRun("hourly") == Ok(Scheduled("5 * * * *"))
    ensures PlanRun("daily") == Ok(Scheduled("5 0 * * *"))
    ensures scheduleStyle != "" && scheduleStyle != "hourly" && scheduleStyle != "daily" ==>
      PlanRun(scheduleStyle) == Err(UnsupportedSchedule(scheduleStyle))
  {
  }
}
