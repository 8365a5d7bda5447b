/** Applying and rolling back connector plans step by step, where any disk operation may fail. */
module ConnectorWorkspace {
  import opened Options
  import opened ConnectorApply

  datatype Outcome = Applied | Unrecorded | PreflightRejected | PartialFailure | CompensationError

  datatype FileResult = Done(backup: Option<string>) | Rejected

  datatype RollbackPreview = ExactRestore(file: PlanFile) | Recompute | NotFound | HashMismatch | Unavailable

  /** What can fail: locks, path and link checks, reads, writes, and persisting the journal. */
  datatype Operation = Lock | Check | Read | Write | Journal

  // ---------------------------------------------------------------- plans and minted names

  /** Identifiers minted by the host are new and cannot escape the target's directory. */
  predicate GoodMint(files: seq<PlanFile>, f: PlanFile, m: Minted) {
    !PlanPath(files, BackupPath(f.path, m.suffix)) && '/' !in BackupPath(f.path, m.suffix).name
  }

  predicate NewIds(journal: seq<BackupEntry>, minted: seq<Minted>) {
    && (forall k :: 0 <= k < |minted| ==> FindBackup(journal, minted[k].id).None?)
    && (forall k, l :: 0 <= k < l < |minted| ==> minted[k].id != minted[l].id)
  }

  predicate GoodMints(files: seq<PlanFile>, minted: seq<Minted>) {
    |minted| == |files| && forall k :: 0 <= k < |files| ==> GoodMint(files, files[k], minted[k])
  }

  predicate DistinctPaths(files: seq<PlanFile>) {
    forall k, l :: 0 <= k < l < |files| ==> files[k].path != files[l].path
  }

  /** No backup name from the k-th on is taken, by a file or by another backup. */
  predicate NamesFree(d: Disk, files: seq<PlanFile>, minted: seq<Minted>, k: nat)
    requires k <= |files| == |minted|
  {
    && (forall l :: k <= l < |files| ==> BackupPath(files[l].path, minted[l].suffix) !in d.fs)
    && (forall l, m :: k <= l < m < |files| ==>
          BackupPath(files[l].path, minted[l].suffix) != BackupPath(files[m].path, minted[m].suffix))
  }

  /** The file is as the plan saw it. */
  predicate AsPlanned(d: Disk, f: PlanFile) {
    if f.path in d.fs then d.fs[f.path] == f.baseline else f.isNewFile
  }

  ghost predicate AllAsPlanned(d: Disk, files: seq<PlanFile>) { forall f :: f in files ==> AsPlanned(d, f) }

  /** Every file the plan changes, new ones included, holds its merged text. */
  predicate AllMerged(d: Disk, files: seq<PlanFile>) {
    forall f :: f in files && f.baseline != f.merged ==> f.path in d.fs && d.fs[f.path] == f.merged
  }

  /** A finished file: unchanged if nothing was to change, otherwise merged and backed up under `id`. */
  predicate InstalledFile(start: map<Path, string>, d: Disk, f: PlanFile, id: string) {
    && f.path in start && start[f.path] == f.baseline && f.path in d.fs
    && (f.baseline != f.merged ==> d.fs[f.path] == f.merged && HasBackup(d, id, f.path, f.baseline, f.merged))
  }

  predicate HoldsBaseline(d: Disk, f: PlanFile) { f.path in d.fs ==> d.fs[f.path] == f.baseline }

  predicate NameIsFree(d: Disk, f: PlanFile, m: Minted) { BackupPath(f.path, m.suffix) !in d.fs }

  predicate BackupIntact(d: Disk, path: Path, e: BackupEntry) {
    var backup := InferBackupPath(path, e.backupDisplayPath);
    backup in d.fs && Digest(d.fs[backup]) == e.contentHash
  }

  predicate SameAt(a: map<Path, string>, b: map<Path, string>, p: Path) {
    (p in a <==> p in b) && (p in a && p in b ==> a[p] == b[p])
  }

  predicate BackupName(files: seq<PlanFile>, minted: seq<Minted>, p: Path)
    requires |files| == |minted|
  {
    exists k :: 0 <= k < |files| && BackupPath(files[k].path, minted[k].suffix) == p
  }

  /** Nothing appears on disk but the plan's own files and their backups. */
  ghost predicate OnlyPlanned(before: Disk, after: Disk, files: seq<PlanFile>, minted: seq<Minted>)
    requires |files| == |minted|
  {
    forall p :: p in after.fs && p !in before.fs ==> PlanPath(files, p) || BackupName(files, minted, p)
  }

  /** Files of the plan from the k-th on are still as they were. */
  predicate Untouched(start: map<Path, string>, d: Disk, files: seq<PlanFile>, k: nat)
    requires k <= |files|
  {
    forall l :: k <= l < |files| ==> SameAt(start, d.fs, files[l].path)
  }

  /** Every changed file that was there has its entry among the applied ones. */
  predicate AllApplied(files: seq<PlanFile>, minted: seq<Minted>, start: map<Path, string>,
                       applied: seq<AppliedFile>, k: nat)
    requires k <= |files| == |minted|
  {
    forall l :: 0 <= l < k && files[l].path in start && files[l].baseline != files[l].merged ==>
      AppliedFile(files[l], minted[l].id) in applied
  }

  /** Backups under other ids are untouched. */
  ghost predicate OthersFound(before: seq<BackupEntry>, after: seq<BackupEntry>, minted: seq<Minted>) {
    forall other :: (forall k :: 0 <= k < |minted| ==> minted[k].id != other) ==>
      FindBackup(after, other) == FindBackup(before, other)
  }

  // ---------------------------------------------------------------- steps of the apply loop

  lemma OthersFoundOn(first: seq<BackupEntry>, before: seq<BackupEntry>, after: seq<BackupEntry>,
                      minted: seq<Minted>, k: nat)
    requires OthersFound(first, before, minted) && k < |minted|
    requires forall other :: other != minted[k].id ==> FindBackup(after, other) == FindBackup(before, other)
    ensures OthersFound(first, after, minted)
  {
  }

  lemma AllAppliedOn(files: seq<PlanFile>, minted: seq<Minted>, start: map<Path, string>,
                     done: seq<AppliedFile>, applied: seq<AppliedFile>, k: nat)
    requires k < |files| == |minted| && AllApplied(files, minted, start, done, k)
    requires applied == done || applied == done + [AppliedFile(files[k], minted[k].id)]
    requires files[k].path in start && files[k].baseline != files[k].merged ==> applied != done
    ensures AllApplied(files, minted, start, applied, k + 1)
  {
  }

  lemma AppliedAreInstalled(start: map<Path, string>, files: seq<PlanFile>, minted: seq<Minted>, d: Disk,
                            applied: seq<AppliedFile>, k: nat)
    requires k < |files| == |minted| && files[k].path in start && start[files[k].path] == files[k].baseline
    requires Tracked(start, files, d, applied) && AllApplied(files, minted, start, applied, |files|)
    ensures InstalledFile(start, d, files[k], minted[k].id)
  {
    if files[k].baseline != files[k].merged {
      var i :| 0 <= i < |applied| && applied[i] == AppliedFile(files[k], minted[k].id);
      assert TrackedFile(start, files, d, applied[i]);
    }
  }

  lemma AllMergedOn(before: Disk, after: Disk, files: seq<PlanFile>, k: nat)
    requires k < |files| && DistinctPaths(files) && AllMerged(before, files[..k])
    requires forall p :: PlanPath(files, p) && p != files[k].path ==> SameAt(before.fs, after.fs, p)
    requires files[k].path in after.fs && after.fs[files[k].path] == files[k].merged
    ensures AllMerged(after, files[..k + 1])
  {
    forall f | f in files[..k + 1] && f.baseline != f.merged
      ensures f.path in after.fs && after.fs[f.path] == f.merged
    {
      var l :| 0 <= l <= k && files[l] == f;
      assert PlanPath(files, f.path);
      if l < k { assert f in files[..k]; }
    }
  }

  lemma UntouchedOn(start: map<Path, string>, before: Disk, after: Disk, files: seq<PlanFile>, k: nat)
    requires k < |files| && DistinctPaths(files) && Untouched(start, before, files, k)
    requires forall p :: PlanPath(files, p) && p != files[k].path ==> SameAt(before.fs, after.fs, p)
    ensures Untouched(start, after, files, k + 1)
  {
    forall l | k + 1 <= l < |files| ensures SameAt(start, after.fs, files[l].path) {
      assert PlanPath(files, files[l].path) && SameAt(start, before.fs, files[l].path);
    }
  }

  lemma NamesFreeOn(before: Disk, after: Disk, files: seq<PlanFile>, minted: seq<Minted>, k: nat)
    requires GoodMints(files, minted) && k < |files| && NamesFree(before, files, minted, k)
    requires after.fs.Keys <= before.fs.Keys + {files[k].path, BackupPath(files[k].path, minted[k].suffix)}
    ensures NamesFree(after, files, minted, k + 1)
  {
    forall l | k + 1 <= l < |files| ensures BackupPath(files[l].path, minted[l].suffix) !in after.fs {
      assert GoodMint(files, files[l], minted[l]) && PlanPath(files, files[k].path);
    }
  }

  lemma OnlyPlannedOn(first: Disk, before: Disk, after: Disk, files: seq<PlanFile>, minted: seq<Minted>, k: nat)
    requires k < |files| == |minted| && OnlyPlanned(first, before, files, minted)
    requires after.fs.Keys <= before.fs.Keys + {files[k].path, BackupPath(files[k].path, minted[k].suffix)}
    ensures OnlyPlanned(first, after, files, minted)
  {
    assert PlanPath(files, files[k].path) && BackupName(files, minted, BackupPath(files[k].path, minted[k].suffix));
  }

  lemma LaterIdsNew(before: seq<BackupEntry>, after: seq<BackupEntry>, minted: seq<Minted>, k: nat)
    requires k < |minted| && NewIds(before, minted[k..])
    requires forall other :: other != minted[k].id ==> FindBackup(after, other) == FindBackup(before, other)
    ensures NewIds(after, minted[k + 1..])
  {
    var now, later := minted[k..], minted[k + 1..];
    assert now[0] == minted[k] && forall l :: 0 <= l < |later| ==> later[l] == now[l + 1];
  }

  lemma LeftOver(applied: seq<AppliedFile>, k: nat, skipped: seq<AppliedFile>)
    requires k < |applied|
    ensures applied[k] in applied && (applied[..k + 1] + skipped)[k] == applied[k]
    ensures Without(applied[..k + 1] + skipped, k) == applied[..k] + skipped
    ensures applied[..k] + ([applied[k]] + skipped) == applied[..k + 1] + skipped
  {
  }

  // ---------------------------------------------------------------- the workspace

  class Workspace {
    /** Which operation on which path fails at which moment. */
    const fails: (nat, Operation, Path) -> bool
    var clock: nat
    var disk: Disk
    /** Every state of the disk since the workspace was opened. */
    ghost var history: seq<Disk>

    constructor (initial: Disk, fails: (nat, Operation, Path) -> bool)
      ensures disk == initial && history == [] && this.fails == fails
    {
      this.fails := fails;
      disk, history, clock := initial, [], 0;
    }

    ghost predicate SafeSince(start: map<Path, string>, files: seq<PlanFile>, since: nat)
      reads this
    {
      since <= |history| && forall k :: since <= k < |history| ==> Safe(start, files, history[k])
    }

    ghost predicate Readable(p: Path) { forall t: nat :: !fails(t, Read, p) }

    ghost predicate Faultless() { forall t: nat, op, p :: !fails(t, op, p) }

    method Attempt(op: Operation, p: Path) returns (ok: bool)
      modifies this`clock
      ensures ok == !fails(old(clock), op, p)
    {
      ok := !fails(clock, op, p);
      clock := clock + 1;
    }

    method WriteFile(path: Path, content: string)
      modifies this`disk, this`history
      ensures disk == old(disk).(fs := old(disk).fs[path := content]) && history == old(history) + [disk]
    {
      disk := disk.(fs := disk.fs[path := content]);
      history := history + [disk];
    }

    /** The entry is in the journal even when persisting it fails. */
    method RecordBackup(e: BackupEntry, path: Path) returns (ok: bool)
      modifies this
      ensures disk == old(disk).(journal := old(disk).journal + [e]) && history == old(history) + [disk]
      ensures Faultless() ==> ok
    {
      disk := disk.(journal := disk.journal + [e]);
      history := history + [disk];
      ok := Attempt(Journal, path);
    }

    method Preflight(file: PlanFile) returns (ok: bool)
      modifies this`clock
      ensures ok ==> AsPlanned(disk, file)
      ensures Faultless() && AsPlanned(disk, file) ==> ok
    {
      ok := Attempt(Check, file.path);
      if !ok { return; }
      if file.path in disk.fs {
        ok := Attempt(Read, file.path);
        if !ok { return; }
        ok := Digest(disk.fs[file.path]) == Digest(file.baseline);
      } else {
        ok := file.isNewFile;
      }
    }

    /** Writes a new file off the plan paths; a failing write may leave part of it. */
    method WriteExclusive(q: Path, bytes: string, ghost start: map<Path, string>, ghost files: seq<PlanFile>,
                          ghost applied: seq<AppliedFile>, ghost since: nat)
      returns (ok: bool, ghost left: string)
      requires q !in disk.fs && Tracked(start, files, disk, applied) && SafeSince(start, files, since)
      modifies this
      ensures Tracked(start, files, disk, applied) && SafeSince(start, files, since)
      ensures disk == old(disk).(fs := old(disk).fs[q := left]) && (ok ==> left == bytes)
      ensures Faultless() ==> ok
    {
      var content := bytes;
      ok := Attempt(Write, q);
      if !ok { content := *; }
      left := content;
      AddBackupFile(start, files, disk, applied, q, content);
      WriteFile(q, content);
      TrackedIsSafe(start, files, disk, applied);
    }

    /** Journals the copy of a file's bytes under a new id. */
    method JournalBackup(file: PlanFile, m: Minted, bytes: string, ghost start: map<Path, string>,
                         ghost files: seq<PlanFile>, ghost applied: seq<AppliedFile>, ghost since: nat)
      returns (ok: bool)
      requires BackupPath(file.path, m.suffix) in disk.fs && disk.fs[BackupPath(file.path, m.suffix)] == bytes
      requires GoodMint(files, file, m) && FindBackup(disk.journal, m.id).None?
      requires Tracked(start, files, disk, applied) && SafeSince(start, files, since)
      modifies this
      ensures Tracked(start, files, disk, applied) && SafeSince(start, files, since) && disk.fs == old(disk).fs
      ensures forall other :: other != m.id ==>
                FindBackup(disk.journal, other) == FindBackup(old(disk).journal, other)
      ensures HasBackup(disk, m.id, file.path, bytes, file.merged) && BackupApart(disk, m.id, file.path, files)
      ensures Faultless() ==> ok
    {
      var backup := BackupPath(file.path, m.suffix);
      var shown := BackupDisplay(file.displayPath, backup.name);
      BackupPathRecovered(file.path, file.displayPath, backup.name);
      var e := BackupEntry(m.id, file.displayPath, shown, Digest(bytes), Some(Digest(file.merged)));
      AddJournalEntry(start, files, disk, applied, e);
      forall other { FindBackupAppend(disk.journal, e, other); }
      ok := RecordBackup(e, file.path);
      TrackedIsSafe(start, files, disk, applied);
    }

    /** Copies the current bytes beside the file and journals the copy. */
    method CreateBackup(file: PlanFile, m: Minted, ghost start: map<Path, string>, ghost files: seq<PlanFile>,
                        ghost applied: seq<AppliedFile>, ghost since: nat)
      returns (id: Option<string>)
      requires file.path in disk.fs && file in files && GoodMint(files, file, m)
      requires FindBackup(disk.journal, m.id).None?
      requires Tracked(start, files, disk, applied) && SafeSince(start, files, since)
      modifies this
      ensures Tracked(start, files, disk, applied) && SafeSince(start, files, since)
      ensures forall p :: PlanPath(files, p) ==> SameAt(old(disk).fs, disk.fs, p)
      ensures disk.fs.Keys <= old(disk).fs.Keys + {BackupPath(file.path, m.suffix)}
      ensures forall other :: other != m.id ==>
                FindBackup(disk.journal, other) == FindBackup(old(disk).journal, other)
      ensures id.Some? ==> id.value == m.id && HasBackup(disk, m.id, file.path, old(disk).fs[file.path], file.merged)
                           && BackupApart(disk, m.id, file.path, files)
      ensures Faultless() && NameIsFree(old(disk), file, m) ==> id.Some?
    {
      id := None;
      var backup := BackupPath(file.path, m.suffix);
      var ok := Attempt(Check, file.path);
      if !ok || backup in disk.fs { return; }
      ok := Attempt(Read, file.path);
      if !ok { return; }
      var bytes := disk.fs[file.path];
      ok := Attempt(Check, file.path);
      if !ok { return; }
      ghost var copy;
      ok, copy := WriteExclusive(backup, bytes, start, files, applied, since);
      if !ok { return; }
      ok := JournalBackup(file, m, bytes, start, files, applied, since);
      if ok { id := Some(m.id); }
    }

    /** Backs an existing file up and replaces it. */
    method ReplaceFile(file: PlanFile, m: Minted, ghost start: map<Path, string>, ghost files: seq<PlanFile>,
                       ghost applied: seq<AppliedFile>, ghost since: nat)
      returns (ok: bool)
      requires file in files && GoodMint(files, file, m) && FindBackup(disk.journal, m.id).None?
      requires file.path in disk.fs && disk.fs[file.path] == file.baseline && file.baseline != file.merged
      requires file.path in start ==> start[file.path] == file.baseline
      requires Tracked(start, files, disk, applied) && SafeSince(start, files, since)
      modifies this
      ensures SafeSince(start, files, since)
      ensures forall other :: other != m.id ==>
                FindBackup(disk.journal, other) == FindBackup(old(disk).journal, other)
      ensures forall p :: PlanPath(files, p) && p != file.path ==> SameAt(old(disk).fs, disk.fs, p)
      ensures disk.fs.Keys <= old(disk).fs.Keys + {BackupPath(file.path, m.suffix)}
      ensures !ok ==> Tracked(start, files, disk, applied)
      ensures ok ==> file.path in disk.fs && disk.fs[file.path] == file.merged
                     && Tracked(start, files, disk, applied + [AppliedFile(file, m.id)])
      ensures Faultless() && NameIsFree(old(disk), file, m) ==> ok
    {
      assert PlanPath(files, file.path);
      ok := Attempt(Check, file.path);
      if !ok { return; }
      var id := CreateBackup(file, m, start, files, applied, since);
      if id.None? { return false; }
      ok := Attempt(Write, file.path);
      if !ok { return; }
      ReplaceOriginal(start, files, disk, applied, file, m.id);
      WriteFile(file.path, file.merged);
      TrackedIsSafe(start, files, disk, applied + [AppliedFile(file, m.id)]);
    }

    /** apply_single_file: re-check under the lock, back up, replace. */
    method ApplySingleFile(file: PlanFile, m: Minted, ghost start: map<Path, string>, ghost files: seq<PlanFile>,
                           ghost applied: seq<AppliedFile>, ghost since: nat)
      returns (r: FileResult)
      requires file in files && GoodMint(files, file, m) && FindBackup(disk.journal, m.id).None?
      requires file.baseline != file.merged && (file.path in start ==> start[file.path] == file.baseline)
      requires Tracked(start, files, disk, applied) && SafeSince(start, files, since)
      modifies this
      ensures SafeSince(start, files, since)
      ensures forall other :: other != m.id ==>
                FindBackup(disk.journal, other) == FindBackup(old(disk).journal, other)
      ensures forall p :: PlanPath(files, p) && p != file.path ==> SameAt(old(disk).fs, disk.fs, p)
      ensures disk.fs.Keys <= old(disk).fs.Keys + {file.path, BackupPath(file.path, m.suffix)}
      ensures r.Rejected? ==> Tracked(start, files, disk, applied)
      ensures r.Done? ==> file.path in disk.fs && disk.fs[file.path] == file.merged
      ensures r.Done? ==> (r.backup.Some? <==> file.path in old(disk).fs)
      ensures r.Done? && r.backup.None? ==> file.path !in start && Tracked(start, files, disk, applied)
      ensures r.Done? && r.backup.Some? ==>
                r.backup.value == m.id && Tracked(start, files, disk, applied + [AppliedFile(file, m.id)])
      ensures Faultless() && NameIsFree(old(disk), file, m) && HoldsBaseline(old(disk), file) ==> r.Done?
    {
      var ok := Attempt(Lock, file.path);
      if !ok { return Rejected; }
      ok := Attempt(Check, file.path);
      if !ok { return Rejected; }
      if file.path in disk.fs {
        ok := Attempt(Read, file.path);
        if !ok || Digest(disk.fs[file.path]) != Digest(file.baseline) { return Rejected; }
        ok := ReplaceFile(file, m, start, files, applied, since);
        return if ok then Done(Some(m.id)) else Rejected;
      }
      ok := Attempt(Write, file.path);
      if !ok { return Rejected; }
      CreateNew(start, files, disk, applied, file, file.merged);
      WriteFile(file.path, file.merged);
      TrackedIsSafe(start, files, disk, applied);
      return Done(None);
    }

    /** restore_from_backup: only bytes that match the journalled hash are written back. */
    method RestoreFromBackup(file: PlanFile, e: BackupEntry) returns (ok: bool)
      modifies this
      ensures !ok ==> disk == old(disk) && history == old(history)
      ensures ok ==> e.contentHash.Digest? && history == old(history) + [disk]
                     && disk == old(disk).(fs := old(disk).fs[file.path := e.contentHash.content])
      ensures Faultless() && BackupIntact(old(disk), file.path, e) ==> ok
    {
      ok := Attempt(Check, file.path);
      if !ok { return; }
      var backup := InferBackupPath(file.path, e.backupDisplayPath);
      if backup !in disk.fs { return false; }
      ok := Attempt(Read, backup);
      if !ok { return; }
      var bytes := disk.fs[backup];
      if Digest(bytes) != e.contentHash { return false; }
      ok := Attempt(Write, file.path);
      if ok { WriteFile(file.path, bytes); }
    }

    /** One compensation step. An original stays unrestored (`kept`) only when its bytes could not be read. */
    method CompensateOne(a: AppliedFile, ghost start: map<Path, string>, ghost files: seq<PlanFile>,
                         ghost left: seq<AppliedFile>, ghost k: nat, ghost since: nat)
      returns (ok: bool, ghost kept: bool)
      requires k < |left| && left[k] == a && a.file in files
      requires Tracked(start, files, disk, left) && SafeSince(start, files, since)
      modifies this
      ensures SafeSince(start, files, since) && disk.journal == old(disk).journal
      ensures ok ==> Tracked(start, files, disk, if kept then left else Without(left, k))
      ensures ok && kept ==> !Readable(a.file.path)
      ensures disk.fs.Keys <= old(disk).fs.Keys + {a.file.path}
      ensures Faultless() && a.file.path in start ==> ok
    {
      assert TrackedFile(start, files, disk, a);
      kept := a.file.path in start;
      if a.file.path !in start { DropNew(start, files, disk, left, k); }
      var e := FindBackup(disk.journal, a.id);
      if e.None? { return true, kept; }
      ok := Attempt(Lock, a.file.path);
      if !ok { return; }
      ok := Attempt(Check, a.file.path);
      if !ok { return; }
      var read := Attempt(Read, a.file.path);
      var current := if read && a.file.path in disk.fs then Digest(disk.fs[a.file.path]) else NoHash;
      if e.value.appliedHash.None? || current != e.value.appliedHash.value { return true, kept; }
      ghost var before := disk;
      ok := RestoreFromBackup(a.file, e.value);
      if !ok { return; }
      kept := false;
      if a.file.path in start {
        RestoreOriginal(start, files, before, left, k);
      } else {
        CreateNew(start, files, before, Without(left, k), a.file, e.value.contentHash.content);
      }
      TrackedIsSafe(start, files, disk, Without(left, k));
    }

    /** compensate: newest first. Only a file whose current bytes cannot be read is passed over. */
    method Compensate(applied: seq<AppliedFile>, ghost start: map<Path, string>, ghost files: seq<PlanFile>,
                      ghost since: nat)
      returns (ok: bool, ghost skipped: seq<AppliedFile>)
      requires Tracked(start, files, disk, applied) && SafeSince(start, files, since)
      requires forall a :: a in applied ==> a.file in files
      modifies this
      ensures SafeSince(start, files, since) && disk.journal == old(disk).journal
      ensures ok ==> Tracked(start, files, disk, skipped)
      ensures ok ==> forall a :: a in skipped ==> a in applied && !Readable(a.file.path)
      ensures ok ==> forall p :: p in start && Readable(p) ==> p in disk.fs && disk.fs[p] == start[p]
      ensures forall p :: p in disk.fs ==> p in old(disk).fs || PlanPath(files, p)
      ensures Faultless() && (forall a :: a in applied ==> a.file.path in start) ==> ok
    {
      var k := |applied|;
      skipped := [];
      assert applied[..k] + skipped == applied;
      while k > 0
        invariant 0 <= k <= |applied|
        invariant Tracked(start, files, disk, applied[..k] + skipped) && SafeSince(start, files, since)
        invariant disk.journal == old(disk).journal
        invariant forall a :: a in skipped ==> a in applied && !Readable(a.file.path)
        invariant forall p :: p in disk.fs ==> p in old(disk).fs || PlanPath(files, p)
      {
        ghost var left := applied[..k] + skipped;
        k := k - 1;
        LeftOver(applied, k, skipped);
        var a := applied[k];
        ghost var kept;
        assert PlanPath(files, a.file.path);
        ok, kept := CompensateOne(a, start, files, left, k, since);
        if !ok { return; }
        if kept { skipped := [a] + skipped; }
      }
      assert applied[..0] + skipped == skipped;
      ok := true;
    }

    method PreflightAll(files: seq<PlanFile>) returns (ok: bool)
      modifies this`clock
      ensures ok ==> AllAsPlanned(disk, files)
      ensures Faultless() && AllAsPlanned(disk, files) ==> ok
    {
      for k := 0 to |files|
        invariant AllAsPlanned(disk, files[..k])
      {
        ok := Preflight(files[k]);
        if !ok {
          assert files[k] in files;
          return;
        }
        assert files[..k + 1] == files[..k] + [files[k]];
      }
      assert files[..|files|] == files;
      ok := true;
    }

    /** One file of the plan; a file with nothing to change is passed over. */
    method ApplyNext(files: seq<PlanFile>, minted: seq<Minted>, k: nat, done: seq<AppliedFile>,
                     ghost start: map<Path, string>, ghost since: nat)
      returns (ok: bool, applied: seq<AppliedFile>)
      requires GoodMints(files, minted) && k < |files| && FindBackup(disk.journal, minted[k].id).None?
      requires Tracked(start, files, disk, done) && SafeSince(start, files, since)
      requires files[k].path in start ==> start[files[k].path] == files[k].baseline
      modifies this
      ensures Tracked(start, files, disk, applied) && SafeSince(start, files, since)
      ensures applied == done || (ok && applied == done + [AppliedFile(files[k], minted[k].id)])
      ensures ok && files[k].path in start && files[k].baseline != files[k].merged ==> applied != done
      ensures applied != done ==> files[k].path in old(disk).fs
      ensures forall other :: other != minted[k].id ==>
                FindBackup(disk.journal, other) == FindBackup(old(disk).journal, other)
      ensures forall p :: PlanPath(files, p) && p != files[k].path ==> SameAt(old(disk).fs, disk.fs, p)
      ensures disk.fs.Keys <= old(disk).fs.Keys + {files[k].path, BackupPath(files[k].path, minted[k].suffix)}
      ensures ok && DistinctPaths(files) && AllMerged(old(disk), files[..k]) ==> AllMerged(disk, files[..k + 1])
      ensures Faultless() && NameIsFree(old(disk), files[k], minted[k]) && HoldsBaseline(old(disk), files[k]) ==> ok
    {
      var file, m := files[k], minted[k];
      applied := done;
      if file.baseline == file.merged {
        assert files[..k + 1] == files[..k] + [file];
        return true, applied;
      }
      var r := ApplySingleFile(file, m, start, files, done, since);
      if r.Rejected? { return false, applied; }
      if r.backup.Some? { applied := done + [AppliedFile(file, m.id)]; }
      if DistinctPaths(files) && AllMerged(old(disk), files[..k]) { AllMergedOn(old(disk), disk, files, k); }
      ok := true;
    }

    /** The files in order, up to the first that is rejected. */
    method ApplyFiles(files: seq<PlanFile>, minted: seq<Minted>, ghost since: nat)
      returns (ok: bool, applied: seq<AppliedFile>)
      requires GoodMints(files, minted) && NewIds(disk.journal, minted)
      requires AllAsPlanned(disk, files) && SafeSince(disk.fs, files, since)
      modifies this
      ensures Tracked(old(disk).fs, files, disk, applied) && SafeSince(old(disk).fs, files, since)
      ensures forall a :: a in applied ==> a.file in files
      ensures DistinctPaths(files) ==> forall a :: a in applied ==> a.file.path in old(disk).fs
      ensures ok ==> AllApplied(files, minted, old(disk).fs, applied, |files|)
      ensures ok && DistinctPaths(files) ==> AllMerged(disk, files)
      ensures OthersFound(old(disk).journal, disk.journal, minted) && OnlyPlanned(old(disk), disk, files, minted)
      ensures Faultless() && DistinctPaths(files) && NamesFree(old(disk), files, minted, 0) ==> ok
    {
      ghost var start := disk.fs;
      applied := [];
      for k := 0 to |files|
        invariant Tracked(start, files, disk, applied) && SafeSince(start, files, since)
        invariant forall a :: a in applied ==> a.file in files
        invariant NewIds(disk.journal, minted[k..])
        invariant AllApplied(files, minted, start, applied, k)
        invariant DistinctPaths(files) ==> AllMerged(disk, files[..k])
        invariant DistinctPaths(files) ==> Untouched(start, disk, files, k)
        invariant DistinctPaths(files) ==> forall a :: a in applied ==> a.file.path in start
        invariant NamesFree(old(disk), files, minted, 0) ==> NamesFree(disk, files, minted, k)
        invariant OthersFound(old(disk).journal, disk.journal, minted) && OnlyPlanned(old(disk), disk, files, minted)
      {
        ghost var before, was := disk, applied;
        assert minted[k..][0] == minted[k] && files[k] in files && AsPlanned(old(disk), files[k]);
        if DistinctPaths(files) { assert SameAt(start, disk.fs, files[k].path); }
        ok, applied := ApplyNext(files, minted, k, applied, start, since);
        OthersFoundOn(old(disk).journal, before.journal, disk.journal, minted, k);
        OnlyPlannedOn(old(disk), before, disk, files, minted, k);
        if !ok { return; }
        LaterIdsNew(before.journal, disk.journal, minted, k);
        AllAppliedOn(files, minted, start, was, applied, k);
        if DistinctPaths(files) { UntouchedOn(start, before, disk, files, k); }
        if NamesFree(before, files, minted, k) { NamesFreeOn(before, disk, files, minted, k); }
      }
      assert files[..|files|] == files;
      ok := true;
    }

    /** apply_plan. In every state it passes through, files that existed hold their original or a
        backed-up replacement; a failure part-way puts the originals back; without faults it is
        applied whenever the files are as planned and the backup names free. */
    method ApplyPlan(files: seq<PlanFile>, minted: seq<Minted>)
      returns (outcome: Outcome, ghost skipped: seq<AppliedFile>)
      requires GoodMints(files, minted) && NewIds(disk.journal, minted)
      modifies this
      ensures SafeSince(old(disk).fs, files, |old(history)|)
      ensures outcome.PreflightRejected? ==> disk == old(disk)
      ensures outcome.Applied? || outcome.Unrecorded? ==>
                forall k :: 0 <= k < |files| && files[k].path in old(disk).fs ==>
                  InstalledFile(old(disk).fs, disk, files[k], minted[k].id)
      ensures (outcome.Applied? || outcome.Unrecorded?) && DistinctPaths(files) ==> AllMerged(disk, files)
      ensures outcome.PartialFailure? ==>
                forall p :: p in old(disk).fs && Readable(p) ==> p in disk.fs && disk.fs[p] == old(disk).fs[p]
      ensures outcome.PartialFailure? ==> Tracked(old(disk).fs, files, disk, skipped)
      ensures outcome.PartialFailure? ==> forall a :: a in skipped ==> a.file in files && !Readable(a.file.path)
      ensures OthersFound(old(disk).journal, disk.journal, minted) && OnlyPlanned(old(disk), disk, files, minted)
      ensures Faultless() ==> (outcome.PreflightRejected? <==> !AllAsPlanned(old(disk), files))
      ensures Faultless() && DistinctPaths(files) ==> !outcome.CompensationError? && !outcome.Unrecorded?
      ensures Faultless() && DistinctPaths(files) && AllAsPlanned(old(disk), files) ==>
                NamesFree(old(disk), files, minted, 0) ==> outcome.Applied?
    {
      ghost var start, since := disk.fs, |history|;
      skipped := [];
      if files == [] { return Applied, skipped; }
      var ok := PreflightAll(files);
      if !ok { return PreflightRejected, skipped; }
      var applied;
      ok, applied := ApplyFiles(files, minted, since);
      if !ok {
        ok, skipped := Compensate(applied, start, files, since);
        return if ok then PartialFailure else CompensationError, skipped;
      }
      forall k | 0 <= k < |files| && files[k].path in start ensures InstalledFile(start, disk, files[k], minted[k].id) {
        assert AsPlanned(old(disk), files[k]);
        AppliedAreInstalled(start, files, minted, disk, applied, k);
      }
      ok := Attempt(Journal, files[0].path);
      outcome := if ok then Applied else Unrecorded;
    }
  }

  // ---------------------------------------------------------------- rollback

  /** Where the journalled backup is looked for. */
  function ShownBackup(d: Disk, id: string, target: Path): Path {
    match FindBackup(d.journal, id)
    case Some(e) => InferBackupPath(target, e.backupDisplayPath)
    case None => target
  }

  /** preview_rollback. An exact restore is offered exactly for an unedited file with its backup;
      only a failing read can stand in the way of it. */
  method PreviewRollback(w: Workspace, id: string, target: Path, displayPath: string) returns (r: RollbackPreview)
    modifies w`clock
    ensures forall content, merged ::
              HasBackup(w.disk, id, target, content, merged) && target in w.disk.fs && w.disk.fs[target] == merged ==>
                r.Unavailable? || r == ExactRestore(PlanFile(target, displayPath, merged, content, false))
    ensures r.ExactRestore? ==> target in w.disk.fs && w.disk.fs[target] == r.file.baseline
                                && HasBackup(w.disk, id, target, r.file.merged, r.file.baseline)
    ensures r.Unavailable? ==> !w.Readable(target) || !w.Readable(ShownBackup(w.disk, id, target))
    ensures !r.Unavailable? ==> (r.NotFound? <==>
              (FindBackup(w.disk.journal, id).None? || ShownBackup(w.disk, id, target) !in w.disk.fs))
  {
    var e := FindBackup(w.disk.journal, id);
    if e.None? { return NotFound; }
    var current := NoHash;
    if target in w.disk.fs {
      var read := w.Attempt(Read, target);
      if !read { return Unavailable; }
      current := Digest(w.disk.fs[target]);
    }
    var backup := InferBackupPath(target, e.value.backupDisplayPath);
    if backup !in w.disk.fs { return NotFound; }
    var ok := w.Attempt(Read, backup);
    if !ok { return Unavailable; }
    var bytes := w.disk.fs[backup];
    if Digest(bytes) != e.value.contentHash { return HashMismatch; }
    if e.value.appliedHash == Some(current) && target in w.disk.fs {
      return ExactRestore(PlanFile(target, displayPath, w.disk.fs[target], bytes, false));
    }
    return Recompute;
  }

  lemma SecondNameFree(before: Disk, after: Disk, file: PlanFile, first: Minted, second: Minted)
    requires OnlyPlanned(before, after, [file], [first]) && GoodMint([file], file, second)
    ensures NamesFree(before, [file, file], [first, second], 0) ==> BackupPath(file.path, second.suffix) !in after.fs
  {
    var files, minted, q := [file, file], [first, second], BackupPath(file.path, second.suffix);
    if NamesFree(before, files, minted, 0) {
      assert BackupPath(files[1].path, minted[1].suffix) == q;
      assert BackupPath(files[0].path, minted[0].suffix) != q;
      assert !BackupName([file], [first], q);
    }
  }

  /** Apply, preview the rollback of its backup, apply that: without faults all three succeed, and
      whenever they do, the original bytes are back. */
  method RollbackRoundTrip(w: Workspace, file: PlanFile, first: Minted, second: Minted)
    returns (applied: Outcome, preview: RollbackPreview, undone: Outcome)
    requires file.path in w.disk.fs && w.disk.fs[file.path] == file.baseline && file.baseline != file.merged
    requires GoodMint([file], file, first) && GoodMint([file], file, second)
    requires NewIds(w.disk.journal, [first, second])
    modifies w
    ensures applied.Applied? ==>
              || preview.Unavailable?
              || preview == ExactRestore(PlanFile(file.path, file.displayPath, file.merged, file.baseline, false))
    ensures applied.Applied? && preview.ExactRestore? && undone.Applied? ==>
              file.path in w.disk.fs && w.disk.fs[file.path] == old(w.disk).fs[file.path]
    ensures w.Faultless() && NamesFree(old(w.disk), [file, file], [first, second], 0) ==>
              applied.Applied? && preview.ExactRestore? && undone.Applied?
  {
    preview, undone := NotFound, PreflightRejected;
    ghost var names := [first, second];
    assert names[0] == first && names[1] == second;
    assert [file][0] == file && [first][0] == first && [file, file][0] == file && [file, file][1] == file;
    ghost var skipped;
    applied, skipped := w.ApplyPlan([file], [first]);
    if !applied.Applied? { return; }
    assert InstalledFile(old(w.disk).fs, w.disk, file, first.id);
    assert FindBackup(w.disk.journal, second.id).None?;
    preview := PreviewRollback(w, first.id, file.path, file.displayPath);
    if preview.Unavailable? { return; }
    var back := preview.file;
    assert back == PlanFile(file.path, file.displayPath, file.merged, file.baseline, false);
    assert GoodMint([back], back, second) by {
      assert PlanPath([file], file.path) && forall p :: PlanPath([back], p) ==> p == file.path;
    }
    ghost var changed := w.disk;
    SecondNameFree(old(w.disk), changed, file, first, second);
    undone, skipped := w.ApplyPlan([back], [second]);
    if !undone.Applied? { return; }
    assert [back][0] == back;
    assert InstalledFile(changed.fs, w.disk, back, second.id);
  }
}
