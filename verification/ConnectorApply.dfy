/** Transactional apply of connector plans: backup, journal, replace, compensate, roll back. */
module ConnectorApply {
  import opened Options

  /** A file by its directory and its name within it. */
  datatype Path = Path(parent: string, name: string)

  /** Content hashes: distinct contents have distinct digests, and no content hashes to `NoHash`. */
  datatype Hash = NoHash | Digest(content: string)

  datatype PlanFile = PlanFile(path: Path, displayPath: string, baseline: string, merged: string, isNewFile: bool)

  datatype BackupEntry = BackupEntry(id: string, displayPath: string, backupDisplayPath: string, contentHash: Hash,
                                     appliedHash: Option<Hash>)

  /** What is on disk: the connector files and the backup journal. */
  datatype Disk = Disk(fs: map<Path, string>, journal: seq<BackupEntry>)

  /** The unique parts minted for one plan file: its backup's journal id and file name suffix. */
  datatype Minted = Minted(id: string, suffix: string)

  datatype AppliedFile = AppliedFile(file: PlanFile, id: string)

  // ---------------------------------------------------------------- backup names

  /** Position of the last slash, or -1. */
  function LastSlash(s: string): (i: int)
    ensures -1 <= i < |s|
  {
    if s == "" then -1
    else if s[|s| - 1] == '/' then |s| - 1
    else LastSlash(s[..|s| - 1])
  }

  /** How a backup is shown: beside its file, or directly under the home shorthand. */
  function BackupDisplay(displayPath: string, backupName: string): string {
    if |displayPath| >= 2 && displayPath[..2] == "~/" then "~/" + backupName
    else if LastSlash(displayPath) >= 0 then displayPath[..LastSlash(displayPath)] + "/" + backupName
    else backupName
  }

  /** The backup's location recovered from its shown form: the last component, beside the target. */
  function InferBackupPath(target: Path, backupDisplayPath: string): Path {
    Path(target.parent, backupDisplayPath[LastSlash(backupDisplayPath) + 1..])
  }

  function BackupPath(target: Path, suffix: string): Path {
    Path(target.parent, target.name + ".llm-notch.bak." + suffix)
  }

  lemma {:induction false} LastSlashOf(prefix: string, name: string)
    requires '/' !in name
    ensures LastSlash(prefix + "/" + name) == |prefix|
  {
    var s := prefix + "/" + name;
    if name == "" {
      assert s[|s| - 1] == '/';
    } else {
      var init := name[..|name| - 1];
      LastSlashOf(prefix, init);
      assert s[|s| - 1] == name[|name| - 1] && name[|name| - 1] in name;
      assert s[..|s| - 1] == prefix + "/" + init;
    }
  }

  lemma {:induction false} NoSlash(name: string)
    requires '/' !in name
    ensures LastSlash(name) == -1
  {
    if name != "" {
      assert name[|name| - 1] in name;
      NoSlash(name[..|name| - 1]);
    }
  }

  /** Whatever the display path, a backup is found again from the form it is shown in. */
  lemma BackupPathRecovered(target: Path, displayPath: string, name: string)
    requires '/' !in name
    ensures InferBackupPath(target, BackupDisplay(displayPath, name)) == Path(target.parent, name)
  {
    NoSlash(name);
    if |displayPath| >= 2 && displayPath[..2] == "~/" {
      LastSlashOf("~", name);
      assert "~/" + name == "~" + "/" + name;
    } else if LastSlash(displayPath) >= 0 {
      LastSlashOf(displayPath[..LastSlash(displayPath)], name);
    }
  }

  // ---------------------------------------------------------------- journal

  function FindBackup(journal: seq<BackupEntry>, id: string): Option<BackupEntry> {
    if journal == [] then None
    else if journal[0].id == id then Some(journal[0])
    else FindBackup(journal[1..], id)
  }

  lemma {:induction false} FindBackupAppend(journal: seq<BackupEntry>, e: BackupEntry, id: string)
    ensures FindBackup(journal + [e], id) ==
            if FindBackup(journal, id).Some? then FindBackup(journal, id) else if e.id == id then Some(e) else None
  {
    if journal != [] {
      assert (journal + [e])[1..] == journal[1..] + [e];
      FindBackupAppend(journal[1..], e, id);
    }
  }

  // ---------------------------------------------------------------- what must hold throughout

  /** The journalled backup `id` of `path` still holds `content`, and names `merged` as what replaced it. */
  predicate HasBackup(d: Disk, id: string, path: Path, content: string, merged: string) {
    var e := FindBackup(d.journal, id);
    && e.Some?
    && e.value.contentHash == Digest(content) && e.value.appliedHash == Some(Digest(merged))
    && InferBackupPath(path, e.value.backupDisplayPath) in d.fs
    && d.fs[InferBackupPath(path, e.value.backupDisplayPath)] == content
  }

  predicate PlanPath(files: seq<PlanFile>, path: Path) {
    exists f :: f in files && f.path == path
  }

  /** Backups never sit on a plan path. */
  predicate BackupApart(d: Disk, id: string, path: Path, files: seq<PlanFile>) {
    FindBackup(d.journal, id).Some? ==>
      !PlanPath(files, InferBackupPath(path, FindBackup(d.journal, id).value.backupDisplayPath))
  }

  ghost predicate Replaced(d: Disk, files: seq<PlanFile>, path: Path, content: string) {
    exists f, id ::
      && f in files && f.path == path && path in d.fs && d.fs[path] == f.merged
      && HasBackup(d, id, path, content, f.merged)
  }

  /** Every file that existed when the apply began holds its original bytes, or the merged bytes of
      its plan entry while a journalled backup holds the original. */
  ghost predicate Safe(start: map<Path, string>, files: seq<PlanFile>, d: Disk) {
    forall p :: p in start ==> p in d.fs && (d.fs[p] == start[p] || Replaced(d, files, p, start[p]))
  }

  predicate TrackedFile(start: map<Path, string>, files: seq<PlanFile>, d: Disk, a: AppliedFile) {
    a.file.path in start ==>
      && a.file in files
      && a.file.path in d.fs && d.fs[a.file.path] == a.file.merged && a.file.merged != start[a.file.path]
      && HasBackup(d, a.id, a.file.path, start[a.file.path], a.file.merged)
      && BackupApart(d, a.id, a.file.path, files)
  }

  /** The applied list accounts for every original file that changed, once each. */
  ghost predicate Tracked(start: map<Path, string>, files: seq<PlanFile>, d: Disk, applied: seq<AppliedFile>) {
    && (forall k :: 0 <= k < |applied| ==> TrackedFile(start, files, d, applied[k]))
    && (forall p :: p in start ==>
          p in d.fs && (d.fs[p] == start[p] || exists k :: 0 <= k < |applied| && applied[k].file.path == p))
    && (forall k, l :: 0 <= k < l < |applied| && applied[k].file.path == applied[l].file.path ==>
          applied[k].file.path !in start)
  }

  lemma TrackedIsSafe(start: map<Path, string>, files: seq<PlanFile>, d: Disk, applied: seq<AppliedFile>)
    requires Tracked(start, files, d, applied)
    ensures Safe(start, files, d)
  {
    forall p | p in start && d.fs[p] != start[p] ensures Replaced(d, files, p, start[p]) {
      var k :| 0 <= k < |applied| && applied[k].file.path == p;
      assert TrackedFile(start, files, d, applied[k]);
    }
  }

  /** A new file off the plan paths disturbs nothing. */
  lemma AddBackupFile(start: map<Path, string>, files: seq<PlanFile>, d: Disk, applied: seq<AppliedFile>, q: Path,
                      content: string)
    requires Tracked(start, files, d, applied) && q !in d.fs
    ensures Tracked(start, files, d.(fs := d.fs[q := content]), applied)
  {
    var after := d.(fs := d.fs[q := content]);
    forall k | 0 <= k < |applied| ensures TrackedFile(start, files, after, applied[k]) {
      assert TrackedFile(start, files, d, applied[k]);
    }
  }

  /** A journal entry under a new id disturbs nothing. */
  lemma AddJournalEntry(start: map<Path, string>, files: seq<PlanFile>, d: Disk, applied: seq<AppliedFile>,
                        e: BackupEntry)
    requires Tracked(start, files, d, applied)
    ensures Tracked(start, files, d.(journal := d.journal + [e]), applied)
  {
    var after := d.(journal := d.journal + [e]);
    forall k | 0 <= k < |applied| ensures TrackedFile(start, files, after, applied[k]) {
      assert TrackedFile(start, files, d, applied[k]);
      FindBackupAppend(d.journal, e, applied[k].id);
    }
  }

  /** Writing a plan path keeps every other entry's backup. */
  lemma KeepsOther(start: map<Path, string>, files: seq<PlanFile>, d: Disk, a: AppliedFile, p: Path, content: string)
    requires TrackedFile(start, files, d, a) && PlanPath(files, p)
    requires a.file.path in start ==> a.file.path != p
    ensures TrackedFile(start, files, d.(fs := d.fs[p := content]), a)
  {
  }

  /** Replacing a backed-up original puts it on the applied list. */
  lemma ReplaceOriginal(start: map<Path, string>, files: seq<PlanFile>, d: Disk, applied: seq<AppliedFile>,
                        f: PlanFile, id: string)
    requires Tracked(start, files, d, applied) && f in files
    requires f.path in start ==> f.path in d.fs && d.fs[f.path] == start[f.path] && f.merged != start[f.path]
    requires f.path in start ==> HasBackup(d, id, f.path, start[f.path], f.merged) && BackupApart(d, id, f.path, files)
    ensures Tracked(start, files, d.(fs := d.fs[f.path := f.merged]), applied + [AppliedFile(f, id)])
  {
    var after := d.(fs := d.fs[f.path := f.merged]);
    var more := applied + [AppliedFile(f, id)];
    assert PlanPath(files, f.path);
    forall k | 0 <= k < |more| ensures TrackedFile(start, files, after, more[k]) {
      if k < |applied| {
        assert TrackedFile(start, files, d, applied[k]);
        KeepsOther(start, files, d, applied[k], f.path, f.merged);
      }
    }
    forall p | p in start
      ensures p in after.fs && (after.fs[p] == start[p] || exists k :: 0 <= k < |more| && more[k].file.path == p)
    {
      if p == f.path { assert more[|applied|].file.path == p; }
      else if after.fs[p] != start[p] {
        var k :| 0 <= k < |applied| && applied[k].file.path == p;
        assert more[k].file.path == p;
      }
    }
    forall k, l | 0 <= k < l < |more| && more[k].file.path == more[l].file.path ensures more[k].file.path !in start {
      if l == |applied| && f.path in start { assert TrackedFile(start, files, d, applied[k]); }
    }
  }

  /** Creating a file that did not exist touches no original. */
  lemma CreateNew(start: map<Path, string>, files: seq<PlanFile>, d: Disk, applied: seq<AppliedFile>, f: PlanFile,
                  content: string)
    requires Tracked(start, files, d, applied) && f in files && f.path !in start
    ensures Tracked(start, files, d.(fs := d.fs[f.path := content]), applied)
  {
    var after := d.(fs := d.fs[f.path := content]);
    assert PlanPath(files, f.path);
    forall k | 0 <= k < |applied| ensures TrackedFile(start, files, after, applied[k]) {
      assert TrackedFile(start, files, d, applied[k]);
      KeepsOther(start, files, d, applied[k], f.path, content);
    }
  }

  ghost function Without(applied: seq<AppliedFile>, k: nat): seq<AppliedFile>
    requires k < |applied|
  {
    applied[..k] + applied[k + 1..]
  }

  /** Putting an original back takes it off the list. */
  lemma RestoreOriginal(start: map<Path, string>, files: seq<PlanFile>, d: Disk, applied: seq<AppliedFile>, k: nat)
    requires Tracked(start, files, d, applied) && k < |applied| && applied[k].file.path in start
    ensures var p := applied[k].file.path;
            Tracked(start, files, d.(fs := d.fs[p := start[p]]), Without(applied, k))
  {
    var p := applied[k].file.path;
    var after := d.(fs := d.fs[p := start[p]]);
    var rest := Without(applied, k);
    assert TrackedFile(start, files, d, applied[k]);
    assert PlanPath(files, p);
    forall l | 0 <= l < |rest| ensures TrackedFile(start, files, after, rest[l]) {
      var m := if l < k then l else l + 1;
      assert rest[l] == applied[m] && TrackedFile(start, files, d, applied[m]);
      KeepsOther(start, files, d, applied[m], p, start[p]);
    }
    forall q | q in start
      ensures q in after.fs && (after.fs[q] == start[q] || exists l :: 0 <= l < |rest| && rest[l].file.path == q)
    {
      if after.fs[q] != start[q] {
        var m :| 0 <= m < |applied| && applied[m].file.path == q;
        assert m != k;
        assert rest[if m < k then m else m - 1].file.path == q;
      }
    }
    forall l, m | 0 <= l < m < |rest| && rest[l].file.path == rest[m].file.path ensures rest[l].file.path !in start {
      var l1, m1 := if l < k then l else l + 1, if m < k then m else m + 1;
      assert rest[l] == applied[l1] && rest[m] == applied[m1];
    }
  }

  /** Dropping an entry for a file that was created by this apply. */
  lemma DropNew(start: map<Path, string>, files: seq<PlanFile>, d: Disk, applied: seq<AppliedFile>, k: nat)
    requires Tracked(start, files, d, applied) && k < |applied| && applied[k].file.path !in start
    ensures Tracked(start, files, d, Without(applied, k))
  {
    var rest := Without(applied, k);
    forall l | 0 <= l < |rest| ensures TrackedFile(start, files, d, rest[l]) { var at := WithoutAt(applied, k, l); }
    forall q | q in start && d.fs[q] != start[q] ensures exists l :: 0 <= l < |rest| && rest[l].file.path == q {
      var m :| 0 <= m < |applied| && applied[m].file.path == q;
      assert rest[if m < k then m else m - 1].file.path == q;
    }
    forall l, m | 0 <= l < m < |rest| && rest[l].file.path == rest[m].file.path ensures rest[l].file.path !in start {
      NoTwiceWithout(start, applied, k, l, m);
    }
  }

  lemma NoTwiceWithout(start: map<Path, string>, applied: seq<AppliedFile>, k: nat, l: nat, m: nat)
    requires k < |applied| && l < m < |Without(applied, k)|
    requires Without(applied, k)[l].file.path == Without(applied, k)[m].file.path
    requires forall i, j :: 0 <= i < j < |applied| && applied[i].file.path == applied[j].file.path ==>
               applied[i].file.path !in start
    ensures Without(applied, k)[l].file.path !in start
  {
    var i := WithoutAt(applied, k, l);
    var j := WithoutAt(applied, k, m);
    assert i < j;
  }

  /** Where an element that stayed came from. */
  lemma WithoutAt(applied: seq<AppliedFile>, k: nat, l: nat) returns (at: nat)
    requires k < |applied| && l < |Without(applied, k)|
    ensures at == if l < k then l else l + 1
    ensures at < |applied| && Without(applied, k)[l] == applied[at]
  {
    at := if l < k then l else l + 1;
  }
}
