/** What one call of the local backend does to the stored objects. */
module LocalGuarantees {
  import opened Content
  import opened Paths
  import opened FileTree
  import opened LocalProtocol
  import opened LocalProvider

  ghost predicate Unchanged(before: Fs, after: Fs, p: Path) {
    (p in after.files <==> p in before.files) && (p in before.files ==> ContentAt(after, p) == ContentAt(before, p))
  }

  // ---------------------------------------------------------------- Put

  lemma TempDiffers(p: Path, stamp: Stamp)
    requires Canonical(p)
    ensures TempPath(p, stamp) != p
  {
    assert NoSlash(stamp) by { assert forall i | 0 <= i < |stamp| :: IsHexDigit(stamp[i]); }
    if p.elems != [] {
      TempShape(p, stamp);
      assert |Last(TempPath(p, stamp))| > |Last(p)|;
    } else {
      ParseIsCanonical(Render(p) + TempSuffix(stamp));
      if TempPath(p, stamp) == p {
        TempOfNothing(p, stamp);
      }
    }
  }

  lemma CreateEffect(fs: Fs, temp: Path, source: Bytes)
    requires TreeOk(fs) && InodesOk(fs) && Create(fs, temp).Some?
    ensures var (created, inode) := Create(fs, temp).value; var filled := WriteAt(created, inode, 0, source);
            && TreeOk(filled) && InodesOk(filled) && filled.dirs == fs.dirs
            && temp in filled.files && ContentAt(filled, temp) == source
            && (forall p | p != temp :: Unchanged(fs, filled, p))
  {
    var (created, inode) := Create(fs, temp).value;
    OverwriteAppends([], source);
    assert [] + source == source;
  }

  ghost predicate SameBut(before: Fs, after: Fs, temp: Path) {
    forall p | p != temp :: Unchanged(before, after, p)
  }

  lemma RemoveTempEffect(fs: Fs, temp: Path)
    requires TreeOk(fs) && InodesOk(fs) && temp !in fs.dirs
    ensures var fs' := Remove(fs, temp).0;
            TreeOk(fs') && InodesOk(fs') && fs'.dirs == fs.dirs && temp !in fs'.files && SameBut(fs, fs', temp)
  {
    RemoveKeeps(fs, temp);
  }

  lemma RenameEffect(fs: Fs, temp: Path, path: Path)
    requires TreeOk(fs) && InodesOk(fs) && temp != path && Rename(fs, temp, path).Some?
    ensures var fs' := Rename(fs, temp, path).value;
            && TreeOk(fs') && InodesOk(fs') && fs'.dirs == fs.dirs
            && path in fs'.files && ContentAt(fs', path) == ContentAt(fs, temp) && temp !in fs'.files
            && (forall p | p != temp && p != path :: Unchanged(fs, fs', p))
  {
  }

  /** What Put promises: all of its bytes at its path, or nothing; and no temporary file is left,
      unless the Put failed before it made one. */
  ghost predicate AllOrNothing(before: Fs, after: Fs, path: Path, temp: Path, source: Bytes, r: PutResult) {
    && (forall p | p != temp && p != path :: Unchanged(before, after, p))
    && (if r.Stored? then path in after.files && ContentAt(after, path) == source else Unchanged(before, after, path))
    && (if FailedEarly(r) then Unchanged(before, after, temp) else temp !in after.files)
  }

  predicate FailedEarly(r: PutResult) {
    r.Rejected? && (r.error.MissingField? || r.error.MkdirFailed? || r.error.CreateFailed?)
  }

  lemma RejectedAfterFill(fs: Fs, temp: Path, path: Path, source: Bytes, r: PutResult)
    requires TreeOk(fs) && InodesOk(fs) && temp != path && Create(fs, temp).Some? && r.Rejected? && !FailedEarly(r)
    ensures var fs' := Remove(WriteAt(Create(fs, temp).value.0, Create(fs, temp).value.1, 0, source), temp).0;
            TreeOk(fs') && InodesOk(fs') && fs'.dirs == fs.dirs && AllOrNothing(fs, fs', path, temp, source, r)
  {
    CreateEffect(fs, temp, source);
    var filled := WriteAt(Create(fs, temp).value.0, Create(fs, temp).value.1, 0, source);
    RemoveTempEffect(filled, temp);
    var fs' := Remove(filled, temp).0;
    forall p | p != temp
      ensures Unchanged(fs, fs', p)
    {
      assert Unchanged(fs, filled, p) && Unchanged(filled, fs', p);
    }
  }

  lemma StoredAfterFill(fs: Fs, temp: Path, path: Path, source: Bytes, r: PutResult)
    requires TreeOk(fs) && InodesOk(fs) && temp != path && Create(fs, temp).Some? && r.Stored?
    requires Rename(WriteAt(Create(fs, temp).value.0, Create(fs, temp).value.1, 0, source), temp, path).Some?
    ensures var renamed := Rename(WriteAt(Create(fs, temp).value.0, Create(fs, temp).value.1, 0, source),
                                  temp, path).value;
            var fs' := Remove(renamed, temp).0;
            TreeOk(fs') && InodesOk(fs') && fs'.dirs == fs.dirs && AllOrNothing(fs, fs', path, temp, source, r)
  {
    CreateEffect(fs, temp, source);
    var filled := WriteAt(Create(fs, temp).value.0, Create(fs, temp).value.1, 0, source);
    RenameEffect(filled, temp, path);
    var renamed := Rename(filled, temp, path).value;
    RemoveTempEffect(renamed, temp);
    var fs' := Remove(renamed, temp).0;
    assert Unchanged(renamed, fs', path);
    forall p | p != temp && p != path
      ensures Unchanged(fs, fs', p)
    {
      assert Unchanged(fs, filled, p) && Unchanged(filled, renamed, p) && Unchanged(renamed, fs', p);
    }
  }

  lemma PutIntoEffect(cfg: Config, fs: Fs, ref: PackageRef, source: Bytes, size: int,
                      checksum: string, path: Path, temp: Path)
    requires TreeOk(fs) && InodesOk(fs) && temp != path
    ensures var (fs', r) := PutInto(cfg, fs, ref, source, size, checksum, path, temp);
            && TreeOk(fs') && InodesOk(fs') && fs'.dirs == fs.dirs
            && AllOrNothing(fs, fs', path, temp, source, r)
            && (r.Stored? ==> r == Stored(|source|, Key(ref)) && Checksum(cfg.sha, source) == checksum
                              && !(size > 0 && |source| != size))
  {
    var (fs', r) := PutInto(cfg, fs, ref, source, size, checksum, path, temp);
    if Create(fs, temp).Some? {
      if r.Stored? { StoredAfterFill(fs, temp, path, source, r); }
      else { RejectedAfterFill(fs, temp, path, source, r); }
    }
  }

  /** A stored Put leaves exactly its bytes at its path and a rejected one leaves that path as it
      was; every other path but the temporary one is untouched either way, and that one is free. */
  lemma PutStoresItsBytesOrNothing(cfg: Config, fs: Fs, ref: PackageRef, source: Bytes,
                                   size: int, checksum: string, stamp: Stamp)
    requires TreeOk(fs) && InodesOk(fs)
    ensures var (fs', r) := PutAlone(cfg, fs, ref, source, size, checksum, stamp);
            var path := FullPath(cfg.root, ref);
            && TreeOk(fs') && InodesOk(fs')
            && AllOrNothing(fs, fs', path, TempPath(path, stamp), source, r)
            && (r.Stored? ==> r == Stored(|source|, Key(ref)) && Checksum(cfg.sha, source) == checksum
                              && !(size > 0 && |source| != size))
  {
    if Complete(ref, checksum) {
      var path := FullPath(cfg.root, ref);
      ParseIsCanonical(JoinPath([cfg.root, Key(ref)]));
      TempDiffers(path, stamp);
      MkdirThenPut(cfg, fs, ref, source, size, checksum, path, TempPath(path, stamp));
    }
  }

  lemma MkdirThenPut(cfg: Config, fs: Fs, ref: PackageRef, source: Bytes, size: int,
                     checksum: string, path: Path, temp: Path)
    requires TreeOk(fs) && InodesOk(fs) && temp != path
    ensures var (made, ok) := MkdirAll(fs, Parent(path));
            var (fs', r) := if ok then PutInto(cfg, made, ref, source, size, checksum, path, temp)
                            else (made, Rejected(MkdirFailed));
            && TreeOk(fs') && InodesOk(fs')
            && AllOrNothing(fs, fs', path, temp, source, r)
            && (r.Stored? ==> r == Stored(|source|, Key(ref)) && Checksum(cfg.sha, source) == checksum
                              && !(size > 0 && |source| != size))
  {
    var (made, ok) := MkdirAll(fs, Parent(path));
    assert InodesOk(made);
    if ok {
      PutIntoEffect(cfg, made, ref, source, size, checksum, path, temp);
      DirsDoNotMatter(fs, made, PutInto(cfg, made, ref, source, size, checksum, path, temp), path, temp, source);
    }
  }

  lemma DirsDoNotMatter(fs: Fs, made: Fs, r: (Fs, PutResult), path: Path, temp: Path, source: Bytes)
    requires made.files == fs.files && made.data == fs.data && AllOrNothing(made, r.0, path, temp, source, r.1)
    ensures AllOrNothing(fs, r.0, path, temp, source, r.1)
  {
    forall p
      ensures Unchanged(made, r.0, p) ==> Unchanged(fs, r.0, p)
    {
    }
  }

  /** The tree of a store whose references are flat: files at one depth, directories above it. */
  ghost predicate Settled(cfg: Config, fs: Fs) {
    && TreeOk(fs) && InodesOk(fs) && Shallow(cfg, fs)
    && Parse(cfg.root) in fs.dirs
    && (forall p | p in fs.files :: |p.elems| == Depth(cfg))
  }

  lemma MkdirAllSucceeds(fs: Fs, base: Path, p: Path)
    requires TreeOk(fs) && base in fs.dirs && Under(base, p)
    requires forall q | q in fs.files :: |q.elems| > |p.elems|
    ensures MkdirAll(fs, p).1
    decreases |p.elems|
  {
    if p !in fs.dirs {
      assert p.elems[..|p.elems|] == p.elems;
      assert |base.elems| == |p.elems| ==> base == p;
      assert Under(base, Parent(p));
      MkdirAllSucceeds(fs, base, Parent(p));
    }
  }

  /** On a settled store the outcome of a Put depends on its bytes alone. */
  lemma PutSucceedsExactlyWhenVerified(cfg: Config, fs: Fs, ref: PackageRef, source: Bytes,
                                       size: int, checksum: string, stamp: Stamp)
    requires Settled(cfg, fs) && Flat(ref) && Complete(ref, checksum)
    ensures var (fs', r) := PutAlone(cfg, fs, ref, source, size, checksum, stamp);
            && Settled(cfg, fs')
            && (r.Stored? <==> Checksum(cfg.sha, source) == checksum && !(size > 0 && |source| != size))
            && (r.Rejected? ==> r.error == if size > 0 && |source| != size then SizeMismatch else ChecksumMismatch)
  {
    var path := FullPath(cfg.root, ref);
    var temp := TempPath(path, stamp);
    var made := MkdirAll(fs, Parent(path)).0;
    FlatParent(cfg, fs, ref);
    StartIsLayered(cfg, ref, source, size, stamp);
    assert PutPlaced(cfg, Start(cfg, ref, source, size, stamp));
    ParseIsCanonical(JoinPath([cfg.root, Key(ref)]));
    TempDiffers(path, stamp);
    PutIntoEffect(cfg, made, ref, source, size, checksum, path, temp);
    PutIntoOutcome(cfg, made, ref, source, size, checksum, path, temp);
    var fs' := PutInto(cfg, made, ref, source, size, checksum, path, temp).0;
    forall p | p in fs'.files
      ensures |p.elems| == Depth(cfg)
    {
      assert p == path || p == temp || Unchanged(made, fs', p);
    }
  }

  lemma FlatParent(cfg: Config, fs: Fs, ref: PackageRef)
    requires Settled(cfg, fs) && Flat(ref)
    ensures MkdirAll(fs, Parent(FullPath(cfg.root, ref))).1
    ensures Shallow(cfg, MkdirAll(fs, Parent(FullPath(cfg.root, ref))).0)
  {
    FlatLayout(cfg.root, ref);
    var path := FullPath(cfg.root, ref);
    var root, e := Parse(cfg.root).elems, Elements(ref);
    assert (root + e)[..|root| + 3][..|root|] == root;
    assert Under(Parse(cfg.root), Parent(path));
    MkdirAllSucceeds(fs, Parse(cfg.root), Parent(path));
  }

  lemma PutIntoOutcome(cfg: Config, fs: Fs, ref: PackageRef, source: Bytes, size: int,
                       checksum: string, path: Path, temp: Path)
    requires TreeOk(fs) && InodesOk(fs) && temp != path
    requires Parent(path) == Parent(temp) && Parent(path) in fs.dirs && path.elems != [] && temp.elems != []
    requires path !in fs.dirs && temp !in fs.dirs
    ensures var r := PutInto(cfg, fs, ref, source, size, checksum, path, temp).1;
            && (r.Stored? <==> Checksum(cfg.sha, source) == checksum && !(size > 0 && |source| != size))
            && (r.Rejected? ==> r.error == if size > 0 && |source| != size then SizeMismatch else ChecksumMismatch)
  {
    CreateEffect(fs, temp, source);
  }

  // ---------------------------------------------------------------- Delete

  /** When the first removal is not refused, the directories to prune are not files. */
  lemma PruneTargets(fs: Fs, path: Path)
    requires TreeOk(fs) && InodesOk(fs) && !Remove(fs, path).1.Refused?
    ensures Parent(path) !in fs.files && Parent(Parent(path)) !in fs.files
  {
    if path in fs.files || path in fs.dirs {
      assert Parent(path) in fs.dirs && Parent(Parent(path)) in fs.dirs;
    } else {
      assert !Blocked(fs, path) && (path.elems != [] ==> !Blocked(fs, Parent(path)));
    }
  }

  /** Delete removes no object but its own. */
  lemma DeleteRemovesOnlyItsObject(fs: Fs, path: Path)
    requires TreeOk(fs) && InodesOk(fs)
    ensures var (fs', ok) := DeleteAlone(fs, path);
            && TreeOk(fs') && InodesOk(fs')
            && (ok ==> path !in fs'.files) && (!ok ==> fs' == fs)
            && (forall p | p != path :: Unchanged(fs, fs', p))
  {
    var (a, removal) := Remove(fs, path);
    RemoveKeeps(fs, path);
    if !removal.Refused? {
      var b := Remove(a, Parent(path)).0;
      PruneTargets(fs, path);
      RemoveKeeps(a, Parent(path));
      RemoveKeeps(b, Parent(Parent(path)));
      assert a.files - {Parent(path)} == a.files && b.files - {Parent(Parent(path))} == b.files;
    }
  }

  /** The directory has an entry besides this one. */
  ghost predicate HoldsMoreThan(fs: Fs, dir: Path, entry: Path) {
    exists q {:trigger Parent(q)} :: (q in fs.dirs || q in fs.files) && q.elems != [] && Parent(q) == dir && q != entry
  }

  ghost predicate HoldsNothing(fs: Fs, dir: Path) {
    forall q {:trigger Parent(q)} | (q in fs.dirs || q in fs.files) && q.elems != [] :: Parent(q) != dir
  }

  /** os.Remove of a directory. */
  lemma RemovedExactlyWhenEmpty(fs: Fs, d: Path, entry: Path)
    requires TreeOk(fs) && InodesOk(fs) && d !in fs.files && d.elems != [] && entry !in fs.files && entry !in fs.dirs
    ensures d in Remove(fs, d).0.dirs <==> d in fs.dirs && HoldsMoreThan(fs, d, entry)
  {
  }

  /** What is left of the directory of a removed entry has the same other entries. */
  lemma SameOtherEntries(before: Fs, after: Fs, dir: Path, entry: Path)
    requires forall q | q != entry && Parent(q) == dir :: q in after.files <==> q in before.files
    requires forall q | q != entry && Parent(q) == dir :: q in after.dirs <==> q in before.dirs
    ensures HoldsMoreThan(after, dir, entry) <==> HoldsMoreThan(before, dir, entry)
  {
    if HoldsMoreThan(before, dir, entry) {
      var q :| (q in before.dirs || q in before.files) && q.elems != [] && Parent(q) == dir && q != entry;
      assert (q in after.dirs || q in after.files) && Parent(q) == dir;
    }
    if HoldsMoreThan(after, dir, entry) {
      var q :| (q in after.dirs || q in after.files) && q.elems != [] && Parent(q) == dir && q != entry;
      assert (q in before.dirs || q in before.files) && Parent(q) == dir;
    }
  }

  /** When Delete refuses: the path is a directory with entries, or the root directory, or lies
      behind a file. */
  lemma DeleteRefusesExactly(fs: Fs, path: Path)
    requires TreeOk(fs) && InodesOk(fs)
    ensures DeleteAlone(fs, path).1 <==>
            || path in fs.files
            || (path in fs.dirs && path.elems != [] && HoldsNothing(fs, path))
            || (path !in fs.dirs && !FileOnTheWay(fs, path))
  {
    FileOnTheWayBlocks(fs, path);
    if path in fs.dirs && path.elems != [] && HoldsNothing(fs, path) { assert IsEmptyDir(fs, path); }
  }

  /** What Delete prunes: the parent directory, unless it holds something besides the object, and
      the one above it, unless that holds something besides a parent that was pruned. The root of
      the file system and all other directories stay. */
  lemma DeletePrunesExactly(fs: Fs, path: Path)
    requires TreeOk(fs) && InodesOk(fs) && DeleteAlone(fs, path).1
    ensures var fs' := DeleteAlone(fs, path).0; var up, top := Parent(path), Parent(Parent(path));
            && path !in fs'.dirs && fs'.dirs <= fs.dirs
            && (forall d | d in fs.dirs && d != path && (d.elems == [] || (d != up && d != top)) :: d in fs'.dirs)
            && (up.elems != [] ==> (up in fs'.dirs <==> up in fs.dirs && HoldsMoreThan(fs, up, path)))
            && (top.elems != [] ==>
                  (top in fs'.dirs <==> top in fs.dirs && (up in fs'.dirs || HoldsMoreThan(fs, top, up))))
  {
    var up, top := Parent(path), Parent(Parent(path));
    var a := Remove(fs, path).0;
    var b := Remove(a, up).0;
    PruneTargets(fs, path);
    RemoveKeeps(fs, path);
    RemoveKeeps(a, up);
    RemoveKeeps(b, top);
    if up.elems != [] {
      RemovedExactlyWhenEmpty(a, up, path);
      SameOtherEntries(fs, a, up, path);
    }
    if top.elems != [] { TopStaysExactly(fs, a, b, path); }
  }

  lemma TopStaysExactly(fs: Fs, a: Fs, b: Fs, path: Path)
    requires TreeOk(fs) && InodesOk(fs) && Parent(Parent(path)).elems != []
    requires !Remove(fs, path).1.Refused? && a == Remove(fs, path).0 && b == Remove(a, Parent(path)).0
    ensures var up, top := Parent(path), Parent(Parent(path)); var c := Remove(b, top).0;
            && (up in c.dirs <==> up in b.dirs)
            && (top in c.dirs <==> top in fs.dirs && (up in b.dirs || HoldsMoreThan(fs, top, up)))
  {
    var up, top := Parent(path), Parent(Parent(path));
    PruneTargets(fs, path);
    RemoveKeeps(fs, path);
    RemoveKeeps(a, up);
    RemoveKeeps(b, top);
    SameOtherEntries(fs, b, top, up);
    if up in b.dirs {
      assert !IsEmptyDir(b, top);
    } else {
      RemovedExactlyWhenEmpty(b, top, up);
    }
  }

  /** Deleting once is deleting twice, for objects and directories alike. */
  lemma DeleteIsIdempotent(fs: Fs, path: Path)
    requires TreeOk(fs) && InodesOk(fs)
    ensures var (once, ok) := DeleteAlone(fs, path); DeleteAlone(once, path) == (once, ok)
  {
    var (a, removal) := Remove(fs, path);
    if !removal.Refused? {
      var b := Remove(a, Parent(path)).0;
      PruneTargets(fs, path);
      RemoveKeeps(fs, path);
      RemoveKeeps(a, Parent(path));
      RemoveTwice(fs, path);
      RemoveTwice(a, Parent(path));
      RemoveTwice(b, Parent(Parent(path)));
      StillGone(a, Parent(path), path);
      StillGone(b, Parent(Parent(path)), path);
      StillGone(b, Parent(Parent(path)), Parent(path));
    }
  }

  lemma {:induction false} BlockedByFiles(a: Fs, b: Fs, p: Path)
    requires a.files.Keys == b.files.Keys
    ensures Blocked(a, p) == Blocked(b, p)
    decreases |p.elems|
  {
    if p.elems != [] {
      BlockedByFiles(a, b, Parent(p));
    }
  }

  /** A second removal of the same path finds nothing to do. */
  lemma RemoveTwice(fs: Fs, p: Path)
    requires TreeOk(fs) && InodesOk(fs)
    ensures Remove(Remove(fs, p).0, p).0 == Remove(fs, p).0
    ensures !Remove(fs, p).1.Refused? ==> !Remove(Remove(fs, p).0, p).1.Refused?
  {
    RemoveKeeps(fs, p);
    if p in fs.files || p in fs.dirs {
      ParentNotBlocked(fs, p);
    }
    if p in fs.files {
      UnblockedStays(fs, Remove(fs, p).0, p);
    } else {
      BlockedByFiles(fs, Remove(fs, p).0, p);
    }
  }

  lemma {:induction false} ParentNotBlocked(fs: Fs, p: Path)
    requires TreeOk(fs) && (p in fs.files || p in fs.dirs)
    ensures !Blocked(fs, p)
    decreases |p.elems|
  {
    if p.elems != [] {
      assert Parent(p) in fs.dirs;
      ParentNotBlocked(fs, Parent(p));
    }
  }

  lemma {:induction false} UnblockedStays(a: Fs, b: Fs, p: Path)
    requires b.files.Keys <= a.files.Keys && !Blocked(a, p)
    ensures !Blocked(b, p)
    decreases |p.elems|
  {
    if p.elems != [] {
      UnblockedStays(a, b, Parent(p));
    }
  }

  /** Pruning the directory q leaves a removal below it as idle as it was. */
  lemma StillGone(fs: Fs, q: Path, p: Path)
    requires TreeOk(fs) && InodesOk(fs) && q !in fs.files
    requires p !in fs.files && !IsEmptyDir(fs, p)
    requires q == Parent(p) || q == Parent(Parent(p))
    ensures Remove(Remove(fs, q).0, p) == (Remove(fs, q).0, Remove(fs, p).1)
  {
    RemoveKeeps(fs, q);
    BlockedByFiles(fs, Remove(fs, q).0, p);
    if IsEmptyDir(fs, q) {
      assert p in fs.dirs ==> Parent(p) in fs.dirs;
    }
  }

  lemma DeleteKeepsSettled(cfg: Config, fs: Fs, ref: PackageRef)
    requires Settled(cfg, fs) && Flat(ref)
    ensures var fs' := DeleteAlone(fs, FullPath(cfg.root, ref)).0; Settled(cfg, fs') && fs'.dirs <= fs.dirs
  {
    var path := FullPath(cfg.root, ref);
    FlatLayout(cfg.root, ref);
    var (a, removal) := Remove(fs, path);
    RemoveKeeps(fs, path);
    if !removal.Refused? {
      var b := Remove(a, Parent(path)).0;
      RemoveKeeps(a, Parent(path));
      RemoveKeeps(b, Parent(Parent(path)));
    }
  }
}
