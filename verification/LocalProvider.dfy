/** The local backend called by one client at a time: what each method does to the tree from
    its first system call to its last. */
module LocalProvider {
  import opened Content
  import opened Sorting
  import opened Paths
  import opened FileTree
  import opened LocalProtocol

  datatype Entry = File(content: Bytes) | Directory | NotFound | NotReachable

  /** What stat(2) or open(2) finds at p. */
  function Stat(fs: Fs, p: Path): Entry {
    if p in fs.files then File(ContentAt(fs, p))
    else if p in fs.dirs then Directory
    else if Blocked(fs, p) then NotReachable
    else NotFound
  }

  ghost predicate FileOnTheWay(fs: Fs, p: Path) {
    exists n | 0 <= n < |p.elems| :: Prefix(p, n) in fs.files
  }

  lemma {:induction false} FileOnTheWayBlocks(fs: Fs, p: Path)
    ensures Blocked(fs, p) <==> FileOnTheWay(fs, p)
    decreases |p.elems|
  {
    if p.elems != [] {
      var up, last := Parent(p), |p.elems| - 1;
      FileOnTheWayBlocks(fs, up);
      assert Prefix(p, last) == up;
      forall n | 0 <= n < last
        ensures Prefix(p, n) == Prefix(up, n)
      {
        assert p.elems[..last][..n] == p.elems[..n];
      }
      if FileOnTheWay(fs, p) {
        var n :| 0 <= n < |p.elems| && Prefix(p, n) in fs.files;
        if n < last { assert Prefix(up, n) in fs.files; }
      }
      if FileOnTheWay(fs, up) {
        var n :| 0 <= n < |up.elems| && Prefix(up, n) in fs.files;
        assert Prefix(p, n) in fs.files;
      }
    }
  }

  predicate Complete(ref: PackageRef, checksum: string) {
    ref.tenant != "" && ref.name != "" && ref.version != "" && checksum != ""
  }

  function PutAlone(cfg: Config, fs: Fs, ref: PackageRef, source: Bytes, size: int, checksum: string, stamp: Stamp)
    : (Fs, PutResult)
  {
    if !Complete(ref, checksum) then (fs, Rejected(MissingField))
    else
      var path := FullPath(cfg.root, ref);
      var (made, ok) := MkdirAll(fs, Parent(path));
      if !ok then (made, Rejected(MkdirFailed))
      else PutInto(cfg, made, ref, source, size, checksum, path, TempPath(path, stamp))
  }

  /** The part of Put that follows mkdir. */
  function PutInto(cfg: Config, fs: Fs, ref: PackageRef, source: Bytes, size: int,
                   checksum: string, path: Path, temp: Path)
    : (Fs, PutResult)
  {
    match Create(fs, temp)
    case None => (fs, Rejected(CreateFailed))
    case Some((created, inode)) =>
      Concluded(cfg, WriteAt(created, inode, 0, source), ref, source, size, checksum, path, temp)
  }

  /** The checks on the stream, the rename, and the removal of what the temporary name still leads to. */
  function Concluded(cfg: Config, filled: Fs, ref: PackageRef, source: Bytes, size: int,
                     checksum: string, path: Path, temp: Path)
    : (Fs, PutResult)
  {
    if size > 0 && |source| != size then (Remove(filled, temp).0, Rejected(SizeMismatch))
    else if Checksum(cfg.sha, source) != checksum then (Remove(filled, temp).0, Rejected(ChecksumMismatch))
    else match Rename(filled, temp, path)
      case None => (Remove(filled, temp).0, Rejected(RenameFailed))
      case Some(renamed) => (Remove(renamed, temp).0, Stored(|source|, Key(ref)))
  }

  function DeleteAlone(fs: Fs, path: Path): (Fs, bool) {
    var (a, removal) := Remove(fs, path);
    if removal.Refused? then (a, false)
    else (Remove(Remove(a, Parent(path)).0, Parent(Parent(path))).0, true)
  }

  function Child(dir: Path, name: string): Path {
    dir.(elems := dir.elems + [name])
  }

  function NameDir(root: Root, tenant: string, name: string): Path {
    Parse(JoinPath([root, Sanitize(tenant), Sanitize(name)]))
  }

  /** The entries of these children of a directory, each once, with its kind. */
  ghost predicate Lists(fs: Fs, dir: Path, children: set<Path>, entries: seq<(string, bool)>) {
    && Distinct(entries)
    && forall v, d :: (v, d) in entries <==> Child(dir, v) in children && (d <==> Child(dir, v) in fs.dirs)
  }

  lemma OneEntryMore(fs: Fs, dir: Path, children: set<Path>, entries: seq<(string, bool)>, p: Path)
    requires Lists(fs, dir, children, entries) && p !in children && p == Child(dir, Last(p))
    ensures Lists(fs, dir, children + {p}, entries + [(Last(p), p in fs.dirs)])
  {
    var more := entries + [(Last(p), p in fs.dirs)];
    forall v, d
      ensures (v, d) in more <==> Child(dir, v) in children + {p} && (d <==> Child(dir, v) in fs.dirs)
    {
      assert (v, d) in more <==> (v, d) in entries || (v, d) == (Last(p), p in fs.dirs);
      assert Child(dir, v) == p <==> v == Last(p) by { assert Last(Child(dir, v)) == v; }
    }
    assert more[|entries|] !in entries;
  }

  class Local {
    const cfg: Config
    var fs: Fs

    constructor (cfg: Config, fs: Fs)
      ensures this.cfg == cfg && this.fs == fs
    {
      this.cfg := cfg;
      this.fs := fs;
    }

    method Put(ref: PackageRef, source: Bytes, size: int, checksum: string, stamp: Stamp) returns (r: PutResult)
      modifies this`fs
      ensures (fs, r) == PutAlone(cfg, old(fs), ref, source, size, checksum, stamp)
      ensures ref.tenant == "" || ref.name == "" || ref.version == "" || checksum == "" <==> r == Rejected(MissingField)
      ensures r == Rejected(MissingField) ==> fs == old(fs)
    {
      if ref.tenant == "" || ref.name == "" || ref.version == "" || checksum == "" {
        return Rejected(MissingField);
      }
      var p := FullPath(cfg.root, ref);
      var made := MkdirAll(fs, Parent(p));
      fs := made.0;
      if !made.1 { return Rejected(MkdirFailed); }

      var tmp := TempPath(p, stamp);
      var created := Create(fs, tmp);
      if created.None? { return Rejected(CreateFailed); }
      var inode := created.value.1;
      fs := WriteAt(created.value.0, inode, 0, source);
      if size > 0 && |source| != size {
        r := Rejected(SizeMismatch);
      } else if Checksum(cfg.sha, source) != checksum {
        r := Rejected(ChecksumMismatch);
      } else {
        var renamed := Rename(fs, tmp, p);
        if renamed.None? {
          r := Rejected(RenameFailed);
        } else {
          fs := renamed.value;
          r := Stored(|source|, Key(ref));
        }
      }
      fs := Remove(fs, tmp).0;
    }

    method Get(ref: PackageRef) returns (r: Entry)
      ensures r == Stat(fs, FullPath(cfg.root, ref))
      ensures var path := FullPath(cfg.root, ref);
              r == if path in fs.files then File(ContentAt(fs, path))
                   else if path in fs.dirs then Directory
                   else if FileOnTheWay(fs, path) then NotReachable
                   else NotFound
    {
      FileOnTheWayBlocks(fs, FullPath(cfg.root, ref));
      r := Stat(fs, FullPath(cfg.root, ref));
    }

    /** os.Stat finds a file, or a directory of that name; it fails when a plain file lies on the way. */
    method Exists(ref: PackageRef) returns (exists_: bool, failed: bool)
      ensures exists_ <==> FullPath(cfg.root, ref) in fs.files || FullPath(cfg.root, ref) in fs.dirs
      ensures failed <==> !exists_ && FileOnTheWay(fs, FullPath(cfg.root, ref))
    {
      FileOnTheWayBlocks(fs, FullPath(cfg.root, ref));
      var e := Stat(fs, FullPath(cfg.root, ref));
      exists_ := e.File? || e.Directory?;
      failed := e.NotReachable?;
    }

    method Delete(ref: PackageRef) returns (ok: bool)
      modifies this`fs
      ensures (fs, ok) == DeleteAlone(old(fs), FullPath(cfg.root, ref))
    {
      var p := FullPath(cfg.root, ref);
      var removal;
      var removed := Remove(fs, p);
      fs, removal := removed.0, removed.1;
      if removal.Refused? { return false; }
      fs := Remove(fs, Parent(p)).0;
      fs := Remove(fs, Parent(Parent(p))).0;
      ok := true;
    }

    /** os.ReadDir: every entry once, with its kind. */
    method ReadDir(dir: Path) returns (entries: seq<(string, bool)>)
      ensures forall i, j | 0 <= i < j < |entries| :: entries[i].0 != entries[j].0 || entries[i].1 != entries[j].1
      ensures forall v, d :: (v, d) in entries <==>
                (if d then Child(dir, v) in fs.dirs else Child(dir, v) in fs.files && Child(dir, v) !in fs.dirs)
    {
      var children := set p | p in fs.dirs + fs.files.Keys && p.elems != [] && Parent(p) == dir;
      ghost var all := children;
      entries := [];
      while children != {}
        invariant children <= all
        invariant Lists(fs, dir, all - children, entries)
        decreases children
      {
        var p :| p in children;
        assert p == Child(dir, Last(p));
        OneEntryMore(fs, dir, all - children, entries, p);
        entries := entries + [(Last(p), p in fs.dirs)];
        children := children - {p};
        assert all - children == all - (children + {p}) + {p};
      }
      forall v, d
        ensures (v, d) in entries <==>
                (if d then Child(dir, v) in fs.dirs else Child(dir, v) in fs.files && Child(dir, v) !in fs.dirs)
      {
        assert Parent(Child(dir, v)) == dir by { assert (dir.elems + [v])[..|dir.elems|] == dir.elems; }
      }
    }

    /** None when the directory cannot be read; an absent one has no versions. */
    method ListVersions(tenant: string, name: string) returns (r: Option<seq<string>>)
      ensures r.None? <==> var e := Stat(fs, NameDir(cfg.root, tenant, name)); e.File? || e.NotReachable?
      ensures r.Some? && Stat(fs, NameDir(cfg.root, tenant, name)).NotFound? ==> r.value == []
      ensures r.Some? && Stat(fs, NameDir(cfg.root, tenant, name)).Directory? ==>
                forall v :: v in r.value <==> Child(NameDir(cfg.root, tenant, name), v) in fs.dirs
      ensures r.Some? ==> forall i, j | 0 <= i < j < |r.value| ::
                StringLeq(r.value[i], r.value[j]) && r.value[i] != r.value[j]
    {
      var dir := NameDir(cfg.root, tenant, name);
      var e := Stat(fs, dir);
      if e.NotFound? { return Some([]); }
      if !e.Directory? { return None; }
      var entries := ReadDir(dir);
      var vers: seq<string> := [];
      for i := 0 to |entries|
        invariant forall v :: v in vers <==> (v, true) in entries[..i]
        invariant Distinct(vers)
      {
        if entries[i].1 {
          assert entries[i] !in entries[..i];
          vers := vers + [entries[i].0];
        }
      }
      assert entries[..|entries|] == entries;
      r := Some(Sort(StringLeq, vers));
      StringsArePreordered();
      SortSorts(StringLeq, vers);
      SortPermutes(StringLeq, vers);
      SortKeepsDistinct(StringLeq, vers);
      forall v ensures v in r.value <==> v in vers { SameElements(r.value, vers, v); }
    }
  }
}
