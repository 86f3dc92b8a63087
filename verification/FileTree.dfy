/** The part of a Unix file system that the local backend uses. Names lead to inodes, so that
    an open file survives its name and a rename moves content without copying it. */
module FileTree {
  import opened Content
  import opened Paths

  datatype Fs = Fs(dirs: set<Path>, files: map<Path, nat>, data: map<nat, Bytes>, next: nat)

  datatype Removal = Removed | Missing | Refused

  /** Some directory on the way to p is a plain file (ENOTDIR). */
  predicate Blocked(fs: Fs, p: Path)
    decreases |p.elems|
  {
    p.elems != [] && (Parent(p) in fs.files || Blocked(fs, Parent(p)))
  }

  predicate IsEmptyDir(fs: Fs, p: Path) {
    && p in fs.dirs && p.elems != []
    && (forall q {:trigger Parent(q)} | q in fs.dirs :: Parent(q) != p)
    && (forall q {:trigger Parent(q)} | q in fs.files :: Parent(q) != p)
  }

  ghost predicate TreeOk(fs: Fs) {
    && (forall p | p in fs.files :: p !in fs.dirs && p.elems != [] && Parent(p) in fs.dirs)
    && (forall p {:trigger Parent(p)} | p in fs.dirs :: Parent(p) in fs.dirs)
  }

  ghost predicate InodesOk(fs: Fs) {
    && (forall p | p in fs.files :: fs.files[p] in fs.data)
    && (forall i | i in fs.data :: i < fs.next)
    && (forall p, q | p in fs.files && q in fs.files :: fs.files[p] == fs.files[q] ==> p == q)
  }

  function ContentAt(fs: Fs, p: Path): (b: Bytes)
    requires p in fs.files
  {
    if fs.files[p] in fs.data then fs.data[fs.files[p]] else []
  }

  // ---------------------------------------------------------------- system calls

  function Mkdir(fs: Fs, p: Path): (r: Option<Fs>)
    ensures r.Some? ==> r.value.files == fs.files && r.value.data == fs.data && r.value.next == fs.next
    ensures r.Some? ==> p in r.value.dirs && fs.dirs <= r.value.dirs
    ensures r.Some? && TreeOk(fs) ==> TreeOk(r.value)
    ensures r.None? && p !in fs.files ==> Parent(p) !in fs.dirs
  {
    if p in fs.dirs then Some(fs)
    else if p in fs.files || Parent(p) !in fs.dirs then None
    else Some(fs.(dirs := fs.dirs + {p}))
  }

  /** open(O_CREAT|O_TRUNC): an existing file keeps its inode and loses its content. */
  function Create(fs: Fs, p: Path): (r: Option<(Fs, nat)>)
    ensures r.Some? && TreeOk(fs) ==> TreeOk(r.value.0)
    ensures r.Some? && InodesOk(fs) ==> InodesOk(r.value.0)
    ensures r.Some? ==> r.value.0.files == fs.files[p := r.value.1] && r.value.0.data == fs.data[r.value.1 := []]
    ensures r.Some? ==> r.value.0.dirs == fs.dirs && r.value.1 < r.value.0.next && fs.next <= r.value.0.next
    ensures r.Some? && p !in fs.files ==> r.value.1 == fs.next
    ensures r.Some? && p in fs.files ==> r.value.1 == fs.files[p]
    ensures r.None? <==> (p in fs.dirs || p.elems == [] || Parent(p) !in fs.dirs)
  {
    if p in fs.dirs || p.elems == [] || Parent(p) !in fs.dirs then None
    else if p in fs.files then
      var fs' := fs.(data := fs.data[fs.files[p] := []], next := Max(fs.next, fs.files[p] + 1));
      assert fs'.files == fs.files[p := fs.files[p]];
      Some((fs', fs.files[p]))
    else Some((fs.(files := fs.files[p := fs.next], data := fs.data[fs.next := []], next := fs.next + 1), fs.next))
  }

  function Max(a: nat, b: nat): nat {
    if a < b then b else a
  }

  function Zeros(n: nat): Bytes {
    seq(n, _ => 0)
  }

  /** write at a file offset; a gap behind the end is filled with zeros. */
  function Overwrite(was: Bytes, offset: nat, chunk: Bytes): Bytes {
    (if offset <= |was| then was[..offset] else was + Zeros(offset - |was|))
    + chunk
    + (if offset + |chunk| < |was| then was[offset + |chunk|..] else [])
  }

  function WriteAt(fs: Fs, inode: nat, offset: nat, chunk: Bytes): Fs {
    if inode in fs.data then fs.(data := fs.data[inode := Overwrite(fs.data[inode], offset, chunk)]) else fs
  }

  /** rename of a file over nothing or over another file. */
  function Rename(fs: Fs, from: Path, to: Path): (r: Option<Fs>)
    ensures r.Some? && TreeOk(fs) ==> TreeOk(r.value)
    ensures r.Some? && InodesOk(fs) ==> InodesOk(r.value)
    ensures r.Some? ==> from in fs.files && r.value == fs.(files := (fs.files - {from})[to := fs.files[from]])
    ensures r.None? <==> (from !in fs.files || to in fs.dirs || to.elems == [] || Parent(to) !in fs.dirs)
  {
    if from !in fs.files || to in fs.dirs || to.elems == [] || Parent(to) !in fs.dirs then None
    else Some(fs.(files := (fs.files - {from})[to := fs.files[from]]))
  }

  function Unlink(fs: Fs, p: Path): (r: Fs)
    ensures TreeOk(fs) ==> TreeOk(r)
    ensures InodesOk(fs) ==> InodesOk(r)
  {
    fs.(files := fs.files - {p})
  }

  function Rmdir(fs: Fs, p: Path): (r: Fs)
    requires IsEmptyDir(fs, p)
    ensures TreeOk(fs) ==> TreeOk(r) && p !in fs.files
    ensures InodesOk(fs) ==> InodesOk(r)
  {
    fs.(dirs := fs.dirs - {p})
  }

  /** os.Remove: a file, or a directory that is empty. */
  function Remove(fs: Fs, p: Path): (r: (Fs, Removal)) {
    if p in fs.files then (Unlink(fs, p), Removed)
    else if IsEmptyDir(fs, p) then (Rmdir(fs, p), Removed)
    else if p in fs.dirs || Blocked(fs, p) then (fs, Refused)
    else (fs, Missing)
  }

  lemma RemoveKeeps(fs: Fs, p: Path)
    requires TreeOk(fs) && InodesOk(fs)
    ensures var fs' := Remove(fs, p).0;
            && TreeOk(fs') && InodesOk(fs') && fs'.data == fs.data && fs'.next == fs.next
            && fs'.files == fs.files - {p} && fs'.dirs <= fs.dirs
            && (forall q | q in fs.dirs && q !in fs'.dirs :: q == p && IsEmptyDir(fs, p))
  {
    assert p !in fs.files ==> fs.files - {p} == fs.files;
  }

  // ---------------------------------------------------------------- mkdir -p

  /** The directories from the first element of p down to p itself. */
  function Prefix(p: Path, depth: nat): Path
    requires depth <= |p.elems|
  {
    Path(p.rooted, p.elems[..depth])
  }

  ghost predicate Under(q: Path, p: Path) {
    q.rooted == p.rooted && |q.elems| <= |p.elems| && q.elems == p.elems[..|q.elems|]
  }

  /** os.MkdirAll: creates what is missing on the way to p and stops at a file. */
  function MkdirAll(fs: Fs, p: Path): (r: (Fs, bool))
    ensures r.0.files == fs.files && r.0.data == fs.data && r.0.next == fs.next && fs.dirs <= r.0.dirs
    ensures TreeOk(fs) ==> TreeOk(r.0)
    ensures r.1 ==> p in r.0.dirs
    ensures forall q | q in r.0.dirs :: q in fs.dirs || Under(q, p)
    decreases |p.elems|
  {
    if p in fs.dirs then (fs, true)
    else if p.elems == [] then (fs, false)
    else
      var (made, ok) := MkdirAll(fs, Parent(p));
      if !ok then (made, false)
      else match Mkdir(made, p) case None => (made, false) case Some(fs') => (fs', true)
  }
}
