/** Why the concurrent theorems ask for temporary files that no two unfinished Puts share: the
    name of the temporary file holds the year only, and this is what two uploads of the same
    reference can do to each other in one year, be their bytes different or the same. */
module SharedTemp {
  import opened Content
  import opened Paths
  import opened FileTree
  import opened LocalProtocol
  import opened LocalProvider
  import opened SoloRun
  import LG = LocalGuarantees

  lemma {:induction false} RunConcat(cfg: Config, s: State, a: seq<Step>, b: seq<Step>)
    ensures Run(cfg, s, a + b) == Run(cfg, Run(cfg, s, a), b)
    decreases |a|
  {
    if a == [] {
      assert a + b == b;
    } else {
      assert (a + b)[0] == a[0] && (a + b)[1..] == a[1..] + b;
      RunConcat(cfg, Next(cfg, s, a[0]), a[1..], b);
    }
  }

  /** From the first system call of a Put to the write of its first n bytes. */
  function UpToCopy(put: Put, n: nat): seq<Action> {
    MakeDirs(|Parent(put.path).elems|) + [MakeDir, CreateTemp, Copy(n)]
  }

  lemma MkdirAllOfExisting(cfg: Config, fs: Fs, put: Put)
    requires TreeOk(fs) && put.pc == Making(0) && Parent(put.path) in fs.dirs && Path(put.path.rooted, []) in fs.dirs
    ensures var n := |Parent(put.path).elems|; PutRun(cfg, fs, put, MakeDirs(n)) == (fs, put.(pc := Making(n)))
  {
    var n := |Parent(put.path).elems|;
    assert Prefix(put.path, n) == Parent(put.path);
    MakeDirsIsMkdirAll(cfg, fs, put, n);
  }

  /** With its directory in place a Put fills the inode of its temporary name. */
  lemma FillsItsTemp(cfg: Config, fs: Fs, put: Put, n: nat)
    requires TreeOk(fs) && InodesOk(fs) && put.pc == Making(0) && n <= |put.source|
    requires Parent(put.path) in fs.dirs && Path(put.path.rooted, []) in fs.dirs && Create(fs, put.temp).Some?
    ensures var (created, inode) := Create(fs, put.temp).value;
            PutRun(cfg, fs, put, UpToCopy(put, n))
              == (created.(data := created.data[inode := put.source[..n]]), put.(pc := Copying(inode, n)))
  {
    var depth := |Parent(put.path).elems|;
    var making := put.(pc := Making(depth));
    var (created, inode) := Create(fs, put.temp).value;
    var copying := put.(pc := Copying(inode, 0));
    MkdirAllOfExisting(cfg, fs, put);
    PutRunConcat(cfg, fs, put, MakeDirs(depth), [MakeDir, CreateTemp, Copy(n)]);
    assert [MakeDir, CreateTemp, Copy(n)][1..] == [CreateTemp, Copy(n)];
    assert [CreateTemp, Copy(n)][1..] == [Copy(n)];
    assert PutRun(cfg, fs, making, [MakeDir, CreateTemp, Copy(n)])
        == PutRun(cfg, fs, put.(pc := Creating), [CreateTemp, Copy(n)]);
    assert PutRun(cfg, fs, put.(pc := Creating), [CreateTemp, Copy(n)])
        == PutRun(cfg, created, copying, [Copy(n)]);
    OneAction(cfg, created, copying, Copy(n));
    assert put.source[..0] == [];
    CopyFills(created, copying, n);
  }

  /** Upload 0 writes and checks its bytes; upload 1 of the same reference truncates the shared
      file and has written n bytes of its own when upload 0 renames it. */
  function Schedule(cfg: Config, ref: PackageRef, a: Bytes, b: Bytes, n: nat, stamp: Stamp): seq<Step> {
    [BeginPut(0, ref, a, |a|, stamp), BeginPut(1, ref, b, |b|, stamp)]
    + (PutSteps(0, UpToCopy(Start(cfg, ref, a, |a|, stamp), |a|) + [Verify])
       + PutSteps(1, UpToCopy(Start(cfg, ref, b, |b|, stamp), n))
       + PutSteps(0, [Commit, CleanUp]))
  }

  lemma CommitsForeignBytes(cfg: Config, fs: Fs, put: Put, b: Bytes)
    requires TreeOk(fs) && InodesOk(fs) && put.pc.Syncing? && put.temp != put.path
    requires put.temp in fs.files && ContentAt(fs, put.temp) == b && Rename(fs, put.temp, put.path).Some?
    ensures var r := PutRun(cfg, fs, put, [Commit, CleanUp]);
            && r.1 == put.(pc := Finished(Stored(|put.source|, Key(put.ref))))
            && put.path in r.0.files && ContentAt(r.0, put.path) == b
  {
    var fs' := Rename(fs, put.temp, put.path).value;
    var stored := Cleaning(Stored(|put.source|, Key(put.ref)));
    LG.RenameEffect(fs, put.temp, put.path);
    LG.RemoveTempEffect(fs', put.temp);
    assert LG.Unchanged(fs', Remove(fs', put.temp).0, put.path);
    TwoActions(cfg, fs, put, fs', stored);
  }

  lemma TwoActions(cfg: Config, fs: Fs, put: Put, fs': Fs, pc: PutPc)
    requires PutNext(cfg, fs, put, Commit) == (fs', pc) && pc.Cleaning?
    ensures PutRun(cfg, fs, put, [Commit, CleanUp]) == (Remove(fs', put.temp).0, put.(pc := Finished(pc.result)))
  {
    assert [Commit, CleanUp][1..] == [CleanUp];
    OneAction(cfg, fs', put.(pc := pc), CleanUp);
  }

  /** Creating a file and filling it, also over an earlier one of that name. */
  lemma FillEffect(fs: Fs, temp: Path, bytes: Bytes)
    requires TreeOk(fs) && InodesOk(fs) && Create(fs, temp).Some?
    ensures var (created, inode) := Create(fs, temp).value;
            var filled := created.(data := created.data[inode := bytes]);
            && TreeOk(filled) && InodesOk(filled) && filled.dirs == fs.dirs
            && temp in filled.files && filled.files[temp] == inode && ContentAt(filled, temp) == bytes
  {
  }

  /** The tree when both uploads have written: the shared inode holds the later bytes. */
  lemma BothFill(cfg: Config, fs: Fs, temp: Path, a: Bytes, b: Bytes)
    requires TreeOk(fs) && InodesOk(fs) && Create(fs, temp).Some?
    ensures var (created, inode) := Create(fs, temp).value;
            var filled := created.(data := created.data[inode := a]);
            && TreeOk(filled) && InodesOk(filled) && Create(filled, temp).Some? && Create(filled, temp).value.1 == inode
            && filled.dirs == fs.dirs
            && var again := Create(filled, temp).value.0.(data := Create(filled, temp).value.0.data[inode := b]);
               && TreeOk(again) && InodesOk(again) && again.dirs == fs.dirs
               && temp in again.files && ContentAt(again, temp) == b
  {
    FillEffect(fs, temp, a);
    var (created, inode) := Create(fs, temp).value;
    FillEffect(created.(data := created.data[inode := a]), temp, b);
  }

  lemma VerifyPasses(cfg: Config, fs: Fs, put: Put, inode: nat)
    requires put.pc == Copying(inode, |put.source|) && put.size == |put.source|
             && Checksum(cfg.sha, put.source) == put.ref.digest
    ensures PutRun(cfg, fs, put, [Verify]) == (fs, put.(pc := Syncing(inode)))
  {
    OneAction(cfg, fs, put, Verify);
  }

  lemma FillsAndVerifies(cfg: Config, fs: Fs, put: Put)
    requires TreeOk(fs) && InodesOk(fs) && put.pc == Making(0)
    requires put.size == |put.source| && Checksum(cfg.sha, put.source) == put.ref.digest
    requires Parent(put.path) in fs.dirs && Path(put.path.rooted, []) in fs.dirs && Create(fs, put.temp).Some?
    ensures var (created, inode) := Create(fs, put.temp).value;
            PutRun(cfg, fs, put, UpToCopy(put, |put.source|) + [Verify])
              == (created.(data := created.data[inode := put.source]), put.(pc := Syncing(inode)))
  {
    var (created, inode) := Create(fs, put.temp).value;
    FillsItsTemp(cfg, fs, put, |put.source|);
    assert put.source[..|put.source|] == put.source;
    ThenVerifies(cfg, fs, put, UpToCopy(put, |put.source|), created.(data := created.data[inode := put.source]),
                 put.(pc := Copying(inode, |put.source|)));
  }

  lemma ThenVerifies(cfg: Config, fs: Fs, put: Put, actions: seq<Action>, fs': Fs, put': Put)
    requires PutRun(cfg, fs, put, actions) == (fs', put') && put'.pc.Copying? && put'.pc.sent == |put'.source|
    requires put'.size == |put'.source| && Checksum(cfg.sha, put'.source) == put'.ref.digest
    ensures PutRun(cfg, fs, put, actions + [Verify]) == (fs', put'.(pc := Syncing(put'.pc.inode)))
  {
    VerifyPasses(cfg, fs', put', put'.pc.inode);
    PutRunConcat(cfg, fs, put, actions, [Verify]);
  }

  /** Upload 0 is told that its bytes are stored, and the committed file holds what upload 1 had
      written by then: a prefix of any length of its bytes. */
  lemma SharedTempBreaksTheStore(cfg: Config, fs: Fs, ref: PackageRef, a: Bytes, b: Bytes, n: nat, stamp: Stamp)
    requires TreeOk(fs) && InodesOk(fs) && Complete(ref, ref.digest) && n <= |b| && ref.digest == Checksum(cfg.sha, a)
    requires var path := FullPath(cfg.root, ref);
             && Path(path.rooted, []) in fs.dirs && Parent(path) in fs.dirs && path !in fs.dirs
             && Create(fs, TempPath(path, stamp)).Some?
    ensures var t := Run(cfg, State(fs, map[], map[], map[]), Schedule(cfg, ref, a, b, n, stamp));
            var path := FullPath(cfg.root, ref);
            && 0 in t.puts && t.puts[0].pc == Finished(Stored(|a|, Key(ref)))
            && Committed(path) && path in t.fs.files && ContentAt(t.fs, path) == b[..n]
            && (cfg.sha(ContentAt(t.fs, path)) == Last(path) <==> cfg.sha(b[..n]) == cfg.sha(a))
  {
    var path := FullPath(cfg.root, ref);
    ParseIsCanonical(JoinPath([cfg.root, Key(ref)]));
    LG.TempDiffers(path, stamp);
    ChecksumIsDigest(cfg.sha, a);
    DigestNamesFile(cfg.root, ref);
    var s := State(fs, map[], map[], map[]);
    var p0, p1 := Start(cfg, ref, a, |a|, stamp), Start(cfg, ref, b, |b|, stamp);
    BeginBoth(cfg, s, ref, a, b, stamp);
    RunConcat(cfg, s, [BeginPut(0, ref, a, |a|, stamp), BeginPut(1, ref, b, |b|, stamp)],
              PutSteps(0, UpToCopy(p0, |a|) + [Verify]) + PutSteps(1, UpToCopy(p1, n))
              + PutSteps(0, [Commit, CleanUp]));
    SharedTempRace(cfg, fs, p0, p1, n);
  }

  /** No two uploads of one reference may share a temporary file, not even of the same bytes: there
      is a schedule that commits an empty file, and it is wrong for any content but the empty one. */
  lemma SharingIsNeverSafe(cfg: Config, fs: Fs, ref: PackageRef, a: Bytes, b: Bytes, stamp: Stamp)
    requires TreeOk(fs) && InodesOk(fs) && Complete(ref, ref.digest) && ref.digest == Checksum(cfg.sha, a)
    requires cfg.sha([]) != cfg.sha(a)
    requires var path := FullPath(cfg.root, ref);
             && Path(path.rooted, []) in fs.dirs && Parent(path) in fs.dirs && path !in fs.dirs
             && Create(fs, TempPath(path, stamp)).Some?
    ensures !Verified(cfg.sha, Run(cfg, State(fs, map[], map[], map[]), Schedule(cfg, ref, a, b, 0, stamp)).fs)
  {
    SharedTempBreaksTheStore(cfg, fs, ref, a, b, 0, stamp);
    assert b[..0] == [];
  }

  lemma SharedTempRace(cfg: Config, fs: Fs, p0: Put, p1: Put, n: nat)
    requires TreeOk(fs) && InodesOk(fs) && p0.pc == Making(0) && p1.pc == Making(0) && n <= |p1.source|
    requires p0.path == p1.path && p0.temp == p1.temp && p0.temp != p0.path && p0.path.elems != []
    requires Path(p0.path.rooted, []) in fs.dirs && Parent(p0.path) in fs.dirs && p0.path !in fs.dirs
    requires Create(fs, p0.temp).Some?
    requires p0.size == |p0.source| && Checksum(cfg.sha, p0.source) == p0.ref.digest
    ensures var t := Run(cfg, State(fs, map[0 := p0, 1 := p1], map[], map[]),
                         PutSteps(0, UpToCopy(p0, |p0.source|) + [Verify]) + PutSteps(1, UpToCopy(p1, n))
                         + PutSteps(0, [Commit, CleanUp]));
            && 0 in t.puts && t.puts[0].pc == Finished(Stored(|p0.source|, Key(p0.ref)))
            && p0.path in t.fs.files && ContentAt(t.fs, p0.path) == p1.source[..n]
  {
    var a, b, temp := p0.source, p1.source[..n], p0.temp;
    var (created, inode) := Create(fs, temp).value;
    var filled := created.(data := created.data[inode := a]);
    var again := Create(filled, temp).value.0.(data := Create(filled, temp).value.0.data[inode := b]);
    BothFill(cfg, fs, temp, a, b);
    FillsAndVerifies(cfg, fs, p0);
    FillsItsTemp(cfg, filled, p1, n);
    CommitsForeignBytes(cfg, again, p0.(pc := Syncing(inode)), b);
    Stretches(cfg, fs, p0, p1, UpToCopy(p0, |a|) + [Verify], UpToCopy(p1, n), [Commit, CleanUp],
              filled, p0.(pc := Syncing(inode)), again, p1.(pc := Copying(inode, n)));
  }

  /** Stretches of one Put, of another one, and of the first again. */
  lemma Stretches(cfg: Config, fs: Fs, p0: Put, p1: Put, xs: seq<Action>, ys: seq<Action>, zs: seq<Action>,
                  fs1: Fs, put0: Put, fs2: Fs, put1: Put)
    requires PutRun(cfg, fs, p0, xs) == (fs1, put0) && PutRun(cfg, fs1, p1, ys) == (fs2, put1)
    ensures var t := Run(cfg, State(fs, map[0 := p0, 1 := p1], map[], map[]),
                         PutSteps(0, xs) + PutSteps(1, ys) + PutSteps(0, zs));
            var r := PutRun(cfg, fs2, put0, zs);
            t.fs == r.0 && 0 in t.puts && t.puts[0] == r.1
  {
    var s1 := State(fs, map[0 := p0, 1 := p1], map[], map[]);
    var s2 := State(fs1, map[0 := put0, 1 := p1], map[], map[]);
    var s3 := State(fs2, map[0 := put0, 1 := put1], map[], map[]);
    RunOfOnePut(cfg, s1, 0, xs);
    assert s1.puts[0 := put0] == s2.puts;
    RunOfOnePut(cfg, s2, 1, ys);
    assert s2.puts[1 := put1] == s3.puts;
    RunOfOnePut(cfg, s3, 0, zs);
    RunConcat(cfg, s1, PutSteps(0, xs), PutSteps(1, ys));
    RunConcat(cfg, s1, PutSteps(0, xs) + PutSteps(1, ys), PutSteps(0, zs));
  }

  lemma BeginBoth(cfg: Config, s: State, ref: PackageRef, a: Bytes, b: Bytes, stamp: Stamp)
    requires s.puts == map[]
    ensures Run(cfg, s, [BeginPut(0, ref, a, |a|, stamp), BeginPut(1, ref, b, |b|, stamp)])
         == s.(puts := map[0 := Start(cfg, ref, a, |a|, stamp), 1 := Start(cfg, ref, b, |b|, stamp)])
  {
    var first, second := BeginPut(0, ref, a, |a|, stamp), BeginPut(1, ref, b, |b|, stamp);
    assert [first, second][1..] == [second] && [second][1..] == [];
    var s' := Next(cfg, s, first);
    assert Run(cfg, s, [first, second]) == Run(cfg, s', [second]);
    assert Run(cfg, s', [second]) == Next(cfg, s', second);
  }
}
