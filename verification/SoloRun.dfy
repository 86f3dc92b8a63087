/** The interleaved protocol and the one-client methods agree: a Put whose system calls meet no
    other operation does to the tree what the method does. */
module SoloRun {
  import opened Content
  import opened Paths
  import opened FileTree
  import opened LocalProtocol
  import opened LocalProvider

  function PutRun(cfg: Config, fs: Fs, put: Put, actions: seq<Action>): (Fs, Put)
    decreases |actions|
  {
    if actions == [] then (fs, put)
    else
      var (fs', pc) := PutNext(cfg, fs, put, actions[0]);
      PutRun(cfg, fs', put.(pc := pc), actions[1..])
  }

  function PutSteps(id: nat, actions: seq<Action>): seq<Step> {
    seq(|actions|, i requires 0 <= i < |actions| => PutStep(id, actions[i]))
  }

  lemma {:induction false} RunOfOnePut(cfg: Config, s: State, id: nat, actions: seq<Action>)
    requires id in s.puts
    ensures var r := PutRun(cfg, s.fs, s.puts[id], actions);
            Run(cfg, s, PutSteps(id, actions)) == s.(fs := r.0, puts := s.puts[id := r.1])
    decreases |actions|
  {
    if actions == [] {
      assert s.puts[id := s.puts[id]] == s.puts;
    } else {
      var steps := PutSteps(id, actions);
      assert steps[1..] == PutSteps(id, actions[1..]);
      var s' := Next(cfg, s, steps[0]);
      RunOfOnePut(cfg, s', id, actions[1..]);
      var r := PutRun(cfg, s.fs, s.puts[id], actions);
      assert s'.puts[id := r.1] == s.puts[id := r.1];
    }
  }

  lemma {:induction false} PutRunConcat(cfg: Config, fs: Fs, put: Put, a: seq<Action>, b: seq<Action>)
    ensures var r := PutRun(cfg, fs, put, a); PutRun(cfg, fs, put, a + b) == PutRun(cfg, r.0, r.1, b)
    decreases |a|
  {
    if a == [] {
      assert a + b == b;
    } else {
      var (fs', pc) := PutNext(cfg, fs, put, a[0]);
      assert (a + b)[0] == a[0] && (a + b)[1..] == a[1..] + b;
      PutRunConcat(cfg, fs', put.(pc := pc), a[1..], b);
    }
  }

  function MakeDirs(n: nat): seq<Action> {
    seq(n, _ => MakeDir)
  }

  /** mkdir -p goes one element further than for the parent. */
  lemma MkdirAllStep(fs: Fs, p: Path, depth: nat)
    requires TreeOk(fs) && depth < |p.elems|
    ensures var (made, ok) := MkdirAll(fs, Prefix(p, depth)); var next := Mkdir(made, Prefix(p, depth + 1));
            MkdirAll(fs, Prefix(p, depth + 1))
              == if !ok then (made, false) else if next.None? then (made, false) else (next.value, true)
  {
    assert Parent(Prefix(p, depth + 1)) == Prefix(p, depth) by {
      assert p.elems[..depth + 1][..depth] == p.elems[..depth];
    }
  }

  lemma {:induction false} MakeDirsIsMkdirAll(cfg: Config, fs: Fs, put: Put, n: nat)
    requires TreeOk(fs) && put.pc == Making(0) && Path(put.path.rooted, []) in fs.dirs
    requires n <= |Parent(put.path).elems|
    ensures var (made, ok) := MkdirAll(fs, Prefix(put.path, n));
            PutRun(cfg, fs, put, MakeDirs(n))
              == (made, put.(pc := if ok then Making(n) else Finished(Rejected(MkdirFailed))))
  {
    if n == 0 {
      assert MakeDirs(0) == [];
      assert Prefix(put.path, 0) == Path(put.path.rooted, []);
    } else {
      MakeDirsIsMkdirAll(cfg, fs, put, n - 1);
      MkdirAllStep(fs, put.path, n - 1);
      assert MakeDirs(n) == MakeDirs(n - 1) + [MakeDir];
      PutRunConcat(cfg, fs, put, MakeDirs(n - 1), [MakeDir]);
      var r := PutRun(cfg, fs, put, MakeDirs(n - 1));
      OneAction(cfg, r.0, r.1, MakeDir);
    }
  }

  lemma OneAction(cfg: Config, fs: Fs, put: Put, action: Action)
    ensures var (fs', pc) := PutNext(cfg, fs, put, action);
            PutRun(cfg, fs, put, [action]) == (fs', put.(pc := pc))
  {
    assert [action][1..] == [];
  }

  lemma FinishedStays(cfg: Config, fs: Fs, put: Put, actions: seq<Action>)
    requires put.pc.Finished?
    ensures PutRun(cfg, fs, put, actions) == (fs, put)
    decreases |actions|
  {
    if actions != [] {
      assert put.(pc := put.pc) == put;
      FinishedStays(cfg, fs, put, actions[1..]);
    }
  }

  function Body(source: Bytes): seq<Action> {
    [CreateTemp, Copy(|source|), Verify, Commit, CleanUp]
  }

  lemma BodyIsPutInto(cfg: Config, fs: Fs, put: Put)
    requires put.pc == Creating
    ensures var (fs', result) := PutInto(cfg, fs, put.ref, put.source, put.size, put.ref.digest, put.path, put.temp);
            PutRun(cfg, fs, put, Body(put.source)) == (fs', put.(pc := Finished(result)))
  {
    var body := Body(put.source);
    assert body == [CreateTemp] + [Copy(|put.source|)] + [Verify] + [Commit] + [CleanUp];
    var a := PutNext(cfg, fs, put, CreateTemp);
    OneAction(cfg, fs, put, CreateTemp);
    if a.1.Finished? {
      PutRunConcat(cfg, fs, put, [CreateTemp], body[1..]);
      assert [CreateTemp] + body[1..] == body;
      FinishedStays(cfg, a.0, put.(pc := a.1), body[1..]);
    } else {
      BodyAfterCreate(cfg, a.0, put.(pc := a.1));
      PutRunConcat(cfg, fs, put, [CreateTemp], body[1..]);
      assert [CreateTemp] + body[1..] == body;
    }
  }

  lemma BodyAfterCreate(cfg: Config, fs: Fs, put: Put)
    requires put.pc.Copying? && put.pc.sent == 0
    ensures var filled := WriteAt(fs, put.pc.inode, 0, put.source);
            var (fs', result) := Concluded(cfg, filled, put.ref, put.source, put.size,
                                           put.ref.digest, put.path, put.temp);
            PutRun(cfg, fs, put, Body(put.source)[1..]) == (fs', put.(pc := Finished(result)))
  {
    var rest := Body(put.source)[1..];
    assert rest == [Copy(|put.source|)] + [Verify, Commit, CleanUp];
    assert put.source[0..|put.source|] == put.source;
    OneAction(cfg, fs, put, Copy(|put.source|));
    PutRunConcat(cfg, fs, put, [Copy(|put.source|)], [Verify, Commit, CleanUp]);
    var filled := WriteAt(fs, put.pc.inode, 0, put.source);
    var b := put.(pc := Copying(put.pc.inode, |put.source|));
    assert PutRun(cfg, fs, put, [Copy(|put.source|)]) == (filled, b);
    assert [Verify, Commit, CleanUp] == [Verify] + [Commit] + [CleanUp];
    OneAction(cfg, filled, b, Verify);
    var c := b.(pc := VerifyStep(cfg, b));
    PutRunConcat(cfg, filled, b, [Verify], [Commit, CleanUp]);
    assert [Verify] + [Commit, CleanUp] == [Verify, Commit, CleanUp];
    OneAction(cfg, filled, c, Commit);
    var d := PutNext(cfg, filled, c, Commit);
    PutRunConcat(cfg, filled, c, [Commit], [CleanUp]);
    assert [Commit] + [CleanUp] == [Commit, CleanUp];
    OneAction(cfg, d.0, c.(pc := d.1), CleanUp);
  }

  lemma FourSteps(cfg: Config, s: State, a: Step, b: Step)
    ensures Run(cfg, s, [a, b, b, b]) == Next(cfg, Next(cfg, Next(cfg, Next(cfg, s, a), b), b), b)
  {
    var steps := [a, b, b, b];
    assert steps[1..] == [b, b, b] && [b, b, b][1..] == [b, b] && [b, b][1..] == [b] && [b][1..] == [];
    var s1 := Next(cfg, s, a);
    var s2 := Next(cfg, s1, b);
    var s3 := Next(cfg, s2, b);
    assert Run(cfg, s3, [b]) == Next(cfg, s3, b);
    assert Run(cfg, s2, [b, b]) == Run(cfg, s3, [b]);
    assert Run(cfg, s1, [b, b, b]) == Run(cfg, s2, [b, b]);
  }

  lemma DeleteStepEffect(cfg: Config, s: State, id: nat)
    requires id in s.deletes && !s.deletes[id].pc.Deleted?
    ensures var d := s.deletes[id]; var (fs', removal) := Remove(s.fs, DeleteTarget(d));
            Next(cfg, s, DeleteStep(id))
              == s.(fs := fs', deletes := s.deletes[id := d.(pc := DeleteNext(d, removal))])
  {
  }

  lemma DeletedStays(cfg: Config, s: State, id: nat)
    requires id in s.deletes && s.deletes[id].pc.Deleted?
    ensures Next(cfg, s, DeleteStep(id)) == s
  {
  }

  /** A Delete alone, its removal and its two prunings one after the other, is the method's. */
  lemma SoloDeleteIsDeleteAlone(cfg: Config, s: State, id: nat, ref: PackageRef)
    requires id !in s.deletes
    ensures var t := Run(cfg, s, [BeginDelete(id, ref), DeleteStep(id), DeleteStep(id), DeleteStep(id)]);
            var (fs', ok) := DeleteAlone(s.fs, FullPath(cfg.root, ref));
            && t.fs == fs' && id in t.deletes && t.deletes[id].pc == Deleted(ok)
            && t.puts == s.puts && t.readers == s.readers
  {
    FourSteps(cfg, s, BeginDelete(id, ref), DeleteStep(id));
    var path := FullPath(cfg.root, ref);
    var s1 := s.(deletes := s.deletes[id := Delete(path, RemovingFile)]);
    var s2 := Next(cfg, s1, DeleteStep(id));
    assert Next(cfg, s, BeginDelete(id, ref)) == s1;
    DeleteStepEffect(cfg, s1, id);
    if Remove(s.fs, path).1.Refused? {
      DeletedStays(cfg, s2, id);
    } else {
      DeleteStepEffect(cfg, s2, id);
      DeleteStepEffect(cfg, Next(cfg, s2, DeleteStep(id)), id);
    }
  }

  lemma ReadsItAll(fs: Fs, path: Path)
    requires InodesOk(fs) && path in fs.files
    ensures ReadMore(fs, Reader(path, fs.files[path], []), |ContentAt(fs, path)|).got == ContentAt(fs, path)
  {
    var content := ContentAt(fs, path);
    assert [] + content[0..|content|] == content;
  }

  lemma OpenEffect(cfg: Config, s: State, id: nat, ref: PackageRef)
    requires id !in s.readers
    ensures var path := FullPath(cfg.root, ref);
            Next(cfg, s, Open(id, ref))
              == if path in s.fs.files then s.(readers := s.readers[id := Reader(path, s.fs.files[path], [])]) else s
  {
  }

  lemma ReadEffect(cfg: Config, s: State, id: nat, n: nat)
    requires id in s.readers && s.readers[id].inode in s.fs.data
    requires |s.readers[id].got| + n <= |s.fs.data[s.readers[id].inode]|
    ensures Next(cfg, s, Read(id, n)) == s.(readers := s.readers[id := ReadMore(s.fs, s.readers[id], n)])
  {
  }

  /** A Get alone that reads to the end has read the content of its file; it opens nothing else. */
  lemma SoloGetReadsTheFile(cfg: Config, s: State, id: nat, ref: PackageRef)
    requires InodesOk(s.fs) && id !in s.readers
    ensures var path := FullPath(cfg.root, ref); var begun := Next(cfg, s, Open(id, ref));
            && (id in begun.readers <==> path in s.fs.files)
            && (path in s.fs.files ==>
                  var t := Next(cfg, begun, Read(id, |ContentAt(s.fs, path)|));
                  id in t.readers && t.readers[id].got == ContentAt(s.fs, path) && t.fs == s.fs)
  {
    var path := FullPath(cfg.root, ref);
    OpenEffect(cfg, s, id, ref);
    if path in s.fs.files {
      ReadEffect(cfg, Next(cfg, s, Open(id, ref)), id, |ContentAt(s.fs, path)|);
      ReadsItAll(s.fs, path);
    }
  }

  /** A Put alone, one system call after the other, is the Put of the method. */
  lemma SoloPutIsPutAlone(cfg: Config, s: State, id: nat, ref: PackageRef, source: Bytes, size: int, stamp: Stamp)
    requires TreeOk(s.fs) && Path(FullPath(cfg.root, ref).rooted, []) in s.fs.dirs && id !in s.puts
    ensures var put := Start(cfg, ref, source, size, stamp);
            var actions := MakeDirs(|Parent(put.path).elems|) + [MakeDir] + Body(source);
            var t := Run(cfg, s, [BeginPut(id, ref, source, size, stamp)] + PutSteps(id, actions));
            var (fs', result) := PutAlone(cfg, s.fs, ref, source, size, ref.digest, stamp);
            t.fs == fs' && id in t.puts && t.puts[id].pc == Finished(result)
  {
    var put := Start(cfg, ref, source, size, stamp);
    var n := |Parent(put.path).elems|;
    var actions := MakeDirs(n) + [MakeDir] + Body(source);
    var steps := [BeginPut(id, ref, source, size, stamp)] + PutSteps(id, actions);
    var s' := Next(cfg, s, steps[0]);
    assert steps[1..] == PutSteps(id, actions);
    RunOfOnePut(cfg, s', id, actions);
    SoloActions(cfg, s.fs, ref, source, size, stamp);
  }

  lemma SoloActions(cfg: Config, fs: Fs, ref: PackageRef, source: Bytes, size: int, stamp: Stamp)
    requires TreeOk(fs) && Path(FullPath(cfg.root, ref).rooted, []) in fs.dirs
    ensures var put := Start(cfg, ref, source, size, stamp);
            var (fs', result) := PutAlone(cfg, fs, ref, source, size, ref.digest, stamp);
            PutRun(cfg, fs, put, MakeDirs(|Parent(put.path).elems|) + [MakeDir] + Body(source))
              == (fs', put.(pc := Finished(result)))
  {
    var put := Start(cfg, ref, source, size, stamp);
    var n := |Parent(put.path).elems|;
    if put.pc.Finished? {
      FinishedStays(cfg, fs, put, MakeDirs(n) + [MakeDir] + Body(source));
      assert put.(pc := put.pc) == put;
    } else {
      assert Prefix(put.path, n) == Parent(put.path);
      MakeDirsIsMkdirAll(cfg, fs, put, n);
      PutRunConcat(cfg, fs, put, MakeDirs(n), [MakeDir] + Body(source));
      assert MakeDirs(n) + ([MakeDir] + Body(source)) == MakeDirs(n) + [MakeDir] + Body(source);
      var (made, ok) := MkdirAll(fs, Parent(put.path));
      if ok {
        PutRunConcat(cfg, made, put.(pc := Making(n)), [MakeDir], Body(source));
        OneAction(cfg, made, put.(pc := Making(n)), MakeDir);
        BodyIsPutInto(cfg, made, put.(pc := Creating));
      } else {
        FinishedStays(cfg, made, put.(pc := Finished(Rejected(MkdirFailed))), [MakeDir] + Body(source));
      }
    }
  }
}
