/** The local backend under concurrency: any number of Put, Get and Delete calls, interleaved
    one system call at a time. Puts are made as the handlers make them, with the digest of the
    reference as checksum. */
module LocalProtocol {
  import opened Content
  import opened Paths
  import opened FileTree

  datatype PutError =
    MissingField | MkdirFailed | CreateFailed | WriteFailed | SizeMismatch | ChecksumMismatch | RenameFailed
  datatype PutResult = Stored(size: nat, key: string) | Rejected(error: PutError)

  /** Where a Put stands: its next system call, and what it holds. */
  datatype PutPc =
    | Making(depth: nat)
    | Creating
    | Copying(inode: nat, sent: nat)
    | Syncing(inode: nat)
    | Cleaning(result: PutResult)
    | Finished(result: PutResult)

  datatype Put = Put(ref: PackageRef, source: Bytes, size: int, path: Path, temp: Path, pc: PutPc)

  /** An open file and what has been read from it. */
  datatype Reader = Reader(path: Path, inode: nat, got: Bytes)

  datatype DeletePc = RemovingFile | PruningParent | PruningGrandparent | Deleted(ok: bool)
  datatype Delete = Delete(path: Path, pc: DeletePc)

  datatype State = State(fs: Fs, puts: map<nat, Put>, readers: map<nat, Reader>, deletes: map<nat, Delete>)

  datatype Config = Config(root: Root, sha: Sha256)

  datatype Action = MakeDir | CreateTemp | Copy(n: nat) | Verify | Fail | Commit | CleanUp

  datatype Step =
    | BeginPut(id: nat, ref: PackageRef, source: Bytes, size: int, stamp: Stamp)
    | PutStep(id: nat, action: Action)
    | Open(id: nat, ref: PackageRef)
    | Read(id: nat, n: nat)
    | BeginDelete(id: nat, ref: PackageRef)
    | DeleteStep(id: nat)

  predicate InFlight(put: Put) {
    !put.pc.Finished?
  }

  /** Past os.Create and not yet renamed. */
  predicate Writing(put: Put) {
    put.pc.Copying? || put.pc.Syncing?
  }

  // ---------------------------------------------------------------- steps

  function Start(cfg: Config, ref: PackageRef, source: Bytes, size: int, stamp: Stamp): Put {
    var path := FullPath(cfg.root, ref);
    var complete := ref.tenant != "" && ref.name != "" && ref.version != "" && ref.digest != "";
    Put(ref, source, size, path, TempPath(path, stamp),
        if complete then Making(0) else Finished(Rejected(MissingField)))
  }

  function MakeDirStep(fs: Fs, put: Put): (Fs, PutPc)
    requires put.pc.Making?
  {
    if put.pc.depth >= |Parent(put.path).elems| then (fs, Creating)
    else match Mkdir(fs, Prefix(put.path, put.pc.depth + 1))
      case None => (fs, Finished(Rejected(MkdirFailed)))
      case Some(fs') => (fs', Making(put.pc.depth + 1))
  }

  function CreateStep(fs: Fs, put: Put): (Fs, PutPc) {
    match Create(fs, put.temp)
    case None => (fs, Finished(Rejected(CreateFailed)))
    case Some((fs', inode)) => (fs', Copying(inode, 0))
  }

  function CopyStep(fs: Fs, put: Put, n: nat): (Fs, PutPc)
    requires put.pc.Copying? && put.pc.sent + n <= |put.source|
  {
    (WriteAt(fs, put.pc.inode, put.pc.sent, put.source[put.pc.sent..put.pc.sent + n]),
     put.pc.(sent := put.pc.sent + n))
  }

  /** The checks at the end of the stream; they look at the stream and not at the file. */
  function VerifyStep(cfg: Config, put: Put): PutPc
    requires put.pc.Copying?
  {
    if put.size > 0 && |put.source| != put.size then Cleaning(Rejected(SizeMismatch))
    else if Checksum(cfg.sha, put.source) != put.ref.digest then Cleaning(Rejected(ChecksumMismatch))
    else Syncing(put.pc.inode)
  }

  /** An error of mkdir, create, write, fsync or close. */
  function FailStep(put: Put): PutPc {
    match put.pc
    case Making(_) => Finished(Rejected(MkdirFailed))
    case Creating => Finished(Rejected(CreateFailed))
    case Copying(_, _) => Cleaning(Rejected(WriteFailed))
    case Syncing(_) => Cleaning(Rejected(WriteFailed))
    case _ => put.pc
  }

  function CommitStep(fs: Fs, put: Put): (Fs, PutPc) {
    match Rename(fs, put.temp, put.path)
    case None => (fs, Cleaning(Rejected(RenameFailed)))
    case Some(fs') => (fs', Cleaning(Stored(|put.source|, Key(put.ref))))
  }

  function DeleteTarget(d: Delete): Path {
    if d.pc.RemovingFile? then d.path
    else if d.pc.PruningParent? then Parent(d.path)
    else Parent(Parent(d.path))
  }

  function DeleteNext(d: Delete, removal: Removal): DeletePc {
    match d.pc
    case RemovingFile => if removal.Refused? then Deleted(false) else PruningParent
    case PruningParent => PruningGrandparent
    case PruningGrandparent => Deleted(true)
    case Deleted(_) => d.pc
  }

  /** The next system call of a Put. An action that is not its next one changes nothing. */
  function PutNext(cfg: Config, fs: Fs, put: Put, action: Action): (Fs, PutPc) {
    match action
    case MakeDir => if put.pc.Making? then MakeDirStep(fs, put) else (fs, put.pc)
    case CreateTemp => if put.pc.Creating? then CreateStep(fs, put) else (fs, put.pc)
    case Copy(n) =>
      if put.pc.Copying? && put.pc.sent + n <= |put.source| then CopyStep(fs, put, n) else (fs, put.pc)
    case Verify =>
      if put.pc.Copying? && put.pc.sent == |put.source| then (fs, VerifyStep(cfg, put)) else (fs, put.pc)
    case Fail => (fs, FailStep(put))
    case Commit => if put.pc.Syncing? then CommitStep(fs, put) else (fs, put.pc)
    case CleanUp =>
      if put.pc.Cleaning? then (Remove(fs, put.temp).0, Finished(put.pc.result)) else (fs, put.pc)
  }

  function Moved(s: State, id: nat, r: (Fs, PutPc)): State
    requires id in s.puts
  {
    s.(fs := r.0, puts := s.puts[id := s.puts[id].(pc := r.1)])
  }

  function Next(cfg: Config, s: State, step: Step): State {
    match step
    case BeginPut(id, ref, source, size, stamp) =>
      if id in s.puts then s else s.(puts := s.puts[id := Start(cfg, ref, source, size, stamp)])
    case PutStep(id, action) =>
      if id in s.puts then Moved(s, id, PutNext(cfg, s.fs, s.puts[id], action)) else s
    case Open(id, ref) =>
      var path := FullPath(cfg.root, ref);
      if id !in s.readers && path in s.fs.files
      then s.(readers := s.readers[id := Reader(path, s.fs.files[path], [])]) else s
    case Read(id, n) =>
      if id in s.readers && s.readers[id].inode in s.fs.data
         && |s.readers[id].got| + n <= |s.fs.data[s.readers[id].inode]|
      then s.(readers := s.readers[id := ReadMore(s.fs, s.readers[id], n)]) else s
    case BeginDelete(id, ref) =>
      if id in s.deletes then s else s.(deletes := s.deletes[id := Delete(FullPath(cfg.root, ref), RemovingFile)])
    case DeleteStep(id) =>
      if id in s.deletes && !s.deletes[id].pc.Deleted?
      then var d := s.deletes[id];
           var (fs', removal) := Remove(s.fs, DeleteTarget(d));
           s.(fs := fs', deletes := s.deletes[id := d.(pc := DeleteNext(d, removal))])
      else s
  }

  function ReadMore(fs: Fs, r: Reader, n: nat): Reader
    requires r.inode in fs.data && |r.got| + n <= |fs.data[r.inode]|
  {
    r.(got := r.got + fs.data[r.inode][|r.got|..|r.got| + n])
  }

  function Run(cfg: Config, s: State, steps: seq<Step>): State
    decreases |steps|
  {
    if steps == [] then s else Run(cfg, Next(cfg, s, steps[0]), steps[1..])
  }

  /** The hypothesis on schedules: a Put starts only when no unfinished Put uses its temporary file. */
  ghost predicate TempIsFree(cfg: Config, s: State, step: Step) {
    step.BeginPut? ==>
      forall i | i in s.puts && InFlight(s.puts[i]) ::
        s.puts[i].temp != TempPath(FullPath(cfg.root, step.ref), step.stamp)
  }

  ghost predicate Disciplined(cfg: Config, s: State, steps: seq<Step>)
    decreases |steps|
  {
    steps != [] ==> TempIsFree(cfg, s, steps[0]) && Disciplined(cfg, Next(cfg, s, steps[0]), steps[1..])
  }

  // ---------------------------------------------------------------- invariant

  ghost predicate TempsDistinct(puts: map<nat, Put>) {
    forall i, j | i in puts && j in puts && i != j && InFlight(puts[i]) && InFlight(puts[j]) ::
      puts[i].temp != puts[j].temp
  }

  /** The inode that a Put is filling is reachable by no name but its temporary one. */
  ghost predicate Owns(fs: Fs, temp: Path, inode: nat) {
    && inode in fs.data
    && (forall p | p in fs.files && fs.files[p] == inode :: p == temp)
    && (temp in fs.files ==> fs.files[temp] == inode)
  }

  ghost predicate PutOk(cfg: Config, fs: Fs, put: Put) {
    && put.path == FullPath(cfg.root, put.ref)
    && !Committed(put.temp)
    && (Writing(put) ==> Owns(fs, put.temp, put.pc.inode))
    && (put.pc.Copying? ==> put.pc.sent <= |put.source| && fs.data[put.pc.inode] == put.source[..put.pc.sent])
    && (put.pc.Syncing? ==> fs.data[put.pc.inode] == put.source && Checksum(cfg.sha, put.source) == put.ref.digest)
    && ((put.pc.Cleaning? || put.pc.Finished?) && put.pc.result.Stored? ==>
          && put.pc.result == Stored(|put.source|, Key(put.ref))
          && Checksum(cfg.sha, put.source) == put.ref.digest)
  }

  ghost predicate PutsOk(cfg: Config, fs: Fs, puts: map<nat, Put>) {
    forall i | i in puts :: PutOk(cfg, fs, puts[i])
  }

  ghost predicate InodesUnshared(puts: map<nat, Put>) {
    forall i, j | i in puts && j in puts && i != j && Writing(puts[i]) && Writing(puts[j]) ::
      puts[i].pc.inode != puts[j].pc.inode
  }

  /** Every committed file hashes to its own name. */
  ghost predicate Verified(sha: Sha256, fs: Fs) {
    forall p | p in fs.files && Committed(p) :: sha(ContentAt(fs, p)) == Last(p)
  }

  /** A reader of a committed file has read a prefix of bytes that hash to the file's name,
      and no name leads from its inode to a temporary file. */
  ghost predicate ReaderOk(sha: Sha256, fs: Fs, r: Reader) {
    Committed(r.path) ==>
      && r.inode in fs.data
      && sha(fs.data[r.inode]) == Last(r.path)
      && r.got <= fs.data[r.inode]
      && (forall p | p in fs.files && fs.files[p] == r.inode :: Committed(p))
  }

  ghost predicate Untouched(puts: map<nat, Put>, r: Reader) {
    Committed(r.path) ==> forall i | i in puts && Writing(puts[i]) :: puts[i].pc.inode != r.inode
  }

  ghost predicate ReadersOk(sha: Sha256, s: State) {
    forall i | i in s.readers :: ReaderOk(sha, s.fs, s.readers[i]) && Untouched(s.puts, s.readers[i])
  }

  ghost predicate Inv(cfg: Config, s: State) {
    && TreeOk(s.fs) && InodesOk(s.fs) && Verified(cfg.sha, s.fs)
    && TempsDistinct(s.puts) && PutsOk(cfg, s.fs, s.puts) && InodesUnshared(s.puts)
    && ReadersOk(cfg.sha, s)
  }

  // ---------------------------------------------------------------- one Put moves

  lemma TempsUpdate(puts: map<nat, Put>, id: nat, put: Put)
    requires TempsDistinct(puts) && id in puts
    requires put.temp == puts[id].temp && (InFlight(put) ==> InFlight(puts[id]))
    ensures TempsDistinct(puts[id := put])
  {
  }

  lemma InodesUpdate(puts: map<nat, Put>, id: nat, put: Put)
    requires InodesUnshared(puts) && id in puts
    requires Writing(put) ==> forall i | i in puts && i != id && Writing(puts[i]) :: puts[i].pc.inode != put.pc.inode
    ensures InodesUnshared(puts[id := put])
  {
  }

  lemma PutsUpdate(cfg: Config, fs: Fs, puts: map<nat, Put>, id: nat, put: Put)
    requires forall i | i in puts && i != id :: PutOk(cfg, fs, puts[i])
    requires PutOk(cfg, fs, put)
    ensures PutsOk(cfg, fs, puts[id := put])
  {
  }

  lemma ReadersUpdate(sha: Sha256, s: State, fs: Fs, id: nat, put: Put)
    requires forall i | i in s.readers :: ReaderOk(sha, fs, s.readers[i]) && Untouched(s.puts, s.readers[i])
    requires Writing(put) ==> forall i | i in s.readers && Committed(s.readers[i].path) ::
               s.readers[i].inode != put.pc.inode
    ensures ReadersOk(sha, s.(fs := fs, puts := s.puts[id := put]))
  {
    var s' := s.(fs := fs, puts := s.puts[id := put]);
    forall i | i in s'.readers
      ensures ReaderOk(sha, fs, s'.readers[i]) && Untouched(s'.puts, s'.readers[i])
    {
      assert Untouched(s.puts, s.readers[i]);
    }
  }

  /** One Put moves, the tree with it, and everybody else keeps their part of the invariant. */
  lemma MoveKeepsInv(cfg: Config, s: State, id: nat, fs: Fs, put: Put)
    requires Inv(cfg, s) && id in s.puts
    requires TreeOk(fs) && InodesOk(fs) && Verified(cfg.sha, fs) && PutOk(cfg, fs, put)
    requires put.temp == s.puts[id].temp && (InFlight(put) ==> InFlight(s.puts[id]))
    requires forall i | i in s.puts && i != id :: PutOk(cfg, fs, s.puts[i])
    requires forall i | i in s.readers :: ReaderOk(cfg.sha, fs, s.readers[i])
    requires Writing(put) ==> forall i | i in s.puts && i != id && Writing(s.puts[i]) ::
               s.puts[i].pc.inode != put.pc.inode
    requires Writing(put) ==> forall i | i in s.readers && Committed(s.readers[i].path) ::
               s.readers[i].inode != put.pc.inode
    ensures Inv(cfg, s.(fs := fs, puts := s.puts[id := put]))
  {
    TempsUpdate(s.puts, id, put);
    InodesUpdate(s.puts, id, put);
    PutsUpdate(cfg, fs, s.puts, id, put);
    ReadersUpdate(cfg.sha, s, fs, id, put);
  }

  /** The inode of a writing Put is nobody else's. */
  lemma OwnInode(cfg: Config, s: State, id: nat)
    requires Inv(cfg, s) && id in s.puts && Writing(s.puts[id])
    ensures forall i | i in s.puts && i != id && Writing(s.puts[i]) :: s.puts[i].pc.inode != s.puts[id].pc.inode
    ensures forall i | i in s.readers && Committed(s.readers[i].path) :: s.readers[i].inode != s.puts[id].pc.inode
  {
    forall i | i in s.readers && Committed(s.readers[i].path)
      ensures s.readers[i].inode != s.puts[id].pc.inode
    {
      assert Untouched(s.puts, s.readers[i]);
    }
  }

  /** Only the program counter of one Put changes, and it gains no inode. */
  lemma PcKeepsInv(cfg: Config, s: State, id: nat, pc: PutPc)
    requires Inv(cfg, s) && id in s.puts && InFlight(s.puts[id])
    requires PutOk(cfg, s.fs, s.puts[id].(pc := pc))
    requires pc.Copying? || pc.Syncing? ==> Writing(s.puts[id]) && pc.inode == s.puts[id].pc.inode
    ensures Inv(cfg, Moved(s, id, (s.fs, pc)))
  {
    if Writing(s.puts[id]) {
      OwnInode(cfg, s, id);
    }
    MoveKeepsInv(cfg, s, id, s.fs, s.puts[id].(pc := pc));
  }

  lemma AddPutKeepsInv(cfg: Config, s: State, id: nat, put: Put)
    requires Inv(cfg, s) && id !in s.puts && PutOk(cfg, s.fs, put) && !Writing(put)
    requires forall i | i in s.puts && InFlight(s.puts[i]) :: s.puts[i].temp != put.temp
    ensures Inv(cfg, s.(puts := s.puts[id := put]))
  {
    TempsAdd(s.puts, id, put);
    InodesAdd(s.puts, id, put);
    PutsUpdate(cfg, s.fs, s.puts, id, put);
    ReadersUpdate(cfg.sha, s, s.fs, id, put);
    assert s.(fs := s.fs, puts := s.puts[id := put]) == s.(puts := s.puts[id := put]);
  }

  lemma TempsAdd(puts: map<nat, Put>, id: nat, put: Put)
    requires TempsDistinct(puts) && id !in puts
    requires forall i | i in puts && InFlight(puts[i]) :: puts[i].temp != put.temp
    ensures TempsDistinct(puts[id := put])
  {
  }

  lemma InodesAdd(puts: map<nat, Put>, id: nat, put: Put)
    requires InodesUnshared(puts) && id !in puts && !Writing(put)
    ensures InodesUnshared(puts[id := put])
  {
  }

  lemma StartIsOk(cfg: Config, fs: Fs, ref: PackageRef, source: Bytes, size: int, stamp: Stamp)
    ensures PutOk(cfg, fs, Start(cfg, ref, source, size, stamp))
  {
    var path := FullPath(cfg.root, ref);
    ParseIsCanonical(JoinPath([cfg.root, Key(ref)]));
    assert NoSlash(stamp) by { assert forall i | 0 <= i < |stamp| :: IsHexDigit(stamp[i]); }
    TempIsNotCommitted(path, stamp);
  }

  // ---------------------------------------------------------------- the tree moves

  /** Names disappear and nothing else changes. */
  lemma FewerNamesKeepInv(cfg: Config, s: State, fs': Fs)
    requires Inv(cfg, s) && TreeOk(fs') && InodesOk(fs')
    requires fs'.data == s.fs.data
    requires forall p | p in fs'.files :: p in s.fs.files && fs'.files[p] == s.fs.files[p]
    ensures Inv(cfg, s.(fs := fs'))
  {
    forall i | i in s.puts
      ensures PutOk(cfg, fs', s.puts[i])
    {
      assert PutOk(cfg, s.fs, s.puts[i]);
    }
    forall i | i in s.readers
      ensures ReaderOk(cfg.sha, fs', s.readers[i])
    {
      assert ReaderOk(cfg.sha, s.fs, s.readers[i]);
    }
    assert Verified(cfg.sha, fs') by {
      forall p | p in fs'.files && Committed(p)
        ensures cfg.sha(ContentAt(fs', p)) == Last(p)
      {
        assert ContentAt(fs', p) == ContentAt(s.fs, p);
      }
    }
  }

  lemma RemoveKeepsInv(cfg: Config, s: State, p: Path)
    requires Inv(cfg, s)
    ensures Inv(cfg, s.(fs := Remove(s.fs, p).0))
  {
    RemoveKeeps(s.fs, p);
    FewerNamesKeepInv(cfg, s, Remove(s.fs, p).0);
  }

  lemma CreateFresh(fs: Fs, temp: Path, t: Path, inode: nat)
    requires InodesOk(fs) && Owns(fs, t, inode) && t != temp && Create(fs, temp).Some?
    ensures Create(fs, temp).value.1 != inode && Owns(Create(fs, temp).value.0, t, inode)
  {
  }

  lemma CreateKeepsVerified(sha: Sha256, fs: Fs, temp: Path)
    requires InodesOk(fs) && Verified(sha, fs) && !Committed(temp) && Create(fs, temp).Some?
    ensures Verified(sha, Create(fs, temp).value.0)
  {
    var (fs', inode) := Create(fs, temp).value;
    forall p | p in fs'.files && Committed(p)
      ensures sha(ContentAt(fs', p)) == Last(p)
    {
      assert p != temp && fs.files[p] != inode;
      assert ContentAt(fs', p) == ContentAt(fs, p);
    }
  }

  lemma CreateKeepsReader(sha: Sha256, fs: Fs, temp: Path, r: Reader)
    requires InodesOk(fs) && ReaderOk(sha, fs, r) && !Committed(temp) && Create(fs, temp).Some?
    ensures ReaderOk(sha, Create(fs, temp).value.0, r)
    ensures Committed(r.path) ==> r.inode != Create(fs, temp).value.1
  {
  }

  lemma CreateKeepsPut(cfg: Config, fs: Fs, temp: Path, put: Put)
    requires InodesOk(fs) && PutOk(cfg, fs, put) && Create(fs, temp).Some? && (InFlight(put) ==> put.temp != temp)
    ensures PutOk(cfg, Create(fs, temp).value.0, put)
    ensures Writing(put) ==> put.pc.inode != Create(fs, temp).value.1
  {
    if Writing(put) {
      CreateFresh(fs, temp, put.temp, put.pc.inode);
    }
  }

  lemma CreateKeepsInv(cfg: Config, s: State, id: nat)
    requires Inv(cfg, s) && id in s.puts && s.puts[id].pc.Creating? && Create(s.fs, s.puts[id].temp).Some?
    ensures Inv(cfg, Moved(s, id, CreateStep(s.fs, s.puts[id])))
  {
    var temp := s.puts[id].temp;
    var (fs', inode) := Create(s.fs, temp).value;
    var put := s.puts[id].(pc := Copying(inode, 0));
    assert PutOk(cfg, s.fs, s.puts[id]);
    CreateKeepsVerified(cfg.sha, s.fs, temp);
    forall i | i in s.puts && i != id
      ensures PutOk(cfg, fs', s.puts[i])
      ensures Writing(s.puts[i]) ==> s.puts[i].pc.inode != inode
    {
      CreateKeepsPut(cfg, s.fs, temp, s.puts[i]);
    }
    forall i | i in s.readers
      ensures ReaderOk(cfg.sha, fs', s.readers[i])
      ensures Committed(s.readers[i].path) ==> s.readers[i].inode != inode
    {
      CreateKeepsReader(cfg.sha, s.fs, temp, s.readers[i]);
    }
    MoveKeepsInv(cfg, s, id, fs', put);
  }

  lemma OverwriteAppends(was: Bytes, chunk: Bytes)
    ensures Overwrite(was, |was|, chunk) == was + chunk
  {
  }

  /** Bytes go to an inode that only a temporary name reaches. */
  lemma FillKeepsVerified(sha: Sha256, fs: Fs, temp: Path, inode: nat, b: Bytes)
    requires InodesOk(fs) && Verified(sha, fs) && Owns(fs, temp, inode) && !Committed(temp)
    ensures Verified(sha, fs.(data := fs.data[inode := b])) && InodesOk(fs.(data := fs.data[inode := b]))
  {
    var fs' := fs.(data := fs.data[inode := b]);
    forall p | p in fs'.files && Committed(p)
      ensures sha(ContentAt(fs', p)) == Last(p)
    {
      assert fs.files[p] != inode;
      assert ContentAt(fs', p) == ContentAt(fs, p);
    }
  }

  lemma FillKeepsPut(cfg: Config, fs: Fs, inode: nat, b: Bytes, put: Put)
    requires PutOk(cfg, fs, put) && (Writing(put) ==> put.pc.inode != inode)
    ensures PutOk(cfg, fs.(data := fs.data[inode := b]), put)
  {
  }

  lemma FillKeepsReader(sha: Sha256, fs: Fs, inode: nat, b: Bytes, r: Reader)
    requires ReaderOk(sha, fs, r) && (Committed(r.path) ==> r.inode != inode)
    ensures ReaderOk(sha, fs.(data := fs.data[inode := b]), r)
  {
  }

  /** The tree after a write that appends to what the Put has sent. */
  lemma CopyFills(fs: Fs, put: Put, n: nat)
    requires put.pc.Copying? && put.pc.sent + n <= |put.source| && put.pc.inode in fs.data
    requires fs.data[put.pc.inode] == put.source[..put.pc.sent]
    ensures CopyStep(fs, put, n)
         == (fs.(data := fs.data[put.pc.inode := put.source[..put.pc.sent + n]]),
             Copying(put.pc.inode, put.pc.sent + n))
  {
    var sent := put.pc.sent;
    OverwriteAppends(put.source[..sent], put.source[sent..sent + n]);
    assert put.source[..sent] + put.source[sent..sent + n] == put.source[..sent + n];
  }

  lemma CopyKeepsInv(cfg: Config, s: State, id: nat, n: nat)
    requires Inv(cfg, s) && id in s.puts && s.puts[id].pc.Copying?
    requires s.puts[id].pc.sent + n <= |s.puts[id].source|
    ensures Inv(cfg, Moved(s, id, CopyStep(s.fs, s.puts[id], n)))
  {
    var was := s.puts[id];
    assert PutOk(cfg, s.fs, was);
    var sent, inode, src := was.pc.sent, was.pc.inode, was.source;
    CopyFills(s.fs, was, n);
    var fs' := s.fs.(data := s.fs.data[inode := src[..sent + n]]);
    var put := was.(pc := Copying(inode, sent + n));
    FillKeepsVerified(cfg.sha, s.fs, put.temp, inode, src[..sent + n]);
    forall i | i in s.puts && i != id
      ensures PutOk(cfg, fs', s.puts[i])
    {
      FillKeepsPut(cfg, s.fs, inode, src[..sent + n], s.puts[i]);
    }
    OwnInode(cfg, s, id);
    forall i | i in s.readers
      ensures ReaderOk(cfg.sha, fs', s.readers[i])
    {
      FillKeepsReader(cfg.sha, s.fs, inode, src[..sent + n], s.readers[i]);
    }
    MoveKeepsInv(cfg, s, id, fs', put);
  }

  /** The digest that passed the checks names the file. */
  lemma SyncingPath(cfg: Config, fs: Fs, put: Put)
    requires PutOk(cfg, fs, put) && Checksum(cfg.sha, put.source) == put.ref.digest
    ensures Committed(put.path) && Last(put.path) == cfg.sha(put.source)
  {
    ChecksumIsDigest(cfg.sha, put.source);
    DigestNamesFile(cfg.root, put.ref);
  }

  lemma RenameKeepsVerified(sha: Sha256, fs: Fs, temp: Path, path: Path)
    requires InodesOk(fs) && Verified(sha, fs) && Rename(fs, temp, path).Some?
    requires Committed(path) && sha(ContentAt(fs, temp)) == Last(path)
    ensures Verified(sha, Rename(fs, temp, path).value)
  {
    var fs' := Rename(fs, temp, path).value;
    forall p | p in fs'.files && Committed(p)
      ensures sha(ContentAt(fs', p)) == Last(p)
    {
      assert ContentAt(fs', p) == ContentAt(fs, if p == path then temp else p);
    }
  }

  lemma RenameKeepsPut(cfg: Config, fs: Fs, temp: Path, path: Path, put: Put)
    requires PutOk(cfg, fs, put) && Rename(fs, temp, path).Some? && Committed(path)
    requires Writing(put) ==> put.pc.inode != fs.files[temp]
    ensures PutOk(cfg, Rename(fs, temp, path).value, put)
  {
  }

  lemma RenameKeepsReader(sha: Sha256, fs: Fs, temp: Path, path: Path, r: Reader)
    requires ReaderOk(sha, fs, r) && Rename(fs, temp, path).Some? && Committed(path)
    ensures ReaderOk(sha, Rename(fs, temp, path).value, r)
  {
  }

  lemma CommitKeepsInv(cfg: Config, s: State, id: nat)
    requires Inv(cfg, s) && id in s.puts && s.puts[id].pc.Syncing?
    requires Rename(s.fs, s.puts[id].temp, s.puts[id].path).Some?
    ensures Inv(cfg, Moved(s, id, CommitStep(s.fs, s.puts[id])))
  {
    var temp, path := s.puts[id].temp, s.puts[id].path;
    assert PutOk(cfg, s.fs, s.puts[id]);
    SyncingPath(cfg, s.fs, s.puts[id]);
    assert ContentAt(s.fs, temp) == s.puts[id].source;
    RenameKeepsVerified(cfg.sha, s.fs, temp, path);
    RenameKeepsOthers(cfg, s, id, temp, path);
    var fs', put := Rename(s.fs, temp, path).value, s.puts[id];
    var pc := Cleaning(Stored(|put.source|, Key(put.ref)));
    assert CommitStep(s.fs, put) == (fs', pc);
    RenamedPutIsOk(cfg, s.fs, fs', put, pc);
    MoveKeepsInv(cfg, s, id, fs', put.(pc := pc));
  }

  lemma RenamedPutIsOk(cfg: Config, fs: Fs, fs': Fs, put: Put, pc: PutPc)
    requires PutOk(cfg, fs, put) && put.pc.Syncing? && pc == Cleaning(Stored(|put.source|, Key(put.ref)))
    ensures PutOk(cfg, fs', put.(pc := pc))
  {
  }

  lemma RenameKeepsOthers(cfg: Config, s: State, id: nat, temp: Path, path: Path)
    requires Inv(cfg, s) && id in s.puts && s.puts[id].pc.Syncing? && s.puts[id].temp == temp
    requires Committed(path) && Rename(s.fs, temp, path).Some?
    ensures forall i | i in s.puts && i != id :: PutOk(cfg, Rename(s.fs, temp, path).value, s.puts[i])
    ensures forall i | i in s.readers :: ReaderOk(cfg.sha, Rename(s.fs, temp, path).value, s.readers[i])
  {
    assert PutOk(cfg, s.fs, s.puts[id]);
    OwnInode(cfg, s, id);
    forall i | i in s.puts && i != id
      ensures PutOk(cfg, Rename(s.fs, temp, path).value, s.puts[i])
    {
      RenameKeepsPut(cfg, s.fs, temp, path, s.puts[i]);
    }
    forall i | i in s.readers
      ensures ReaderOk(cfg.sha, Rename(s.fs, temp, path).value, s.readers[i])
    {
      RenameKeepsReader(cfg.sha, s.fs, temp, path, s.readers[i]);
    }
  }

  lemma MakeDirShape(fs: Fs, put: Put)
    requires put.pc.Making? && TreeOk(fs) && InodesOk(fs)
    ensures var (fs', pc) := MakeDirStep(fs, put);
            && TreeOk(fs') && InodesOk(fs') && fs'.files == fs.files && fs'.data == fs.data
            && (pc.Making? || pc == Creating || pc == Finished(Rejected(MkdirFailed)))
  {
  }

  lemma MakeDirKeepsInv(cfg: Config, s: State, id: nat)
    requires Inv(cfg, s) && id in s.puts && s.puts[id].pc.Making?
    ensures Inv(cfg, Moved(s, id, MakeDirStep(s.fs, s.puts[id])))
  {
    MakeDirShape(s.fs, s.puts[id]);
    var (fs', pc) := MakeDirStep(s.fs, s.puts[id]);
    FewerNamesKeepInv(cfg, s, fs');
    EarlyPc(cfg, fs', s.puts[id], pc);
    PcKeepsInv(cfg, s.(fs := fs'), id, pc);
  }

  lemma EarlyPc(cfg: Config, fs: Fs, put: Put, pc: PutPc)
    requires PutOk(cfg, fs, put)
    requires pc.Making? || pc == Creating || pc == Finished(Rejected(MkdirFailed))
    ensures PutOk(cfg, fs, put.(pc := pc))
  {
  }

  lemma CleanUpKeepsInv(cfg: Config, s: State, id: nat)
    requires Inv(cfg, s) && id in s.puts && s.puts[id].pc.Cleaning?
    ensures Inv(cfg, Moved(s, id, (Remove(s.fs, s.puts[id].temp).0, Finished(s.puts[id].pc.result))))
  {
    var put := s.puts[id];
    var fs' := Remove(s.fs, put.temp).0;
    RemoveKeepsInv(cfg, s, put.temp);
    var cleaned := s.(fs := fs');
    assert PutOk(cfg, cleaned.fs, cleaned.puts[id]);
    FinishedIsOk(cfg, fs', put);
    PcKeepsInv(cfg, cleaned, id, Finished(put.pc.result));
  }

  lemma FinishedIsOk(cfg: Config, fs: Fs, put: Put)
    requires PutOk(cfg, fs, put) && put.pc.Cleaning?
    ensures PutOk(cfg, fs, put.(pc := Finished(put.pc.result)))
  {
  }

  lemma OpenKeepsInv(cfg: Config, s: State, id: nat, path: Path)
    requires Inv(cfg, s) && path in s.fs.files
    ensures Inv(cfg, s.(readers := s.readers[id := Reader(path, s.fs.files[path], [])]))
  {
    var r := Reader(path, s.fs.files[path], []);
    if Committed(path) {
      assert ContentAt(s.fs, path) == s.fs.data[r.inode];
      forall i | i in s.puts && Writing(s.puts[i])
        ensures s.puts[i].pc.inode != r.inode
      {
        assert PutOk(cfg, s.fs, s.puts[i]);
      }
    }
    assert ReaderOk(cfg.sha, s.fs, r) && Untouched(s.puts, r);
  }

  lemma ReadKeepsInv(cfg: Config, s: State, id: nat, n: nat)
    requires Inv(cfg, s) && id in s.readers && s.readers[id].inode in s.fs.data
    requires |s.readers[id].got| + n <= |s.fs.data[s.readers[id].inode]|
    ensures Inv(cfg, s.(readers := s.readers[id := ReadMore(s.fs, s.readers[id], n)]))
  {
    var r := s.readers[id];
    assert ReaderOk(cfg.sha, s.fs, r) && Untouched(s.puts, r);
    ReadMoreIsOk(cfg.sha, s.fs, r, n);
    ReaderKeepsInv(cfg, s, id, ReadMore(s.fs, r, n));
  }

  lemma ReadMoreIsOk(sha: Sha256, fs: Fs, r: Reader, n: nat)
    requires ReaderOk(sha, fs, r) && r.inode in fs.data && |r.got| + n <= |fs.data[r.inode]|
    ensures ReaderOk(sha, fs, ReadMore(fs, r, n))
  {
    var b, k := fs.data[r.inode], |r.got|;
    if Committed(r.path) {
      assert r.got == b[..k];
      assert b[..k] + b[k..k + n] == b[..k + n];
    }
  }

  lemma ReaderKeepsInv(cfg: Config, s: State, id: nat, r: Reader)
    requires Inv(cfg, s) && ReaderOk(cfg.sha, s.fs, r) && Untouched(s.puts, r)
    ensures Inv(cfg, s.(readers := s.readers[id := r]))
  {
  }

  predicate QuietPc(cfg: Config, put: Put, pc: PutPc) {
    || pc == put.pc
    || pc == FailStep(put)
    || (put.pc.Creating? && pc == Finished(Rejected(CreateFailed)))
    || (put.pc.Syncing? && pc == Cleaning(Rejected(RenameFailed)))
    || (put.pc.Copying? && put.pc.sent == |put.source| && pc == VerifyStep(cfg, put))
  }

  /** The steps of a Put that leave the tree alone. */
  lemma QuietKeepsInv(cfg: Config, s: State, id: nat, pc: PutPc)
    requires Inv(cfg, s) && id in s.puts
    requires QuietPc(cfg, s.puts[id], pc)
    ensures Inv(cfg, Moved(s, id, (s.fs, pc)))
  {
    var put := s.puts[id];
    if pc == put.pc {
      assert s.puts[id := put.(pc := pc)] == s.puts;
    } else {
      QuietPcIsOk(cfg, s.fs, put, pc);
      PcKeepsInv(cfg, s, id, pc);
    }
  }

  lemma QuietPcIsOk(cfg: Config, fs: Fs, put: Put, pc: PutPc)
    requires PutOk(cfg, fs, put) && pc != put.pc && QuietPc(cfg, put, pc)
    ensures PutOk(cfg, fs, put.(pc := pc)) && InFlight(put)
    ensures pc.Copying? || pc.Syncing? ==> Writing(put) && pc.inode == put.pc.inode
  {
    assert put.source[..|put.source|] == put.source;
  }

  lemma DirStepsKeepInv(cfg: Config, s: State, id: nat, action: Action)
    requires Inv(cfg, s) && id in s.puts && (action.MakeDir? || action.CreateTemp?)
    ensures Inv(cfg, Moved(s, id, PutNext(cfg, s.fs, s.puts[id], action)))
  {
    var put := s.puts[id];
    if action.MakeDir? && put.pc.Making? { MakeDirKeepsInv(cfg, s, id); }
    else if action.CreateTemp? && put.pc.Creating? {
      if Create(s.fs, put.temp).Some? { CreateKeepsInv(cfg, s, id); }
      else { QuietKeepsInv(cfg, s, id, Finished(Rejected(CreateFailed))); }
    } else { QuietKeepsInv(cfg, s, id, put.pc); }
  }

  /** What an action that copies nothing makes of the tree and of its Put. */
  lemma QuietNext(cfg: Config, fs: Fs, put: Put, action: Action)
    requires || action.Verify? || action.Fail?
             || (action.Copy? && !(put.pc.Copying? && put.pc.sent + action.n <= |put.source|))
    ensures PutNext(cfg, fs, put, action).0 == fs && QuietPc(cfg, put, PutNext(cfg, fs, put, action).1)
  {
  }

  lemma StreamStepsKeepInv(cfg: Config, s: State, id: nat, action: Action)
    requires Inv(cfg, s) && id in s.puts && (action.Copy? || action.Verify? || action.Fail?)
    ensures Inv(cfg, Moved(s, id, PutNext(cfg, s.fs, s.puts[id], action)))
  {
    var put := s.puts[id];
    if action.Copy? && put.pc.Copying? && put.pc.sent + action.n <= |put.source| {
      CopyKeepsInv(cfg, s, id, action.n);
    } else {
      QuietNext(cfg, s.fs, put, action);
      var r := PutNext(cfg, s.fs, put, action);
      QuietKeepsInv(cfg, s, id, r.1);
      assert r == (s.fs, r.1);
    }
  }

  lemma LastStepsKeepInv(cfg: Config, s: State, id: nat, action: Action)
    requires Inv(cfg, s) && id in s.puts && (action.Commit? || action.CleanUp?)
    ensures Inv(cfg, Moved(s, id, PutNext(cfg, s.fs, s.puts[id], action)))
  {
    var put := s.puts[id];
    if action.CleanUp? && put.pc.Cleaning? { CleanUpKeepsInv(cfg, s, id); }
    else if action.Commit? && put.pc.Syncing? {
      if Rename(s.fs, put.temp, put.path).Some? { CommitKeepsInv(cfg, s, id); }
      else { QuietKeepsInv(cfg, s, id, Cleaning(Rejected(RenameFailed))); }
    } else { QuietKeepsInv(cfg, s, id, put.pc); }
  }

  lemma PutStepKeepsInv(cfg: Config, s: State, id: nat, action: Action)
    requires Inv(cfg, s) && id in s.puts
    ensures Inv(cfg, Moved(s, id, PutNext(cfg, s.fs, s.puts[id], action)))
  {
    if action.MakeDir? || action.CreateTemp? { DirStepsKeepInv(cfg, s, id, action); }
    else if action.Commit? || action.CleanUp? { LastStepsKeepInv(cfg, s, id, action); }
    else { StreamStepsKeepInv(cfg, s, id, action); }
  }

  lemma NextKeepsInv(cfg: Config, s: State, step: Step)
    requires Inv(cfg, s) && TempIsFree(cfg, s, step)
    ensures Inv(cfg, Next(cfg, s, step))
  {
    if Next(cfg, s, step) == s { return; }
    match step
    case BeginPut(id, ref, source, size, stamp) =>
      StartIsOk(cfg, s.fs, ref, source, size, stamp);
      AddPutKeepsInv(cfg, s, id, Start(cfg, ref, source, size, stamp));
    case PutStep(id, action) => PutStepKeepsInv(cfg, s, id, action);
    case Open(id, ref) => OpenKeepsInv(cfg, s, id, FullPath(cfg.root, ref));
    case Read(id, n) => ReadKeepsInv(cfg, s, id, n);
    case BeginDelete(id, ref) =>
    case DeleteStep(id) => RemoveKeepsInv(cfg, s, DeleteTarget(s.deletes[id]));
  }

  lemma {:induction false} RunKeepsInv(cfg: Config, s: State, steps: seq<Step>)
    requires Inv(cfg, s) && Disciplined(cfg, s, steps)
    ensures Inv(cfg, Run(cfg, s, steps))
    decreases |steps|
  {
    if steps != [] {
      NextKeepsInv(cfg, s, steps[0]);
      RunKeepsInv(cfg, Next(cfg, s, steps[0]), steps[1..]);
    }
  }

  // ---------------------------------------------------------------- what runs guarantee

  /** A store at rest: nothing in flight, and whatever is committed hashes to its name. */
  ghost predicate AtRest(cfg: Config, s: State) {
    && s.puts == map[] && s.readers == map[] && s.deletes == map[]
    && TreeOk(s.fs) && InodesOk(s.fs) && Verified(cfg.sha, s.fs)
  }

  lemma EveryCommittedFileIsVerified(cfg: Config, s: State, steps: seq<Step>)
    requires AtRest(cfg, s) && Disciplined(cfg, s, steps)
    ensures var t := Run(cfg, s, steps);
            && (forall p | p in t.fs.files && Committed(p) :: cfg.sha(ContentAt(t.fs, p)) == Last(p))
            && (forall i | i in t.puts :: !Committed(t.puts[i].temp))
            && (forall i | i in t.puts && t.puts[i].pc.Finished? && t.puts[i].pc.result.Stored? ::
                  Checksum(cfg.sha, t.puts[i].source) == t.puts[i].ref.digest)
  {
    RunKeepsInv(cfg, s, steps);
  }

  /** Whatever was renamed over or deleted since the file was opened, a reader that reaches the
      end has bytes that hash to the name it opened. */
  lemma EveryFinishedReadIsVerified(cfg: Config, s: State, steps: seq<Step>, id: nat)
    requires AtRest(cfg, s) && Disciplined(cfg, s, steps)
    requires var t := Run(cfg, s, steps); id in t.readers && Committed(t.readers[id].path)
    ensures var t := Run(cfg, s, steps); var r := t.readers[id];
            && r.inode in t.fs.data && r.got <= t.fs.data[r.inode]
            && (|r.got| == |t.fs.data[r.inode]| ==> cfg.sha(r.got) == Last(r.path))
  {
    RunKeepsInv(cfg, s, steps);
    var t := Run(cfg, s, steps);
    WholeRead(cfg.sha, t.fs, t.readers[id]);
  }

  lemma WholeRead(sha: Sha256, fs: Fs, r: Reader)
    requires ReaderOk(sha, fs, r) && Committed(r.path)
    ensures r.inode in fs.data && r.got <= fs.data[r.inode]
    ensures |r.got| == |fs.data[r.inode]| ==> sha(r.got) == Last(r.path)
  {
    if |r.got| == |fs.data[r.inode]| {
      assert r.got == fs.data[r.inode];
    }
  }

  /** A commit publishes exactly the stream of its Put and touches no other committed file. */
  lemma CommitPublishesItsStream(cfg: Config, fs: Fs, put: Put)
    requires InodesOk(fs) && PutOk(cfg, fs, put) && put.pc.Syncing?
    ensures var (fs', pc) := PutNext(cfg, fs, put, Commit);
            && (pc == Cleaning(Stored(|put.source|, Key(put.ref)))
                || (pc == Cleaning(Rejected(RenameFailed)) && fs' == fs))
            && (pc.result.Stored? ==> put.path in fs'.files && ContentAt(fs', put.path) == put.source)
            && (forall p | Committed(p) && p != put.path :: p in fs'.files <==> p in fs.files)
            && (forall p | Committed(p) && p != put.path && p in fs.files :: ContentAt(fs', p) == ContentAt(fs, p))
  {
    var r := Rename(fs, put.temp, put.path);
    if r.Some? {
      assert fs.files[put.temp] == put.pc.inode;
      assert ContentAt(fs, put.temp) == put.source;
      RenameKeepsContent(fs, put.temp, put.path);
    }
  }

  lemma RenameKeepsContent(fs: Fs, temp: Path, path: Path)
    requires InodesOk(fs) && Rename(fs, temp, path).Some? && !Committed(temp)
    ensures var fs' := Rename(fs, temp, path).value;
            && path in fs'.files && ContentAt(fs', path) == ContentAt(fs, temp)
            && (forall p | Committed(p) && p != path :: p in fs'.files <==> p in fs.files)
            && (forall p | Committed(p) && p != path && p in fs.files :: ContentAt(fs', p) == ContentAt(fs, p))
  {
  }

  // ---------------------------------------------------------------- pruning

  /** No Delete is about to remove the temporary file of an unfinished Put. */
  ghost predicate DeletesApart(s: State) {
    forall i, d | i in s.puts && InFlight(s.puts[i]) && d in s.deletes && !s.deletes[d].pc.Deleted? ::
      s.puts[i].temp != DeleteTarget(s.deletes[d])
  }

  /** The hypothesis on schedules with Deletes: they stay apart in every state on the way. */
  ghost predicate AlwaysApart(cfg: Config, s: State, steps: seq<Step>)
    decreases |steps|
  {
    DeletesApart(s) && (steps != [] ==> AlwaysApart(cfg, Next(cfg, s, steps[0]), steps[1..]))
  }

  /** A Put past its create step has its temporary file. */
  ghost predicate Anchored(s: State) {
    forall i | i in s.puts && Writing(s.puts[i]) :: s.puts[i].temp in s.fs.files
  }

  /** One removal takes the temporary file of a Put if and only if it is aimed at it. */
  lemma RemovalTakesItsTargetOnly(fs: Fs, temp: Path, target: Path)
    requires TreeOk(fs) && InodesOk(fs) && temp in fs.files
    ensures temp in Remove(fs, target).0.files <==> temp != target
  {
    RemoveKeeps(fs, target);
  }

  lemma DeleteKeepsAnchored(s: State, id: nat)
    requires TreeOk(s.fs) && InodesOk(s.fs) && Anchored(s) && DeletesApart(s)
    requires id in s.deletes && !s.deletes[id].pc.Deleted?
    ensures Anchored(s.(fs := Remove(s.fs, DeleteTarget(s.deletes[id])).0))
  {
    forall i | i in s.puts && Writing(s.puts[i])
      ensures s.puts[i].temp in Remove(s.fs, DeleteTarget(s.deletes[id])).0.files
    {
      RemovalTakesItsTargetOnly(s.fs, s.puts[i].temp, DeleteTarget(s.deletes[id]));
    }
  }

  lemma PutKeepsAnchored(cfg: Config, s: State, id: nat, action: Action)
    requires Inv(cfg, s) && Anchored(s) && id in s.puts
    ensures Anchored(Moved(s, id, PutNext(cfg, s.fs, s.puts[id], action)))
  {
    var t := Moved(s, id, PutNext(cfg, s.fs, s.puts[id], action));
    forall i | i in t.puts && Writing(t.puts[i])
      ensures t.puts[i].temp in t.fs.files
    {
      PutStepKeepsAnchor(cfg, s, id, action, i);
    }
  }

  lemma NextKeepsAnchored(cfg: Config, s: State, step: Step)
    requires Inv(cfg, s) && Anchored(s) && DeletesApart(s)
    ensures Anchored(Next(cfg, s, step))
  {
    if Next(cfg, s, step) == s { return; }
    match step
    case PutStep(id, action) => PutKeepsAnchored(cfg, s, id, action);
    case DeleteStep(id) => DeleteKeepsAnchored(s, id);
    case BeginPut(id, ref, source, size, stamp) =>
      StartIsNotWriting(cfg, ref, source, size, stamp);
      BeginKeepsAnchored(s, id, Start(cfg, ref, source, size, stamp));
    case Open(_, _) =>
    case Read(_, _) =>
    case BeginDelete(_, _) =>
  }

  lemma StartIsNotWriting(cfg: Config, ref: PackageRef, source: Bytes, size: int, stamp: Stamp)
    ensures !Writing(Start(cfg, ref, source, size, stamp))
  {
  }

  lemma BeginKeepsAnchored(s: State, id: nat, put: Put)
    requires Anchored(s) && !Writing(put)
    ensures Anchored(s.(puts := s.puts[id := put]))
  {
  }

  /** A Put's temporary file lies beside the file that it will become. */
  ghost predicate Beside(put: Put) {
    put.path.elems != [] ==> Parent(put.temp) == Parent(put.path)
  }

  ghost predicate AllBeside(s: State) {
    forall i | i in s.puts :: Beside(s.puts[i])
  }

  lemma StartIsBeside(cfg: Config, ref: PackageRef, source: Bytes, size: int, stamp: Stamp)
    ensures Beside(Start(cfg, ref, source, size, stamp))
  {
    var path := FullPath(cfg.root, ref);
    ParseIsCanonical(JoinPath([cfg.root, Key(ref)]));
    assert NoSlash(stamp) by { assert forall i | 0 <= i < |stamp| :: IsHexDigit(stamp[i]); }
    if path.elems != [] {
      TempShape(path, stamp);
      var e := Parent(path).elems;
      assert (e + [Last(path) + TempSuffix(stamp)])[..|e|] == e;
    }
  }

  lemma NextKeepsBeside(cfg: Config, s: State, step: Step)
    requires AllBeside(s)
    ensures AllBeside(Next(cfg, s, step))
  {
    if Next(cfg, s, step) == s { return; }
    match step
    case BeginPut(id, ref, source, size, stamp) => StartIsBeside(cfg, ref, source, size, stamp);
    case PutStep(id, action) => assert Beside(s.puts[id]);
    case _ =>
  }

  lemma {:induction false} RunKeepsAnchored(cfg: Config, s: State, steps: seq<Step>)
    requires Inv(cfg, s) && Anchored(s) && AllBeside(s) && Disciplined(cfg, s, steps) && AlwaysApart(cfg, s, steps)
    ensures var t := Run(cfg, s, steps); Inv(cfg, t) && Anchored(t) && AllBeside(t)
    decreases |steps|
  {
    if steps != [] {
      NextKeepsInv(cfg, s, steps[0]);
      NextKeepsAnchored(cfg, s, steps[0]);
      NextKeepsBeside(cfg, s, steps[0]);
      RunKeepsAnchored(cfg, Next(cfg, s, steps[0]), steps[1..]);
    }
  }

  /** However Deletes prune, as long as none is aimed at a temporary file in use, a Put past its
      create step keeps that file and the directory around it, and its rename goes through unless
      a directory has the name of its file. */
  lemma NoPutLosesItsDirectory(cfg: Config, s: State, steps: seq<Step>, id: nat)
    requires AtRest(cfg, s) && Disciplined(cfg, s, steps) && AlwaysApart(cfg, s, steps)
    requires id in Run(cfg, s, steps).puts && Writing(Run(cfg, s, steps).puts[id])
    ensures var t := Run(cfg, s, steps); var put := t.puts[id];
            && put.temp in t.fs.files && Parent(put.temp) in t.fs.dirs
            && (put.path.elems != [] ==> Parent(put.path) in t.fs.dirs)
            && (Rename(t.fs, put.temp, put.path).Some? <==> put.path.elems != [] && put.path !in t.fs.dirs)
  {
    RunKeepsAnchored(cfg, s, steps);
    var t := Run(cfg, s, steps);
    assert Beside(t.puts[id]) && t.puts[id].temp in t.fs.files;
  }

  /** The hypothesis is needed. A digest that goes on with the suffix of a temporary file leads to
      that file. */
  lemma DigestOfATemp(root: Root, ref: PackageRef, stamp: Stamp)
    requires Flat(ref) && HasPrefix(ref.digest, ALGORITHM)
    ensures FullPath(root, ref.(digest := ref.digest + TempSuffix(stamp))) == TempPath(FullPath(root, ref), stamp)
    ensures FullPath(root, ref.(digest := ref.digest + ".tmp." + stamp)) == TempPath(FullPath(root, ref), stamp)
  {
    var longer := ref.(digest := ref.digest + TempSuffix(stamp));
    assert ref.digest + TempSuffix(stamp) == ref.digest + ".tmp." + stamp;
    assert NoSlash(stamp) by { assert forall i | 0 <= i < |stamp| :: IsHexDigit(stamp[i]); }
    HexPartOfLonger(ref.digest, TempSuffix(stamp));
    SuffixIsPlain(HexPart(ref.digest), stamp);
    FlatLayout(root, ref);
    FlatLayout(root, longer);
    ParseIsCanonical(JoinPath([root, Key(ref)]));
    TempShape(FullPath(root, ref), stamp);
    LastOfFour(Parse(root).elems, Elements(ref), Elements(longer));
  }

  lemma SuffixIsPlain(name: string, stamp: Stamp)
    requires Plain(name) && NoSlash(stamp)
    ensures Plain(name + TempSuffix(stamp))
  {
    assert |name + TempSuffix(stamp)| > 2;
    assert NoSlash(TempSuffix(stamp));
  }

  lemma LastOfFour(root: seq<string>, a: seq<string>, b: seq<string>)
    requires |a| == |b| == 4 && a[..3] == b[..3]
    ensures (root + b) == (root + a)[..|root + a| - 1] + [b[3]]
  {
    assert (root + a)[..|root + a| - 1] == root + a[..3];
    assert b == b[..3] + [b[3]];
  }

  /** A Delete by such a digest takes the temporary file of a Put that is about to rename it. */
  lemma DeleteTakesATemp(cfg: Config, s: State, id: nat, d: nat, stamp: Stamp)
    requires TreeOk(s.fs) && InodesOk(s.fs) && id in s.puts && d !in s.deletes
    requires Flat(s.puts[id].ref) && HasPrefix(s.puts[id].ref.digest, ALGORITHM)
    requires s.puts[id].path == FullPath(cfg.root, s.puts[id].ref)
    requires s.puts[id].temp == TempPath(s.puts[id].path, stamp) && s.puts[id].temp in s.fs.files
    ensures var aimed := s.puts[id].ref.(digest := s.puts[id].ref.digest + TempSuffix(stamp));
            var begun := Next(cfg, s, BeginDelete(d, aimed)); var t := Next(cfg, begun, DeleteStep(d));
            && (InFlight(s.puts[id]) ==> !DeletesApart(begun))
            && t.puts == s.puts && Rename(t.fs, s.puts[id].temp, s.puts[id].path).None?
  {
    var put := s.puts[id];
    var aimed := put.ref.(digest := put.ref.digest + TempSuffix(stamp));
    DigestOfATemp(cfg.root, put.ref, stamp);
    DeleteBegins(cfg, s, d, aimed, put.temp);
    RemovalTakesItsTargetOnly(s.fs, put.temp, put.temp);
    if InFlight(put) { AimedDeleteIsNotApart(s, id, d); }
  }

  lemma AimedDeleteIsNotApart(s: State, id: nat, d: nat)
    requires id in s.puts && InFlight(s.puts[id])
    ensures !DeletesApart(s.(deletes := s.deletes[d := Delete(s.puts[id].temp, RemovingFile)]))
  {
    var t := s.(deletes := s.deletes[d := Delete(s.puts[id].temp, RemovingFile)]);
    assert id in t.puts && InFlight(t.puts[id]) && d in t.deletes && !t.deletes[d].pc.Deleted?;
    assert DeleteTarget(t.deletes[d]) == t.puts[id].temp;
  }

  lemma DeleteBegins(cfg: Config, s: State, d: nat, ref: PackageRef, path: Path)
    requires d !in s.deletes && FullPath(cfg.root, ref) == path
    ensures var a := Next(cfg, s, BeginDelete(d, ref)); var t := Next(cfg, a, DeleteStep(d));
            && a == s.(deletes := s.deletes[d := Delete(path, RemovingFile)])
            && t.puts == s.puts && t.fs == Remove(s.fs, path).0
  {
  }

  /** No action of a Put takes away a file other than its own temporary one, and it keeps that
      one while it writes. */
  lemma PutNextKeepsFiles(cfg: Config, fs: Fs, put: Put, action: Action)
    requires TreeOk(fs) && InodesOk(fs)
    ensures var (fs', pc) := PutNext(cfg, fs, put, action);
            && (forall p | p in fs.files && p != put.temp :: p in fs'.files)
            && ((pc.Copying? || pc.Syncing?) && (Writing(put) ==> put.temp in fs.files) ==> put.temp in fs'.files)
  {
    match action
    case MakeDir => if put.pc.Making? { MakeDirShape(fs, put); }
    case CreateTemp => if put.pc.Creating? { CreateKeepsFiles(fs, put); }
    case Commit => if put.pc.Syncing? { CommitKeepsFiles(fs, put); }
    case CleanUp => RemoveKeeps(fs, put.temp);
    case Copy(_) => StreamingKeepsFiles(cfg, fs, put, action);
    case Verify => StreamingKeepsFiles(cfg, fs, put, action);
    case Fail => StreamingKeepsFiles(cfg, fs, put, action);
  }

  lemma StreamingKeepsFiles(cfg: Config, fs: Fs, put: Put, action: Action)
    requires action.Copy? || action.Verify? || action.Fail?
    ensures var (fs', pc) := PutNext(cfg, fs, put, action);
            fs'.files == fs.files && (pc.Copying? || pc.Syncing? ==> Writing(put))
  {
  }

  lemma CreateKeepsFiles(fs: Fs, put: Put)
    requires put.pc.Creating?
    ensures var (fs', pc) := CreateStep(fs, put);
            (forall p | p in fs.files :: p in fs'.files) && (pc.Copying? ==> put.temp in fs'.files) && !pc.Syncing?
  {
  }

  lemma CommitKeepsFiles(fs: Fs, put: Put)
    ensures var (fs', pc) := CommitStep(fs, put);
            (forall p | p in fs.files && p != put.temp :: p in fs'.files) && !pc.Copying? && !pc.Syncing?
  {
  }

  lemma FinishedIsIdle(cfg: Config, fs: Fs, put: Put, action: Action)
    requires put.pc.Finished?
    ensures PutNext(cfg, fs, put, action) == (fs, put.pc)
  {
  }

  lemma PutStepKeepsAnchor(cfg: Config, s: State, id: nat, action: Action, i: nat)
    requires Inv(cfg, s) && Anchored(s) && id in s.puts && i in s.puts
    ensures var t := Moved(s, id, PutNext(cfg, s.fs, s.puts[id], action));
            Writing(t.puts[i]) ==> t.puts[i].temp in t.fs.files
  {
    PutNextKeepsFiles(cfg, s.fs, s.puts[id], action);
    if s.puts[id].pc.Finished? { FinishedIsIdle(cfg, s.fs, s.puts[id], action); }
    AnchorAfterMove(s, id, PutNext(cfg, s.fs, s.puts[id], action), i);
  }

  lemma AnchorAfterMove(s: State, id: nat, r: (Fs, PutPc), i: nat)
    requires TempsDistinct(s.puts) && Anchored(s) && id in s.puts && i in s.puts
    requires s.puts[id].pc.Finished? ==> r == (s.fs, s.puts[id].pc)
    requires forall p | p in s.fs.files && p != s.puts[id].temp :: p in r.0.files
    requires (r.1.Copying? || r.1.Syncing?) && (Writing(s.puts[id]) ==> s.puts[id].temp in s.fs.files) ==>
               s.puts[id].temp in r.0.files
    ensures Writing(Moved(s, id, r).puts[i]) ==> Moved(s, id, r).puts[i].temp in r.0.files
  {
  }

  /** Puts of flat references, deletes of flat references with a real digest. */
  ghost predicate Regular(step: Step) {
    && (step.BeginPut? ==> Flat(step.ref))
    && (step.BeginDelete? ==> Flat(step.ref) && IsDigest(step.ref.digest))
  }

  function Depth(cfg: Config): nat {
    |Parse(cfg.root).elems| + 4
  }

  ghost predicate PutPlaced(cfg: Config, put: Put) {
    && |put.path.elems| == Depth(cfg) && |put.temp.elems| == Depth(cfg)
    && Parent(put.temp) == Parent(put.path)
  }

  ghost predicate DeletePlaced(cfg: Config, d: Delete) {
    |d.path.elems| == Depth(cfg) && Committed(d.path)
  }

  ghost predicate Shallow(cfg: Config, fs: Fs) {
    forall p | p in fs.dirs :: |p.elems| < Depth(cfg)
  }

  /** Files lie at one depth and directories above it. */
  ghost predicate Layered(cfg: Config, s: State) {
    && (forall i | i in s.puts :: PutPlaced(cfg, s.puts[i]))
    && (forall d | d in s.deletes :: DeletePlaced(cfg, s.deletes[d]))
    && Shallow(cfg, s.fs)
  }

  lemma LayeredIsApart(cfg: Config, s: State)
    requires Inv(cfg, s) && Layered(cfg, s)
    ensures DeletesApart(s)
  {
    forall i, d | i in s.puts && InFlight(s.puts[i]) && d in s.deletes && !s.deletes[d].pc.Deleted?
      ensures s.puts[i].temp != DeleteTarget(s.deletes[d])
    {
      assert PutOk(cfg, s.fs, s.puts[i]);
      PlacedApart(cfg, s.puts[i], s.deletes[d]);
    }
  }

  lemma PlacedApart(cfg: Config, put: Put, d: Delete)
    requires PutPlaced(cfg, put) && DeletePlaced(cfg, d) && !Committed(put.temp)
    ensures put.temp != DeleteTarget(d)
  {
  }

  lemma StartIsLayered(cfg: Config, ref: PackageRef, source: Bytes, size: int, stamp: Stamp)
    requires Flat(ref)
    ensures PutPlaced(cfg, Start(cfg, ref, source, size, stamp))
  {
    FlatLayout(cfg.root, ref);
    var path := FullPath(cfg.root, ref);
    ParseIsCanonical(JoinPath([cfg.root, Key(ref)]));
    assert NoSlash(stamp) by { assert forall i | 0 <= i < |stamp| :: IsHexDigit(stamp[i]); }
    TempShape(path, stamp);
    var e := Parent(path).elems;
    assert (e + [Last(path) + TempSuffix(stamp)])[..|e|] == e;
  }

  lemma PutNextKeepsLayers(cfg: Config, fs: Fs, put: Put, action: Action)
    requires TreeOk(fs) && InodesOk(fs) && |put.path.elems| == Depth(cfg)
    requires Shallow(cfg, fs)
    ensures Shallow(cfg, PutNext(cfg, fs, put, action).0)
  {
    match action
    case CleanUp => RemoveKeeps(fs, put.temp);
    case _ =>
  }

  lemma RemoveKeepsShallow(cfg: Config, fs: Fs, p: Path)
    requires TreeOk(fs) && InodesOk(fs) && Shallow(cfg, fs)
    ensures Shallow(cfg, Remove(fs, p).0)
  {
    RemoveKeeps(fs, p);
  }

  lemma ShallowerTreeKeepsLayered(cfg: Config, s: State, fs: Fs)
    requires Layered(cfg, s) && Shallow(cfg, fs)
    ensures Layered(cfg, s.(fs := fs))
  {
  }

  lemma PutStepKeepsLayered(cfg: Config, s: State, id: nat, action: Action)
    requires TreeOk(s.fs) && InodesOk(s.fs) && Layered(cfg, s) && id in s.puts
    ensures Layered(cfg, Moved(s, id, PutNext(cfg, s.fs, s.puts[id], action)))
  {
    assert PutPlaced(cfg, s.puts[id]);
    PutNextKeepsLayers(cfg, s.fs, s.puts[id], action);
    ShallowerTreeKeepsLayered(cfg, s, PutNext(cfg, s.fs, s.puts[id], action).0);
  }

  lemma AddPutKeepsLayered(cfg: Config, s: State, id: nat, put: Put)
    requires Layered(cfg, s) && PutPlaced(cfg, put)
    ensures Layered(cfg, s.(puts := s.puts[id := put]))
  {
  }

  lemma AddDeleteKeepsLayered(cfg: Config, s: State, id: nat, d: Delete)
    requires Layered(cfg, s) && DeletePlaced(cfg, d)
    ensures Layered(cfg, s.(deletes := s.deletes[id := d]))
  {
  }

  lemma DeleteIsPlaced(cfg: Config, ref: PackageRef)
    requires Flat(ref) && IsDigest(ref.digest)
    ensures DeletePlaced(cfg, Delete(FullPath(cfg.root, ref), RemovingFile))
  {
    FlatLayout(cfg.root, ref);
    DigestNamesFile(cfg.root, ref);
  }

  lemma NextKeepsLayered(cfg: Config, s: State, step: Step)
    requires TreeOk(s.fs) && InodesOk(s.fs) && Layered(cfg, s) && Regular(step)
    ensures Layered(cfg, Next(cfg, s, step))
  {
    if Next(cfg, s, step) == s { return; }
    match step
    case BeginPut(id, ref, source, size, stamp) =>
      StartIsLayered(cfg, ref, source, size, stamp);
      AddPutKeepsLayered(cfg, s, id, Start(cfg, ref, source, size, stamp));
    case PutStep(id, action) => PutStepKeepsLayered(cfg, s, id, action);
    case Open(_, _) =>
    case Read(_, _) =>
    case BeginDelete(id, ref) =>
      DeleteIsPlaced(cfg, ref);
      AddDeleteKeepsLayered(cfg, s, id, Delete(FullPath(cfg.root, ref), RemovingFile));
    case DeleteStep(id) =>
      var d := s.deletes[id];
      var r := Remove(s.fs, DeleteTarget(d));
      RemoveKeepsShallow(cfg, s.fs, DeleteTarget(d));
      ShallowerTreeKeepsLayered(cfg, s, r.0);
      AddDeleteKeepsLayered(cfg, s.(fs := r.0), id, d.(pc := DeleteNext(d, r.1)));
  }

  lemma {:induction false} RegularRunsAreApart(cfg: Config, s: State, steps: seq<Step>)
    requires Inv(cfg, s) && Layered(cfg, s)
    requires Disciplined(cfg, s, steps) && forall k | 0 <= k < |steps| :: Regular(steps[k])
    ensures AlwaysApart(cfg, s, steps) && Layered(cfg, Run(cfg, s, steps))
    decreases |steps|
  {
    LayeredIsApart(cfg, s);
    if steps != [] {
      NextKeepsInv(cfg, s, steps[0]);
      NextKeepsLayered(cfg, s, steps[0]);
      RegularRunsAreApart(cfg, Next(cfg, s, steps[0]), steps[1..]);
    }
  }

  /** With flat references, and Deletes by real digests only, no Delete is ever aimed at a temporary
      file and no directory has the name of a file, so that every rename goes through. */
  lemma NoFlatPutLosesItsDirectory(cfg: Config, s: State, steps: seq<Step>, id: nat)
    requires AtRest(cfg, s) && Shallow(cfg, s.fs)
    requires Disciplined(cfg, s, steps) && forall k | 0 <= k < |steps| :: Regular(steps[k])
    requires id in Run(cfg, s, steps).puts && Writing(Run(cfg, s, steps).puts[id])
    ensures var t := Run(cfg, s, steps); var put := t.puts[id];
            && put.temp in t.fs.files && Parent(put.path) in t.fs.dirs
            && Rename(t.fs, put.temp, put.path).Some?
  {
    RegularRunsAreApart(cfg, s, steps);
    NoPutLosesItsDirectory(cfg, s, steps, id);
    var t := Run(cfg, s, steps);
    assert PutPlaced(cfg, t.puts[id]);
  }
}
