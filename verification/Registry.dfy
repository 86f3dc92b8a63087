/** The whole registry over the local backend: pushes, blob uploads and pulls in any number,
    interleaved one system call or SQL statement at a time. */
module Registry {
  import opened Content
  import opened Paths
  import opened FileTree
  import opened MetadataDb
  import opened MetadataIndex
  import LP = LocalProtocol

  datatype Kind = Publish | PutManifest

  /** Where a request stands; the Put of request i is Put i of the store, its reader is reader i. */
  datatype PushPc =
    | Storing
    | Upserting(size: nat, key: string)
    | Inserting(packageId: nat, size: nat, key: string)
    | Replied(status: nat)
  datatype BlobPc = Uploading | Completed(status: nat)

  datatype Endpoint = GetPackage | GetManifest
  datatype Wanted = ByVersion(version: string) | ByDigest(digest: string)
  /** A pull remembers the row that its lookup found, and so the digest header it sends. */
  datatype PullPc =
    | Looking
    | Opening(row: Option<Row>)
    | Streaming(row: Option<Row>)
    | Failed(status: nat, row: Option<Row>)

  datatype Request =
    | Push(kind: Kind, ref: PackageRef, body: Bytes, publishedBy: string, manifest: Option<Bytes>, push: PushPc)
    | Blob(ref: PackageRef, uuid: string, body: Bytes, blob: BlobPc)
    | Pull(endpoint: Endpoint, tenant: string, name: string, wanted: Wanted, pull: PullPc)

  datatype State = State(store: LP.State, tables: Tables, requests: map<nat, Request>, sessions: map<string, string>)

  datatype Step =
    | StartPublish(id: nat, tenant: string, name: string, version: string, digest: string, clock: string,
                   body: Bytes, publishedBy: string, manifest: Option<Bytes>, stamp: Stamp)
    | StartManifest(id: nat, tenant: string, name: string, tag: string, clock: string, body: Bytes, stamp: Stamp)
    | StartUpload(uuid: string, name: string)
    | StartBlob(id: nat, tenant: string, name: string, uuid: string, digest: string, body: Bytes, stamp: Stamp)
    | StartPull(id: nat, endpoint: Endpoint, tenant: string, name: string, wanted: Wanted)
    | PutAction(id: nat, action: LP.Action)
    | PutReturns(id: nat)
    | UpsertPackage(id: nat, now: int)
    | InsertVersion(id: nat, now: int)
    | StatementFails(id: nat)
    | LookUp(id: nat, choice: nat)
    | OpenBlob(id: nat)
    | ReadBlob(id: nat, n: nat)

  // ---------------------------------------------------------------- steps

  /** The reference of a publish: the digest of the query, or one made up from the clock. */
  function PublishRef(tenant: string, name: string, version: string, digest: string, clock: string): PackageRef {
    PackageRef(tenant, name, version, if digest == "" then ALGORITHM + "upload-" + clock else digest)
  }

  function ManifestRef(tenant: string, name: string, tag: string, clock: string): PackageRef {
    PackageRef(tenant, name, tag, ALGORITHM + "manifest-" + clock)
  }

  /** Blobs are stored under their digest as version. */
  function BlobRef(tenant: string, name: string, digest: string): PackageRef {
    PackageRef(tenant, name, digest, digest)
  }

  function Begin(cfg: LP.Config, s: State, id: nat, request: Request, ref: PackageRef,
                 body: Bytes, stamp: Stamp): State {
    s.(requests := s.requests[id := request],
       store := s.store.(puts := s.store.puts[id := LP.Start(cfg, ref, body, |body|, stamp)]))
  }

  predicate Fresh(s: State, id: nat) {
    id !in s.requests && id !in s.store.puts && id !in s.store.readers
  }

  function DraftOf(r: Request, size: nat, key: string): Draft
    requires r.Push?
  {
    // PutManifest passes the digest where the storage key belongs
    var storageKey := if r.kind == PutManifest then r.ref.digest else key;
    Draft(r.ref.version, r.ref.digest, size, storageKey, r.manifest, r.publishedBy)
  }

  /** The handler after Provider.Put. Errors of the index are ignored, so that a push whose bytes
      are stored is answered 201 in any case. */
  function AfterPut(s: State, id: nat, result: LP.PutResult): State
    requires id in s.requests
  {
    var r := s.requests[id];
    match r
    case Push(_, _, _, _, _, Storing) =>
      s.(requests := s.requests[id := r.(push := match result
         case Stored(size, key) => Upserting(size, key)
         case Rejected(_) => Replied(500))])
    case Blob(_, uuid, _, Uploading) =>
      (match result
       case Stored(_, _) => s.(requests := s.requests[id := r.(blob := Completed(201))],
                               sessions := s.sessions - {uuid})
       case Rejected(_) => s.(requests := s.requests[id := r.(blob := Completed(500))]))
    case _ => s
  }

  predicate Matches(t: Tables, row: Row, tenant: string, name: string, wanted: Wanted) {
    && Joins(t.packages, row, tenant, name)
    && match wanted case ByVersion(v) => row.version == v case ByDigest(d) => row.digest == d
  }

  function PullRef(r: Request): PackageRef
    requires r.Pull? && r.pull.Opening?
  {
    match r.pull.row
    case Some(row) => PackageRef(r.tenant, r.name, row.version, row.digest)
    case None => PackageRef(r.tenant, r.name, if r.wanted.ByVersion? then r.wanted.version else "", "")
  }

  /** The lookup of a pull: any matching row (LIMIT 1 has no order), or none when none matches.
      GetManifest then answers 404; GetPackage goes on with an empty digest. */
  function LookedUp(s: State, r: Request, choice: nat): PullPc
    requires r.Pull?
  {
    if choice < |s.tables.rows| && Matches(s.tables, s.tables.rows[choice], r.tenant, r.name, r.wanted)
    then Opening(Some(s.tables.rows[choice]))
    else if exists row | row in s.tables.rows :: Matches(s.tables, row, r.tenant, r.name, r.wanted) then r.pull
    else if r.endpoint == GetManifest then Failed(404, None)
    else Opening(None)
  }

  /** Provider.Get of a pull: an open file becomes its reader. */
  function Opened(cfg: LP.Config, s: State, id: nat): State
    requires id in s.requests && s.requests[id].Pull? && s.requests[id].pull.Opening?
  {
    var r := s.requests[id];
    var path := FullPath(cfg.root, PullRef(r));
    if path in s.store.fs.files then
      s.(store := s.store.(readers := s.store.readers[id := LP.Reader(path, s.store.fs.files[path], [])]),
         requests := s.requests[id := r.(pull := Streaming(r.pull.row))])
    else if path in s.store.fs.dirs || Blocked(s.store.fs, path)
    then s.(requests := s.requests[id := r.(pull := Failed(500, r.pull.row))])
    else s.(requests := s.requests[id := r.(pull := Failed(404, r.pull.row))])
  }

  function Upserted(s: State, id: nat, now: int): State
    requires id in s.requests && s.requests[id].Push? && s.requests[id].push.Upserting?
  {
    var r := s.requests[id];
    var (t, packageId) := Upsert(s.tables, r.ref.tenant, r.ref.name, now);
    s.(tables := t, requests := s.requests[id := r.(push := Inserting(packageId, r.push.size, r.push.key))])
  }

  function Inserted(s: State, id: nat, now: int): State
    requires id in s.requests && s.requests[id].Push? && s.requests[id].push.Inserting?
  {
    var r := s.requests[id];
    var t := Insert(s.tables, r.push.packageId, DraftOf(r, r.push.size, r.push.key), now).0;
    s.(tables := t, requests := s.requests[id := r.(push := Replied(201))])
  }

  function Next(cfg: LP.Config, s: State, step: Step): State {
    match step
    case StartPublish(id, tenant, name, version, digest, clock, body, publishedBy, manifest, stamp) =>
      var ref := PublishRef(tenant, name, version, digest, clock);
      if !Fresh(s, id) then s
      else Begin(cfg, s, id, Push(Publish, ref, body, publishedBy, manifest, Storing), ref, body, stamp)
    case StartManifest(id, tenant, name, tag, clock, body, stamp) =>
      var ref := ManifestRef(tenant, name, tag, clock);
      if !Fresh(s, id) then s
      else Begin(cfg, s, id, Push(PutManifest, ref, body, "oci-push", Some(body), Storing), ref, body, stamp)
    case StartUpload(uuid, name) => s.(sessions := s.sessions[uuid := name])
    case StartBlob(id, tenant, name, uuid, digest, body, stamp) =>
      var ref := BlobRef(tenant, name, digest);
      if !Fresh(s, id) then s
      else if digest == "" || body == [] then s.(requests := s.requests[id := Blob(ref, uuid, body, Completed(400))])
      else Begin(cfg, s, id, Blob(ref, uuid, body, Uploading), ref, body, stamp)
    case StartPull(id, endpoint, tenant, name, wanted) =>
      if !Fresh(s, id) || (endpoint == GetPackage && wanted.ByDigest?) then s
      else s.(requests := s.requests[id := Pull(endpoint, tenant, name, wanted, Looking)])
    case PutAction(id, action) =>
      if id in s.store.puts
      then s.(store := LP.Moved(s.store, id, LP.PutNext(cfg, s.store.fs, s.store.puts[id], action))) else s
    case PutReturns(id) =>
      if id in s.requests && id in s.store.puts && s.store.puts[id].pc.Finished?
      then AfterPut(s, id, s.store.puts[id].pc.result) else s
    case UpsertPackage(id, now) =>
      if id in s.requests && s.requests[id].Push? && s.requests[id].push.Upserting?
      then Upserted(s, id, now) else s
    case InsertVersion(id, now) =>
      if id in s.requests && s.requests[id].Push? && s.requests[id].push.Inserting?
      then Inserted(s, id, now) else s
    case StatementFails(id) =>
      if id in s.requests && s.requests[id].Push? && (s.requests[id].push.Upserting? || s.requests[id].push.Inserting?)
      then s.(requests := s.requests[id := s.requests[id].(push := Replied(201))]) else s
    case LookUp(id, choice) =>
      if id in s.requests && s.requests[id].Pull? && s.requests[id].pull.Looking?
      then s.(requests := s.requests[id := s.requests[id].(pull := LookedUp(s, s.requests[id], choice))]) else s
    case OpenBlob(id) =>
      if id in s.requests && s.requests[id].Pull? && s.requests[id].pull.Opening? then Opened(cfg, s, id) else s
    case ReadBlob(id, n) =>
      if id in s.store.readers && s.store.readers[id].inode in s.store.fs.data
         && |s.store.readers[id].got| + n <= |s.store.fs.data[s.store.readers[id].inode]|
      then s.(store := s.store.(readers := s.store.readers[id := LP.ReadMore(s.store.fs, s.store.readers[id], n)]))
      else s
  }

  function Run(cfg: LP.Config, s: State, steps: seq<Step>): State
    decreases |steps|
  {
    if steps == [] then s else Run(cfg, Next(cfg, s, steps[0]), steps[1..])
  }

  lemma {:induction false} RunConcat(cfg: LP.Config, s: State, a: seq<Step>, b: seq<Step>)
    ensures Run(cfg, s, a + b) == Run(cfg, Run(cfg, s, a), b)
    decreases |a|
  {
    if a == [] {
      assert a + b == b;
    } else {
      assert (a + b)[0] == a[0] && (a + b)[1..] == a[1..] + b;
      RunConcat(cfg, Next(cfg, s, a[0]), a[1..], b);
    }
  }

  /** The reference and stamp with which a step starts a Put. */
  function Started(step: Step): Option<(PackageRef, Stamp)> {
    match step
    case StartPublish(_, tenant, name, version, digest, clock, _, _, _, stamp) =>
      Some((PublishRef(tenant, name, version, digest, clock), stamp))
    case StartManifest(_, tenant, name, tag, clock, _, stamp) => Some((ManifestRef(tenant, name, tag, clock), stamp))
    case StartBlob(_, tenant, name, _, digest, _, stamp) => Some((BlobRef(tenant, name, digest), stamp))
    case _ => None
  }

  /** The hypothesis on schedules: no two unfinished Puts share a temporary file. */
  ghost predicate TempIsFree(cfg: LP.Config, s: State, step: Step) {
    Started(step).Some? ==>
      forall i | i in s.store.puts && LP.InFlight(s.store.puts[i]) ::
        s.store.puts[i].temp != TempPath(FullPath(cfg.root, Started(step).value.0), Started(step).value.1)
  }

  ghost predicate Disciplined(cfg: LP.Config, s: State, steps: seq<Step>)
    decreases |steps|
  {
    steps != [] ==> TempIsFree(cfg, s, steps[0]) && Disciplined(cfg, Next(cfg, s, steps[0]), steps[1..])
  }

  // ---------------------------------------------------------------- invariant

  /** The file of ref is there. Its hash is right because every committed file's is; its size is
      right when no two contents share a hash. */
  ghost predicate Backed(cfg: LP.Config, fs: Fs, ref: PackageRef, size: int) {
    && IsDigest(ref.digest)
    && FullPath(cfg.root, ref) in fs.files
    && (Injective(cfg.sha) ==> |ContentAt(fs, FullPath(cfg.root, ref))| == size)
  }

  ghost predicate RowBacked(cfg: LP.Config, fs: Fs, tenant: string, name: string, row: Row) {
    var ref := PackageRef(tenant, name, row.version, row.digest);
    Backed(cfg, fs, ref, row.sizeBytes) && row.storageKey == Key(ref)
  }

  ghost predicate TablesBacked(cfg: LP.Config, fs: Fs, t: Tables) {
    forall i | 0 <= i < |t.rows| ::
      var p := Owner(t.packages, t.rows[i].packageId);
      p.Some? && RowBacked(cfg, fs, p.value.tenant, p.value.name, t.rows[i])
  }

  /** Every Put that succeeded is still backed. */
  ghost predicate PutBacked(cfg: LP.Config, fs: Fs, put: LP.Put) {
    (put.pc.Cleaning? || put.pc.Finished?) && put.pc.result.Stored? ==> Backed(cfg, fs, put.ref, |put.source|)
  }

  ghost predicate OwnedBy(packages: seq<Package>, id: nat, tenant: string, name: string) {
    var p := Owner(packages, id);
    p.Some? && p.value.tenant == tenant && p.value.name == name
  }

  /** Request id streams the file that a well-formed digest names. */
  ghost predicate Serves(readers: map<nat, LP.Reader>, id: nat, digest: string) {
    IsDigest(digest) && id in readers && readers[id].path.elems != [] && Last(readers[id].path) == HexPart(digest)
  }

  ghost predicate RequestOk(cfg: LP.Config, store: LP.State, packages: seq<Package>, id: nat, r: Request) {
    match r
    case Push(kind, ref, body, _, _, pc) =>
      && id in store.puts && store.puts[id].ref == ref && store.puts[id].source == body
      && (kind == PutManifest ==>
            (pc.Storing? || pc == Replied(500)) && exists clock :: ref.digest == ALGORITHM + "manifest-" + clock)
      && (pc.Upserting? || pc.Inserting? ==>
            kind == Publish && pc.key == Key(ref) && Backed(cfg, store.fs, ref, pc.size))
      && (pc.Inserting? ==> OwnedBy(packages, pc.packageId, ref.tenant, ref.name))
    case Blob(ref, _, body, pc) =>
      pc != Completed(400) ==> id in store.puts && store.puts[id].ref == ref && store.puts[id].source == body
    case Pull(_, tenant, name, _, pc) =>
      && (pc.Opening? && pc.row.Some? ==> RowBacked(cfg, store.fs, tenant, name, pc.row.value))
      && (pc.Streaming? && pc.row.Some? ==> Serves(store.readers, id, pc.row.value.digest))
      && (pc.Failed? ==> pc.row.None?)
  }

  ghost predicate StoreOk(cfg: LP.Config, store: LP.State) {
    && LP.Inv(cfg, store) && store.deletes == map[]
    && (forall i | i in store.puts :: PutBacked(cfg, store.fs, store.puts[i]))
  }

  ghost predicate Inv(cfg: LP.Config, s: State) {
    && StoreOk(cfg, s.store)
    && TablesOk(s.tables) && TablesBacked(cfg, s.store.fs, s.tables)
    && (forall i | i in s.requests :: RequestOk(cfg, s.store, s.tables.packages, i, s.requests[i]))
  }

  // ---------------------------------------------------------------- the store moves

  /** No committed file disappears. */
  ghost predicate Grows(before: Fs, after: Fs) {
    forall p | p in before.files && Committed(p) :: p in after.files
  }

  lemma BackedPersists(cfg: LP.Config, before: Fs, after: Fs, ref: PackageRef, size: int)
    requires LP.Verified(cfg.sha, before) && LP.Verified(cfg.sha, after) && Grows(before, after)
    requires Backed(cfg, before, ref, size)
    ensures Backed(cfg, after, ref, size)
  {
    DigestNamesFile(cfg.root, ref);
    var path := FullPath(cfg.root, ref);
    assert cfg.sha(ContentAt(before, path)) == Last(path) == cfg.sha(ContentAt(after, path));
  }

  /** Operation id keeps who it is. */
  ghost predicate Extends(before: LP.State, after: LP.State, id: nat) {
    && (id in before.puts ==>
          && id in after.puts
          && after.puts[id].ref == before.puts[id].ref && after.puts[id].source == before.puts[id].source)
    && (id in before.readers ==> id in after.readers && after.readers[id].path == before.readers[id].path)
  }

  ghost predicate ExtendsAll(before: LP.State, after: LP.State) {
    forall i :: Extends(before, after, i)
  }

  lemma RequestPersists(cfg: LP.Config, before: LP.State, after: LP.State, packages: seq<Package>, id: nat, r: Request)
    requires LP.Verified(cfg.sha, before.fs) && LP.Verified(cfg.sha, after.fs)
    requires Grows(before.fs, after.fs) && Extends(before, after, id) && RequestOk(cfg, before, packages, id, r)
    ensures RequestOk(cfg, after, packages, id, r)
  {
    match r
    case Push(_, ref, _, _, _, pc) =>
      if pc.Upserting? || pc.Inserting? { BackedPersists(cfg, before.fs, after.fs, ref, pc.size); }
    case Blob(_, _, _, _) =>
    case Pull(_, tenant, name, _, pc) =>
      if pc.Opening? && pc.row.Some? {
        var row := pc.row.value;
        BackedPersists(cfg, before.fs, after.fs, PackageRef(tenant, name, row.version, row.digest), row.sizeBytes);
      }
  }

  lemma TablesPersist(cfg: LP.Config, before: Fs, after: Fs, t: Tables)
    requires LP.Verified(cfg.sha, before) && LP.Verified(cfg.sha, after) && Grows(before, after)
    requires TablesBacked(cfg, before, t)
    ensures TablesBacked(cfg, after, t)
  {
    forall i | 0 <= i < |t.rows|
      ensures var p := Owner(t.packages, t.rows[i].packageId);
              p.Some? && RowBacked(cfg, after, p.value.tenant, p.value.name, t.rows[i])
    {
      var p, row := Owner(t.packages, t.rows[i].packageId).value, t.rows[i];
      BackedPersists(cfg, before, after, PackageRef(p.tenant, p.name, row.version, row.digest), row.sizeBytes);
    }
  }

  /** The store moves under requests that do not. */
  lemma StoreMoves(cfg: LP.Config, s: State, store: LP.State)
    requires Inv(cfg, s) && StoreOk(cfg, store) && Grows(s.store.fs, store.fs)
    requires ExtendsAll(s.store, store)
    ensures Inv(cfg, s.(store := store))
  {
    TablesPersist(cfg, s.store.fs, store.fs, s.tables);
    forall i | i in s.requests
      ensures RequestOk(cfg, store, s.tables.packages, i, s.requests[i])
    {
      assert Extends(s.store, store, i);
      RequestPersists(cfg, s.store, store, s.tables.packages, i, s.requests[i]);
    }
  }

  lemma PutStepGrows(cfg: LP.Config, store: LP.State, id: nat, action: LP.Action)
    requires LP.Inv(cfg, store) && id in store.puts
    ensures Grows(store.fs, LP.PutNext(cfg, store.fs, store.puts[id], action).0)
    ensures LP.Verified(cfg.sha, LP.PutNext(cfg, store.fs, store.puts[id], action).0)
  {
    LP.PutNextKeepsFiles(cfg, store.fs, store.puts[id], action);
    assert LP.PutOk(cfg, store.fs, store.puts[id]);
    LP.PutStepKeepsInv(cfg, store, id, action);
  }

  lemma CommitIsBacked(cfg: LP.Config, fs: Fs, put: LP.Put)
    requires InodesOk(fs) && LP.PutOk(cfg, fs, put) && put.pc.Syncing?
    ensures var r := LP.PutNext(cfg, fs, put, LP.Commit); PutBacked(cfg, r.0, put.(pc := r.1))
  {
    LP.CommitPublishesItsStream(cfg, fs, put);
    ChecksumIsDigest(cfg.sha, put.source);
  }

  /** A success is only reported on after the rename. */
  lemma OnlyCommitStores(cfg: LP.Config, fs: Fs, put: LP.Put, action: LP.Action)
    requires !(action.Commit? && put.pc.Syncing?)
    ensures var pc := LP.PutNext(cfg, fs, put, action).1;
            (pc.Cleaning? || pc.Finished?) && pc.result.Stored? ==>
              (put.pc.Cleaning? || put.pc.Finished?) && put.pc.result == pc.result
  {
  }

  lemma OwnPutStaysBacked(cfg: LP.Config, store: LP.State, id: nat, action: LP.Action)
    requires LP.Inv(cfg, store) && id in store.puts && PutBacked(cfg, store.fs, store.puts[id])
    ensures var r := LP.PutNext(cfg, store.fs, store.puts[id], action);
            PutBacked(cfg, r.0, store.puts[id].(pc := r.1))
  {
    var put := store.puts[id];
    var (fs', pc) := LP.PutNext(cfg, store.fs, put, action);
    if action.Commit? && put.pc.Syncing? {
      assert LP.PutOk(cfg, store.fs, put);
      CommitIsBacked(cfg, store.fs, put);
    } else {
      OnlyCommitStores(cfg, store.fs, put, action);
      if (pc.Cleaning? || pc.Finished?) && pc.result.Stored? {
        PutStepGrows(cfg, store, id, action);
        BackedPersists(cfg, store.fs, fs', put.ref, |put.source|);
      }
    }
  }

  lemma OtherPutStaysBacked(cfg: LP.Config, before: Fs, after: Fs, put: LP.Put)
    requires LP.Verified(cfg.sha, before) && LP.Verified(cfg.sha, after) && Grows(before, after)
    requires PutBacked(cfg, before, put)
    ensures PutBacked(cfg, after, put)
  {
    if (put.pc.Cleaning? || put.pc.Finished?) && put.pc.result.Stored? {
      BackedPersists(cfg, before, after, put.ref, |put.source|);
    }
  }

  lemma PutStepKeepsStore(cfg: LP.Config, store: LP.State, id: nat, action: LP.Action)
    requires StoreOk(cfg, store) && id in store.puts
    ensures var t := LP.Moved(store, id, LP.PutNext(cfg, store.fs, store.puts[id], action));
            StoreOk(cfg, t) && Grows(store.fs, t.fs)
  {
    LP.PutStepKeepsInv(cfg, store, id, action);
    PutStepGrows(cfg, store, id, action);
    var t := LP.Moved(store, id, LP.PutNext(cfg, store.fs, store.puts[id], action));
    forall i | i in t.puts
      ensures PutBacked(cfg, t.fs, t.puts[i])
    {
      if i == id { OwnPutStaysBacked(cfg, store, id, action); }
      else { OtherPutStaysBacked(cfg, store.fs, t.fs, store.puts[i]); }
    }
  }

  lemma MovedExtends(store: LP.State, id: nat, r: (Fs, LP.PutPc), i: nat)
    requires id in store.puts
    ensures Extends(store, LP.Moved(store, id, r), i)
  {
  }

  lemma PutActionKeepsInv(cfg: LP.Config, s: State, id: nat, action: LP.Action)
    requires Inv(cfg, s) && id in s.store.puts
    ensures Inv(cfg, s.(store := LP.Moved(s.store, id, LP.PutNext(cfg, s.store.fs, s.store.puts[id], action))))
  {
    PutStepKeepsStore(cfg, s.store, id, action);
    var store := LP.Moved(s.store, id, LP.PutNext(cfg, s.store.fs, s.store.puts[id], action));
    forall i ensures Extends(s.store, store, i) {
      MovedExtends(s.store, id, LP.PutNext(cfg, s.store.fs, s.store.puts[id], action), i);
    }
    StoreMoves(cfg, s, store);
  }

  /** A reader of a file that is there joins. */
  lemma ReaderKeepsStore(cfg: LP.Config, store: LP.State, id: nat, path: Path)
    requires StoreOk(cfg, store) && path in store.fs.files
    ensures StoreOk(cfg, store.(readers := store.readers[id := LP.Reader(path, store.fs.files[path], [])]))
  {
    LP.OpenKeepsInv(cfg, store, id, path);
  }

  lemma ReadKeepsInv(cfg: LP.Config, s: State, id: nat, n: nat)
    requires Inv(cfg, s) && id in s.store.readers && s.store.readers[id].inode in s.store.fs.data
    requires |s.store.readers[id].got| + n <= |s.store.fs.data[s.store.readers[id].inode]|
    ensures var r := LP.ReadMore(s.store.fs, s.store.readers[id], n);
            Inv(cfg, s.(store := s.store.(readers := s.store.readers[id := r])))
  {
    LP.ReadKeepsInv(cfg, s.store, id, n);
    var store := s.store.(readers := s.store.readers[id := LP.ReadMore(s.store.fs, s.store.readers[id], n)]);
    assert ExtendsAll(s.store, store);
    StoreMoves(cfg, s, store);
  }

  // ---------------------------------------------------------------- the requests move

  lemma RequestMoves(cfg: LP.Config, s: State, id: nat, r: Request)
    requires Inv(cfg, s) && RequestOk(cfg, s.store, s.tables.packages, id, r)
    ensures Inv(cfg, s.(requests := s.requests[id := r]))
  {
  }

  lemma AddedPutKeepsInv(cfg: LP.Config, s: State, id: nat, put: LP.Put)
    requires Inv(cfg, s) && id !in s.store.puts && LP.PutOk(cfg, s.store.fs, put) && !LP.Writing(put)
    requires put.pc.Making? || (put.pc.Finished? && put.pc.result.Rejected?)
    requires forall i | i in s.store.puts && LP.InFlight(s.store.puts[i]) :: s.store.puts[i].temp != put.temp
    ensures Inv(cfg, s.(store := s.store.(puts := s.store.puts[id := put])))
  {
    AddedPutKeepsStore(cfg, s.store, id, put);
    AddedPutExtends(s.store, id, put);
    StoreMoves(cfg, s, s.store.(puts := s.store.puts[id := put]));
  }

  lemma AddedPutExtends(store: LP.State, id: nat, put: LP.Put)
    requires id !in store.puts
    ensures ExtendsAll(store, store.(puts := store.puts[id := put]))
  {
  }

  lemma AddedPutKeepsStore(cfg: LP.Config, store: LP.State, id: nat, put: LP.Put)
    requires StoreOk(cfg, store) && id !in store.puts && LP.PutOk(cfg, store.fs, put) && !LP.Writing(put)
    requires put.pc.Making? || (put.pc.Finished? && put.pc.result.Rejected?)
    requires forall i | i in store.puts && LP.InFlight(store.puts[i]) :: store.puts[i].temp != put.temp
    ensures StoreOk(cfg, store.(puts := store.puts[id := put]))
  {
    LP.AddPutKeepsInv(cfg, store, id, put);
  }

  lemma BeginKeepsInv(cfg: LP.Config, s: State, id: nat, r: Request, ref: PackageRef, body: Bytes, stamp: Stamp)
    requires Inv(cfg, s) && Fresh(s, id)
    requires LP.TempIsFree(cfg, s.store, LP.BeginPut(id, ref, body, |body|, stamp))
    requires r.Push? ==> r.ref == ref && r.body == body && r.push == Storing
                         && (r.kind == PutManifest ==> exists clock :: ref.digest == ALGORITHM + "manifest-" + clock)
    requires r.Blob? ==> r.ref == ref && r.body == body
    requires !r.Pull?
    ensures Inv(cfg, Begin(cfg, s, id, r, ref, body, stamp))
  {
    var put := LP.Start(cfg, ref, body, |body|, stamp);
    LP.StartIsOk(cfg, s.store.fs, ref, body, |body|, stamp);
    AddedPutKeepsInv(cfg, s, id, put);
    RequestMoves(cfg, s.(store := s.store.(puts := s.store.puts[id := put])), id, r);
  }

  /** A Put that succeeded had the digest of its bytes, so it was no manifest push. */
  lemma StoredIsPublish(cfg: LP.Config, s: State, id: nat)
    requires Inv(cfg, s) && id in s.requests && s.requests[id].Push?
    requires id in s.store.puts && s.store.puts[id].pc.Finished? && s.store.puts[id].pc.result.Stored?
    ensures s.requests[id].kind == Publish
    ensures s.store.puts[id].pc.result == LP.Stored(|s.requests[id].body|, Key(s.requests[id].ref))
  {
    var put := s.store.puts[id];
    assert RequestOk(cfg, s.store, s.tables.packages, id, s.requests[id]);
    assert LP.PutOk(cfg, s.store.fs, put);
    if s.requests[id].kind == PutManifest {
      var clock :| put.ref.digest == ALGORITHM + "manifest-" + clock;
      SyntheticDigestNeverMatches(cfg.sha, "manifest-", clock, put.source);
    }
  }

  lemma PutReturnsKeepsInv(cfg: LP.Config, s: State, id: nat)
    requires Inv(cfg, s) && id in s.requests && id in s.store.puts && s.store.puts[id].pc.Finished?
    ensures Inv(cfg, AfterPut(s, id, s.store.puts[id].pc.result))
  {
    var r, result := s.requests[id], s.store.puts[id].pc.result;
    assert RequestOk(cfg, s.store, s.tables.packages, id, r);
    assert PutBacked(cfg, s.store.fs, s.store.puts[id]);
    if r.Push? && r.push.Storing? {
      if result.Stored? { StoredIsPublish(cfg, s, id); }
      RequestMoves(cfg, s, id, AfterPut(s, id, result).requests[id]);
    } else if r.Blob? && r.blob.Uploading? {
      RequestMoves(cfg, s, id, AfterPut(s, id, result).requests[id]);
    }
  }

  // ---------------------------------------------------------------- the tables move

  ghost predicate KeepsOwners(before: seq<Package>, after: seq<Package>) {
    forall id | Owner(before, id).Some? :: Owner(after, id) == Owner(before, id)
  }

  lemma TablesMove(cfg: LP.Config, s: State, t: Tables)
    requires Inv(cfg, s) && TablesOk(t) && TablesBacked(cfg, s.store.fs, t)
             && KeepsOwners(s.tables.packages, t.packages)
    ensures Inv(cfg, s.(tables := t))
  {
    forall i | i in s.requests
      ensures RequestOk(cfg, s.store, t.packages, i, s.requests[i])
    {
      assert RequestOk(cfg, s.store, s.tables.packages, i, s.requests[i]);
    }
  }

  lemma NewPackagesKeepBacking(cfg: LP.Config, fs: Fs, t: Tables, t': Tables)
    requires TablesBacked(cfg, fs, t) && t'.rows == t.rows && KeepsOwners(t.packages, t'.packages)
    ensures TablesBacked(cfg, fs, t')
  {
    forall i | 0 <= i < |t'.rows|
      ensures var p := Owner(t'.packages, t'.rows[i].packageId);
              p.Some? && RowBacked(cfg, fs, p.value.tenant, p.value.name, t'.rows[i])
    {
      assert Owner(t.packages, t.rows[i].packageId).Some?;
    }
  }

  lemma UpsertKeepsInv(cfg: LP.Config, s: State, id: nat, now: int)
    requires Inv(cfg, s) && id in s.requests && s.requests[id].Push? && s.requests[id].push.Upserting?
    ensures Inv(cfg, Upserted(s, id, now))
  {
    var r := s.requests[id];
    var (t, packageId) := Upsert(s.tables, r.ref.tenant, r.ref.name, now);
    UpsertKeepsTables(s.tables, r.ref.tenant, r.ref.name, now);
    NewPackagesKeepBacking(cfg, s.store.fs, s.tables, t);
    TablesMove(cfg, s, t);
    assert RequestOk(cfg, s.store, t.packages, id, r);
    RequestMoves(cfg, s.(tables := t), id, r.(push := Inserting(packageId, r.push.size, r.push.key)));
  }

  lemma InsertIsBacked(cfg: LP.Config, fs: Fs, t: Tables, packageId: nat, d: Draft, now: int)
    requires TablesOk(t) && TablesBacked(cfg, fs, t) && Owner(t.packages, packageId).Some?
    requires var p := Owner(t.packages, packageId).value; var ref := PackageRef(p.tenant, p.name, d.version, d.digest);
             Backed(cfg, fs, ref, d.sizeBytes) && d.storageKey == Key(ref)
    ensures TablesBacked(cfg, fs, Insert(t, packageId, d, now).0)
  {
    var t' := Insert(t, packageId, d, now).0;
    InsertKeepsTables(t, packageId, d, now);
    forall i | 0 <= i < |t'.rows|
      ensures var p := Owner(t'.packages, t'.rows[i].packageId);
              p.Some? && RowBacked(cfg, fs, p.value.tenant, p.value.name, t'.rows[i])
    {
      var hit := FindRow(t, packageId, d.version);
      if i == (if hit.Some? then hit.value else |t.rows|) {
      } else {
        assert t'.rows[i] == t.rows[i];
      }
    }
  }

  lemma InsertKeepsInv(cfg: LP.Config, s: State, id: nat, now: int)
    requires Inv(cfg, s) && id in s.requests && s.requests[id].Push? && s.requests[id].push.Inserting?
    ensures Inv(cfg, Inserted(s, id, now))
  {
    var r := s.requests[id];
    var d := DraftOf(r, r.push.size, r.push.key);
    assert RequestOk(cfg, s.store, s.tables.packages, id, r);
    InsertKeepsTables(s.tables, r.push.packageId, d, now);
    InsertIsBacked(cfg, s.store.fs, s.tables, r.push.packageId, d, now);
    var t := Insert(s.tables, r.push.packageId, d, now).0;
    TablesMove(cfg, s, t);
    RequestMoves(cfg, s.(tables := t), id, r.(push := Replied(201)));
  }

  // ---------------------------------------------------------------- pulls

  lemma MatchIsBacked(cfg: LP.Config, s: State, choice: nat, tenant: string, name: string, wanted: Wanted)
    requires Inv(cfg, s) && choice < |s.tables.rows| && Matches(s.tables, s.tables.rows[choice], tenant, name, wanted)
    ensures RowBacked(cfg, s.store.fs, tenant, name, s.tables.rows[choice])
  {
  }

  lemma LookUpIsOk(cfg: LP.Config, s: State, id: nat, r: Request, choice: nat)
    requires Inv(cfg, s) && r.Pull? && r.pull.Looking?
    ensures RequestOk(cfg, s.store, s.tables.packages, id, r.(pull := LookedUp(s, r, choice)))
  {
    if choice < |s.tables.rows| && Matches(s.tables, s.tables.rows[choice], r.tenant, r.name, r.wanted) {
      MatchIsBacked(cfg, s, choice, r.tenant, r.name, r.wanted);
    }
  }

  /** A pull with a row finds its file. */
  lemma OpensWhatItFound(cfg: LP.Config, s: State, id: nat)
    requires Inv(cfg, s) && id in s.requests && s.requests[id].Pull? && s.requests[id].pull.Opening?
    requires s.requests[id].pull.row.Some?
    ensures FullPath(cfg.root, PullRef(s.requests[id])) in s.store.fs.files
    ensures Serves(Opened(cfg, s, id).store.readers, id, s.requests[id].pull.row.value.digest)
  {
    var r := s.requests[id];
    assert RequestOk(cfg, s.store, s.tables.packages, id, r);
    DigestNamesFile(cfg.root, PullRef(r));
  }

  /** Request id moves together with its reader. */
  lemma ReaderMoves(cfg: LP.Config, s: State, id: nat, r: Request, store: LP.State)
    requires Inv(cfg, s) && StoreOk(cfg, store) && store.fs == s.store.fs && store.puts == s.store.puts
    requires RequestOk(cfg, store, s.tables.packages, id, r)
    requires forall i | i != id && i in s.store.readers :: i in store.readers && store.readers[i] == s.store.readers[i]
    ensures Inv(cfg, s.(store := store, requests := s.requests[id := r]))
  {
    forall i | i in s.requests && i != id
      ensures RequestOk(cfg, store, s.tables.packages, i, s.requests[i])
    {
      assert RequestOk(cfg, s.store, s.tables.packages, i, s.requests[i]);
    }
  }

  lemma OpenedReaderKeepsInv(cfg: LP.Config, s: State, id: nat)
    requires Inv(cfg, s) && id in s.requests && s.requests[id].Pull? && s.requests[id].pull.Opening?
    requires FullPath(cfg.root, PullRef(s.requests[id])) in s.store.fs.files
    requires s.requests[id].pull.row.Some? ==>
               Serves(Opened(cfg, s, id).store.readers, id, s.requests[id].pull.row.value.digest)
    ensures Inv(cfg, Opened(cfg, s, id))
  {
    var path := FullPath(cfg.root, PullRef(s.requests[id]));
    ReaderKeepsStore(cfg, s.store, id, path);
    var store := s.store.(readers := s.store.readers[id := LP.Reader(path, s.store.fs.files[path], [])]);
    ReaderMoves(cfg, s, id, s.requests[id].(pull := Streaming(s.requests[id].pull.row)), store);
  }

  lemma OpenKeepsInv(cfg: LP.Config, s: State, id: nat)
    requires Inv(cfg, s) && id in s.requests && s.requests[id].Pull? && s.requests[id].pull.Opening?
    ensures Inv(cfg, Opened(cfg, s, id))
  {
    if s.requests[id].pull.row.Some? { OpensWhatItFound(cfg, s, id); }
    if FullPath(cfg.root, PullRef(s.requests[id])) in s.store.fs.files { OpenedReaderKeepsInv(cfg, s, id); }
    else { RequestMoves(cfg, s, id, Opened(cfg, s, id).requests[id]); }
  }

  // ---------------------------------------------------------------- runs

  lemma StartsKeepInv(cfg: LP.Config, s: State, step: Step)
    requires Inv(cfg, s) && TempIsFree(cfg, s, step)
    requires step.StartPublish? || step.StartManifest? || step.StartBlob?
    ensures Inv(cfg, Next(cfg, s, step))
  {
    if !Fresh(s, step.id) { return; }
    match step
    case StartPublish(id, tenant, name, version, digest, clock, body, publishedBy, manifest, stamp) =>
      var ref := PublishRef(tenant, name, version, digest, clock);
      BeginKeepsInv(cfg, s, id, Push(Publish, ref, body, publishedBy, manifest, Storing), ref, body, stamp);
    case StartManifest(id, tenant, name, tag, clock, body, stamp) =>
      var ref := ManifestRef(tenant, name, tag, clock);
      BeginKeepsInv(cfg, s, id, Push(PutManifest, ref, body, "oci-push", Some(body), Storing), ref, body, stamp);
    case StartBlob(id, tenant, name, uuid, digest, body, stamp) =>
      var ref := BlobRef(tenant, name, digest);
      if digest == "" || body == [] { RequestMoves(cfg, s, id, Blob(ref, uuid, body, Completed(400))); }
      else { BeginKeepsInv(cfg, s, id, Blob(ref, uuid, body, Uploading), ref, body, stamp); }
  }

  lemma NextKeepsInv(cfg: LP.Config, s: State, step: Step)
    requires Inv(cfg, s) && TempIsFree(cfg, s, step)
    ensures Inv(cfg, Next(cfg, s, step))
  {
    if step.StartPublish? || step.StartManifest? || step.StartBlob? { StartsKeepInv(cfg, s, step); }
    else if step.StartPull? || step.LookUp? || step.OpenBlob? || step.ReadBlob? { PullsKeepInv(cfg, s, step); }
    else { PushesKeepInv(cfg, s, step); }
  }

  lemma PushesKeepInv(cfg: LP.Config, s: State, step: Step)
    requires Inv(cfg, s)
    requires step.StartUpload? || step.PutAction? || step.PutReturns? || step.UpsertPackage?
             || step.InsertVersion? || step.StatementFails?
    ensures Inv(cfg, Next(cfg, s, step))
  {
    if Next(cfg, s, step) == s { return; }
    match step
    case StartUpload(_, _) =>
    case PutAction(id, action) => PutActionKeepsInv(cfg, s, id, action);
    case PutReturns(id) => PutReturnsKeepsInv(cfg, s, id);
    case UpsertPackage(id, now) => UpsertKeepsInv(cfg, s, id, now);
    case InsertVersion(id, now) => InsertKeepsInv(cfg, s, id, now);
    case StatementFails(id) => RequestMoves(cfg, s, id, s.requests[id].(push := Replied(201)));
  }

  lemma PullsKeepInv(cfg: LP.Config, s: State, step: Step)
    requires Inv(cfg, s)
    requires step.StartPull? || step.LookUp? || step.OpenBlob? || step.ReadBlob?
    ensures Inv(cfg, Next(cfg, s, step))
  {
    if Next(cfg, s, step) == s { return; }
    match step
    case StartPull(id, endpoint, tenant, name, wanted) =>
      RequestMoves(cfg, s, id, Pull(endpoint, tenant, name, wanted, Looking));
    case LookUp(id, choice) =>
      LookUpIsOk(cfg, s, id, s.requests[id], choice);
      RequestMoves(cfg, s, id, s.requests[id].(pull := LookedUp(s, s.requests[id], choice)));
    case OpenBlob(id) => OpenKeepsInv(cfg, s, id);
    case ReadBlob(id, n) => ReadKeepsInv(cfg, s, id, n);
  }

  lemma {:induction false} RunKeepsInv(cfg: LP.Config, s: State, steps: seq<Step>)
    requires Inv(cfg, s) && Disciplined(cfg, s, steps)
    ensures Inv(cfg, Run(cfg, s, steps))
    decreases |steps|
  {
    if steps != [] {
      NextKeepsInv(cfg, s, steps[0]);
      RunKeepsInv(cfg, Next(cfg, s, steps[0]), steps[1..]);
    }
  }
}
