/** What every run of the registry over the local backend guarantees: the index never dangles,
    pulls deliver what their headers say, and a blob exists exactly when it was stored. */
module RegistryGuarantees {
  import opened Content
  import opened Paths
  import opened FileTree
  import opened MetadataDb
  import opened Registry
  import LP = LocalProtocol
  import LG = LocalGuarantees
  import Solo = SoloRun

  /** A registry before its first request: verified files, empty tables. */
  ghost predicate Begins(cfg: LP.Config, s: State) {
    && LP.AtRest(cfg, s.store)
    && s.tables.packages == [] && s.tables.rows == [] && s.requests == map[]
  }

  lemma BeginsOk(cfg: LP.Config, s: State)
    requires Begins(cfg, s)
    ensures Inv(cfg, s)
  {
  }

  /** A new registry: the directories on the way to the root and nothing else. */
  function Empty(cfg: LP.Config): State {
    var root := Parse(cfg.root);
    var dirs := set k | 0 <= k <= |root.elems| :: Prefix(root, k);
    State(LP.State(Fs(dirs, map[], map[], 0), map[], map[], map[]), Tables([], [], 1, 1), map[], map[])
  }

  /** What the theorems ask of the beginning is what a new registry is. */
  lemma EmptyBegins(cfg: LP.Config)
    ensures var s := Empty(cfg); var root := Parse(cfg.root);
            && Begins(cfg, s) && s.store.fs.files == map[] && LP.Shallow(cfg, s.store.fs)
            && root in s.store.fs.dirs && Path(root.rooted, []) in s.store.fs.dirs
  {
    var root, fs := Parse(cfg.root), Empty(cfg).store.fs;
    assert Prefix(root, |root.elems|) == root && Prefix(root, 0) == Path(root.rooted, []);
    forall p | p in fs.dirs
      ensures Parent(p) in fs.dirs && |p.elems| < LP.Depth(cfg)
    {
      var k :| 0 <= k <= |root.elems| && p == Prefix(root, k);
      if k > 0 { assert root.elems[..k][..k - 1] == root.elems[..k - 1]; assert Parent(p) == Prefix(root, k - 1); }
    }
  }

  // ---------------------------------------------------------------- the index

  /** However publishes, blob uploads and manifest pushes interleave, every row of the index
      names a file that is there, that hashes to the row's digest and that has the row's size. */
  lemma EveryVersionNamesAStoredBlob(cfg: LP.Config, s: State, steps: seq<Step>, row: Row)
    requires Begins(cfg, s) && Disciplined(cfg, s, steps) && row in Run(cfg, s, steps).tables.rows
    ensures var t := Run(cfg, s, steps); var p := Owner(t.tables.packages, row.packageId);
            && p.Some?
            && var ref := PackageRef(p.value.tenant, p.value.name, row.version, row.digest);
               var path := FullPath(cfg.root, ref);
               && row.storageKey == Key(ref)
               && path in t.store.fs.files
               && Checksum(cfg.sha, ContentAt(t.store.fs, path)) == row.digest
               && (Injective(cfg.sha) ==> |ContentAt(t.store.fs, path)| == row.sizeBytes)
  {
    BeginsOk(cfg, s);
    RunKeepsInv(cfg, s, steps);
    var t := Run(cfg, s, steps);
    var i :| 0 <= i < |t.tables.rows| && t.tables.rows[i] == row;
    var p := Owner(t.tables.packages, row.packageId).value;
    BackedIsVerified(cfg, t.store.fs, PackageRef(p.tenant, p.name, row.version, row.digest), row.sizeBytes);
  }

  lemma BackedIsVerified(cfg: LP.Config, fs: Fs, ref: PackageRef, size: int)
    requires LP.Verified(cfg.sha, fs) && Backed(cfg, fs, ref, size)
    ensures Checksum(cfg.sha, ContentAt(fs, FullPath(cfg.root, ref))) == ref.digest
  {
    DigestNamesFile(cfg.root, ref);
    assert ref.digest == ALGORITHM + HexPart(ref.digest);
  }

  /** The manifest endpoint checks the bytes against a digest made up from the clock, so that no
      push to it ever succeeds: it is waiting for its Put or has been answered 500. */
  lemma ManifestPushesNeverSucceed(cfg: LP.Config, s: State, steps: seq<Step>, id: nat)
    requires Begins(cfg, s) && Disciplined(cfg, s, steps)
    requires id in Run(cfg, s, steps).requests
    requires var r := Run(cfg, s, steps).requests[id]; r.Push? && r.kind == PutManifest
    ensures var pc := Run(cfg, s, steps).requests[id].push; pc == Storing || pc == Replied(500)
  {
    BeginsOk(cfg, s);
    RunKeepsInv(cfg, s, steps);
    var t := Run(cfg, s, steps);
    assert RequestOk(cfg, t.store, t.tables.packages, id, t.requests[id]);
  }

  // ---------------------------------------------------------------- pulls

  /** A pull that found a row is never answered 404 or 500, and what it streams is a prefix of
      bytes whose checksum is the row's digest, also when the version was republished between
      its lookup and its open, or after that. */
  lemma PullsDeliverTheirDigest(cfg: LP.Config, s: State, steps: seq<Step>, id: nat)
    requires Begins(cfg, s) && Disciplined(cfg, s, steps)
    requires id in Run(cfg, s, steps).requests && Run(cfg, s, steps).requests[id].Pull?
    ensures var t := Run(cfg, s, steps); var pc := t.requests[id].pull;
            && (pc.Failed? ==> pc.row.None?)
            && (pc.Opening? && pc.row.Some? ==>
                  Opened(cfg, t, id).requests[id].pull == Streaming(pc.row))
            && (pc.Streaming? && pc.row.Some? ==>
                  && id in t.store.readers
                  && var r := t.store.readers[id];
                     && r.inode in t.store.fs.data && r.got <= t.store.fs.data[r.inode]
                     && (|r.got| == |t.store.fs.data[r.inode]| ==> Checksum(cfg.sha, r.got) == pc.row.value.digest))
  {
    BeginsOk(cfg, s);
    RunKeepsInv(cfg, s, steps);
    var t := Run(cfg, s, steps);
    var pc := t.requests[id].pull;
    assert RequestOk(cfg, t.store, t.tables.packages, id, t.requests[id]);
    if pc.Opening? && pc.row.Some? { OpensWhatItFound(cfg, t, id); }
    if pc.Streaming? && pc.row.Some? { ServesItsDigest(cfg, t.store, id, pc.row.value.digest); }
  }

  lemma ServesItsDigest(cfg: LP.Config, store: LP.State, id: nat, digest: string)
    requires LP.Inv(cfg, store) && Serves(store.readers, id, digest)
    ensures var r := store.readers[id];
            && r.inode in store.fs.data && r.got <= store.fs.data[r.inode]
            && (|r.got| == |store.fs.data[r.inode]| ==> Checksum(cfg.sha, r.got) == digest)
  {
    LP.WholeRead(cfg.sha, store.fs, store.readers[id]);
    assert digest == ALGORITHM + HexPart(digest);
  }

  /** A pull by digest may be given any matching row; all of them lead to the same bytes. */
  lemma EveryMatchHoldsTheSameBytes(cfg: LP.Config, s: State, steps: seq<Step>, tenant: string, name: string,
                                    digest: string, a: nat, b: nat)
    requires Begins(cfg, s) && Disciplined(cfg, s, steps) && Injective(cfg.sha)
    requires var t := Run(cfg, s, steps).tables;
             && a < |t.rows| && Matches(t, t.rows[a], tenant, name, ByDigest(digest))
             && b < |t.rows| && Matches(t, t.rows[b], tenant, name, ByDigest(digest))
    ensures var t := Run(cfg, s, steps);
            var p := PackageRef(tenant, name, t.tables.rows[a].version, digest);
            var q := PackageRef(tenant, name, t.tables.rows[b].version, digest);
            && FullPath(cfg.root, p) in t.store.fs.files && FullPath(cfg.root, q) in t.store.fs.files
            && ContentAt(t.store.fs, FullPath(cfg.root, p)) == ContentAt(t.store.fs, FullPath(cfg.root, q))
            && Checksum(cfg.sha, ContentAt(t.store.fs, FullPath(cfg.root, p))) == digest
  {
    BeginsOk(cfg, s);
    RunKeepsInv(cfg, s, steps);
    var t := Run(cfg, s, steps);
    MatchHolds(cfg, t, a, tenant, name, digest);
    MatchHolds(cfg, t, b, tenant, name, digest);
    var p := ContentAt(t.store.fs, FullPath(cfg.root, PackageRef(tenant, name, t.tables.rows[a].version, digest)));
    var q := ContentAt(t.store.fs, FullPath(cfg.root, PackageRef(tenant, name, t.tables.rows[b].version, digest)));
    assert Checksum(cfg.sha, p)[|ALGORITHM|..] == cfg.sha(p) && Checksum(cfg.sha, q)[|ALGORITHM|..] == cfg.sha(q);
  }

  lemma MatchHolds(cfg: LP.Config, t: State, k: nat, tenant: string, name: string, digest: string)
    requires Inv(cfg, t) && k < |t.tables.rows| && Matches(t.tables, t.tables.rows[k], tenant, name, ByDigest(digest))
    ensures var path := FullPath(cfg.root, PackageRef(tenant, name, t.tables.rows[k].version, digest));
            path in t.store.fs.files && Checksum(cfg.sha, ContentAt(t.store.fs, path)) == digest
  {
    MatchIsBacked(cfg, t, k, tenant, name, ByDigest(digest));
    BackedIsVerified(cfg, t.store.fs, PackageRef(tenant, name, t.tables.rows[k].version, digest),
                     t.tables.rows[k].sizeBytes);
  }

  // ---------------------------------------------------------------- blobs and sessions

  ghost predicate Succeeded(put: LP.Put) {
    (put.pc.Cleaning? || put.pc.Finished?) && put.pc.result.Stored?
  }

  predicate Answered(s: State, id: nat, status: nat) {
    id in s.requests && s.requests[id].Blob? && s.requests[id].blob == Completed(status)
  }

  lemma CompletionEffect(s: State, id: nat, result: LP.PutResult)
    requires id in s.requests && s.requests[id].Blob? && s.requests[id].blob == Uploading
    ensures var t := AfterPut(s, id, result);
            && t.store == s.store && t.tables == s.tables
            && Answered(t, id, if result.Stored? then 201 else 500)
            && t.sessions == if result.Stored? then s.sessions - {s.requests[id].uuid} else s.sessions
  {
  }

  lemma StoredBlobIsThere(cfg: LP.Config, store: LP.State, id: nat)
    requires StoreOk(cfg, store) && id in store.puts && Succeeded(store.puts[id])
    ensures var put := store.puts[id]; var path := FullPath(cfg.root, put.ref);
            && put.path == path && put.ref.digest == Checksum(cfg.sha, put.source)
            && path in store.fs.files && cfg.sha(ContentAt(store.fs, path)) == cfg.sha(put.source)
  {
    var put := store.puts[id];
    assert LP.PutOk(cfg, store.fs, put) && PutBacked(cfg, store.fs, put);
    DigestNamesFile(cfg.root, put.ref);
    ChecksumIsDigest(cfg.sha, put.source);
  }

  /** Sessions are opened by uploads and closed by successful completions, one at a time. */
  lemma OnlySuccessClosesASession(cfg: LP.Config, s: State, step: Step, uuid: string)
    requires uuid in s.sessions && uuid !in Next(cfg, s, step).sessions
    ensures step.PutReturns? && step.id in s.requests && s.requests[step.id].Blob? && s.requests[step.id].uuid == uuid
    ensures Next(cfg, s, step).requests[step.id].blob == Completed(201)
    ensures Next(cfg, s, step).sessions == s.sessions - {uuid}
  {
  }

  /** Renaming over p. */
  ghost predicate Commits(fs: Fs, put: LP.Put, action: LP.Action, p: Path) {
    action.Commit? && put.pc.Syncing? && put.path == p && Rename(fs, put.temp, put.path).Some?
  }

  lemma ActionLeavesCommitted(cfg: LP.Config, fs: Fs, put: LP.Put, action: LP.Action, p: Path)
    requires TreeOk(fs) && InodesOk(fs) && LP.PutOk(cfg, fs, put) && Committed(p)
    requires !Commits(fs, put, action, p)
    ensures LG.Unchanged(fs, LP.PutNext(cfg, fs, put, action).0, p)
  {
    match action
    case MakeDir => if put.pc.Making? { LP.MakeDirShape(fs, put); }
    case CreateTemp => if Create(fs, put.temp).Some? { CreateLeavesCommitted(fs, put.temp, p); }
    case CleanUp => RemoveKeeps(fs, put.temp);
    case Commit => if put.pc.Syncing? { LP.CommitPublishesItsStream(cfg, fs, put); }
    case _ =>
  }

  lemma CreateLeavesCommitted(fs: Fs, temp: Path, p: Path)
    requires InodesOk(fs) && p != temp && Create(fs, temp).Some?
    ensures LG.Unchanged(fs, Create(fs, temp).value.0, p)
  {
  }

  lemma ActionCommitsOrLeaves(cfg: LP.Config, fs: Fs, put: LP.Put, action: LP.Action, p: Path)
    requires TreeOk(fs) && InodesOk(fs) && LP.PutOk(cfg, fs, put) && Committed(p)
    ensures var (fs', pc) := LP.PutNext(cfg, fs, put, action);
            || LG.Unchanged(fs, fs', p)
            || (put.path == p && p in fs'.files && ContentAt(fs', p) == put.source && Succeeded(put.(pc := pc)))
  {
    if Commits(fs, put, action, p) { LP.CommitPublishesItsStream(cfg, fs, put); }
    else { ActionLeavesCommitted(cfg, fs, put, action, p); }
  }

  /** The content of a committed file changes in one way only: a Put renames its whole, checked
      stream over it. In particular no failed upload touches a committed file. */
  lemma OnlyACommitChangesAFile(cfg: LP.Config, s: State, step: Step, p: Path)
    requires Inv(cfg, s) && Committed(p)
    ensures var t := Next(cfg, s, step);
            || LG.Unchanged(s.store.fs, t.store.fs, p)
            || (&& step.PutAction? && step.id in s.store.puts && Succeeded(t.store.puts[step.id])
                && t.store.puts[step.id].path == p && p in t.store.fs.files
                && ContentAt(t.store.fs, p) == t.store.puts[step.id].source)
  {
    if step.PutAction? && step.id in s.store.puts {
      assert LP.PutOk(cfg, s.store.fs, s.store.puts[step.id]);
      ActionCommitsOrLeaves(cfg, s.store.fs, s.store.puts[step.id], step.action, p);
    } else {
      OtherStepsDisturbNothing(cfg, s, step);
    }
  }

  /** The files and the Puts that are there stay as they are. */
  ghost predicate Undisturbed(before: LP.State, after: LP.State) {
    after.fs == before.fs && forall i | i in before.puts :: i in after.puts && after.puts[i] == before.puts[i]
  }

  ghost predicate SamePuts(before: LP.State, after: LP.State) {
    after.fs == before.fs && after.puts == before.puts && after.deletes == before.deletes
  }

  lemma StartsDisturbNothing(cfg: LP.Config, s: State, step: Step)
    requires step.StartPublish? || step.StartManifest? || step.StartBlob?
    ensures Undisturbed(s.store, Next(cfg, s, step).store)
  {
    if !Fresh(s, step.id) { return; }
    match step
    case StartPublish(id, tenant, name, version, digest, clock, body, publishedBy, manifest, stamp) =>
    case StartManifest(id, tenant, name, tag, clock, body, stamp) =>
    case StartBlob(id, tenant, name, uuid, digest, body, stamp) =>
  }

  lemma RepliesDisturbNothing(cfg: LP.Config, s: State, step: Step)
    requires step.PutReturns? || step.UpsertPackage? || step.InsertVersion? || step.StatementFails?
    ensures SamePuts(s.store, Next(cfg, s, step).store)
  {
    if Next(cfg, s, step) == s { return; }
    match step
    case PutReturns(id) => assert AfterPut(s, id, s.store.puts[id].pc.result).store == s.store;
    case UpsertPackage(_, _) =>
    case InsertVersion(_, _) =>
    case StatementFails(_) =>
  }

  lemma OpenDisturbsNothing(cfg: LP.Config, s: State, id: nat)
    requires id in s.requests && s.requests[id].Pull? && s.requests[id].pull.Opening?
    ensures SamePuts(s.store, Opened(cfg, s, id).store)
  {
  }

  lemma PullsDisturbNothing(cfg: LP.Config, s: State, step: Step)
    requires step.StartPull? || step.LookUp? || step.OpenBlob? || step.ReadBlob? || step.StartUpload?
    ensures SamePuts(s.store, Next(cfg, s, step).store)
  {
    if Next(cfg, s, step) == s { return; }
    match step
    case StartPull(_, _, _, _, _) =>
    case LookUp(_, _) =>
    case OpenBlob(id) => OpenDisturbsNothing(cfg, s, id);
    case ReadBlob(_, _) =>
    case StartUpload(_, _) =>
  }

  lemma OtherStepsDisturbNothing(cfg: LP.Config, s: State, step: Step)
    requires !(step.PutAction? && step.id in s.store.puts)
    ensures Undisturbed(s.store, Next(cfg, s, step).store)
  {
    if step.StartPublish? || step.StartManifest? || step.StartBlob? { StartsDisturbNothing(cfg, s, step); }
    else if step.PutReturns? || step.UpsertPackage? || step.InsertVersion? || step.StatementFails? {
      RepliesDisturbNothing(cfg, s, step);
    }
    else if !step.PutAction? { PullsDisturbNothing(cfg, s, step); }
  }

  /** Some Put stored what is at p. */
  ghost predicate StoredAt(store: LP.State, p: Path) {
    exists i | i in store.puts :: Succeeded(store.puts[i]) && store.puts[i].path == p
  }

  ghost predicate Accounted(store: LP.State) {
    forall p | p in store.fs.files && Committed(p) :: StoredAt(store, p)
  }

  /** No step takes a success back. */
  lemma SuccessPersists(cfg: LP.Config, s: State, step: Step, i: nat)
    requires i in s.store.puts && Succeeded(s.store.puts[i])
    ensures var t := Next(cfg, s, step);
            i in t.store.puts && Succeeded(t.store.puts[i]) && t.store.puts[i].path == s.store.puts[i].path
  {
    if step.PutAction? && step.id in s.store.puts { SuccessIsFinal(cfg, s.store, step.id, step.action, i); }
    else { OtherStepsDisturbNothing(cfg, s, step); }
  }

  lemma SuccessIsFinal(cfg: LP.Config, store: LP.State, id: nat, action: LP.Action, i: nat)
    requires id in store.puts && i in store.puts && Succeeded(store.puts[i])
    ensures var t := LP.Moved(store, id, LP.PutNext(cfg, store.fs, store.puts[id], action));
            i in t.puts && Succeeded(t.puts[i]) && t.puts[i].path == store.puts[i].path
  {
  }

  lemma NextKeepsAccounted(cfg: LP.Config, s: State, step: Step)
    requires Inv(cfg, s) && Accounted(s.store)
    ensures Accounted(Next(cfg, s, step).store)
  {
    var t := Next(cfg, s, step);
    forall p | p in t.store.fs.files && Committed(p)
      ensures StoredAt(t.store, p)
    {
      OnlyACommitChangesAFile(cfg, s, step, p);
      if LG.Unchanged(s.store.fs, t.store.fs, p) {
        assert StoredAt(s.store, p);
        var i :| i in s.store.puts && Succeeded(s.store.puts[i]) && s.store.puts[i].path == p;
        SuccessPersists(cfg, s, step, i);
      }
    }
  }

  lemma {:induction false} RunKeepsAccounted(cfg: LP.Config, s: State, steps: seq<Step>)
    requires Inv(cfg, s) && Accounted(s.store) && Disciplined(cfg, s, steps)
    ensures Inv(cfg, Run(cfg, s, steps)) && Accounted(Run(cfg, s, steps).store)
    decreases |steps|
  {
    if steps != [] {
      NextKeepsInv(cfg, s, steps[0]);
      NextKeepsAccounted(cfg, s, steps[0]);
      RunKeepsAccounted(cfg, Next(cfg, s, steps[0]), steps[1..]);
    }
  }

  /** HEAD of a blob: os.Stat finds a file or a directory. */
  predicate HeadBlob(cfg: LP.Config, fs: Fs, tenant: string, name: string, digest: string) {
    var path := FullPath(cfg.root, BlobRef(tenant, name, digest));
    path in fs.files || path in fs.dirs
  }

  /** In a store that began without files, HEAD answers 200 for a well-formed digest exactly when
      some Put to that file succeeded, provided that no directory has the file's name; and that
      condition is needed, for with a directory there the answer is 200 and nothing was stored. */
  lemma HeadBlobAnswersWhatWasStored(cfg: LP.Config, s: State, steps: seq<Step>, tenant: string,
                                     name: string, digest: string)
    requires Begins(cfg, s) && s.store.fs.files == map[] && Disciplined(cfg, s, steps) && IsDigest(digest)
    ensures var t := Run(cfg, s, steps); var path := FullPath(cfg.root, BlobRef(tenant, name, digest));
            (HeadBlob(cfg, t.store.fs, tenant, name, digest) <==> StoredAt(t.store, path)) <==> path !in t.store.fs.dirs
  {
    BeginsOk(cfg, s);
    RunKeepsAccounted(cfg, s, steps);
    var t := Run(cfg, s, steps);
    var path := FullPath(cfg.root, BlobRef(tenant, name, digest));
    DigestNamesFile(cfg.root, BlobRef(tenant, name, digest));
    if StoredAt(t.store, path) {
      var i :| i in t.store.puts && Succeeded(t.store.puts[i]) && t.store.puts[i].path == path;
      StoredBlobIsThere(cfg, t.store, i);
    }
  }

  // ---------------------------------------------------------------- HEAD, in flat stores and others

  ghost predicate FlatStart(step: Step) {
    Started(step).Some? ==> Flat(Started(step).value.0)
  }

  lemma StartKeepsLayered(cfg: LP.Config, s: State, id: nat, r: Request, ref: PackageRef, body: Bytes, stamp: Stamp)
    requires LP.Layered(cfg, s.store) && Flat(ref)
    ensures LP.Layered(cfg, Begin(cfg, s, id, r, ref, body, stamp).store)
  {
    LP.StartIsLayered(cfg, ref, body, |body|, stamp);
  }

  lemma StartsKeepLayered(cfg: LP.Config, s: State, step: Step)
    requires LP.Layered(cfg, s.store) && FlatStart(step)
    requires step.StartPublish? || step.StartManifest? || step.StartBlob?
    ensures LP.Layered(cfg, Next(cfg, s, step).store)
  {
    if !Fresh(s, step.id) { return; }
    match step
    case StartPublish(id, tenant, name, version, digest, clock, body, publishedBy, manifest, stamp) =>
      var ref := PublishRef(tenant, name, version, digest, clock);
      StartKeepsLayered(cfg, s, id, Push(Publish, ref, body, publishedBy, manifest, Storing), ref, body, stamp);
    case StartManifest(id, tenant, name, tag, clock, body, stamp) =>
      var ref := ManifestRef(tenant, name, tag, clock);
      StartKeepsLayered(cfg, s, id, Push(PutManifest, ref, body, "oci-push", Some(body), Storing), ref, body, stamp);
    case StartBlob(id, tenant, name, uuid, digest, body, stamp) =>
      StartKeepsLayered(cfg, s, id, Blob(BlobRef(tenant, name, digest), uuid, body, Uploading),
                        BlobRef(tenant, name, digest), body, stamp);
  }

  lemma NextKeepsLayered(cfg: LP.Config, s: State, step: Step)
    requires Inv(cfg, s) && LP.Layered(cfg, s.store) && FlatStart(step)
    ensures LP.Layered(cfg, Next(cfg, s, step).store)
  {
    if step.StartPublish? || step.StartManifest? || step.StartBlob? { StartsKeepLayered(cfg, s, step); }
    else if step.PutAction? {
      if step.id in s.store.puts { LP.PutStepKeepsLayered(cfg, s.store, step.id, step.action); }
    }
    else if step.PutReturns? || step.UpsertPackage? || step.InsertVersion? || step.StatementFails? {
      RepliesDisturbNothing(cfg, s, step);
    }
    else { PullsDisturbNothing(cfg, s, step); }
  }

  lemma {:induction false} RunKeepsLayered(cfg: LP.Config, s: State, steps: seq<Step>)
    requires Inv(cfg, s) && Disciplined(cfg, s, steps) && LP.Layered(cfg, s.store)
    requires forall k | 0 <= k < |steps| :: FlatStart(steps[k])
    ensures LP.Layered(cfg, Run(cfg, s, steps).store)
    decreases |steps|
  {
    if steps != [] {
      NextKeepsInv(cfg, s, steps[0]);
      NextKeepsLayered(cfg, s, steps[0]);
      RunKeepsLayered(cfg, Next(cfg, s, steps[0]), steps[1..]);
    }
  }

  /** When all references pushed are flat, HEAD answers 200 exactly for what was stored. */
  lemma HeadBlobIsExactInFlatStores(cfg: LP.Config, s: State, steps: seq<Step>, tenant: string,
                                    name: string, digest: string)
    requires Begins(cfg, s) && s.store.fs.files == map[] && LP.Shallow(cfg, s.store.fs) && Disciplined(cfg, s, steps)
    requires forall k | 0 <= k < |steps| :: FlatStart(steps[k])
    requires IsDigest(digest) && Flat(BlobRef(tenant, name, digest))
    ensures var t := Run(cfg, s, steps);
            HeadBlob(cfg, t.store.fs, tenant, name, digest) <==>
              StoredAt(t.store, FullPath(cfg.root, BlobRef(tenant, name, digest)))
  {
    BeginsOk(cfg, s);
    RunKeepsLayered(cfg, s, steps);
    FlatLayout(cfg.root, BlobRef(tenant, name, digest));
    HeadBlobAnswersWhatWasStored(cfg, s, steps, tenant, name, digest);
  }

  function PutActions(id: nat, actions: seq<LP.Action>): seq<Step> {
    seq(|actions|, i requires 0 <= i < |actions| => PutAction(id, actions[i]))
  }

  /** System calls of one Put in a row do to the store what they do to that Put. */
  lemma {:induction false} RunOfOnePut(cfg: LP.Config, s: State, id: nat, actions: seq<LP.Action>)
    requires id in s.store.puts
    ensures var r := Solo.PutRun(cfg, s.store.fs, s.store.puts[id], actions);
            Run(cfg, s, PutActions(id, actions)) == s.(store := s.store.(fs := r.0, puts := s.store.puts[id := r.1]))
    ensures Disciplined(cfg, s, PutActions(id, actions))
    decreases |actions|
  {
    if actions == [] {
      assert s.store.puts[id := s.store.puts[id]] == s.store.puts;
    } else {
      var steps := PutActions(id, actions);
      assert steps[1..] == PutActions(id, actions[1..]);
      var s' := Next(cfg, s, steps[0]);
      RunOfOnePut(cfg, s', id, actions[1..]);
      var r := Solo.PutRun(cfg, s.store.fs, s.store.puts[id], actions);
      assert s'.store.puts[id := r.1] == s.store.puts[id := r.1];
    }
  }

  lemma StepAndRun(cfg: LP.Config, s: State, step: Step, rest: seq<Step>)
    ensures Run(cfg, s, [step] + rest) == Run(cfg, Next(cfg, s, step), rest)
    ensures Disciplined(cfg, s, [step] + rest) <==>
            TempIsFree(cfg, s, step) && Disciplined(cfg, Next(cfg, s, step), rest)
  {
    assert ([step] + rest)[1..] == rest;
  }

  /** The other case does arise. A publish of the version "sha256:H" with the digest "sha256:H/x",
      which can never succeed, makes directories on its way; from then on HEAD reports a blob
      sha256:H that nobody has stored. */
  lemma HeadBlobCanFindADirectory(cfg: LP.Config, s: State, tenant: string, name: string,
                                  digest: string, body: Bytes, stamp: Stamp)
    requires Begins(cfg, s) && s.store == LP.State(s.store.fs, map[], map[], map[]) && s.store.fs.files == map[]
    requires Path(Parse(cfg.root).rooted, []) in s.store.fs.dirs
    requires IsDigest(digest) && Flat(BlobRef(tenant, name, digest))
    ensures var n := |Parse(cfg.root).elems| + 4;
            var start := StartPublish(0, tenant, name, digest, digest + "/x", "", body, "", None, stamp);
            var steps := [start] + PutActions(0, Solo.MakeDirs(n));
            var t := Run(cfg, s, steps);
            && Disciplined(cfg, s, steps)
            && HeadBlob(cfg, t.store.fs, tenant, name, digest)
            && !StoredAt(t.store, FullPath(cfg.root, BlobRef(tenant, name, digest)))
  {
    var n := |Parse(cfg.root).elems| + 4;
    var start := StartPublish(0, tenant, name, digest, digest + "/x", "", body, "", None, stamp);
    SlashedPut(cfg, tenant, name, digest, body, stamp);
    AloneAfterStart(cfg, s, start);
    MakeDirsLeadToADirectory(cfg, Next(cfg, s, start), FullPath(cfg.root, BlobRef(tenant, name, digest)));
    StepAndRun(cfg, s, start, PutActions(0, Solo.MakeDirs(n)));
  }

  lemma AloneAfterStart(cfg: LP.Config, s: State, start: Step)
    requires start.StartPublish? && start.id == 0 && s.requests == map[] && s.store.puts == map[]
             && s.store.readers == map[]
    ensures var t := Next(cfg, s, start);
            var ref := PublishRef(start.tenant, start.name, start.version, start.digest, start.clock);
            && t.store.fs == s.store.fs
            && t.store.puts == map[0 := LP.Start(cfg, ref, start.body, |start.body|, start.stamp)]
  {
  }

  lemma MakeDirsLeadToADirectory(cfg: LP.Config, s: State, path: Path)
    requires TreeOk(s.store.fs) && s.store.fs.files == map[]
    requires s.store.puts.Keys == {0} && s.store.puts[0].pc == LP.Making(0)
    requires Parent(s.store.puts[0].path) == path && Path(path.rooted, []) in s.store.fs.dirs
    requires Prefix(s.store.puts[0].path, 0) == Path(path.rooted, []) && |path.elems| < |s.store.puts[0].path.elems|
    requires Prefix(s.store.puts[0].path, |path.elems|) == path
    ensures var steps := PutActions(0, Solo.MakeDirs(|path.elems|)); var t := Run(cfg, s, steps);
            Disciplined(cfg, s, steps) && path in t.store.fs.dirs && !StoredAt(t.store, path)
  {
    var put := s.store.puts[0];
    RunOfOnePut(cfg, s, 0, Solo.MakeDirs(|path.elems|));
    Solo.MakeDirsIsMkdirAll(cfg, s.store.fs, put, |path.elems|);
    LG.MkdirAllSucceeds(s.store.fs, Path(path.rooted, []), path);
  }

  lemma ChildOf(path: Path, x: string)
    ensures var q := path.(elems := path.elems + [x]);
            Parent(q) == path && Prefix(q, 0) == Path(path.rooted, []) && Prefix(q, |path.elems|) == path
  {
    assert (path.elems + [x])[..|path.elems|] == path.elems;
  }

  lemma SlashedPut(cfg: LP.Config, tenant: string, name: string, digest: string, body: Bytes, stamp: Stamp)
    requires IsDigest(digest) && Flat(BlobRef(tenant, name, digest))
    ensures var put := LP.Start(cfg, PublishRef(tenant, name, digest, digest + "/x", ""), body, |body|, stamp);
            var path := FullPath(cfg.root, BlobRef(tenant, name, digest));
            && put.pc == LP.Making(0)
            && |path.elems| == |Parse(cfg.root).elems| + 4 && path.rooted == Parse(cfg.root).rooted
            && put.path == path.(elems := path.elems + ["x"])
            && Parent(put.path) == path
            && Prefix(put.path, 0) == Path(path.rooted, []) && Prefix(put.path, |path.elems|) == path
  {
    var ref := BlobRef(tenant, name, digest);
    FlatLayout(cfg.root, ref);
    SlashInDigest(cfg.root, ref, "x");
    ChildOf(FullPath(cfg.root, ref), "x");
    SlashedRef(tenant, name, digest);
    StartsMaking(cfg, PublishRef(tenant, name, digest, digest + "/x", ""), body, stamp);
    assert |FullPath(cfg.root, ref).elems| == |Parse(cfg.root).elems| + |Elements(ref)|;
  }

  lemma SlashedRef(tenant: string, name: string, digest: string)
    requires Plain(tenant) && |name| == |Sanitize(name)| && Plain(Sanitize(name)) && digest != ""
    ensures var ref := PublishRef(tenant, name, digest, digest + "/x", "");
            && ref == BlobRef(tenant, name, digest).(digest := digest + "/" + "x")
            && ref.tenant != "" && ref.name != "" && ref.version != "" && ref.digest != ""
  {
    assert digest + "/x" == digest + "/" + "x";
    assert |digest + "/x"| > 0;
  }

  lemma StartsMaking(cfg: LP.Config, ref: PackageRef, body: Bytes, stamp: Stamp)
    requires ref.tenant != "" && ref.name != "" && ref.version != "" && ref.digest != ""
    ensures LP.Start(cfg, ref, body, |body|, stamp).pc == LP.Making(0)
    ensures LP.Start(cfg, ref, body, |body|, stamp).path == FullPath(cfg.root, ref)
  {
  }
}
