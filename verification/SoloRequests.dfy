/** The interleaved registry and the handlers agree: a request whose steps meet no other request
    does what the handler method is proved to do. */
module SoloRequests {
  import opened Content
  import opened Paths
  import opened FileTree
  import opened Registry
  import LP = LocalProtocol
  import PV = LocalProvider
  import M = MetadataDb
  import H = Handlers
  import Solo = SoloRun
  import RG = RegistryGuarantees

  lemma RunOfOne(cfg: LP.Config, s: State, step: Step)
    ensures Run(cfg, s, [step]) == Next(cfg, s, step)
  {
    assert [step][1..] == [];
  }

  /** Every system call of a Put that meets no trouble but what the tree makes. */
  function PutCalls(put: LP.Put): seq<LP.Action> {
    Solo.MakeDirs(|Parent(put.path).elems|) + [LP.MakeDir] + Solo.Body(put.source)
  }

  /** After the start of a request and its Put. */
  lemma PutPart(cfg: LP.Config, s: State, id: nat, r: Request, ref: PackageRef, body: Bytes, stamp: Stamp)
    requires TreeOk(s.store.fs) && Path(FullPath(cfg.root, ref).rooted, []) in s.store.fs.dirs && Fresh(s, id)
    ensures var put := LP.Start(cfg, ref, body, |body|, stamp);
            var t := Run(cfg, Begin(cfg, s, id, r, ref, body, stamp), RG.PutActions(id, PutCalls(put)));
            var (fs, result) := PV.PutAlone(cfg, s.store.fs, ref, body, |body|, ref.digest, stamp);
            && t.store.fs == fs && t.tables == s.tables && t.requests == s.requests[id := r] && t.sessions == s.sessions
            && id in t.store.puts && t.store.puts[id].pc == LP.Finished(result)
  {
    var put := LP.Start(cfg, ref, body, |body|, stamp);
    RG.RunOfOnePut(cfg, Begin(cfg, s, id, r, ref, body, stamp), id, PutCalls(put));
    Solo.SoloActions(cfg, s.store.fs, ref, body, |body|, stamp);
  }

  /** What follows the Put of a publish. */
  function AfterPublishPut(id: nat, now: int): seq<Step> {
    [PutReturns(id)] + ([UpsertPackage(id, now)] + [InsertVersion(id, now)])
  }

  lemma IndexPart(cfg: LP.Config, s: State, id: nat, result: LP.PutResult, now: int)
    requires id in s.requests && s.requests[id].Push? && s.requests[id].push == Storing
    requires id in s.store.puts && s.store.puts[id].pc == LP.Finished(result)
    ensures var t := Run(cfg, s, AfterPublishPut(id, now)); var r := s.requests[id];
            && t.store == s.store
            && t.requests == s.requests[id := r.(push := Replied(if result.Stored? then 201 else 500))]
            && t.tables == if result.Stored?
                           then M.Publish(s.tables, r.ref.tenant, r.ref.name, DraftOf(r, result.size, result.key), now)
                           else s.tables
  {
    var a := AfterPut(s, id, result);
    RunConcat(cfg, s, [PutReturns(id)], [UpsertPackage(id, now)] + [InsertVersion(id, now)]);
    RunConcat(cfg, a, [UpsertPackage(id, now)], [InsertVersion(id, now)]);
    RunOfOne(cfg, s, PutReturns(id));
    RunOfOne(cfg, a, UpsertPackage(id, now));
    RunOfOne(cfg, Next(cfg, a, UpsertPackage(id, now)), InsertVersion(id, now));
    if result.Stored? { StatementsPart(cfg, a, id, now); } else { NoStatements(cfg, a, id, now); }
  }

  lemma NoStatements(cfg: LP.Config, s: State, id: nat, now: int)
    requires id in s.requests && s.requests[id].Push? && s.requests[id].push.Replied?
    ensures Next(cfg, s, UpsertPackage(id, now)) == s && Next(cfg, s, InsertVersion(id, now)) == s
  {
  }

  lemma StatementsPart(cfg: LP.Config, s: State, id: nat, now: int)
    requires id in s.requests && s.requests[id].Push? && s.requests[id].push.Upserting?
    ensures var t := Next(cfg, Next(cfg, s, UpsertPackage(id, now)), InsertVersion(id, now)); var r := s.requests[id];
            && t.store == s.store && t.requests == s.requests[id := r.(push := Replied(201))]
            && t.tables == M.Publish(s.tables, r.ref.tenant, r.ref.name, DraftOf(r, r.push.size, r.push.key), now)
  {
    var a := Upserted(s, id, now);
    assert Next(cfg, s, UpsertPackage(id, now)) == a;
    assert Next(cfg, a, InsertVersion(id, now)) == Inserted(a, id, now);
  }

  /** A publish alone: tree, tables and answer are those of the handler's contract. */
  lemma SoloPublishIsTheHandler(cfg: LP.Config, s: State, id: nat, codec: H.Codec, call: H.PublishCall, data: Bytes)
    requires H.Uploaded(call.form) == Some(data) && TreeOk(s.store.fs) && Fresh(s, id)
    requires Path(FullPath(cfg.root, H.RefOf(codec, call, data)).rooted, []) in s.store.fs.dirs
    ensures var ref, scan := H.RefOf(codec, call, data), H.ScanOf(codec, data);
            var user := if call.user != "" then call.user else "dev";
            var manifest := if scan.Found? then Some(scan.raw) else None;
            var start := StartPublish(id, call.tenant, ref.name, ref.version, call.digest, call.clock,
                                      data, user, manifest, call.stamp);
            var calls := RG.PutActions(id, PutCalls(LP.Start(cfg, ref, data, |data|, call.stamp)));
            var t := Run(cfg, s, [start] + (calls + AfterPublishPut(id, call.now)));
            var (fs, result) := PV.PutAlone(cfg, s.store.fs, ref, data, |data|, ref.digest, call.stamp);
            && t.store.fs == fs && id in t.requests && t.requests[id].Push?
            && t.requests[id].push == Replied(if result.Stored? then 201 else 500)
            && t.tables == if result.Stored?
                           then M.Publish(s.tables, ref.tenant, ref.name,
                                          H.DraftOf(codec, call, data, result.key), call.now)
                           else s.tables
  {
    var ref, scan := H.RefOf(codec, call, data), H.ScanOf(codec, data);
    H.StoredSize(cfg, s.store.fs, ref, data, |data|, ref.digest, call.stamp);
    SoloPublish(cfg, s, id, call.tenant, ref.name, ref.version, call.digest, call.clock, data,
                if call.user != "" then call.user else "dev", if scan.Found? then Some(scan.raw) else None,
                call.stamp, call.now);
  }

  /** A publish alone, of any manifest and by any user. */
  lemma SoloPublish(cfg: LP.Config, s: State, id: nat, tenant: string, name: string, version: string,
                    digest: string, clock: string, body: Bytes, user: string,
                    manifest: Option<Bytes>, stamp: Stamp, now: int)
    requires var ref := PublishRef(tenant, name, version, digest, clock);
             TreeOk(s.store.fs) && Path(FullPath(cfg.root, ref).rooted, []) in s.store.fs.dirs && Fresh(s, id)
    ensures var ref := PublishRef(tenant, name, version, digest, clock);
            var calls := RG.PutActions(id, PutCalls(LP.Start(cfg, ref, body, |body|, stamp)));
            var t := Run(cfg, s, [StartPublish(id, tenant, name, version, digest, clock, body, user, manifest, stamp)]
                                 + (calls + AfterPublishPut(id, now)));
            var (fs, result) := PV.PutAlone(cfg, s.store.fs, ref, body, |body|, ref.digest, stamp);
            && t.store.fs == fs && id in t.requests && t.requests[id].Push?
            && t.requests[id].push == Replied(if result.Stored? then 201 else 500)
            && t.tables == if result.Stored?
                           then M.Publish(s.tables, tenant, name,
                                          M.Draft(version, ref.digest, result.size, result.key, manifest, user), now)
                           else s.tables
  {
    var ref := PublishRef(tenant, name, version, digest, clock);
    var r := Push(Publish, ref, body, user, manifest, Storing);
    var start := StartPublish(id, tenant, name, version, digest, clock, body, user, manifest, stamp);
    var calls := RG.PutActions(id, PutCalls(LP.Start(cfg, ref, body, |body|, stamp)));
    var begun := Begin(cfg, s, id, r, ref, body, stamp);
    RunConcat(cfg, s, [start], calls + AfterPublishPut(id, now));
    RunOfOne(cfg, s, start);
    RunConcat(cfg, begun, calls, AfterPublishPut(id, now));
    PutPart(cfg, s, id, r, ref, body, stamp);
    var result := PV.PutAlone(cfg, s.store.fs, ref, body, |body|, ref.digest, stamp).1;
    IndexPart(cfg, Run(cfg, begun, calls), id, result, now);
  }

  /** A manifest push alone: as its handler has it, with the digest in place of the storage key. */
  lemma SoloManifestIsTheHandler(cfg: LP.Config, s: State, id: nat, tenant: string, name: string, tag: string,
                                 clock: string, body: Bytes, stamp: Stamp, now: int)
    requires TreeOk(s.store.fs) && Fresh(s, id)
    requires Path(FullPath(cfg.root, ManifestRef(tenant, name, tag, clock)).rooted, []) in s.store.fs.dirs
    ensures var ref := ManifestRef(tenant, name, tag, clock);
            var calls := RG.PutActions(id, PutCalls(LP.Start(cfg, ref, body, |body|, stamp)));
            var start := StartManifest(id, tenant, name, tag, clock, body, stamp);
            var t := Run(cfg, s, [start] + (calls + AfterPublishPut(id, now)));
            var (fs, result) := PV.PutAlone(cfg, s.store.fs, ref, body, |body|, ref.digest, stamp);
            && t.store.fs == fs && id in t.requests && t.requests[id].Push?
            && t.requests[id].push == Replied(if result.Stored? then 201 else 500)
            && t.tables == if result.Stored?
                           then M.Publish(s.tables, tenant, name,
                                          M.Draft(tag, ref.digest, result.size, ref.digest,
                                                  Some(body), "oci-push"), now)
                           else s.tables
  {
    var ref := ManifestRef(tenant, name, tag, clock);
    var r := Push(PutManifest, ref, body, "oci-push", Some(body), Storing);
    var start := StartManifest(id, tenant, name, tag, clock, body, stamp);
    var calls := RG.PutActions(id, PutCalls(LP.Start(cfg, ref, body, |body|, stamp)));
    var begun := Begin(cfg, s, id, r, ref, body, stamp);
    RunConcat(cfg, s, [start], calls + AfterPublishPut(id, now));
    RunOfOne(cfg, s, start);
    RunConcat(cfg, begun, calls, AfterPublishPut(id, now));
    PutPart(cfg, s, id, r, ref, body, stamp);
    var result := PV.PutAlone(cfg, s.store.fs, ref, body, |body|, ref.digest, stamp).1;
    IndexPart(cfg, Run(cfg, begun, calls), id, result, now);
  }

  /** A blob completion alone: tree, sessions and answer are those of the handler. */
  lemma SoloBlobIsTheHandler(cfg: LP.Config, s: State, id: nat, tenant: string, name: string, uuid: string,
                             digest: string, body: Bytes, stamp: Stamp)
    requires TreeOk(s.store.fs) && Fresh(s, id) && digest != "" && body != []
    requires Path(FullPath(cfg.root, BlobRef(tenant, name, digest)).rooted, []) in s.store.fs.dirs
    ensures var ref := BlobRef(tenant, name, digest);
            var calls := RG.PutActions(id, PutCalls(LP.Start(cfg, ref, body, |body|, stamp)));
            var t := Run(cfg, s, [StartBlob(id, tenant, name, uuid, digest, body, stamp)] + (calls + [PutReturns(id)]));
            var (fs, result) := PV.PutAlone(cfg, s.store.fs, ref, body, |body|, digest, stamp);
            && t.store.fs == fs && t.tables == s.tables
            && RG.Answered(t, id, if result.Stored? then 201 else 500)
            && t.sessions == if result.Stored? then s.sessions - {uuid} else s.sessions
  {
    var ref := BlobRef(tenant, name, digest);
    var start := StartBlob(id, tenant, name, uuid, digest, body, stamp);
    var calls := RG.PutActions(id, PutCalls(LP.Start(cfg, ref, body, |body|, stamp)));
    var begun := Begin(cfg, s, id, Blob(ref, uuid, body, Uploading), ref, body, stamp);
    RunConcat(cfg, s, [start], calls + [PutReturns(id)]);
    RunOfOne(cfg, s, start);
    BlobBegins(cfg, s, id, tenant, name, uuid, digest, body, stamp);
    RunConcat(cfg, begun, calls, [PutReturns(id)]);
    PutPart(cfg, s, id, Blob(ref, uuid, body, Uploading), ref, body, stamp);
    ReturnPart(cfg, Run(cfg, begun, calls), id, PV.PutAlone(cfg, s.store.fs, ref, body, |body|, digest, stamp).1);
  }

  lemma BlobBegins(cfg: LP.Config, s: State, id: nat, tenant: string, name: string, uuid: string,
                   digest: string, body: Bytes, stamp: Stamp)
    requires Fresh(s, id) && digest != "" && body != []
    ensures var ref := BlobRef(tenant, name, digest);
            Next(cfg, s, StartBlob(id, tenant, name, uuid, digest, body, stamp))
              == Begin(cfg, s, id, Blob(ref, uuid, body, Uploading), ref, body, stamp)
  {
  }

  lemma ReturnPart(cfg: LP.Config, s: State, id: nat, result: LP.PutResult)
    requires id in s.requests && s.requests[id].Blob? && s.requests[id].blob == Uploading
    requires id in s.store.puts && s.store.puts[id].pc == LP.Finished(result)
    ensures var t := Run(cfg, s, [PutReturns(id)]);
            && t.store == s.store && t.tables == s.tables
            && RG.Answered(t, id, if result.Stored? then 201 else 500)
            && t.sessions == if result.Stored? then s.sessions - {s.requests[id].uuid} else s.sessions
  {
    RunOfOne(cfg, s, PutReturns(id));
    RG.CompletionEffect(s, id, result);
  }

  /** The start of an upload, under the uuid that its handler makes of the clock. */
  lemma SoloUploadIsTheHandler(cfg: LP.Config, s: State, name: string, clock: string)
    ensures Run(cfg, s, [StartUpload("u" + clock, name)]) == s.(sessions := s.sessions["u" + clock := name])
  {
    RunOfOne(cfg, s, StartUpload("u" + clock, name));
  }

  /** A blob completion without a digest or without a body is answered at once. */
  lemma SoloRefusedBlobIsTheHandler(cfg: LP.Config, s: State, id: nat, tenant: string, name: string, uuid: string,
                                    digest: string, body: Bytes, stamp: Stamp)
    requires Fresh(s, id) && (digest == "" || body == [])
    ensures var t := Run(cfg, s, [StartBlob(id, tenant, name, uuid, digest, body, stamp)]);
            RG.Answered(t, id, 400) && t.store == s.store && t.tables == s.tables && t.sessions == s.sessions
  {
    RunOfOne(cfg, s, StartBlob(id, tenant, name, uuid, digest, body, stamp));
  }

  /** A pull stands where a handler has given this response: it streams that content, unread,
      or has failed with that status. */
  ghost predicate Answers(s: State, id: nat, row: Option<M.Row>, r: H.Response) {
    && id in s.requests && s.requests[id].Pull?
    && match r
       case Streams(digest, content) =>
         && s.requests[id].pull == Streaming(row) && digest == (if row.Some? then row.value.digest else "")
         && id in s.store.readers && s.store.readers[id].got == []
         && s.store.readers[id].inode in s.store.fs.data && s.store.fs.data[s.store.readers[id].inode] == content
       case Status(code) => s.requests[id].pull == Failed(code, row)
  }

  lemma OpenAnswers(cfg: LP.Config, s: State, id: nat, version: string)
    requires InodesOk(s.store.fs) && id in s.requests && s.requests[id].Pull? && s.requests[id].pull.Opening?
    requires s.requests[id].pull.row.Some? ==> s.requests[id].pull.row.value.version == version
    requires s.requests[id].pull.row.None? ==> s.requests[id].wanted == ByVersion(version)
    ensures var r := s.requests[id];
            Answers(Opened(cfg, s, id), id, r.pull.row,
                    H.Pulled(cfg, s.store.fs, r.pull.row, r.tenant, r.name, version, ""))
  {
  }

  lemma LookUpFetches(s: State, r: Request, choice: nat)
    requires r.Pull? && r.endpoint == GetPackage && r.wanted.ByVersion?
    requires var found := M.Fetch(s.tables, r.tenant, r.name, r.wanted.version);
             found.Some? ==> choice < |s.tables.rows| && s.tables.rows[choice] == found.value
    ensures LookedUp(s, r, choice) == Opening(M.Fetch(s.tables, r.tenant, r.name, r.wanted.version))
  {
    H.FetchMatches(s.tables, r.tenant, r.name, r.wanted.version);
    var found := M.Fetch(s.tables, r.tenant, r.name, r.wanted.version);
    if found.None? && choice < |s.tables.rows| {
      assert s.tables.rows[choice] in s.tables.rows;
    }
  }

  /** A pull by version alone gives the response of the handler. */
  lemma SoloPullIsTheHandler(cfg: LP.Config, s: State, id: nat, tenant: string, name: string,
                             version: string, choice: nat)
    requires InodesOk(s.store.fs) && Fresh(s, id)
    requires var found := M.Fetch(s.tables, tenant, name, version);
             found.Some? ==> choice < |s.tables.rows| && s.tables.rows[choice] == found.value
    ensures var start := StartPull(id, GetPackage, tenant, name, ByVersion(version));
            var t := Run(cfg, s, [start] + ([LookUp(id, choice)] + [OpenBlob(id)]));
            var found := M.Fetch(s.tables, tenant, name, version);
            Answers(t, id, found, H.Pulled(cfg, s.store.fs, found, tenant, name, version, ""))
  {
    var found := M.Fetch(s.tables, tenant, name, version);
    var looking := Pull(GetPackage, tenant, name, ByVersion(version), Looking);
    var a := s.(requests := s.requests[id := looking]);
    var b := s.(requests := s.requests[id := looking.(pull := Opening(found))]);
    RunConcat(cfg, s, [StartPull(id, GetPackage, tenant, name, ByVersion(version))],
              [LookUp(id, choice)] + [OpenBlob(id)]);
    RunOfOne(cfg, s, StartPull(id, GetPackage, tenant, name, ByVersion(version)));
    RunConcat(cfg, a, [LookUp(id, choice)], [OpenBlob(id)]);
    RunOfOne(cfg, a, LookUp(id, choice));
    RunOfOne(cfg, b, OpenBlob(id));
    LookUpFetches(a, looking, choice);
    PullSteps(cfg, s, id, looking, choice, found);
    H.FetchMatches(s.tables, tenant, name, version);
    OpenAnswers(cfg, b, id, version);
  }

  lemma PullSteps(cfg: LP.Config, s: State, id: nat, r: Request, choice: nat, found: Option<M.Row>)
    requires Fresh(s, id) && r.Pull? && r.pull == Looking && (r.endpoint == GetPackage ==> r.wanted.ByVersion?)
    requires LookedUp(s.(requests := s.requests[id := r]), r, choice) == Opening(found)
    ensures var a := s.(requests := s.requests[id := r]);
            var b := s.(requests := s.requests[id := r.(pull := Opening(found))]);
            && Next(cfg, s, StartPull(id, r.endpoint, r.tenant, r.name, r.wanted)) == a
            && Next(cfg, a, LookUp(id, choice)) == b
            && Next(cfg, b, OpenBlob(id)) == Opened(cfg, b, id)
  {
    var a := s.(requests := s.requests[id := r]);
    PullStarts(cfg, s, id, r);
    PullLooksUp(cfg, a, id, choice);
    assert s.requests[id := r][id := r.(pull := Opening(found))] == s.requests[id := r.(pull := Opening(found))];
    PullOpens(cfg, s.(requests := s.requests[id := r.(pull := Opening(found))]), id);
  }

  lemma PullStarts(cfg: LP.Config, s: State, id: nat, r: Request)
    requires Fresh(s, id) && r.Pull? && r.pull == Looking && (r.endpoint == GetPackage ==> r.wanted.ByVersion?)
    ensures Next(cfg, s, StartPull(id, r.endpoint, r.tenant, r.name, r.wanted)) == s.(requests := s.requests[id := r])
  {
  }

  lemma PullLooksUp(cfg: LP.Config, s: State, id: nat, choice: nat)
    requires id in s.requests && s.requests[id].Pull? && s.requests[id].pull == Looking
    ensures Next(cfg, s, LookUp(id, choice))
         == s.(requests := s.requests[id := s.requests[id].(pull := LookedUp(s, s.requests[id], choice))])
  {
  }

  lemma PullOpens(cfg: LP.Config, s: State, id: nat)
    requires id in s.requests && s.requests[id].Pull? && s.requests[id].pull.Opening?
    ensures Next(cfg, s, OpenBlob(id)) == Opened(cfg, s, id)
  {
  }

  /** A manifest pull alone gives the response of its handler for the row that the store returned,
      and 404 when no row matches. */
  lemma SoloManifestPullIsTheHandler(cfg: LP.Config, s: State, id: nat, tenant: string,
                                     name: string, wanted: Wanted, choice: nat)
    requires InodesOk(s.store.fs) && Fresh(s, id)
    requires (exists row | row in s.tables.rows :: Matches(s.tables, row, tenant, name, wanted)) ==>
               choice < |s.tables.rows| && Matches(s.tables, s.tables.rows[choice], tenant, name, wanted)
    ensures var start := StartPull(id, GetManifest, tenant, name, wanted);
            var t := Run(cfg, s, [start] + ([LookUp(id, choice)] + [OpenBlob(id)]));
            if exists row | row in s.tables.rows :: Matches(s.tables, row, tenant, name, wanted)
            then var row := s.tables.rows[choice];
                 Answers(t, id, Some(row), H.Pulled(cfg, s.store.fs, Some(row), tenant, name, row.version, ""))
            else Answers(t, id, None, H.Status(404))
  {
    var looking := Pull(GetManifest, tenant, name, wanted, Looking);
    var a := s.(requests := s.requests[id := looking]);
    RunConcat(cfg, s, [StartPull(id, GetManifest, tenant, name, wanted)], [LookUp(id, choice)] + [OpenBlob(id)]);
    RunOfOne(cfg, s, StartPull(id, GetManifest, tenant, name, wanted));
    PullStarts(cfg, s, id, looking);
    RunConcat(cfg, a, [LookUp(id, choice)], [OpenBlob(id)]);
    RunOfOne(cfg, a, LookUp(id, choice));
    PullLooksUp(cfg, a, id, choice);
    var b := Next(cfg, a, LookUp(id, choice));
    RunOfOne(cfg, b, OpenBlob(id));
    if exists row | row in s.tables.rows :: Matches(s.tables, row, tenant, name, wanted) {
      FoundManifestOpens(cfg, s, id, looking, choice);
    } else {
      MissingManifestStays(cfg, s, id, looking, choice);
    }
  }

  lemma FoundManifestOpens(cfg: LP.Config, s: State, id: nat, r: Request, choice: nat)
    requires InodesOk(s.store.fs) && Fresh(s, id) && r.Pull? && r.pull == Looking && r.endpoint == GetManifest
    requires choice < |s.tables.rows| && Matches(s.tables, s.tables.rows[choice], r.tenant, r.name, r.wanted)
    ensures var a := s.(requests := s.requests[id := r]); var row := s.tables.rows[choice];
            Answers(Next(cfg, Next(cfg, a, LookUp(id, choice)), OpenBlob(id)), id, Some(row),
                    H.Pulled(cfg, s.store.fs, Some(row), r.tenant, r.name, row.version, ""))
  {
    var row := s.tables.rows[choice];
    PullSteps(cfg, s, id, r, choice, Some(row));
    OpenAnswers(cfg, s.(requests := s.requests[id := r.(pull := Opening(Some(row)))]), id, row.version);
  }

  lemma MissingManifestStays(cfg: LP.Config, s: State, id: nat, r: Request, choice: nat)
    requires Fresh(s, id) && r.Pull? && r.pull == Looking && r.endpoint == GetManifest
    requires forall row | row in s.tables.rows :: !Matches(s.tables, row, r.tenant, r.name, r.wanted)
    ensures var a := s.(requests := s.requests[id := r]);
            Answers(Next(cfg, Next(cfg, a, LookUp(id, choice)), OpenBlob(id)), id, None, H.Status(404))
  {
    var a := s.(requests := s.requests[id := r]);
    PullLooksUp(cfg, a, id, choice);
    if choice < |s.tables.rows| { assert s.tables.rows[choice] in s.tables.rows; }
    assert LookedUp(a, r, choice) == Failed(404, None);
    FailedStays(cfg, Next(cfg, a, LookUp(id, choice)), id);
  }

  lemma FailedStays(cfg: LP.Config, s: State, id: nat)
    requires id in s.requests && s.requests[id].Pull? && s.requests[id].pull.Failed?
    ensures Next(cfg, s, OpenBlob(id)) == s
  {
  }
}
