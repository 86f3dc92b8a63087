/** The request handlers over the local backend and the metadata store, one request at a time. */
module Handlers {
  import opened Content
  import opened Paths
  import opened FileTree
  import opened LocalProtocol
  import opened LocalProvider
  import LG = LocalGuarantees
  import M = MetadataDb
  import I = MetadataIndex
  import R = Registry
  import RG = RegistryGuarantees
  import T = Tarball

  /** What decompression, tar and JSON make of bytes, and how many of them a scan takes. */
  datatype Codec = Codec(untar: Bytes -> T.Archive, taken: Bytes -> nat, json: T.Json)

  /** The body of a request: the artifact itself, or a form that may hold it. */
  datatype Form = Raw(body: Bytes) | Multipart(valid: bool, file: Option<Bytes>)

  datatype PublishCall = PublishCall(tenant: string, form: Form, name: string, version: string, digest: string,
                                     clock: string, user: string, stamp: Stamp, now: int)

  datatype Response = Streams(digest: string, content: Bytes) | Status(code: nat)

  /** What a listing says of one version; the time is still to be written in RFC 3339. */
  datatype Summary = Summary(version: string, digest: string, sizeBytes: int, publishedBy: string, createdAt: int)

  // ---------------------------------------------------------------- specification

  function Uploaded(form: Form): Option<Bytes> {
    match form
    case Raw(body) => if body == [] then None else Some(body)
    case Multipart(valid, file) => if valid then file else None
  }

  /** The manifest found in the whole upload. */
  function ScanOf(codec: Codec, data: Bytes): T.Scan {
    T.FirstManifest(codec.json, codec.untar(data))
  }

  function RefOf(codec: Codec, call: PublishCall, data: Bytes): PackageRef {
    var (name, version) := T.Coordinates(ScanOf(codec, data), call.name, call.version);
    R.PublishRef(call.tenant, name, version, call.digest, call.clock)
  }

  function DraftFor(ref: PackageRef, size: nat, key: string, scan: T.Scan, user: string): M.Draft {
    var manifest := if scan.Found? then Some(scan.raw) else None;
    M.Draft(ref.version, ref.digest, size, key, manifest, if user == "" then "dev" else user)
  }

  function DraftOf(codec: Codec, call: PublishCall, data: Bytes, key: string): M.Draft {
    DraftFor(RefOf(codec, call, data), |data|, key, ScanOf(codec, data), call.user)
  }

  /** The tables after a publish; a store without connection keeps them. */
  function Recorded(store: M.Store, t: M.Tables, ref: PackageRef, d: M.Draft, now: int): M.Tables {
    if store.connected then M.Publish(t, ref.tenant, ref.name, d, now) else t
  }

  /** What GetPackage answers from a tree and the row that its lookup gave. */
  function Pulled(cfg: Config, fs: Fs, row: Option<M.Row>, tenant: string, name: string,
                  version: string, digest: string): Response {
    var used := if row.Some? && digest == "" then row.value.digest else digest;
    match Stat(fs, FullPath(cfg.root, PackageRef(tenant, name, version, used)))
    case File(content) => Streams(if row.Some? then row.value.digest else "", content)
    case NotFound => Status(404)
    case _ => Status(500)
  }

  // ---------------------------------------------------------------- what clients rely on

  /** The manifest of an upload and its bytes: the first entry with a manifest's name, if it can be
      read and is JSON. */
  ghost predicate HasManifest(codec: Codec, data: Bytes, m: T.Manifest, raw: Bytes) {
    var a := codec.untar(data);
    exists i: nat :: T.FirstAt(a, i) && a.entries[i].content == Some(raw) && codec.json(raw) == Some(m)
  }

  ghost predicate ManifestIs(codec: Codec, data: Bytes, found: Option<(T.Manifest, Bytes)>) {
    match found
    case Some((m, raw)) => HasManifest(codec, data, m, raw)
    case None => forall m, raw :: !HasManifest(codec, data, m, raw)
  }

  /** Under which coordinates an upload is stored: its manifest's before those of the query. */
  ghost predicate Locates(call: PublishCall, found: Option<(T.Manifest, Bytes)>, name: string, version: string) {
    && name == (if found.Some? && found.value.0.name != "" then found.value.0.name
                else if call.name != "" then call.name else "unnamed")
    && version == (if found.Some? && found.value.0.version != "" then found.value.0.version
                   else if call.version != "" then call.version else "v0.0.0-dev")
  }

  /** The row of an upload. */
  ghost predicate Describes(row: M.Row, call: PublishCall, data: Bytes, found: Option<(T.Manifest, Bytes)>,
                            name: string, version: string) {
    && row.version == version
    && row.digest == (if call.digest != "" then call.digest else "sha256:upload-" + call.clock)
    && row.sizeBytes == |data|
    && row.storageKey == Key(PackageRef(call.tenant, name, version, row.digest))
    && row.manifest == (if found.Some? then found.value.1 else [123, 125])
    && row.publishedBy == (if call.user != "" then call.user else "dev")
  }

  /** A pull of this reference is answered from the tree: the content of its file under this digest
      header; 404 when nothing has the name and no file lies on the way, else 500. */
  ghost predicate Serves(cfg: Config, fs: Fs, ref: PackageRef, header: string, r: Response) {
    var path := FullPath(cfg.root, ref);
    && (path in fs.files ==> r == Streams(header, ContentAt(fs, path)))
    && (path !in fs.files && (path in fs.dirs || FileOnTheWay(fs, path)) ==> r == Status(500))
    && (path !in fs.files && path !in fs.dirs && !FileOnTheWay(fs, path) ==> r == Status(404))
  }

  lemma PulledServes(cfg: Config, fs: Fs, row: Option<M.Row>, tenant: string, name: string,
                     version: string, digest: string)
    ensures var r := Pulled(cfg, fs, row, tenant, name, version, digest);
            && (row.None? ==> Serves(cfg, fs, PackageRef(tenant, name, version, digest), "", r))
            && (row.Some? ==>
                  Serves(cfg, fs, PackageRef(tenant, name, version, if digest != "" then digest else row.value.digest),
                         row.value.digest, r))
  {
    var used := if row.Some? && digest == "" then row.value.digest else digest;
    FileOnTheWayBlocks(fs, FullPath(cfg.root, PackageRef(tenant, name, version, used)));
  }

  lemma ScanFinds(codec: Codec, data: Bytes) returns (found: Option<(T.Manifest, Bytes)>)
    ensures ManifestIs(codec, data, found)
    ensures var scan := ScanOf(codec, data);
            if scan.Found? then found == Some((scan.manifest, scan.raw)) else found == None
  {
    var a, scan := codec.untar(data), ScanOf(codec, data);
    T.FirstManifestDecides(codec.json, a);
    found := if scan.Found? then Some((scan.manifest, scan.raw)) else None;
    if i: nat :| T.FirstAt(a, i) {
      if scan.Found? { assert HasManifest(codec, data, scan.manifest, scan.raw); }
    } else {
      NoFirst(a);
    }
  }

  /** Some entry has a manifest's name, or none has. */
  lemma {:induction false} NoFirst(a: T.Archive)
    requires forall i: nat :: !T.FirstAt(a, i)
    ensures forall k | 0 <= k < |a.entries| :: !T.IsManifestName(a.entries[k].name)
  {
    for k := 0 to |a.entries|
      invariant forall j | 0 <= j < k :: !T.IsManifestName(a.entries[j].name)
    {
      assert !T.FirstAt(a, k);
    }
  }

  lemma RefOfUpload(codec: Codec, call: PublishCall, data: Bytes)
    returns (found: Option<(T.Manifest, Bytes)>, name: string, version: string)
    ensures ManifestIs(codec, data, found) && Locates(call, found, name, version)
    ensures RefOf(codec, call, data)
         == PackageRef(call.tenant, name, version, if call.digest != "" then call.digest
                                                   else "sha256:upload-" + call.clock)
    ensures var scan := ScanOf(codec, data);
            if scan.Found? then found == Some((scan.manifest, scan.raw)) else found == None
  {
    found := ScanFinds(codec, data);
    name, version := RefOf(codec, call, data).name, RefOf(codec, call, data).version;
  }

  /** The row that a publish leaves under the coordinates of its upload, column by column; a row
      that was there keeps its creation time. */
  lemma PublishedRowTellsOfTheUpload(t: M.Tables, codec: Codec, call: PublishCall, data: Bytes)
    returns (found: Option<(T.Manifest, Bytes)>, name: string, version: string)
    requires I.TablesOk(t)
    ensures ManifestIs(codec, data, found) && Locates(call, found, name, version)
    ensures var ref := RefOf(codec, call, data);
            var t' := M.Publish(t, ref.tenant, ref.name, DraftOf(codec, call, data, Key(ref)), call.now);
            var row, was := M.Fetch(t', call.tenant, name, version), M.Fetch(t, call.tenant, name, version);
            && row.Some? && Describes(row.value, call, data, found, name, version)
            && row.value.createdAt == (if was.Some? then was.value.createdAt else call.now)
  {
    var ref := RefOf(codec, call, data);
    found, name, version := RefOfUpload(codec, call, data);
    var d := DraftOf(codec, call, data, Key(ref));
    var (t', id) := M.Upsert(t, ref.tenant, ref.name, call.now);
    I.UpsertKeepsTables(t, ref.tenant, ref.name, call.now);
    I.FetchAfterUpsert(t, ref.tenant, ref.name, call.now, ref.tenant, ref.name, version);
    I.FetchAfterInsert(t', id, d, call.now, ref.tenant, ref.name, version);
  }

  // ---------------------------------------------------------------- what the handlers share

  /** An uploaded stream with its read position. */
  class Upload {
    const data: Bytes
    var pos: nat

    constructor (data: Bytes)
      ensures this.data == data && pos == 0
    {
      this.data := data;
      pos := 0;
    }

    /** Reading up to n bytes. */
    method Read(n: nat) returns (chunk: Bytes)
      requires pos <= |data|
      modifies this`pos
      ensures old(pos) <= pos <= |data| && chunk == data[old(pos)..pos]
      ensures pos == |data| || pos == old(pos) + n
    {
      var end := if pos + n < |data| then pos + n else |data|;
      chunk := data[pos..end];
      pos := end;
    }

    method Seek(offset: nat)
      requires offset <= |data|
      modifies this`pos
      ensures pos == offset
    {
      pos := offset;
    }

    /** io.Copy: what is left. */
    method ReadAll() returns (rest: Bytes)
      requires pos <= |data|
      modifies this`pos
      ensures rest == data[old(pos)..] && pos == |data|
    {
      rest := data[pos..];
      pos := |data|;
    }
  }

  /** The scan leaves the stream somewhere in its middle. */
  method ExtractManifestFromTarball(codec: Codec, r: Upload) returns (scan: T.Scan)
    requires r.pos <= |r.data|
    modifies r`pos
    ensures r.pos <= |r.data|
    ensures scan == ScanOf(codec, old(r.data[r.pos..]))
  {
    var stream := r.data[r.pos..];
    scan := T.ExtractFromTar(codec.json, codec.untar(stream));
    var consumed := r.Read(codec.taken(stream));
  }

  class PackageHandler {
    const provider: Local
    const metaStore: M.Store?
    const codec: Codec

    constructor (provider: Local, metaStore: M.Store?, codec: Codec)
      ensures this.provider == provider && this.metaStore == metaStore && this.codec == codec
    {
      this.provider := provider;
      this.metaStore := metaStore;
      this.codec := codec;
    }

    /** However many bytes the manifest scan took, the whole upload is stored; the index is only
        touched after that, and its failure does not change the answer. */
    method Publish(call: PublishCall) returns (status: nat)
      modifies provider`fs, metaStore
      ensures (|| call.form == Raw([])
               || (call.form.Multipart? && (!call.form.valid || call.form.file.None?))) <==> status == 400
      ensures Uploaded(call.form).None? ==>
                status == 400 && provider.fs == old(provider.fs)
                  && (metaStore != null ==> metaStore.tables == old(metaStore.tables))
      ensures Uploaded(call.form).Some? ==>
                var data := Uploaded(call.form).value; var ref := RefOf(codec, call, data);
                var (fs, r) := PutAlone(provider.cfg, old(provider.fs), ref, data, |data|, ref.digest, call.stamp);
                && provider.fs == fs && status == (if r.Stored? then 201 else 500)
                && (metaStore != null ==>
                      var was := old(metaStore.tables);
                      metaStore.tables
                        == if r.Stored? then Recorded(metaStore, was, ref, DraftOf(codec, call, data, r.key), call.now)
                           else was)
    {
      var artifact: Bytes;
      match call.form {
        case Raw(body) =>
          if |body| == 0 { return 400; }
          artifact := body;
        case Multipart(valid, file) =>
          if !valid || file.None? { return 400; }
          artifact := file.value;
      }
      var reader := new Upload(artifact);
      var scan := ExtractManifestFromTarball(codec, reader);
      assert artifact[0..] == artifact;
      reader.Seek(0);

      var name, version := Named(scan, call);
      var digest := if call.digest == "" then ALGORITHM + "upload-" + call.clock else call.digest;
      var ref := PackageRef(call.tenant, name, version, digest);
      var stream := reader.ReadAll();
      StoredSize(provider.cfg, provider.fs, ref, stream, |artifact|, digest, call.stamp);
      var info := provider.Put(ref, stream, |artifact|, digest, call.stamp);
      if info.Rejected? { return 500; }
      Record(ref, info, scan, call);
      status := 201;
    }

    method Named(scan: T.Scan, call: PublishCall) returns (name: string, version: string)
      ensures (name, version) == T.Coordinates(scan, call.name, call.version)
    {
      name := if call.name == "" then T.UNNAMED else call.name;
      version := if call.version == "" then T.DEVELOPMENT else call.version;
      if scan.Found? {
        if scan.manifest.name != "" { name := scan.manifest.name; }
        if scan.manifest.version != "" { version := scan.manifest.version; }
      }
    }

    method Record(ref: PackageRef, info: PutResult, scan: T.Scan, call: PublishCall)
      requires info.Stored?
      modifies metaStore
      ensures metaStore != null ==>
                metaStore.tables == Recorded(metaStore, old(metaStore.tables), ref,
                                             DraftFor(ref, info.size, info.key, scan, call.user), call.now)
    {
      if metaStore == null { return; }
      var id := metaStore.UpsertPackage(ref.tenant, ref.name, call.now);
      if id.Some? {
        var publishedBy := "dev";
        if call.user != "" { publishedBy := call.user; }
        var raw := if scan.Found? then Some(scan.raw) else None;
        var v := new M.PackageVersion(id.value,
                                      M.Draft(ref.version, ref.digest, info.size, info.key, raw, publishedBy));
        var ok := metaStore.InsertVersion(id.value, v, call.now);
      }
    }

    method GetPackage(tenant: string, name: string, version: string, digest: string) returns (r: Response)
      ensures var row := if metaStore != null && metaStore.connected
                         then M.Fetch(metaStore.tables, tenant, name, version) else None;
              r == Pulled(provider.cfg, provider.fs, row, tenant, name, version, digest)
      ensures (metaStore == null || !metaStore.connected
               || forall row | row in metaStore.tables.rows ::
                    !R.Matches(metaStore.tables, row, tenant, name, R.ByVersion(version))) ==>
                Serves(provider.cfg, provider.fs, PackageRef(tenant, name, version, digest), "", r)
      ensures metaStore != null && metaStore.connected ==>
                forall row | row in metaStore.tables.rows
                             && R.Matches(metaStore.tables, row, tenant, name, R.ByVersion(version)) ::
                  exists found | found in metaStore.tables.rows ::
                    && R.Matches(metaStore.tables, found, tenant, name, R.ByVersion(version))
                    && var used := if digest != "" then digest else found.digest;
                       Serves(provider.cfg, provider.fs, PackageRef(tenant, name, version, used), found.digest, r)
    {
      ghost var row := if metaStore != null && metaStore.connected
                       then M.Fetch(metaStore.tables, tenant, name, version) else None;
      PulledServes(provider.cfg, provider.fs, row, tenant, name, version, digest);
      if metaStore != null { FetchMatches(metaStore.tables, tenant, name, version); }
      var ref := PackageRef(tenant, name, version, digest);
      var header := "";
      if metaStore != null {
        var failed, pv := metaStore.GetVersionByNameVersion(tenant, name, version);
        if !failed && pv.Some? {
          if digest == "" { ref := ref.(digest := pv.value.digest); }
          if pv.value.digest != "" { header := pv.value.digest; }
        }
      }
      var found := provider.Get(ref);
      match found {
        case File(content) => r := Streams(header, content);
        case NotFound => r := Status(404);
        case _ => r := Status(500);
      }
    }

    /** One summary a row, in the order of the query. */
    method ListPackageVersions(tenant: string, name: string) returns (failed: bool, summaries: seq<Summary>)
      ensures failed == (metaStore != null && !metaStore.connected)
      ensures metaStore != null && metaStore.connected ==>
                var rows := M.VersionList(metaStore.tables, tenant, name);
                && |summaries| == |rows|
                && (forall i | 0 <= i < |rows| ::
                      && summaries[i].version == rows[i].version && summaries[i].digest == rows[i].digest
                      && summaries[i].sizeBytes == rows[i].sizeBytes
                      && summaries[i].publishedBy == rows[i].publishedBy
                      && summaries[i].createdAt == rows[i].createdAt)
      ensures metaStore == null || failed ==> summaries == []
    {
      summaries := [];
      if metaStore == null { return false, []; }
      var versions;
      failed, versions := metaStore.ListVersions(tenant, name);
      if failed { return true, []; }
      for i := 0 to |versions|
        invariant |summaries| == i && forall k | 0 <= k < i ::
          summaries[k] == Summary(versions[k].version, versions[k].digest, versions[k].sizeBytes,
                                  versions[k].publishedBy, versions[k].createdAt)
      {
        var v := versions[i];
        summaries := summaries + [Summary(v.version, v.digest, v.sizeBytes, v.publishedBy, v.createdAt)];
      }
    }
  }

  class OCIHandler {
    const provider: Local
    const metaStore: M.Store?
    var uploadSessions: map<string, string>

    constructor (provider: Local, metaStore: M.Store?)
      ensures this.provider == provider && this.metaStore == metaStore && uploadSessions == map[]
    {
      this.provider := provider;
      this.metaStore := metaStore;
      uploadSessions := map[];
    }

    method StartBlobUpload(name: string, clock: string) returns (uuid: string)
      modifies this`uploadSessions
      ensures uuid == "u" + clock && uploadSessions == old(uploadSessions)[uuid := name]
    {
      uuid := "u" + clock;
      uploadSessions := uploadSessions[uuid := name];
    }

    /** The session is not looked up, only deleted, and only after the bytes are stored. */
    method CompleteBlobUpload(tenant: string, name: string, uuid: string, digest: string, body: Bytes, stamp: Stamp)
      returns (status: nat)
      modifies this`uploadSessions, provider`fs
      ensures digest == "" || body == [] ==>
                status == 400 && provider.fs == old(provider.fs) && uploadSessions == old(uploadSessions)
      ensures digest != "" && body != [] ==>
                var ref := PackageRef(tenant, name, digest, digest);
                var (fs, r) := PutAlone(provider.cfg, old(provider.fs), ref, body, |body|, digest, stamp);
                && provider.fs == fs && status == (if r.Stored? then 201 else 500)
                && uploadSessions == if r.Stored? then old(uploadSessions) - {uuid} else old(uploadSessions)
    {
      if digest == "" { return 400; }
      if |body| == 0 { return 400; }
      var r := provider.Put(PackageRef(tenant, name, digest, digest), body, |body|, digest, stamp);
      if r.Rejected? { return 500; }
      uploadSessions := uploadSessions - {uuid};
      status := 201;
    }

    method HeadBlob(tenant: string, name: string, digest: string) returns (status: nat)
      ensures status == if RG.HeadBlob(provider.cfg, provider.fs, tenant, name, digest) then 200 else 404
      ensures var path := FullPath(provider.cfg.root, PackageRef(tenant, name, digest, digest));
              status == if path in provider.fs.files || path in provider.fs.dirs then 200 else 404
    {
      var found, failed := provider.Exists(PackageRef(tenant, name, digest, digest));
      status := if found then 200 else 404;
    }

    method PutManifest(tenant: string, name: string, tag: string, body: Bytes, clock: string, stamp: Stamp, now: int)
      returns (status: nat)
      modifies provider`fs, metaStore
      ensures var ref := R.ManifestRef(tenant, name, tag, clock);
              var (fs, r) := PutAlone(provider.cfg, old(provider.fs), ref, body, |body|, ref.digest, stamp);
              && provider.fs == fs && status == (if r.Stored? then 201 else 500)
              && (metaStore != null ==>
                    var was := old(metaStore.tables);
                    var draft := M.Draft(tag, ref.digest, |body|, ref.digest, Some(body), "oci-push");
                    metaStore.tables == if r.Stored? then Recorded(metaStore, was, ref, draft, now) else was)
    {
      var digest := ALGORITHM + "manifest-" + clock;
      var r := provider.Put(PackageRef(tenant, name, tag, digest), body, |body|, digest, stamp);
      if r.Rejected? { return 500; }
      if metaStore != null {
        var draft := M.Draft(tag, digest, |body|, digest, Some(body), "oci-push");
        var ok := metaStore.PublishPackage(tenant, name, draft, now);
      }
      status := 201;
    }

    method GetManifest(tenant: string, name: string, reference: string) returns (r: Response)
      ensures metaStore == null ==> r == Status(501)
      ensures metaStore != null && !metaStore.connected ==> r == Status(500)
      ensures metaStore != null && metaStore.connected ==>
                var wanted := if HasPrefix(reference, ALGORITHM) then R.ByDigest(reference) else R.ByVersion(reference);
                || (r == Status(404) && forall row | row in metaStore.tables.rows ::
                      !R.Matches(metaStore.tables, row, tenant, name, wanted))
                || (exists row | row in metaStore.tables.rows :: R.Matches(metaStore.tables, row, tenant, name, wanted)
                      && r == Pulled(provider.cfg, provider.fs, Some(row), tenant, name, row.version, "")
                      && Serves(provider.cfg, provider.fs, PackageRef(tenant, name, row.version, row.digest),
                                row.digest, r))
    {
      if metaStore == null { return Status(501); }
      var failed, pv;
      if HasPrefix(reference, ALGORITHM) {
        failed, pv := metaStore.GetVersionByDigest(tenant, name, reference);
      } else {
        failed, pv := metaStore.GetVersionByNameVersion(tenant, name, reference);
        if !failed { FetchMatches(metaStore.tables, tenant, name, reference); }
      }
      if failed { return Status(500); }
      if pv.None? { return Status(404); }
      PulledServes(provider.cfg, provider.fs, pv, tenant, name, pv.value.version, "");
      var found := provider.Get(PackageRef(tenant, name, pv.value.version, pv.value.digest));
      match found {
        case File(content) => r := Streams(pv.value.digest, content);
        case NotFound => r := Status(404);
        case _ => r := Status(500);
      }
    }
  }

  lemma UploadedIs(form: Form, data: Bytes)
    ensures Uploaded(form) == Some(data) <==>
            (|| (form == Raw(data) && data != [])
             || form == Multipart(true, Some(data)))
  {
  }

  lemma StoredSize(cfg: Config, fs: Fs, ref: PackageRef, source: Bytes, size: int, checksum: string, stamp: Stamp)
    ensures var r := PutAlone(cfg, fs, ref, source, size, checksum, stamp).1; r.Stored? ==> r.size == |source|
  {
  }

  /** The lookup by name and version is a lookup of matching rows. */
  lemma FetchMatches(t: M.Tables, tenant: string, name: string, version: string)
    ensures var found := M.Fetch(t, tenant, name, version);
            if found.Some? then found.value in t.rows && R.Matches(t, found.value, tenant, name, R.ByVersion(version))
            else forall row | row in t.rows :: !R.Matches(t, row, tenant, name, R.ByVersion(version))
  {
  }

  // ---------------------------------------------------------------- end to end

  /** Publish, then pull: the client gets back the very bytes of its upload under the header of
      their checksum, and it got a 201 only if it had stated that checksum. */
  lemma PublishThenPull(cfg: Config, fs: Fs, t: M.Tables, codec: Codec, call: PublishCall, data: Bytes)
    requires TreeOk(fs) && InodesOk(fs) && I.TablesOk(t) && Uploaded(call.form) == Some(data)
    ensures var ref := RefOf(codec, call, data);
            var (fs', r) := PutAlone(cfg, fs, ref, data, |data|, ref.digest, call.stamp);
            r.Stored? ==>
              var t' := M.Publish(t, ref.tenant, ref.name, DraftOf(codec, call, data, r.key), call.now);
              && call.digest == Checksum(cfg.sha, data)
              && Pulled(cfg, fs', M.Fetch(t', ref.tenant, ref.name, ref.version), ref.tenant, ref.name, ref.version, "")
                   == Streams(Checksum(cfg.sha, data), data)
  {
    var ref := RefOf(codec, call, data);
    var (fs', r) := PutAlone(cfg, fs, ref, data, |data|, ref.digest, call.stamp);
    LG.PutStoresItsBytesOrNothing(cfg, fs, ref, data, |data|, ref.digest, call.stamp);
    if r.Stored? {
      StatedDigest(cfg, codec, call, data);
      PublishedRow(t, ref.tenant, ref.name, DraftOf(codec, call, data, r.key), call.now);
    }
  }

  lemma StatedDigest(cfg: Config, codec: Codec, call: PublishCall, data: Bytes)
    requires RefOf(codec, call, data).digest == Checksum(cfg.sha, data)
    ensures call.digest == Checksum(cfg.sha, data)
  {
    SyntheticDigestNeverMatches(cfg.sha, "upload-", call.clock, data);
  }

  lemma PublishedRow(t: M.Tables, tenant: string, name: string, d: M.Draft, now: int)
    requires I.TablesOk(t)
    ensures var row := M.Fetch(M.Publish(t, tenant, name, d, now), tenant, name, d.version);
            row.Some? && row.value.version == d.version && row.value.digest == d.digest
  {
    var (t', id) := M.Upsert(t, tenant, name, now);
    I.UpsertKeepsTables(t, tenant, name, now);
    I.FetchAfterInsert(t', id, d, now, tenant, name, d.version);
  }

  /** A manifest push leaves every committed file alone and is answered 500, for any bytes. */
  lemma PutManifestAlwaysFails(cfg: Config, fs: Fs, tenant: string, name: string, tag: string,
                               body: Bytes, clock: string, stamp: Stamp)
    requires TreeOk(fs) && InodesOk(fs)
    ensures var ref := R.ManifestRef(tenant, name, tag, clock);
            var (fs', r) := PutAlone(cfg, fs, ref, body, |body|, ref.digest, stamp);
            r.Rejected? && forall p | Committed(p) :: LG.Unchanged(fs, fs', p)
  {
    var ref := R.ManifestRef(tenant, name, tag, clock);
    LG.PutStoresItsBytesOrNothing(cfg, fs, ref, body, |body|, ref.digest, stamp);
    SyntheticDigestNeverMatches(cfg.sha, "manifest-", clock, body);
    var path := FullPath(cfg.root, ref);
    ParseIsCanonical(JoinPath([cfg.root, Key(ref)]));
    assert NoSlash(stamp) by { assert forall i | 0 <= i < |stamp| :: IsHexDigit(stamp[i]); }
    TempIsNotCommitted(path, stamp);
  }

  /** A blob upload that is answered 201 makes HEAD answer 200, and stored exactly the body. */
  lemma UploadThenHead(cfg: Config, fs: Fs, tenant: string, name: string, digest: string, body: Bytes, stamp: Stamp)
    requires TreeOk(fs) && InodesOk(fs)
    ensures var (fs', r) := PutAlone(cfg, fs, R.BlobRef(tenant, name, digest), body, |body|, digest, stamp);
            r.Stored? ==>
              && RG.HeadBlob(cfg, fs', tenant, name, digest) && digest == Checksum(cfg.sha, body)
              && Stat(fs', FullPath(cfg.root, R.BlobRef(tenant, name, digest))) == File(body)
  {
    LG.PutStoresItsBytesOrNothing(cfg, fs, R.BlobRef(tenant, name, digest), body, |body|, digest, stamp);
  }

  /** A pull that names a digest of its own is answered with the digest header of the row. On a
      store whose files are verified, header and bytes of a committed file belong together exactly
      when the row's digest is that of the file. A digest of 64 hex digits, with the algorithm in
      front or without, leads to a file of that name. */
  lemma HeaderOfAnExplicitDigest(cfg: Config, fs: Fs, row: M.Row, tenant: string, name: string, digest: string)
    requires Verified(cfg.sha, fs) && digest != ""
    ensures var r := Pulled(cfg, fs, Some(row), tenant, name, row.version, digest);
            var path := FullPath(cfg.root, PackageRef(tenant, name, row.version, digest));
            && (IsHexDigest(HexPart(digest)) ==> Committed(path) && Last(path) == HexPart(digest))
            && (r.Streams? && Committed(path) ==>
                  (r.digest == Checksum(cfg.sha, r.content) <==>
                   IsDigest(row.digest) && HexPart(row.digest) == Last(path)))
  {
    var ref := PackageRef(tenant, name, row.version, digest);
    if IsHexDigest(HexPart(digest)) { DigestNamesFile(cfg.root, ref); }
    var r := Pulled(cfg, fs, Some(row), tenant, name, row.version, digest);
    if r.Streams? {
      ChecksumIsDigest(cfg.sha, r.content);
      if IsDigest(row.digest) { assert row.digest == ALGORITHM + HexPart(row.digest); }
    }
  }
}
