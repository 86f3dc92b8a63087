/** What a client of the registry sees: calls one after the other, known by their contracts alone. */
module ClientView {
  import opened Content
  import opened Paths
  import opened FileTree
  import opened LocalProtocol
  import opened LocalProvider
  import opened Handlers
  import LG = LocalGuarantees
  import VL = VersionListing
  import M = MetadataDb
  import I = MetadataIndex
  import T = Tarball

  /** A version that has been stored is listed as it was given. */
  method PutThenListVersions(l: Local, ref: PackageRef, source: Bytes, size: int, stamp: Stamp)
    returns (r: PutResult, versions: Option<seq<string>>)
    requires TreeOk(l.fs) && InodesOk(l.fs) && Ordinary(ref.tenant) && Ordinary(ref.name) && Ordinary(ref.version)
    modifies l`fs
    ensures r.Stored? ==> versions.Some? && ref.version in versions.value
  {
    ghost var was := l.fs;
    r := l.Put(ref, source, size, ref.digest, stamp);
    if r.Stored? { VL.StoredVersionIsListed(l.cfg, was, ref, source, size, ref.digest, stamp); }
    versions := l.ListVersions(ref.tenant, ref.name);
  }

  /** On a store of flat references a version is gone from the list once its last object is deleted,
      and not before. */
  method DeleteThenListVersions(l: Local, ref: PackageRef) returns (ok: bool, versions: Option<seq<string>>)
    requires LG.Settled(l.cfg, l.fs) && FullPath(l.cfg.root, ref) in l.fs.files && IsDigest(ref.digest)
    requires Ordinary(ref.tenant) && Ordinary(ref.name) && Ordinary(ref.version)
    modifies l`fs
    ensures ok && versions.Some?
    ensures ref.version in versions.value <==>
            old(exists q :: q in l.fs.files && q != FullPath(l.cfg.root, ref)
                            && Parent(q) == Parent(FullPath(l.cfg.root, ref)))
  {
    ghost var was, dir := l.fs, NameDir(l.cfg.root, ref.tenant, ref.name);
    VL.HomeOf(l.cfg.root, ref);
    VL.VersionStaysListedExactly(l.cfg, was, ref);
    VL.GrandparentIsNoFile(was, FullPath(l.cfg.root, ref));
    ok := l.Delete(ref);
    versions := l.ListVersions(ref.tenant, ref.name);
  }

  /** An upload has one manifest at the most. */
  lemma ManifestIsUnique(codec: Codec, data: Bytes, a: Option<(T.Manifest, Bytes)>, b: Option<(T.Manifest, Bytes)>)
    requires ManifestIs(codec, data, a) && ManifestIs(codec, data, b)
    ensures a == b
  {
    if a.Some? && b.Some? {
      var archive := codec.untar(data);
      var i: nat :| T.FirstAt(archive, i) && archive.entries[i].content == Some(a.value.1);
      var j: nat :| T.FirstAt(archive, j) && archive.entries[j].content == Some(b.value.1);
      assert i == j;
    }
  }

  /** Where a stored upload lies, what its row says, and what pulls of it get. */
  lemma StoredUpload(cfg: Config, fs: Fs, codec: Codec, call: PublishCall, data: Bytes,
                     found: Option<(T.Manifest, Bytes)>, name: string, version: string)
    requires TreeOk(fs) && InodesOk(fs) && ManifestIs(codec, data, found) && Locates(call, found, name, version)
    requires PutAlone(cfg, fs, RefOf(codec, call, data), data, |data|, RefOf(codec, call, data).digest,
                      call.stamp).1.Stored?
    ensures var ref := RefOf(codec, call, data);
            var (fs', r) := PutAlone(cfg, fs, ref, data, |data|, ref.digest, call.stamp);
            && ref == PackageRef(call.tenant, name, version, call.digest) && call.digest == Checksum(cfg.sha, data)
            && r.key == Key(ref)
            && FullPath(cfg.root, ref) in fs'.files && ContentAt(fs', FullPath(cfg.root, ref)) == data
  {
    var other, n, v := RefOfUpload(codec, call, data);
    ManifestIsUnique(codec, data, found, other);
    var ref := RefOf(codec, call, data);
    LG.PutStoresItsBytesOrNothing(cfg, fs, ref, data, |data|, ref.digest, call.stamp);
    StatedDigest(cfg, codec, call, data);
  }

  lemma PublishedIsFetched(t: M.Tables, codec: Codec, call: PublishCall, data: Bytes,
                           found: Option<(T.Manifest, Bytes)>, name: string, version: string)
    requires I.TablesOk(t) && ManifestIs(codec, data, found) && Locates(call, found, name, version)
    ensures var ref := RefOf(codec, call, data);
            var t' := M.Publish(t, ref.tenant, ref.name, DraftOf(codec, call, data, Key(ref)), call.now);
            var row := M.Fetch(t', call.tenant, name, version);
            row.Some? && Describes(row.value, call, data, found, name, version)
  {
    var other, n, v := PublishedRowTellsOfTheUpload(t, codec, call, data);
    ManifestIsUnique(codec, data, found, other);
  }

  /** Publish, then pull: after a 201 the client gets its very bytes back, from under the
      coordinates of its manifest or its query, by the digest it had stated or without one. The
      header is that digest with an index; without one there is no header, and the pull has to
      name the digest. */
  method PublishThenGet(h: PackageHandler, call: PublishCall, name: string, version: string, byDigest: bool,
                        ghost data: Bytes, ghost found: Option<(T.Manifest, Bytes)>)
    returns (status: nat, r: Response)
    requires TreeOk(h.provider.fs) && InodesOk(h.provider.fs) && Uploaded(call.form) == Some(data)
    requires h.metaStore != null ==> I.TablesOk(h.metaStore.tables)
    requires ManifestIs(h.codec, data, found) && Locates(call, found, name, version)
    modifies h.provider`fs, h.metaStore
    ensures status == 201 || status == 500
    ensures status == 201 ==> call.digest == Checksum(h.provider.cfg.sha, data)
    ensures status == 201 && h.metaStore != null && h.metaStore.connected ==> r == Streams(call.digest, data)
    ensures status == 201 && (h.metaStore == null || !h.metaStore.connected) && byDigest ==> r == Streams("", data)
  {
    ghost var fs := h.provider.fs;
    ghost var t := if h.metaStore != null then Some(h.metaStore.tables) else None;
    status := h.Publish(call);
    if status == 201 { StoredUpload(h.provider.cfg, fs, h.codec, call, data, found, name, version); }
    if status == 201 && h.metaStore != null && h.metaStore.connected {
      PublishedIsFetched(t.value, h.codec, call, data, found, name, version);
    }
    r := h.GetPackage(call.tenant, name, version, if byDigest then call.digest else "");
  }
}
