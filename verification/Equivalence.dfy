/** One provider interface, two implementations: when the local backend and the object stores
    cannot be told apart, and the one call that tells them apart. */
module Equivalence {
  import opened Content
  import opened Paths
  import opened FileTree
  import opened LocalProtocol
  import opened LocalProvider
  import opened LocalGuarantees
  import ObjectStore

  datatype Op =
    | PutOp(ref: PackageRef, source: Bytes, checksum: string, stamp: Stamp)
    | GetOp(ref: PackageRef)
    | ExistsOp(ref: PackageRef)
    | DeleteOp(ref: PackageRef)

  datatype Obs =
    | Accepted(size: nat)
    | Mismatched
    | Streamed(content: Bytes)
    | Absent
    | Present(yes: bool)
    | Done
    | Failed

  function LocalOp(cfg: Config, fs: Fs, op: Op): (Fs, Obs) {
    var path := FullPath(cfg.root, op.ref);
    match op
    case PutOp(ref, source, checksum, stamp) =>
      var (fs', r) := PutAlone(cfg, fs, ref, source, |source|, checksum, stamp);
      (fs', if r.Stored? then Accepted(r.size) else if r.error == ChecksumMismatch then Mismatched else Failed)
    case GetOp(_) =>
      (fs, match Stat(fs, path) case File(b) => Streamed(b) case NotFound => Absent case _ => Failed)
    case ExistsOp(_) =>
      (fs, if Stat(fs, path).NotReachable? then Failed else Present(!Stat(fs, path).NotFound?))
    case DeleteOp(_) =>
      var (fs', ok) := DeleteAlone(fs, path);
      (fs', if ok then Done else Failed)
  }

  function BucketOp(sha: Sha256, objects: map<string, Bytes>, op: Op): (map<string, Bytes>, Obs) {
    var key := ObjectKey(op.ref);
    match op
    case PutOp(ref, source, checksum, _) =>
      var (objects', r) := ObjectStore.PutObject(sha, objects, ref, source, checksum);
      (objects', if r.Stored? then Accepted(r.size) else Mismatched)
    case GetOp(_) => (objects, if key in objects then Streamed(objects[key]) else Absent)
    case ExistsOp(_) => (objects, Present(key in objects))
    case DeleteOp(_) => (objects - {key}, Done)
  }

  /** The call on the local backend. */
  method OnLocal(l: Local, op: Op) returns (obs: Obs)
    modifies l`fs
    ensures (l.fs, obs) == LocalOp(l.cfg, old(l.fs), op)
  {
    match op
    case PutOp(ref, source, checksum, stamp) =>
      var r := l.Put(ref, source, |source|, checksum, stamp);
      obs := if r.Stored? then Accepted(r.size) else if r.error == ChecksumMismatch then Mismatched else Failed;
    case GetOp(ref) =>
      var found := l.Get(ref);
      obs := match found case File(b) => Streamed(b) case NotFound => Absent case _ => Failed;
    case ExistsOp(ref) =>
      ghost var path := FullPath(l.cfg.root, ref);
      FileOnTheWayBlocks(l.fs, path);
      var found, failed := l.Exists(ref);
      obs := if failed then Failed else Present(found);
    case DeleteOp(ref) =>
      var ok := l.Delete(ref);
      obs := if ok then Done else Failed;
  }

  /** The call on a bucket. */
  method OnBucket(b: ObjectStore.Bucket, op: Op) returns (obs: Obs)
    modifies b`objects
    ensures (b.objects, obs) == BucketOp(b.sha, old(b.objects), op)
  {
    match op
    case PutOp(ref, source, checksum, _) =>
      var r := b.Put(ref, source, checksum);
      obs := if r.Stored? then Accepted(r.size) else Mismatched;
    case GetOp(ref) =>
      var found := b.Get(ref);
      obs := if found.Some? then Streamed(found.value) else Absent;
    case ExistsOp(ref) =>
      var found := b.Exists(ref);
      obs := Present(found);
    case DeleteOp(ref) =>
      b.Delete(ref);
      obs := Done;
  }

  /** The two stores hold the same objects under every well-formed reference. */
  ghost predicate SameObjects(cfg: Config, fs: Fs, objects: map<string, Bytes>) {
    && Settled(cfg, fs)
    && forall ref | WellFormed(ref) :: SameObject(cfg, fs, objects, ref)
  }

  ghost predicate SameObject(cfg: Config, fs: Fs, objects: map<string, Bytes>, ref: PackageRef) {
    var path, key := FullPath(cfg.root, ref), ObjectKey(ref);
    && (path in fs.files <==> key in objects)
    && (path in fs.files ==> ContentAt(fs, path) == objects[key])
  }

  ghost predicate ProperOp(op: Op) {
    WellFormed(op.ref) && (op.PutOp? ==> op.checksum != "")
  }

  /** A Put whose bytes do not have the checksum, onto a key that holds an object. */
  predicate BadOverwrite(sha: Sha256, objects: map<string, Bytes>, op: Op) {
    op.PutOp? && Checksum(sha, op.source) != op.checksum && ObjectKey(op.ref) in objects
  }

  lemma WellFormedComplete(ref: PackageRef, checksum: string)
    requires WellFormed(ref) && checksum != ""
    ensures Complete(ref, checksum) && NoSlash(ref.tenant) && NoSlash(ref.name) && NoSlash(ref.version)
  {
    assert ref.tenant in [ref.tenant, ref.name, ref.version];
    assert ref.name in [ref.tenant, ref.name, ref.version];
    assert ref.version in [ref.tenant, ref.name, ref.version];
  }

  /** On a settled store the path of a well-formed reference is a file or nothing. */
  lemma FileOrNothing(cfg: Config, fs: Fs, ref: PackageRef)
    requires Settled(cfg, fs) && WellFormed(ref)
    ensures var path := FullPath(cfg.root, ref); var e := Stat(fs, path);
            && (path in fs.files ==> e == File(ContentAt(fs, path)))
            && (path !in fs.files ==> e == NotFound)
            && !Remove(fs, path).1.Refused?
  {
    WellFormedIsFlat(ref);
    FlatLayout(cfg.root, ref);
    var path := FullPath(cfg.root, ref);
    assert |path.elems| == Depth(cfg);
    NothingAbove(cfg, fs, path);
  }

  lemma {:induction false} NothingAbove(cfg: Config, fs: Fs, p: Path)
    requires Settled(cfg, fs) && |p.elems| <= Depth(cfg)
    ensures !Blocked(fs, p)
    decreases |p.elems|
  {
    if p.elems != [] {
      assert |Parent(p).elems| < Depth(cfg);
      NothingAbove(cfg, fs, Parent(p));
    }
  }

  lemma DistinctPlaces(cfg: Config, a: PackageRef, b: PackageRef)
    requires WellFormed(a) && WellFormed(b) && a != b
    ensures FullPath(cfg.root, a) != FullPath(cfg.root, b) && ObjectKey(a) != ObjectKey(b)
  {
    WellFormedComplete(a, "x");
    WellFormedComplete(b, "x");
    if FullPath(cfg.root, a) == FullPath(cfg.root, b) { WellFormedPathInjective(cfg.root, a, b); }
    if ObjectKey(a) == ObjectKey(b) { ObjectKeyInjective(a, b); }
  }

  /** The answers agree on every call. */
  lemma AnswersAgree(cfg: Config, fs: Fs, objects: map<string, Bytes>, op: Op)
    requires SameObjects(cfg, fs, objects) && ProperOp(op)
    ensures LocalOp(cfg, fs, op).1 == BucketOp(cfg.sha, objects, op).1
  {
    assert SameObject(cfg, fs, objects, op.ref);
    FileOrNothing(cfg, fs, op.ref);
    WellFormedIsFlat(op.ref);
    if op.PutOp? {
      WellFormedComplete(op.ref, op.checksum);
      PutSucceedsExactlyWhenVerified(cfg, fs, op.ref, op.source, |op.source|, op.checksum, op.stamp);
      PutStoresItsBytesOrNothing(cfg, fs, op.ref, op.source, |op.source|, op.checksum, op.stamp);
    }
  }

  lemma OthersStaySame(cfg: Config, fs: Fs, fs': Fs, objects: map<string, Bytes>,
                       objects': map<string, Bytes>, ref: PackageRef, temp: Path)
    requires SameObjects(cfg, fs, objects) && WellFormed(ref) && !Committed(temp)
    requires forall p | p != temp && p != FullPath(cfg.root, ref) :: Unchanged(fs, fs', p)
    requires forall k | k != ObjectKey(ref) ::
               (k in objects' <==> k in objects) && (k in objects ==> objects'[k] == objects[k])
    ensures forall other | WellFormed(other) && other != ref :: SameObject(cfg, fs', objects', other)
  {
    forall other | WellFormed(other) && other != ref
      ensures SameObject(cfg, fs', objects', other)
    {
      assert SameObject(cfg, fs, objects, other);
      DistinctPlaces(cfg, ref, other);
      DigestNamesFile(cfg.root, other);
      assert Unchanged(fs, fs', FullPath(cfg.root, other));
    }
  }

  /** The stores stay the same but for a bad overwrite. After one, the local store is as it was
      and the bucket has lost that object and no other. */
  lemma StoresAgreeUnlessBadOverwrite(cfg: Config, fs: Fs, objects: map<string, Bytes>, op: Op)
    requires SameObjects(cfg, fs, objects) && ProperOp(op)
    ensures SameObjects(cfg, LocalOp(cfg, fs, op).0, BucketOp(cfg.sha, objects, op).0) <==>
            !BadOverwrite(cfg.sha, objects, op)
    ensures BadOverwrite(cfg.sha, objects, op) ==>
              && SameObjects(cfg, LocalOp(cfg, fs, op).0, objects)
              && BucketOp(cfg.sha, objects, op).0 == objects - {ObjectKey(op.ref)}
  {
    if op.PutOp? { PutKeepsStoresAlike(cfg, fs, objects, op); }
    else if op.DeleteOp? { DeleteKeepsStoresAlike(cfg, fs, objects, op.ref); }
  }

  lemma DeleteKeepsStoresAlike(cfg: Config, fs: Fs, objects: map<string, Bytes>, ref: PackageRef)
    requires SameObjects(cfg, fs, objects) && WellFormed(ref)
    ensures SameObjects(cfg, DeleteAlone(fs, FullPath(cfg.root, ref)).0, objects - {ObjectKey(ref)})
  {
    var path := FullPath(cfg.root, ref);
    var fs' := DeleteAlone(fs, path).0;
    FileOrNothing(cfg, fs, ref);
    WellFormedIsFlat(ref);
    DeleteRemovesOnlyItsObject(fs, path);
    DeleteKeepsSettled(cfg, fs, ref);
    assert !Committed(Path(false, []));
    OthersStaySame(cfg, fs, fs', objects, objects - {ObjectKey(ref)}, ref, Path(false, []));
    assert SameObject(cfg, fs', objects - {ObjectKey(ref)}, ref);
  }

  lemma PutKeepsStoresAlike(cfg: Config, fs: Fs, objects: map<string, Bytes>, op: Op)
    requires SameObjects(cfg, fs, objects) && ProperOp(op) && op.PutOp?
    ensures var fs' := PutAlone(cfg, fs, op.ref, op.source, |op.source|, op.checksum, op.stamp).0;
            var objects' := ObjectStore.PutObject(cfg.sha, objects, op.ref, op.source, op.checksum).0;
            && (SameObjects(cfg, fs', objects') <==> !BadOverwrite(cfg.sha, objects, op))
            && (BadOverwrite(cfg.sha, objects, op) ==>
                  SameObjects(cfg, fs', objects) && objects' == objects - {ObjectKey(op.ref)})
  {
    var ref, temp := op.ref, TempPath(FullPath(cfg.root, op.ref), op.stamp);
    var fs' := PutAlone(cfg, fs, ref, op.source, |op.source|, op.checksum, op.stamp).0;
    var objects' := ObjectStore.PutObject(cfg.sha, objects, ref, op.source, op.checksum).0;
    assert SameObject(cfg, fs, objects, ref);
    PutAloneEffect(cfg, fs, op);
    OthersStaySame(cfg, fs, fs', objects, objects', ref, temp);
    if BadOverwrite(cfg.sha, objects, op) {
      OthersStaySame(cfg, fs, fs', objects, objects, ref, temp);
      assert SameObject(cfg, fs', objects, ref);
      assert !SameObject(cfg, fs', objects', ref);
    } else {
      assert SameObject(cfg, fs', objects', ref);
    }
  }

  lemma PutAloneEffect(cfg: Config, fs: Fs, op: Op)
    requires Settled(cfg, fs) && ProperOp(op) && op.PutOp?
    ensures var (fs', r) := PutAlone(cfg, fs, op.ref, op.source, |op.source|, op.checksum, op.stamp);
            var path, temp := FullPath(cfg.root, op.ref), TempPath(FullPath(cfg.root, op.ref), op.stamp);
            && Settled(cfg, fs') && !Committed(temp)
            && (r.Stored? <==> Checksum(cfg.sha, op.source) == op.checksum)
            && AllOrNothing(fs, fs', path, temp, op.source, r)
  {
    WellFormedIsFlat(op.ref);
    WellFormedComplete(op.ref, op.checksum);
    PutSucceedsExactlyWhenVerified(cfg, fs, op.ref, op.source, |op.source|, op.checksum, op.stamp);
    PutStoresItsBytesOrNothing(cfg, fs, op.ref, op.source, |op.source|, op.checksum, op.stamp);
    StartIsOk(cfg, fs, op.ref, op.source, |op.source|, op.stamp);
  }

  function LocalTrace(cfg: Config, fs: Fs, ops: seq<Op>): (Fs, seq<Obs>)
    decreases |ops|
  {
    if ops == [] then (fs, [])
    else
      var (fs', obs) := LocalOp(cfg, fs, ops[0]);
      var (t, rest) := LocalTrace(cfg, fs', ops[1..]);
      (t, [obs] + rest)
  }

  function BucketTrace(sha: Sha256, objects: map<string, Bytes>, ops: seq<Op>): (map<string, Bytes>, seq<Obs>)
    decreases |ops|
  {
    if ops == [] then (objects, [])
    else
      var (objects', obs) := BucketOp(sha, objects, ops[0]);
      var (t, rest) := BucketTrace(sha, objects', ops[1..]);
      (t, [obs] + rest)
  }

  ghost predicate NoBadOverwrite(sha: Sha256, objects: map<string, Bytes>, ops: seq<Op>)
    decreases |ops|
  {
    ops != [] ==> !BadOverwrite(sha, objects, ops[0]) && NoBadOverwrite(sha, BucketOp(sha, objects, ops[0]).0, ops[1..])
  }

  /** No sequence of calls without a bad overwrite tells the backends apart. */
  lemma {:induction false} BackendsAreEquivalent(cfg: Config, fs: Fs, objects: map<string, Bytes>, ops: seq<Op>)
    requires SameObjects(cfg, fs, objects) && NoBadOverwrite(cfg.sha, objects, ops)
    requires forall i | 0 <= i < |ops| :: ProperOp(ops[i])
    ensures LocalTrace(cfg, fs, ops).1 == BucketTrace(cfg.sha, objects, ops).1
    ensures SameObjects(cfg, LocalTrace(cfg, fs, ops).0, BucketTrace(cfg.sha, objects, ops).0)
    decreases |ops|
  {
    if ops != [] {
      AnswersAgree(cfg, fs, objects, ops[0]);
      StoresAgreeUnlessBadOverwrite(cfg, fs, objects, ops[0]);
      BackendsAreEquivalent(cfg, LocalOp(cfg, fs, ops[0]).0, BucketOp(cfg.sha, objects, ops[0]).0, ops[1..]);
    }
  }
}
