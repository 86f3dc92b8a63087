/** The S3 and GCS backends. Both upload to the final key, hash on the side, and delete the
    object again when the hash is wrong. */
module ObjectStore {
  import opened Content
  import opened Paths

  datatype Backend = S3 | GCS

  datatype PutError = ChecksumMismatch | StatFailed | UploadFailed
  datatype PutResult = Stored(size: nat, key: string) | Rejected(error: PutError)

  // ---------------------------------------------------------------- one client

  class Bucket {
    const backend: Backend
    const sha: Sha256
    var objects: map<string, Bytes>

    constructor (backend: Backend, sha: Sha256, objects: map<string, Bytes>)
      ensures this.backend == backend && this.sha == sha && this.objects == objects
    {
      this.backend := backend;
      this.sha := sha;
      this.objects := objects;
    }

    /** S3 reports the stored length, GCS the length it copied; alone they are the same. */
    method Put(ref: PackageRef, source: Bytes, checksum: string) returns (r: PutResult)
      modifies this`objects
      ensures (objects, r) == PutObject(sha, old(objects), ref, source, checksum)
    {
      var key := ObjectKey(ref);
      objects := objects[key := source];
      if Checksum(sha, source) != checksum {
        Delete(ref);
        assert objects == old(objects) - {key};
        return Rejected(ChecksumMismatch);
      }
      match backend {
        case S3 => r := Stored(|objects[key]|, key);
        case GCS => r := Stored(|source|, key);
      }
    }

    method Get(ref: PackageRef) returns (r: Option<Bytes>)
      ensures r == if ObjectKey(ref) in objects then Some(objects[ObjectKey(ref)]) else None
    {
      var key := ObjectKey(ref);
      if key in objects { r := Some(objects[key]); } else { r := None; }
    }

    method Exists(ref: PackageRef) returns (r: bool)
      ensures r == (ObjectKey(ref) in objects)
    {
      r := ObjectKey(ref) in objects;
    }

    method Delete(ref: PackageRef)
      modifies this`objects
      ensures objects == old(objects) - {ObjectKey(ref)}
    {
      objects := objects - {ObjectKey(ref)};
    }
  }

  function PutObject(sha: Sha256, objects: map<string, Bytes>, ref: PackageRef, source: Bytes, checksum: string)
    : (map<string, Bytes>, PutResult)
  {
    if Checksum(sha, source) != checksum then (objects - {ObjectKey(ref)}, Rejected(ChecksumMismatch))
    else (objects[ObjectKey(ref) := source], Stored(|source|, ObjectKey(ref)))
  }

  // ---------------------------------------------------------------- any number of clients

  datatype PutPc = Uploading | Uploaded | Deleting | Checking | Finished(result: PutResult)
  datatype Put = Put(ref: PackageRef, source: Bytes, pc: PutPc)

  /** writer remembers which Put last wrote an object. */
  datatype State = State(objects: map<string, Bytes>, puts: map<nat, Put>, writer: map<string, nat>)

  datatype Step =
    | Begin(id: nat, ref: PackageRef, source: Bytes)
    | Upload(id: nat)
    | Refuse(id: nat)
    | Compare(id: nat)
    | CleanUp(id: nat)
    | Check(id: nat)
    | Remove(ref: PackageRef)

  function Moved(s: State, id: nat, pc: PutPc): State
    requires id in s.puts
  {
    s.(puts := s.puts[id := s.puts[id].(pc := pc)])
  }

  /** The head request after a good upload; its object may be gone or replaced by then. */
  function CheckResult(backend: Backend, objects: map<string, Bytes>, put: Put): PutResult {
    var key := ObjectKey(put.ref);
    if key !in objects then Rejected(StatFailed)
    else match backend
      case S3 => Stored(|objects[key]|, key)
      case GCS => Stored(|put.source|, key)
  }

  /** Each request to the service is one step; Puts use the digest of the reference as checksum. */
  function Next(backend: Backend, sha: Sha256, s: State, step: Step): State {
    match step
    case Begin(id, ref, source) =>
      if id in s.puts then s else s.(puts := s.puts[id := Put(ref, source, Uploading)])
    case Upload(id) =>
      if id in s.puts && s.puts[id].pc.Uploading?
      then var key := ObjectKey(s.puts[id].ref);
           Moved(s, id, Uploaded).(objects := s.objects[key := s.puts[id].source], writer := s.writer[key := id])
      else s
    case Refuse(id) =>
      if id in s.puts && s.puts[id].pc.Uploading? then Moved(s, id, Finished(Rejected(UploadFailed))) else s
    case Compare(id) =>
      if id in s.puts && s.puts[id].pc.Uploaded?
      then Moved(s, id, if Checksum(sha, s.puts[id].source) == s.puts[id].ref.digest then Checking else Deleting)
      else s
    case CleanUp(id) =>
      if id in s.puts && s.puts[id].pc.Deleting?
      then Moved(s, id, Finished(Rejected(ChecksumMismatch))).(objects := s.objects - {ObjectKey(s.puts[id].ref)})
      else s
    case Check(id) =>
      if id in s.puts && s.puts[id].pc.Checking?
      then Moved(s, id, Finished(CheckResult(backend, s.objects, s.puts[id])))
      else s
    case Remove(ref) => s.(objects := s.objects - {ObjectKey(ref)})
  }

  function Run(backend: Backend, sha: Sha256, s: State, steps: seq<Step>): State
    decreases |steps|
  {
    if steps == [] then s else Run(backend, sha, Next(backend, sha, s, steps[0]), steps[1..])
  }

  /** The digest of a key: what follows its last slash. */
  function KeyDigest(key: string): string {
    var parts := Split(key);
    parts[|parts| - 1]
  }

  ghost predicate Good(sha: Sha256, key: string, content: Bytes) {
    Checksum(sha, content) == KeyDigest(key)
  }

  /** Its hash is wrong, and it has not yet deleted what it wrote. */
  ghost predicate Doomed(sha: Sha256, put: Put) {
    (put.pc.Uploaded? || put.pc.Deleting?) && Checksum(sha, put.source) != put.ref.digest
  }

  ghost predicate LastWriterIsDoomed(sha: Sha256, s: State, key: string) {
    && key in s.writer && s.writer[key] in s.puts
    && Doomed(sha, s.puts[s.writer[key]]) && ObjectKey(s.puts[s.writer[key]].ref) == key
  }

  ghost predicate Inv(sha: Sha256, s: State) {
    && (forall key | key in s.objects :: Good(sha, key, s.objects[key]) || LastWriterIsDoomed(sha, s, key))
    && Compared(sha, s.puts)
  }

  /** A checksum has no slash, so a key that ends in one has it as its digest. */
  lemma GoodUpload(sha: Sha256, ref: PackageRef, source: Bytes)
    requires Checksum(sha, source) == ref.digest
    ensures Good(sha, ObjectKey(ref), source)
  {
    ChecksumIsDigest(sha, source);
    assert NoSlash(ALGORITHM);
    assert NoSlash(sha(source)) by { assert forall i | 0 <= i < 64 :: IsHexDigit(sha(source)[i]); }
    SplitOfLast([ref.tenant, ref.name, ref.version, ref.digest]);
  }

  ghost predicate ObjectOk(sha: Sha256, s: State, key: string) {
    key in s.objects ==> Good(sha, key, s.objects[key]) || LastWriterIsDoomed(sha, s, key)
  }

  lemma UploadKeepsObject(sha: Sha256, s: State, id: nat, key: string)
    requires ObjectOk(sha, s, key) && id in s.puts && s.puts[id].pc.Uploading?
    ensures var own := ObjectKey(s.puts[id].ref);
            ObjectOk(sha, Moved(s, id, Uploaded).(objects := s.objects[own := s.puts[id].source],
                                                  writer := s.writer[own := id]), key)
  {
    if key == ObjectKey(s.puts[id].ref) && Checksum(sha, s.puts[id].source) == s.puts[id].ref.digest {
      GoodUpload(sha, s.puts[id].ref, s.puts[id].source);
    }
  }

  /** A move that takes no doomed Put out of its doom. */
  lemma MoveKeepsObject(sha: Sha256, s: State, id: nat, pc: PutPc, key: string)
    requires ObjectOk(sha, s, key) && id in s.puts
    requires Doomed(sha, s.puts[id]) ==> pc.Uploaded? || pc.Deleting?
    ensures ObjectOk(sha, Moved(s, id, pc), key)
  {
  }

  lemma CleanUpKeepsObject(sha: Sha256, s: State, id: nat, pc: PutPc, key: string)
    requires ObjectOk(sha, s, key) && id in s.puts
    ensures ObjectOk(sha, Moved(s, id, pc).(objects := s.objects - {ObjectKey(s.puts[id].ref)}), key)
  {
  }

  lemma NextKeepsObject(backend: Backend, sha: Sha256, s: State, step: Step, key: string)
    requires Inv(sha, s)
    ensures ObjectOk(sha, Next(backend, sha, s, step), key)
  {
    assert ObjectOk(sha, s, key);
    var t := Next(backend, sha, s, step);
    if t == s { return; }
    match step
    case Begin(_, _, _) =>
    case Upload(id) => UploadKeepsObject(sha, s, id, key);
    case Refuse(id) => MoveKeepsObject(sha, s, id, t.puts[id].pc, key);
    case Compare(id) => MoveKeepsObject(sha, s, id, t.puts[id].pc, key);
    case CleanUp(id) => CleanUpKeepsObject(sha, s, id, t.puts[id].pc, key);
    case Check(id) => MoveKeepsObject(sha, s, id, t.puts[id].pc, key);
    case Remove(_) =>
  }

  lemma NextKeepsInv(backend: Backend, sha: Sha256, s: State, step: Step)
    requires Inv(sha, s)
    ensures Inv(sha, Next(backend, sha, s, step))
  {
    var t := Next(backend, sha, s, step);
    forall key | key in t.objects
      ensures Good(sha, key, t.objects[key]) || LastWriterIsDoomed(sha, t, key)
    {
      NextKeepsObject(backend, sha, s, step, key);
    }
    NextKeepsCompared(backend, sha, s, step);
  }

  /** After the comparison a Put goes the way that its hash decides. */
  ghost predicate Compared(sha: Sha256, puts: map<nat, Put>) {
    && (forall i | i in puts && puts[i].pc.Deleting? :: Checksum(sha, puts[i].source) != puts[i].ref.digest)
    && (forall i | i in puts && puts[i].pc.Checking? :: Checksum(sha, puts[i].source) == puts[i].ref.digest)
  }

  lemma NextKeepsCompared(backend: Backend, sha: Sha256, s: State, step: Step)
    requires Compared(sha, s.puts)
    ensures Compared(sha, Next(backend, sha, s, step).puts)
  {
    if Next(backend, sha, s, step) == s { return; }
    match step
    case Begin(_, _, _) =>
    case Upload(_) =>
    case Refuse(_) =>
    case Compare(_) =>
    case CleanUp(_) =>
    case Check(_) =>
    case Remove(_) =>
  }

  lemma {:induction false} RunKeepsInv(backend: Backend, sha: Sha256, s: State, steps: seq<Step>)
    requires Inv(sha, s)
    ensures Inv(sha, Run(backend, sha, s, steps))
    decreases |steps|
  {
    if steps != [] {
      NextKeepsInv(backend, sha, s, steps[0]);
      RunKeepsInv(backend, sha, Next(backend, sha, s, steps[0]), steps[1..]);
    }
  }

  ghost predicate AtRest(sha: Sha256, s: State) {
    s.puts == map[] && forall key | key in s.objects :: Good(sha, key, s.objects[key])
  }

  /** An object with the wrong hash is the last write of a Put that has still to delete it, so a
      store with nothing in flight holds only verified objects. */
  lemma BadObjectsBelongToUnfinishedPuts(backend: Backend, sha: Sha256, s: State, steps: seq<Step>)
    requires AtRest(sha, s)
    ensures var t := Run(backend, sha, s, steps);
            && (forall key | key in t.objects && !Good(sha, key, t.objects[key]) :: LastWriterIsDoomed(sha, t, key))
            && ((forall i | i in t.puts :: t.puts[i].pc.Finished?) ==>
                  forall key | key in t.objects :: Good(sha, key, t.objects[key]))
  {
    RunKeepsInv(backend, sha, s, steps);
  }

  lemma {:induction false} RunConcat(backend: Backend, sha: Sha256, s: State, a: seq<Step>, b: seq<Step>)
    ensures Run(backend, sha, s, a + b) == Run(backend, sha, Run(backend, sha, s, a), b)
    decreases |a|
  {
    if a == [] {
      assert a + b == b;
    } else {
      assert (a + b)[0] == a[0] && (a + b)[1..] == a[1..] + b;
      RunConcat(backend, sha, Next(backend, sha, s, a[0]), a[1..], b);
    }
  }

  function Uploads(id: nat, ref: PackageRef, source: Bytes): seq<Step> {
    [Begin(id, ref, source), Upload(id), Compare(id)]
  }

  lemma UploadRun(backend: Backend, sha: Sha256, s: State, id: nat, ref: PackageRef, source: Bytes)
    requires id !in s.puts
    ensures var pc := if Checksum(sha, source) == ref.digest then Checking else Deleting;
            Run(backend, sha, s, Uploads(id, ref, source))
              == State(s.objects[ObjectKey(ref) := source], s.puts[id := Put(ref, source, pc)],
                       s.writer[ObjectKey(ref) := id])
  {
    var key := ObjectKey(ref);
    RunThree(backend, sha, s, Begin(id, ref, source), Upload(id), Compare(id));
    var s1 := s.(puts := s.puts[id := Put(ref, source, Uploading)]);
    var s2 := State(s.objects[key := source], s.puts[id := Put(ref, source, Uploaded)], s.writer[key := id]);
    assert s1.puts[id := Put(ref, source, Uploaded)] == s2.puts;
    assert Next(backend, sha, s, Begin(id, ref, source)) == s1;
    assert Next(backend, sha, s1, Upload(id)) == s2;
    CompareRun(backend, sha, s, s2, id, ref, source);
  }

  lemma CompareRun(backend: Backend, sha: Sha256, s: State, s2: State, id: nat, ref: PackageRef, source: Bytes)
    requires s2.puts == s.puts[id := Put(ref, source, Uploaded)]
    ensures var pc := if Checksum(sha, source) == ref.digest then Checking else Deleting;
            Next(backend, sha, s2, Compare(id)) == s2.(puts := s.puts[id := Put(ref, source, pc)])
  {
    var pc := if Checksum(sha, source) == ref.digest then Checking else Deleting;
    assert s2.puts[id := Put(ref, source, pc)] == s.puts[id := Put(ref, source, pc)];
  }

  lemma RunThree(backend: Backend, sha: Sha256, s: State, a: Step, b: Step, c: Step)
    ensures Run(backend, sha, s, [a, b, c]) == Next(backend, sha, Next(backend, sha, Next(backend, sha, s, a), b), c)
  {
    assert [a, b, c][1..] == [b, c] && [b, c][1..] == [c] && [c][1..] == [];
    var s1 := Next(backend, sha, s, a);
    var s2 := Next(backend, sha, s1, b);
    assert Run(backend, sha, s2, [c]) == Next(backend, sha, s2, c);
    assert Run(backend, sha, s1, [b, c]) == Run(backend, sha, s2, [c]);
  }

  lemma CheckThenCleanUp(backend: Backend, sha: Sha256, s: State, good: nat, bad: nat)
    requires good in s.puts && bad in s.puts && good != bad && ObjectKey(s.puts[good].ref) == ObjectKey(s.puts[bad].ref)
    requires s.puts[good].pc.Checking? && s.puts[bad].pc.Deleting?
    requires ObjectKey(s.puts[good].ref) in s.objects && s.objects[ObjectKey(s.puts[good].ref)] == s.puts[good].source
    ensures var t := Run(backend, sha, s, [Check(good), CleanUp(bad)]); var key := ObjectKey(s.puts[good].ref);
            && good in t.puts && t.puts[good].pc == Finished(Stored(|s.puts[good].source|, key))
            && key !in t.objects
  {
    var s1 := Next(backend, sha, s, Check(good));
    var s2 := Next(backend, sha, s1, CleanUp(bad));
    assert [Check(good), CleanUp(bad)][1..] == [CleanUp(bad)] && [CleanUp(bad)][1..] == [];
    assert Run(backend, sha, s1, [CleanUp(bad)]) == s2;
  }

  /** The price: the clean-up of a bad upload takes a good object of the same key with it, after
      the Put of the good one has reported success. */
  lemma CleanUpCanDeleteAGoodObject(backend: Backend, sha: Sha256, ref: PackageRef, good: Bytes, bad: Bytes)
    requires Checksum(sha, good) == ref.digest && Checksum(sha, bad) != ref.digest
    ensures var t := Run(backend, sha, State(map[], map[], map[]),
                         Uploads(0, ref, bad) + (Uploads(1, ref, good) + [Check(1), CleanUp(0)]));
            && 1 in t.puts && t.puts[1].pc == Finished(Stored(|good|, ObjectKey(ref)))
            && ObjectKey(ref) !in t.objects
  {
    var s := State(map[], map[], map[]);
    RunConcat(backend, sha, s, Uploads(0, ref, bad), Uploads(1, ref, good) + [Check(1), CleanUp(0)]);
    UploadRun(backend, sha, s, 0, ref, bad);
    var s1 := Run(backend, sha, s, Uploads(0, ref, bad));
    RunConcat(backend, sha, s1, Uploads(1, ref, good), [Check(1), CleanUp(0)]);
    UploadRun(backend, sha, s1, 1, ref, good);
    CheckThenCleanUp(backend, sha, Run(backend, sha, s1, Uploads(1, ref, good)), 1, 0);
  }

  // ---------------------------------------------------------------- when an object stays

  /** An unfinished Put whose clean-up will take this key: its bytes do not have its digest. */
  ghost predicate Threat(sha: Sha256, put: Put, key: string) {
    !put.pc.Finished? && ObjectKey(put.ref) == key && Checksum(sha, put.source) != put.ref.digest
  }

  ghost predicate Unthreatened(sha: Sha256, s: State, key: string) {
    forall i | i in s.puts :: !Threat(sha, s.puts[i], key)
  }

  /** Neither a delete of the key nor the beginning of a mismatching Put of it. */
  ghost predicate Harmless(sha: Sha256, step: Step, key: string) {
    && (step.Remove? ==> ObjectKey(step.ref) != key)
    && (step.Begin? && ObjectKey(step.ref) == key ==> Checksum(sha, step.source) == step.ref.digest)
  }

  ghost predicate HarmlessRun(sha: Sha256, steps: seq<Step>, key: string) {
    forall k | 0 <= k < |steps| :: Harmless(sha, steps[k], key)
  }

  lemma HarmlessStepKeepsKey(backend: Backend, sha: Sha256, s: State, step: Step, key: string)
    requires Inv(sha, s) && key in s.objects && Unthreatened(sha, s, key) && Harmless(sha, step, key)
    ensures key in Next(backend, sha, s, step).objects && Unthreatened(sha, Next(backend, sha, s, step), key)
  {
    HarmlessStepAddsNoThreat(backend, sha, s, step, key);
    if step.CleanUp? && step.id in s.puts { assert !Threat(sha, s.puts[step.id], key); }
  }

  lemma HarmlessStepAddsNoThreat(backend: Backend, sha: Sha256, s: State, step: Step, key: string)
    requires Unthreatened(sha, s, key) && Harmless(sha, step, key)
    ensures Unthreatened(sha, Next(backend, sha, s, step), key)
  {
    if Next(backend, sha, s, step) == s { return; }
    match step
    case Begin(_, _, _) =>
    case Upload(id) => assert !Threat(sha, s.puts[id], key);
    case Refuse(_) =>
    case Compare(id) => assert !Threat(sha, s.puts[id], key);
    case CleanUp(_) =>
    case Check(_) =>
    case Remove(_) =>
  }

  lemma {:induction false} HarmlessRunKeepsKey(backend: Backend, sha: Sha256, s: State, steps: seq<Step>, key: string)
    requires Inv(sha, s) && key in s.objects && Unthreatened(sha, s, key) && HarmlessRun(sha, steps, key)
    ensures key in Run(backend, sha, s, steps).objects
    decreases |steps|
  {
    if steps != [] {
      assert Harmless(sha, steps[0], key);
      assert HarmlessRun(sha, steps[1..], key) by {
        assert forall k | 0 <= k < |steps| - 1 :: steps[1..][k] == steps[k + 1];
      }
      NextKeepsInv(backend, sha, s, steps[0]);
      HarmlessStepKeepsKey(backend, sha, s, steps[0], key);
      HarmlessRunKeepsKey(backend, sha, Next(backend, sha, s, steps[0]), steps[1..], key);
    }
  }

  /** What a threatening Put has still to do. */
  function RestOf(id: nat): seq<Step> {
    [Upload(id), Compare(id), CleanUp(id)]
  }

  lemma ThreatDeletes(backend: Backend, sha: Sha256, s: State, id: nat, key: string)
    requires Inv(sha, s) && id in s.puts && Threat(sha, s.puts[id], key)
    ensures key !in Run(backend, sha, s, RestOf(id)).objects && HarmlessRun(sha, RestOf(id), key)
  {
    RunThree(backend, sha, s, Upload(id), Compare(id), CleanUp(id));
    var s1 := Next(backend, sha, s, Upload(id));
    assert s1.puts[id] == s.puts[id].(pc := if s.puts[id].pc.Uploading? then Uploaded else s.puts[id].pc);
    var s2 := Next(backend, sha, s1, Compare(id));
    assert s2.puts[id] == s.puts[id].(pc := Deleting);
  }

  /** A key that holds an object keeps one through every run that neither deletes it nor begins a
      mismatching Put of it, if and only if no mismatching Put of it is unfinished. */
  lemma ObjectStaysExactlyWhenUnthreatened(backend: Backend, sha: Sha256, s: State, key: string)
    requires Inv(sha, s) && key in s.objects
    ensures (forall steps | HarmlessRun(sha, steps, key) :: key in Run(backend, sha, s, steps).objects)
       <==> Unthreatened(sha, s, key)
  {
    if Unthreatened(sha, s, key) {
      forall steps | HarmlessRun(sha, steps, key)
        ensures key in Run(backend, sha, s, steps).objects
      {
        HarmlessRunKeepsKey(backend, sha, s, steps, key);
      }
    } else {
      var id :| id in s.puts && Threat(sha, s.puts[id], key);
      ThreatDeletes(backend, sha, s, id, key);
      assert HarmlessRun(sha, RestOf(id), key);
    }
  }
}
