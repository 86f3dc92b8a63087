/** What the success of a Put to a bucket says when Puts interleave: whose object was there when it
    asked, and how long the object was that it reports. */
module BucketReports {
  import opened Content
  import opened Paths
  import opened ObjectStore

  /** A Put whose upload is done, as far as it is not yet over. */
  predicate Wrote(put: Put) {
    put.pc.Uploaded? || put.pc.Deleting? || put.pc.Checking?
  }

  /** An object that a Put has written is the source of the Put that wrote it last. */
  ghost predicate WrittenBy(s: State, key: string) {
    key in s.objects && key in s.writer ==>
      && s.writer[key] in s.puts && !s.puts[s.writer[key]].pc.Uploading?
      && ObjectKey(s.puts[s.writer[key]].ref) == key && s.objects[key] == s.puts[s.writer[key]].source
  }

  ghost predicate WritersOk(s: State) {
    && (forall key :: WrittenBy(s, key))
    && (forall i | i in s.puts && Wrote(s.puts[i]) :: ObjectKey(s.puts[i].ref) in s.writer)
  }

  lemma UploadKeepsWriters(s: State, id: nat)
    requires WritersOk(s) && id in s.puts && s.puts[id].pc.Uploading?
    ensures var key := ObjectKey(s.puts[id].ref);
            WritersOk(Moved(s, id, Uploaded).(objects := s.objects[key := s.puts[id].source],
                                              writer := s.writer[key := id]))
  {
    var key := ObjectKey(s.puts[id].ref);
    var t := Moved(s, id, Uploaded).(objects := s.objects[key := s.puts[id].source], writer := s.writer[key := id]);
    forall k
      ensures WrittenBy(t, k)
    {
      assert WrittenBy(s, k);
    }
  }

  /** A move of a Put that is under way, which may take objects away. */
  lemma MoveKeepsWriters(s: State, id: nat, pc: PutPc, objects: map<string, Bytes>)
    requires WritersOk(s) && id in s.puts && !pc.Uploading? && (s.puts[id].pc.Uploading? ==> pc.Finished?)
    requires Wrote(s.puts[id]) || pc.Finished?
    requires forall key | key in objects :: key in s.objects && objects[key] == s.objects[key]
    ensures WritersOk(Moved(s, id, pc).(objects := objects))
  {
    var t := Moved(s, id, pc).(objects := objects);
    forall k
      ensures WrittenBy(t, k)
    {
      assert WrittenBy(s, k);
    }
  }

  lemma NextKeepsWriters(backend: Backend, sha: Sha256, s: State, step: Step)
    requires WritersOk(s)
    ensures WritersOk(Next(backend, sha, s, step))
  {
    var t := Next(backend, sha, s, step);
    if t == s { return; }
    match step
    case Begin(_, _, _) =>
      forall k ensures WrittenBy(t, k) { assert WrittenBy(s, k); }
    case Upload(id) => UploadKeepsWriters(s, id);
    case Refuse(id) => MoveKeepsWriters(s, id, t.puts[id].pc, s.objects);
    case Compare(id) => MoveKeepsWriters(s, id, t.puts[id].pc, s.objects);
    case CleanUp(id) => MoveKeepsWriters(s, id, t.puts[id].pc, t.objects);
    case Check(id) => MoveKeepsWriters(s, id, t.puts[id].pc, s.objects);
    case Remove(_) =>
      forall k ensures WrittenBy(t, k) { assert WrittenBy(s, k); }
  }

  /** At the last request of a good Put: it succeeds if and only if its key holds an object. That
      object is the source of the last Put that wrote the key; S3 reports its length, GCS the length
      of the Put's own source. It is the Put's own source exactly when the last writer's bytes have
      the Put's digest, and else the last writer has its clean-up still ahead. */
  lemma SuccessReportsTheLastWrite(backend: Backend, sha: Sha256, s: State, id: nat)
    requires Inv(sha, s) && WritersOk(s) && id in s.puts && s.puts[id].pc.Checking? && Injective(sha)
    ensures var put := s.puts[id]; var key := ObjectKey(put.ref);
            var pc := Next(backend, sha, s, Check(id)).puts[id].pc;
            && pc.Finished? && (pc.result.Stored? <==> key in s.objects)
            && (pc.result.Stored? ==>
                  && key in s.writer && s.writer[key] in s.puts
                  && var last := s.puts[s.writer[key]];
                     && ObjectKey(last.ref) == key && s.objects[key] == last.source
                     && pc.result == Stored(if backend == S3 then |last.source| else |put.source|, key)
                     && (last.source == put.source <==> Checksum(sha, last.source) == put.ref.digest)
                     && (last.source != put.source ==> Doomed(sha, last)))
  {
    var put := s.puts[id];
    var key := ObjectKey(put.ref);
    assert Checksum(sha, put.source) == put.ref.digest;
    if key in s.objects {
      assert WrittenBy(s, key);
      OwnBytes(sha, put, s.objects[key]);
    }
  }

  /** A good object at the key of a good Put is the Put's own bytes. */
  lemma OwnBytes(sha: Sha256, put: Put, content: Bytes)
    requires Checksum(sha, put.source) == put.ref.digest && Injective(sha)
    ensures Checksum(sha, content) == put.ref.digest <==> content == put.source
    ensures Good(sha, ObjectKey(put.ref), content) <==> content == put.source
  {
    GoodUpload(sha, put.ref, put.source);
    assert Checksum(sha, content)[|ALGORITHM|..] == sha(content);
    assert Checksum(sha, put.source)[|ALGORITHM|..] == sha(put.source);
  }

  // ---------------------------------------------------------------- reports over whole runs

  /** The object of this length was put at the key by w. */
  ghost predicate Uploader(puts: map<nat, Put>, w: nat, key: string, size: nat) {
    w in puts && !puts[w].pc.Uploading? && ObjectKey(puts[w].ref) == key && |puts[w].source| == size
  }

  ghost predicate Mismatched(sha: Sha256, put: Put) {
    Checksum(sha, put.source) != put.ref.digest
  }

  /** A success is that of bytes with the right digest. It reports its own length; on S3 it may
      report that of another Put to its key instead, whose bytes do not have their digest. */
  ghost predicate ReportOk(backend: Backend, sha: Sha256, puts: map<nat, Put>, put: Put) {
    put.pc.Finished? && put.pc.result.Stored? ==>
      && !Mismatched(sha, put) && put.pc.result.key == ObjectKey(put.ref)
      && (|| put.pc.result.size == |put.source|
          || (backend == S3 && exists w :: Uploader(puts, w, ObjectKey(put.ref), put.pc.result.size)
                                           && Mismatched(sha, puts[w])))
  }

  ghost predicate ReportsOk(backend: Backend, sha: Sha256, puts: map<nat, Put>) {
    forall i | i in puts :: ReportOk(backend, sha, puts, puts[i])
  }

  /** No Put changes who it is, or is again before its upload. */
  ghost predicate PutsGrow(before: map<nat, Put>, after: map<nat, Put>) {
    forall i | i in before :: && i in after && after[i].ref == before[i].ref && after[i].source == before[i].source
                              && (after[i].pc.Uploading? ==> before[i].pc.Uploading?)
  }

  lemma ReportPersists(backend: Backend, sha: Sha256, before: map<nat, Put>, after: map<nat, Put>, put: Put)
    requires PutsGrow(before, after) && ReportOk(backend, sha, before, put)
    ensures ReportOk(backend, sha, after, put)
  {
    if put.pc.Finished? && put.pc.result.Stored? && put.pc.result.size != |put.source| {
      var w :| Uploader(before, w, ObjectKey(put.ref), put.pc.result.size) && Mismatched(sha, before[w]);
      assert Uploader(after, w, ObjectKey(put.ref), put.pc.result.size) && Mismatched(sha, after[w]);
    }
  }

  lemma NextGrows(backend: Backend, sha: Sha256, s: State, step: Step)
    ensures PutsGrow(s.puts, Next(backend, sha, s, step).puts)
  {
    if Next(backend, sha, s, step) == s { return; }
    match step
    case Begin(_, _, _) =>
    case Upload(_) =>
    case Refuse(_) =>
    case Compare(_) =>
    case CleanUp(_) =>
    case Check(_) =>
    case Remove(_) =>
  }

  /** Only Check finishes a Put with success. */
  lemma OnlyCheckReports(backend: Backend, sha: Sha256, s: State, step: Step, i: nat)
    requires i in Next(backend, sha, s, step).puts && step != Check(i)
    ensures var put := Next(backend, sha, s, step).puts[i];
            put.pc.Finished? && put.pc.result.Stored? ==> i in s.puts && put == s.puts[i]
  {
    if Next(backend, sha, s, step) == s { return; }
    match step
    case Begin(_, _, _) =>
    case Upload(_) =>
    case Refuse(_) =>
    case Compare(_) =>
    case CleanUp(_) =>
    case Check(_) =>
    case Remove(_) =>
  }

  lemma CheckReports(backend: Backend, sha: Sha256, s: State, id: nat)
    requires Inv(sha, s) && WritersOk(s) && id in s.puts && s.puts[id].pc.Checking? && Injective(sha)
    ensures var t := Next(backend, sha, s, Check(id));
            PutsGrow(s.puts, t.puts) && ReportOk(backend, sha, t.puts, t.puts[id])
  {
    var t, key := Next(backend, sha, s, Check(id)), ObjectKey(s.puts[id].ref);
    SuccessReportsTheLastWrite(backend, sha, s, id);
    if key in s.objects && s.puts[s.writer[key]].source != s.puts[id].source {
      assert Uploader(t.puts, s.writer[key], key, |s.objects[key]|) && Mismatched(sha, t.puts[s.writer[key]]);
    }
  }

  lemma NextKeepsReports(backend: Backend, sha: Sha256, s: State, step: Step)
    requires Inv(sha, s) && WritersOk(s) && Injective(sha) && ReportsOk(backend, sha, s.puts)
    ensures ReportsOk(backend, sha, Next(backend, sha, s, step).puts)
  {
    var t := Next(backend, sha, s, step);
    if t == s { return; }
    forall i | i in t.puts
      ensures ReportOk(backend, sha, t.puts, t.puts[i])
    {
      if step == Check(i) { CheckReports(backend, sha, s, i); }
      else {
        NextGrows(backend, sha, s, step);
        OnlyCheckReports(backend, sha, s, step, i);
        if t.puts[i].pc.Finished? && t.puts[i].pc.result.Stored? {
          ReportPersists(backend, sha, s.puts, t.puts, s.puts[i]);
        }
      }
    }
  }

  lemma {:induction false} RunKeepsReports(backend: Backend, sha: Sha256, s: State, steps: seq<Step>)
    requires Inv(sha, s) && WritersOk(s) && Injective(sha) && ReportsOk(backend, sha, s.puts)
    ensures ReportsOk(backend, sha, Run(backend, sha, s, steps).puts)
    decreases |steps|
  {
    if steps != [] {
      NextKeepsInv(backend, sha, s, steps[0]);
      NextKeepsWriters(backend, sha, s, steps[0]);
      NextKeepsReports(backend, sha, s, steps[0]);
      RunKeepsReports(backend, sha, Next(backend, sha, s, steps[0]), steps[1..]);
    }
  }

  /** Over every run from a store at rest: a Put that has reported success sent bytes of its digest
      and reports their length, or else, on S3 only, the length of what a mismatching Put to the same
      key had uploaded. */
  lemma EverySuccessReportsAnUpload(backend: Backend, sha: Sha256, s: State, steps: seq<Step>, id: nat)
    requires AtRest(sha, s) && s.writer == map[] && Injective(sha)
    requires var t := Run(backend, sha, s, steps); id in t.puts && t.puts[id].pc.Finished?
    ensures var t := Run(backend, sha, s, steps); ReportOk(backend, sha, t.puts, t.puts[id])
  {
    RunKeepsReports(backend, sha, s, steps);
  }

  // ---------------------------------------------------------------- one Put alone

  /** A Put whose requests meet no other call does to the bucket what the method does. */
  lemma SoloPutIsPutObject(backend: Backend, sha: Sha256, s: State, id: nat, ref: PackageRef, source: Bytes)
    requires id !in s.puts
    ensures var t := Run(backend, sha, s, Uploads(id, ref, source) + ([Check(id)] + [CleanUp(id)]));
            var (objects, r) := PutObject(sha, s.objects, ref, source, ref.digest);
            t.objects == objects && id in t.puts && t.puts[id].pc == Finished(r)
  {
    RunConcat(backend, sha, s, Uploads(id, ref, source), [Check(id)] + [CleanUp(id)]);
    UploadRun(backend, sha, s, id, ref, source);
    ThenItEnds(backend, sha, Run(backend, sha, s, Uploads(id, ref, source)), id);
    PutObjectEnds(backend, sha, s.objects, ref, source);
  }

  lemma ThenItEnds(backend: Backend, sha: Sha256, s: State, id: nat)
    ensures Run(backend, sha, s, [Check(id)] + [CleanUp(id)])
         == Next(backend, sha, Next(backend, sha, s, Check(id)), CleanUp(id))
    ensures id in s.puts && (s.puts[id].pc.Checking? || s.puts[id].pc.Deleting?) ==> Ends(backend, sha, s, id)
  {
    RunConcat(backend, sha, s, [Check(id)], [CleanUp(id)]);
    RunOne(backend, sha, s, Check(id));
    RunOne(backend, sha, Next(backend, sha, s, Check(id)), CleanUp(id));
    if id in s.puts && (s.puts[id].pc.Checking? || s.puts[id].pc.Deleting?) { LastRequests(backend, sha, s, id); }
  }

  /** How the last requests of a Put alone end it. */
  ghost predicate Ends(backend: Backend, sha: Sha256, s: State, id: nat)
    requires id in s.puts
  {
    var put, key := s.puts[id], ObjectKey(s.puts[id].ref);
    var t := Next(backend, sha, Next(backend, sha, s, Check(id)), CleanUp(id));
    && id in t.puts
    && (put.pc.Checking? ==>
          t.objects == s.objects && t.puts[id].pc == Finished(CheckResult(backend, s.objects, put)))
    && (put.pc.Deleting? ==>
          t.objects == s.objects - {key} && t.puts[id].pc == Finished(Rejected(ChecksumMismatch)))
  }

  lemma PutObjectEnds(backend: Backend, sha: Sha256, objects: map<string, Bytes>, ref: PackageRef, source: Bytes)
    ensures var key := ObjectKey(ref); var uploaded := objects[key := source];
            PutObject(sha, objects, ref, source, ref.digest)
              == if Checksum(sha, source) == ref.digest
                 then (uploaded, CheckResult(backend, uploaded, Put(ref, source, Checking)))
                 else (uploaded - {key}, Rejected(ChecksumMismatch))
  {
    assert objects[ObjectKey(ref) := source] - {ObjectKey(ref)} == objects - {ObjectKey(ref)};
  }

  lemma RunOne(backend: Backend, sha: Sha256, s: State, step: Step)
    ensures Run(backend, sha, s, [step]) == Next(backend, sha, s, step)
  {
    assert [step][1..] == [];
  }

  lemma LastRequests(backend: Backend, sha: Sha256, s: State, id: nat)
    requires id in s.puts && (s.puts[id].pc.Checking? || s.puts[id].pc.Deleting?)
    ensures Ends(backend, sha, s, id)
  {
    var a := Next(backend, sha, s, Check(id));
    if s.puts[id].pc.Checking? {
      assert a == Moved(s, id, Finished(CheckResult(backend, s.objects, s.puts[id])));
    } else {
      assert a == s;
    }
  }

  // ---------------------------------------------------------------- the other case on S3

  lemma BeginUploadRun(backend: Backend, sha: Sha256, s: State, id: nat, ref: PackageRef, source: Bytes)
    requires id !in s.puts
    ensures Run(backend, sha, s, [Begin(id, ref, source), Upload(id)])
         == State(s.objects[ObjectKey(ref) := source], s.puts[id := Put(ref, source, Uploaded)],
                  s.writer[ObjectKey(ref) := id])
  {
    var s1 := Next(backend, sha, s, Begin(id, ref, source));
    assert s1.puts[id := Put(ref, source, Uploaded)] == s.puts[id := Put(ref, source, Uploaded)];
    assert [Begin(id, ref, source), Upload(id)][1..] == [Upload(id)] && [Upload(id)][1..] == [];
    assert Run(backend, sha, s1, [Upload(id)]) == Next(backend, sha, s1, Upload(id));
  }

  /** The other case does arise: when a bad upload of the same reference comes between a good upload
      and its last request, S3 reports the length of the bad one as stored, GCS that of the good. */
  lemma S3CanReportTheOtherLength(backend: Backend, sha: Sha256, ref: PackageRef, good: Bytes, bad: Bytes)
    requires Checksum(sha, good) == ref.digest && Checksum(sha, bad) != ref.digest
    ensures var t := Run(backend, sha, State(map[], map[], map[]),
                         Uploads(0, ref, good) + ([Begin(1, ref, bad), Upload(1)] + [Check(0)]));
            && 0 in t.puts
            && t.puts[0].pc == Finished(Stored(if backend == S3 then |bad| else |good|, ObjectKey(ref)))
  {
    var s := State(map[], map[], map[]);
    var rest := [Begin(1, ref, bad), Upload(1)];
    RunConcat(backend, sha, s, Uploads(0, ref, good), rest + [Check(0)]);
    UploadRun(backend, sha, s, 0, ref, good);
    var s1 := Run(backend, sha, s, Uploads(0, ref, good));
    RunConcat(backend, sha, s1, rest, [Check(0)]);
    BeginUploadRun(backend, sha, s1, 1, ref, bad);
    var s2 := Run(backend, sha, s1, rest);
    RunOne(backend, sha, s2, Check(0));
    assert s2.puts[0] == Put(ref, good, Checking) && s2.objects[ObjectKey(ref)] == bad;
  }
}
