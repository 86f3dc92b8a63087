/** Publishes and blob uploads over whole runs of the registry: a failed one has changed nothing on
    its way, and a successful one has stored its body for good. */
module RegistryUploads {
  import opened Content
  import opened Paths
  import opened FileTree
  import opened Registry
  import opened RegistryGuarantees
  import LP = LocalProtocol
  import LG = LocalGuarantees

  // ---------------------------------------------------------------- answers stay, and have reasons

  /** The blob uploads are the same ones, as far as they were. */
  ghost predicate BlobsKept(s: State, t: State) {
    && (forall i | i in s.requests && s.requests[i].Blob? :: i in t.requests && t.requests[i] == s.requests[i])
    && (forall i | i in t.requests && t.requests[i].Blob? :: i in s.requests && s.requests[i].Blob?)
  }

  lemma PushMoves(s: State, t: State, id: nat)
    requires id in s.requests && s.requests[id].Push? && id in t.requests && t.requests[id].Push?
    requires t.requests == s.requests[id := t.requests[id]]
    ensures BlobsKept(s, t)
  {
  }

  /** Pushes and blob uploads are the same ones. */
  ghost predicate WritersKept(s: State, t: State) {
    && (forall i | i in s.requests && !s.requests[i].Pull? :: i in t.requests && t.requests[i] == s.requests[i])
    && (forall i | i in t.requests && !t.requests[i].Pull? :: i in s.requests && t.requests[i] == s.requests[i])
  }

  lemma PullMoves(s: State, t: State, id: nat)
    requires id in t.requests && t.requests[id].Pull? && (id in s.requests ==> s.requests[id].Pull?)
    requires t.requests == s.requests[id := t.requests[id]]
    ensures WritersKept(s, t)
  {
  }

  lemma OpenMovesItsRequest(cfg: LP.Config, s: State, id: nat)
    requires id in s.requests && s.requests[id].Pull? && s.requests[id].pull.Opening?
    ensures var t := Opened(cfg, s, id);
            id in t.requests && t.requests[id].Pull? && t.requests == s.requests[id := t.requests[id]]
  {
  }

  lemma PullsKeepWriters(cfg: LP.Config, s: State, step: Step)
    requires step.StartPull? || step.LookUp? || step.OpenBlob? || step.ReadBlob?
    ensures WritersKept(s, Next(cfg, s, step))
  {
    if Next(cfg, s, step) == s { return; }
    match step
    case StartPull(id, endpoint, tenant, name, wanted) =>
      PullMoves(s, s.(requests := s.requests[id := Pull(endpoint, tenant, name, wanted, Looking)]), id);
    case LookUp(id, choice) =>
      var r := s.requests[id].(pull := LookedUp(s, s.requests[id], choice));
      PullMoves(s, s.(requests := s.requests[id := r]), id);
    case OpenBlob(id) =>
      OpenMovesItsRequest(cfg, s, id);
      PullMoves(s, Opened(cfg, s, id), id);
    case ReadBlob(_, _) =>
  }

  lemma StatementsKeepBlobs(cfg: LP.Config, s: State, step: Step)
    requires step.UpsertPackage? || step.InsertVersion? || step.StatementFails? || step.StartUpload?
    ensures BlobsKept(s, Next(cfg, s, step))
  {
    if Next(cfg, s, step) == s { return; }
    match step
    case UpsertPackage(id, now) => PushMoves(s, Upserted(s, id, now), id);
    case InsertVersion(id, now) => PushMoves(s, Inserted(s, id, now), id);
    case StatementFails(id) =>
      var r := s.requests[id].(push := Replied(201));
      PushMoves(s, s.(requests := s.requests[id := r]), id);
    case StartUpload(_, _) =>
  }

  /** A publish or an upload that has been answered. */
  predicate Done(r: Request) {
    (r.Blob? && r.blob.Completed?) || (r.Push? && r.push.Replied?)
  }

  lemma StartsKeepDone(cfg: LP.Config, s: State, step: Step, id: nat)
    requires id in s.requests && Done(s.requests[id])
    requires step.StartPublish? || step.StartManifest? || step.StartBlob?
    ensures var t := Next(cfg, s, step); id in t.requests && t.requests[id] == s.requests[id]
  {
    if !Fresh(s, step.id) { return; }
    match step
    case StartPublish(_, _, _, _, _, _, _, _, _, _) =>
    case StartManifest(_, _, _, _, _, _, _) =>
    case StartBlob(_, _, _, _, _, _, _) =>
  }

  lemma ReplyKeepsDone(s: State, i: nat, result: LP.PutResult, id: nat)
    requires i in s.requests && id in s.requests && Done(s.requests[id])
    ensures var t := AfterPut(s, i, result); id in t.requests && t.requests[id] == s.requests[id]
  {
  }

  lemma StatementsKeepDone(cfg: LP.Config, s: State, step: Step, id: nat)
    requires id in s.requests && Done(s.requests[id])
    requires step.UpsertPackage? || step.InsertVersion? || step.StatementFails? || step.StartUpload?
    ensures var t := Next(cfg, s, step); id in t.requests && t.requests[id] == s.requests[id]
  {
    if Next(cfg, s, step) == s { return; }
    match step
    case UpsertPackage(_, _) =>
    case InsertVersion(_, _) =>
    case StatementFails(_) =>
    case StartUpload(_, _) =>
  }

  /** A request that has been answered is never touched again. */
  lemma NextKeepsDone(cfg: LP.Config, s: State, step: Step, id: nat)
    requires id in s.requests && Done(s.requests[id])
    ensures var t := Next(cfg, s, step); id in t.requests && t.requests[id] == s.requests[id]
  {
    if Next(cfg, s, step) == s { return; }
    if step.StartPublish? || step.StartManifest? || step.StartBlob? { StartsKeepDone(cfg, s, step, id); }
    else if step.StartPull? || step.LookUp? || step.OpenBlob? || step.ReadBlob? { PullsKeepWriters(cfg, s, step); }
    else if step.PutReturns? { ReplyKeepsDone(s, step.id, s.store.puts[step.id].pc.result, id); }
    else if !step.PutAction? { StatementsKeepDone(cfg, s, step, id); }
  }

  lemma {:induction false} RunKeepsDone(cfg: LP.Config, s: State, steps: seq<Step>, id: nat)
    requires id in s.requests && Done(s.requests[id])
    ensures var t := Run(cfg, s, steps); id in t.requests && t.requests[id] == s.requests[id]
    decreases |steps|
  {
    if steps != [] {
      NextKeepsDone(cfg, s, steps[0], id);
      RunKeepsDone(cfg, Next(cfg, s, steps[0]), steps[1..], id);
    }
  }

  lemma {:induction false} RunKeepsSuccess(cfg: LP.Config, s: State, steps: seq<Step>, i: nat)
    requires i in s.store.puts && Succeeded(s.store.puts[i])
    ensures var t := Run(cfg, s, steps); i in t.store.puts && Succeeded(t.store.puts[i])
    decreases |steps|
  {
    if steps != [] {
      SuccessPersists(cfg, s, steps[0], i);
      RunKeepsSuccess(cfg, Next(cfg, s, steps[0]), steps[1..], i);
    }
  }

  /** The answer of a request is that of its Put; an upload without a Put is answered 400, and a
      publish goes on to its statements when its bytes are stored. */
  ghost predicate AnswerOk(puts: map<nat, LP.Put>, id: nat, r: Request) {
    && (r.Blob? && r.blob.Completed? ==>
          || (r.blob.status == 201 && id in puts && puts[id].pc.Finished? && puts[id].pc.result.Stored?)
          || (r.blob.status == 500 && id in puts && puts[id].pc.Finished? && puts[id].pc.result.Rejected?)
          || (r.blob.status == 400 && id !in puts))
    && (r.Push? && !r.push.Storing? ==>
          && id in puts && puts[id].pc.Finished?
          && (r.push == Replied(500) <==> puts[id].pc.result.Rejected?)
          && (r.push.Replied? ==> r.push.status == 201 || r.push.status == 500))
  }

  ghost predicate AnswersOk(s: State) {
    forall i | i in s.requests :: AnswerOk(s.store.puts, i, s.requests[i])
  }

  lemma BeginKeepsAnswers(cfg: LP.Config, s: State, id: nat, r: Request, ref: PackageRef, body: Bytes, stamp: Stamp)
    requires AnswersOk(s) && Fresh(s, id)
    requires (r.Push? && r.push.Storing?) || (r.Blob? && r.blob.Uploading?)
    ensures AnswersOk(Begin(cfg, s, id, r, ref, body, stamp))
  {
    var t := Begin(cfg, s, id, r, ref, body, stamp);
    forall i | i in t.requests
      ensures AnswerOk(t.store.puts, i, t.requests[i])
    {
      if i != id { assert AnswerOk(s.store.puts, i, s.requests[i]); }
    }
  }

  lemma RefusalKeepsAnswers(s: State, id: nat, r: Request)
    requires AnswersOk(s) && Fresh(s, id) && r.Blob? && r.blob == Completed(400)
    ensures AnswersOk(s.(requests := s.requests[id := r]))
  {
  }

  lemma StartsKeepAnswers(cfg: LP.Config, s: State, step: Step)
    requires AnswersOk(s) && (step.StartPublish? || step.StartManifest? || step.StartBlob?)
    ensures AnswersOk(Next(cfg, s, step))
  {
    if !Fresh(s, step.id) { return; }
    match step
    case StartPublish(id, tenant, name, version, digest, clock, body, publishedBy, manifest, stamp) =>
      var ref := PublishRef(tenant, name, version, digest, clock);
      BeginKeepsAnswers(cfg, s, id, Push(Publish, ref, body, publishedBy, manifest, Storing), ref, body, stamp);
    case StartManifest(id, tenant, name, tag, clock, body, stamp) =>
      var ref := ManifestRef(tenant, name, tag, clock);
      BeginKeepsAnswers(cfg, s, id, Push(PutManifest, ref, body, "oci-push", Some(body), Storing), ref, body, stamp);
    case StartBlob(id, tenant, name, uuid, digest, body, stamp) =>
      var ref := BlobRef(tenant, name, digest);
      if digest == "" || body == [] { RefusalKeepsAnswers(s, id, Blob(ref, uuid, body, Completed(400))); }
      else { BeginKeepsAnswers(cfg, s, id, Blob(ref, uuid, body, Uploading), ref, body, stamp); }
  }

  lemma PutKeepsAnswers(cfg: LP.Config, s: State, id: nat, action: LP.Action)
    requires AnswersOk(s) && id in s.store.puts
    ensures AnswersOk(Next(cfg, s, PutAction(id, action)))
  {
    if s.store.puts[id].pc.Finished? { LP.FinishedIsIdle(cfg, s.store.fs, s.store.puts[id], action); }
    var r := LP.PutNext(cfg, s.store.fs, s.store.puts[id], action);
    forall i | i in s.requests
      ensures AnswerOk(LP.Moved(s.store, id, r).puts, i, s.requests[i])
    {
      assert AnswerOk(s.store.puts, i, s.requests[i]);
    }
  }

  lemma ReplyKeepsAnswers(s: State, id: nat)
    requires AnswersOk(s) && id in s.requests && id in s.store.puts && s.store.puts[id].pc.Finished?
    ensures AnswersOk(AfterPut(s, id, s.store.puts[id].pc.result))
  {
    var t := AfterPut(s, id, s.store.puts[id].pc.result);
    forall i | i in t.requests
      ensures AnswerOk(t.store.puts, i, t.requests[i])
    {
      assert AnswerOk(s.store.puts, i, s.requests[i]);
    }
  }

  /** Steps that leave Puts, pushes and blob uploads alone. */
  lemma KeptWritersKeepAnswers(s: State, t: State)
    requires AnswersOk(s) && t.store.puts == s.store.puts && WritersKept(s, t)
    ensures AnswersOk(t)
  {
    forall i | i in t.requests
      ensures AnswerOk(t.store.puts, i, t.requests[i])
    {
      if !t.requests[i].Pull? { assert AnswerOk(s.store.puts, i, s.requests[i]); }
    }
  }

  /** A publish whose bytes are stored moves on. */
  lemma MovingOnKeepsAnswers(s: State, t: State, id: nat)
    requires AnswersOk(s) && t.store.puts == s.store.puts
    requires id in s.requests && s.requests[id].Push?
    requires s.requests[id].push.Upserting? || s.requests[id].push.Inserting?
    requires id in t.requests && t.requests[id].Push?
    requires t.requests[id].push.Inserting? || t.requests[id].push == Replied(201)
    requires t.requests == s.requests[id := t.requests[id]]
    ensures AnswersOk(t)
  {
    forall i | i in t.requests
      ensures AnswerOk(t.store.puts, i, t.requests[i])
    {
      assert AnswerOk(s.store.puts, i, s.requests[i]);
    }
  }

  lemma StatementsKeepAnswers(cfg: LP.Config, s: State, step: Step)
    requires AnswersOk(s) && (step.UpsertPackage? || step.InsertVersion? || step.StatementFails?)
    ensures AnswersOk(Next(cfg, s, step))
  {
    if Next(cfg, s, step) == s { return; }
    RepliesDisturbNothing(cfg, s, step);
    match step
    case UpsertPackage(id, now) => MovingOnKeepsAnswers(s, Upserted(s, id, now), id);
    case InsertVersion(id, now) => MovingOnKeepsAnswers(s, Inserted(s, id, now), id);
    case StatementFails(id) =>
      var r := s.requests[id].(push := Replied(201));
      MovingOnKeepsAnswers(s, s.(requests := s.requests[id := r]), id);
  }

  lemma NextKeepsAnswers(cfg: LP.Config, s: State, step: Step)
    requires AnswersOk(s)
    ensures AnswersOk(Next(cfg, s, step))
  {
    if Next(cfg, s, step) == s { return; }
    if step.PutAction? { PutKeepsAnswers(cfg, s, step.id, step.action); }
    else if step.PutReturns? { ReplyKeepsAnswers(s, step.id); }
    else if step.StartPublish? || step.StartManifest? || step.StartBlob? { StartsKeepAnswers(cfg, s, step); }
    else if step.StartPull? || step.LookUp? || step.OpenBlob? || step.ReadBlob? {
      PullsKeepWriters(cfg, s, step);
      PullsDisturbNothing(cfg, s, step);
      KeptWritersKeepAnswers(s, Next(cfg, s, step));
    }
    else if !step.StartUpload? { StatementsKeepAnswers(cfg, s, step); }
  }

  lemma {:induction false} RunKeepsAnswers(cfg: LP.Config, s: State, steps: seq<Step>)
    requires AnswersOk(s)
    ensures AnswersOk(Run(cfg, s, steps))
    decreases |steps|
  {
    if steps != [] {
      NextKeepsAnswers(cfg, s, steps[0]);
      RunKeepsAnswers(cfg, Next(cfg, s, steps[0]), steps[1..]);
    }
  }

  // ---------------------------------------------------------------- failed requests

  /** The steps that a publish or an upload takes itself. */
  predicate OwnStep(step: Step, id: nat) {
    && (step.StartPublish? || step.StartManifest? || step.StartBlob? || step.PutAction? || step.PutReturns?
        || step.UpsertPackage? || step.InsertVersion? || step.StatementFails?)
    && step.id == id
  }

  /** Answered, and not with 201. */
  predicate Failed(s: State, id: nat) {
    && id in s.requests && Done(s.requests[id])
    && (if s.requests[id].Blob? then s.requests[id].blob.status else s.requests[id].push.status) != 201
  }

  /** No committed file, no session and no table changes. */
  ghost predicate NothingChanges(s: State, t: State) {
    && t.sessions == s.sessions && t.tables == s.tables
    && forall p | Committed(p) :: LG.Unchanged(s.store.fs, t.store.fs, p)
  }

  /** Nothing has changed at any of the request's own steps in a run. */
  ghost predicate HasChangedNothing(cfg: LP.Config, s: State, steps: seq<Step>, id: nat)
    decreases |steps|
  {
    steps != [] ==>
      && (OwnStep(steps[0], id) ==> NothingChanges(s, Next(cfg, s, steps[0])))
      && HasChangedNothing(cfg, Next(cfg, s, steps[0]), steps[1..], id)
  }

  lemma StartChangesNothing(cfg: LP.Config, s: State, step: Step)
    requires step.StartPublish? || step.StartManifest? || step.StartBlob?
    ensures NothingChanges(s, Next(cfg, s, step))
  {
    StartsDisturbNothing(cfg, s, step);
    if !Fresh(s, step.id) { return; }
    match step
    case StartPublish(_, _, _, _, _, _, _, _, _, _) =>
    case StartManifest(_, _, _, _, _, _, _) =>
    case StartBlob(_, _, _, _, _, _, _) =>
  }

  /** A statement changes nothing unless the bytes of its publish are stored. */
  lemma StatementChangesNothing(cfg: LP.Config, s: State, step: Step)
    requires AnswersOk(s) && (step.UpsertPackage? || step.InsertVersion? || step.StatementFails?)
    ensures NothingChanges(s, Next(cfg, s, step)) || (step.id in s.store.puts && Succeeded(s.store.puts[step.id]))
  {
    if Next(cfg, s, step) == s { return; }
    assert AnswerOk(s.store.puts, step.id, s.requests[step.id]);
  }

  /** A reply either changes nothing or is a 201. */
  lemma ReplyChangesNothing(cfg: LP.Config, s: State, id: nat)
    ensures NothingChanges(s, Next(cfg, s, PutReturns(id))) || Answered(Next(cfg, s, PutReturns(id)), id, 201)
  {
    if Next(cfg, s, PutReturns(id)) == s { return; }
    var r, result := s.requests[id], s.store.puts[id].pc.result;
    if r.Blob? && r.blob == Uploading { CompletionEffect(s, id, result); }
  }

  /** A system call either changes nothing or is the commit of a Put that has succeeded by then. */
  lemma PutActionChangesNothing(cfg: LP.Config, s: State, id: nat, action: LP.Action, r: (Fs, LP.PutPc))
    requires TreeOk(s.store.fs) && InodesOk(s.store.fs)
    requires id in s.store.puts && LP.PutOk(cfg, s.store.fs, s.store.puts[id])
    requires r == LP.PutNext(cfg, s.store.fs, s.store.puts[id], action)
    ensures var t := s.(store := LP.Moved(s.store, id, r));
            NothingChanges(s, t) || (id in t.store.puts && Succeeded(t.store.puts[id]))
  {
    var put := s.store.puts[id];
    if !Succeeded(put.(pc := r.1)) { RejectedActionLeavesFiles(cfg, s.store.fs, put, action); }
    MoveChangesNothing(s, id, r);
  }

  lemma MoveChangesNothing(s: State, id: nat, r: (Fs, LP.PutPc))
    requires id in s.store.puts
    requires !Succeeded(s.store.puts[id].(pc := r.1)) ==> forall p | Committed(p) :: LG.Unchanged(s.store.fs, r.0, p)
    ensures var t := s.(store := LP.Moved(s.store, id, r));
            NothingChanges(s, t) || (id in t.store.puts && Succeeded(t.store.puts[id]))
  {
  }

  lemma RejectedActionLeavesFiles(cfg: LP.Config, fs: Fs, put: LP.Put, action: LP.Action)
    requires TreeOk(fs) && InodesOk(fs) && LP.PutOk(cfg, fs, put)
    requires !Succeeded(put.(pc := LP.PutNext(cfg, fs, put, action).1))
    ensures forall p | Committed(p) :: LG.Unchanged(fs, LP.PutNext(cfg, fs, put, action).0, p)
  {
    forall p | Committed(p)
      ensures LG.Unchanged(fs, LP.PutNext(cfg, fs, put, action).0, p)
    {
      ActionCommitsOrLeaves(cfg, fs, put, action, p);
    }
  }

  /** A request whose Put has succeeded does not fail. */
  lemma SuccessIsNoFailure(cfg: LP.Config, s: State, rest: seq<Step>, id: nat)
    requires id in s.store.puts && Succeeded(s.store.puts[id]) && AnswersOk(Run(cfg, s, rest))
    ensures !Failed(Run(cfg, s, rest), id)
  {
    RunKeepsSuccess(cfg, s, rest, id);
    var t := Run(cfg, s, rest);
    if id in t.requests { assert AnswerOk(t.store.puts, id, t.requests[id]); }
  }

  /** At an own step that changes something the request is bound to be answered 201. */
  lemma OwnStepChangesNothing(cfg: LP.Config, s: State, step: Step, rest: seq<Step>, id: nat)
    requires Inv(cfg, s) && AnswersOk(s) && OwnStep(step, id)
    requires AnswersOk(Run(cfg, Next(cfg, s, step), rest)) && Failed(Run(cfg, Next(cfg, s, step), rest), id)
    ensures NothingChanges(s, Next(cfg, s, step))
  {
    var n := Next(cfg, s, step);
    if id in n.store.puts && Succeeded(n.store.puts[id]) { SuccessIsNoFailure(cfg, n, rest, id); }
    match step
    case PutReturns(_) =>
      ReplyChangesNothing(cfg, s, id);
      if Answered(n, id, 201) { RunKeepsDone(cfg, n, rest, id); }
    case PutAction(_, action) =>
      if id in s.store.puts {
        assert LP.PutOk(cfg, s.store.fs, s.store.puts[id]);
        PutActionChangesNothing(cfg, s, id, action, LP.PutNext(cfg, s.store.fs, s.store.puts[id], action));
      }
    case _ =>
      if step.StartPublish? || step.StartManifest? || step.StartBlob? { StartChangesNothing(cfg, s, step); }
      else { RepliesDisturbNothing(cfg, s, step); StatementChangesNothing(cfg, s, step); }
  }

  lemma {:induction false} FailedRequestHasChangedNothing(cfg: LP.Config, s: State, steps: seq<Step>, id: nat)
    requires Inv(cfg, s) && AnswersOk(s) && Disciplined(cfg, s, steps) && Failed(Run(cfg, s, steps), id)
    ensures HasChangedNothing(cfg, s, steps, id)
    decreases |steps|
  {
    if steps != [] {
      NextKeepsInv(cfg, s, steps[0]);
      NextKeepsAnswers(cfg, s, steps[0]);
      RunKeepsAnswers(cfg, s, steps);
      if OwnStep(steps[0], id) { OwnStepChangesNothing(cfg, s, steps[0], steps[1..], id); }
      FailedRequestHasChangedNothing(cfg, Next(cfg, s, steps[0]), steps[1..], id);
    }
  }

  // ---------------------------------------------------------------- successful uploads

  /** At one moment of a run the upload is answered 201, and at that its session is closed, no
      other, while files and tables stay. */
  ghost predicate ClosesItsSession(cfg: LP.Config, s: State, steps: seq<Step>, id: nat, uuid: string)
    decreases |steps|
  {
    && steps != []
    && var n := Next(cfg, s, steps[0]);
       || (&& steps[0] == PutReturns(id) && !Answered(s, id, 201) && Answered(n, id, 201)
           && n.sessions == s.sessions - {uuid} && n.store == s.store && n.tables == s.tables)
       || ClosesItsSession(cfg, n, steps[1..], id, uuid)
  }

  lemma StartsAnswerNo201(cfg: LP.Config, s: State, step: Step, id: nat)
    requires !Answered(s, id, 201) && (step.StartPublish? || step.StartManifest? || step.StartBlob?)
    ensures !Answered(Next(cfg, s, step), id, 201)
  {
    if !Fresh(s, step.id) { return; }
    match step
    case StartPublish(_, _, _, _, _, _, _, _, _, _) =>
    case StartManifest(_, _, _, _, _, _, _) =>
    case StartBlob(_, _, _, _, _, _, _) =>
  }

  lemma ReplyClosesItsSession(s: State, i: nat, result: LP.PutResult, id: nat)
    requires i in s.requests && !Answered(s, id, 201) && Answered(AfterPut(s, i, result), id, 201)
    ensures var t := AfterPut(s, i, result);
            i == id && t.sessions == s.sessions - {t.requests[id].uuid} && t.store == s.store && t.tables == s.tables
  {
  }

  /** Only the return of its own Put answers an upload 201. */
  lemma OnlyReturnsAnswer201(cfg: LP.Config, s: State, step: Step, id: nat)
    requires !Answered(s, id, 201) && Answered(Next(cfg, s, step), id, 201)
    ensures var t := Next(cfg, s, step);
            && step == PutReturns(id) && t.sessions == s.sessions - {t.requests[id].uuid}
            && t.store == s.store && t.tables == s.tables
  {
    if step.StartPublish? || step.StartManifest? || step.StartBlob? { StartsAnswerNo201(cfg, s, step, id); }
    else if step.StartPull? || step.LookUp? || step.OpenBlob? || step.ReadBlob? { PullsKeepWriters(cfg, s, step); }
    else if step.PutReturns? { ReplyClosesItsSession(s, step.id, s.store.puts[step.id].pc.result, id); }
    else if !step.PutAction? { StatementsKeepBlobs(cfg, s, step); }
  }

  lemma {:induction false} SuccessHasClosedItsSession(cfg: LP.Config, s: State, steps: seq<Step>, id: nat)
    requires !Answered(s, id, 201) && Answered(Run(cfg, s, steps), id, 201)
    ensures ClosesItsSession(cfg, s, steps, id, Run(cfg, s, steps).requests[id].uuid)
    decreases |steps|
  {
    if steps != [] {
      var n := Next(cfg, s, steps[0]);
      if Answered(n, id, 201) {
        OnlyReturnsAnswer201(cfg, s, steps[0], id);
        RunKeepsDone(cfg, n, steps[1..], id);
      } else {
        SuccessHasClosedItsSession(cfg, n, steps[1..], id);
      }
    }
  }

  lemma SuccessIsStored(cfg: LP.Config, s: State, id: nat)
    requires Inv(cfg, s) && AnswersOk(s) && Answered(s, id, 201)
    ensures var r := s.requests[id]; var path := FullPath(cfg.root, r.ref);
            && r.ref.digest == Checksum(cfg.sha, r.body)
            && path in s.store.fs.files && cfg.sha(ContentAt(s.store.fs, path)) == cfg.sha(r.body)
  {
    assert AnswerOk(s.store.puts, id, s.requests[id]);
    assert RequestOk(cfg, s.store, s.tables.packages, id, s.requests[id]);
    StoredBlobIsThere(cfg, s.store, id);
  }

  /** Over every run from a registry's beginning: an upload that has been answered with an error
      changed no committed file, no session and no table at any of its steps; one that has been
      answered 201 closed its own session and no other, and its body is what is stored. */
  lemma BlobCompletionIsAllOrNothing(cfg: LP.Config, s: State, steps: seq<Step>, id: nat)
    requires Begins(cfg, s) && Disciplined(cfg, s, steps)
    requires var t := Run(cfg, s, steps); id in t.requests && t.requests[id].Blob? && t.requests[id].blob.Completed?
    ensures var t := Run(cfg, s, steps); var r := t.requests[id]; var path := FullPath(cfg.root, r.ref);
            && (!Answered(t, id, 201) ==> HasChangedNothing(cfg, s, steps, id))
            && (Answered(t, id, 201) ==>
                  && ClosesItsSession(cfg, s, steps, id, r.uuid)
                  && r.ref.digest == Checksum(cfg.sha, r.body) && path in t.store.fs.files
                  && cfg.sha(ContentAt(t.store.fs, path)) == cfg.sha(r.body)
                  && (Injective(cfg.sha) ==> ContentAt(t.store.fs, path) == r.body))
  {
    BeginsOk(cfg, s);
    RunKeepsInv(cfg, s, steps);
    RunKeepsAnswers(cfg, s, steps);
    if Answered(Run(cfg, s, steps), id, 201) {
      SuccessHasClosedItsSession(cfg, s, steps, id);
      SuccessIsStored(cfg, Run(cfg, s, steps), id);
    } else {
      FailedRequestHasChangedNothing(cfg, s, steps, id);
    }
  }

  // ---------------------------------------------------------------- publishes

  lemma PublishIsStored(cfg: LP.Config, s: State, id: nat)
    requires Inv(cfg, s) && AnswersOk(s) && id in s.requests && s.requests[id].Push?
    requires s.requests[id].push == Replied(201)
    ensures var r := s.requests[id]; var path := FullPath(cfg.root, r.ref);
            && r.ref.digest == Checksum(cfg.sha, r.body)
            && path in s.store.fs.files && cfg.sha(ContentAt(s.store.fs, path)) == cfg.sha(r.body)
  {
    assert AnswerOk(s.store.puts, id, s.requests[id]);
    assert RequestOk(cfg, s.store, s.tables.packages, id, s.requests[id]);
    StoredBlobIsThere(cfg, s.store, id);
  }

  /** Over every run from a registry's beginning, and however it goes on: a publish that has been
      answered keeps its answer, which is 201 or 500. After a 500 no committed file, no session and
      no table has changed at any of its steps. After a 201 the digest it stated is that of its body
      and the file of that digest is there for good, whatever became of the two statements. */
  lemma PublishIsAllOrNothing(cfg: LP.Config, s: State, steps: seq<Step>, more: seq<Step>, id: nat)
    requires Begins(cfg, s) && Disciplined(cfg, s, steps + more)
    requires var t := Run(cfg, s, steps); id in t.requests && t.requests[id].Push? && t.requests[id].push.Replied?
    ensures var r := Run(cfg, s, steps).requests[id];
            var u := Run(cfg, s, steps + more); var path := FullPath(cfg.root, r.ref);
            && id in u.requests && u.requests[id] == r
            && (r.push == Replied(201) || r.push == Replied(500))
            && (r.push == Replied(500) ==> HasChangedNothing(cfg, s, steps + more, id))
            && (r.push == Replied(201) ==>
                  && r.ref.digest == Checksum(cfg.sha, r.body) && path in u.store.fs.files
                  && cfg.sha(ContentAt(u.store.fs, path)) == cfg.sha(r.body)
                  && (Injective(cfg.sha) ==> ContentAt(u.store.fs, path) == r.body))
  {
    BeginsOk(cfg, s);
    RunConcat(cfg, s, steps, more);
    RunKeepsDone(cfg, Run(cfg, s, steps), more, id);
    RunKeepsInv(cfg, s, steps + more);
    RunKeepsAnswers(cfg, s, steps + more);
    var u := Run(cfg, s, steps + more);
    assert AnswerOk(u.store.puts, id, u.requests[id]);
    if u.requests[id].push == Replied(201) { PublishIsStored(cfg, u, id); }
    else { FailedRequestHasChangedNothing(cfg, s, steps + more, id); }
  }

  // ---------------------------------------------------------------- sessions

  lemma {:induction false} VanishedSessionWasCompleted(cfg: LP.Config, s: State, steps: seq<Step>, uuid: string)
      returns (id: nat)
    requires uuid in s.sessions && uuid !in Run(cfg, s, steps).sessions
    ensures var t := Run(cfg, s, steps); !Answered(s, id, 201) && Answered(t, id, 201) && t.requests[id].uuid == uuid
    decreases |steps|
  {
    var n := Next(cfg, s, steps[0]);
    if uuid !in n.sessions {
      id := steps[0].id;
      OnlySuccessClosesASession(cfg, s, steps[0], uuid);
      RunKeepsDone(cfg, n, steps[1..], id);
    } else {
      id := VanishedSessionWasCompleted(cfg, n, steps[1..], uuid);
      if Answered(s, id, 201) { NextKeepsDone(cfg, s, steps[0], id); }
    }
  }

  /** A session that is open at some moment of a run and gone later was closed by an upload that was
      answered 201 in between, and what that upload sent is stored. */
  lemma ClosedSessionsLeaveTheirBlob(cfg: LP.Config, s: State, steps: seq<Step>, more: seq<Step>, uuid: string)
    requires Begins(cfg, s) && Disciplined(cfg, s, steps + more)
    requires uuid in Run(cfg, s, steps).sessions && uuid !in Run(cfg, s, steps + more).sessions
    ensures var t := Run(cfg, s, steps + more);
            exists id :: && !Answered(Run(cfg, s, steps), id, 201) && Answered(t, id, 201)
                         && t.requests[id].uuid == uuid
                         && FullPath(cfg.root, t.requests[id].ref) in t.store.fs.files
                         && t.requests[id].ref.digest == Checksum(cfg.sha, t.requests[id].body)
                         && cfg.sha(ContentAt(t.store.fs, FullPath(cfg.root, t.requests[id].ref)))
                         == cfg.sha(t.requests[id].body)
  {
    BeginsOk(cfg, s);
    RunConcat(cfg, s, steps, more);
    RunKeepsInv(cfg, s, steps + more);
    RunKeepsAnswers(cfg, s, steps + more);
    var id := VanishedSessionWasCompleted(cfg, Run(cfg, s, steps), more, uuid);
    SuccessIsStored(cfg, Run(cfg, s, steps + more), id);
  }
}
