/** What the index answers in a run of the registry, told without looking at its tables: the
    digest that the latest insert of each version brought. */
module RegistryLookups {
  import opened Content
  import opened MetadataDb
  import opened MetadataIndex
  import opened Registry
  import LP = LocalProtocol
  import RG = RegistryGuarantees

  type Coordinates = (string, string, string)

  /** A step that runs the second statement of a publish sets the digest of its version. */
  function Noted(s: State, step: Step, latest: map<Coordinates, string>): map<Coordinates, string> {
    if step.InsertVersion? && step.id in s.requests && s.requests[step.id].Push? && s.requests[step.id].push.Inserting?
    then
      var ref := s.requests[step.id].ref;
      latest[(ref.tenant, ref.name, ref.version) := ref.digest]
    else latest
  }

  /** The digests after a run that began with these. */
  function LatestDigests(cfg: LP.Config, s: State, steps: seq<Step>, latest: map<Coordinates, string>)
    : map<Coordinates, string>
    decreases |steps|
  {
    if steps == [] then latest
    else LatestDigests(cfg, Next(cfg, s, steps[0]), steps[1..], Noted(s, steps[0], latest))
  }

  ghost predicate AgreesAt(t: Tables, latest: map<Coordinates, string>, tn: string, nm: string, v: string) {
    var row := Fetch(t, tn, nm, v);
    && (row.Some? <==> (tn, nm, v) in latest)
    && (row.Some? ==> row.value.digest == latest[(tn, nm, v)])
  }

  ghost predicate Agrees(t: Tables, latest: map<Coordinates, string>) {
    forall tn, nm, v :: AgreesAt(t, latest, tn, nm, v)
  }

  lemma UpsertKeepsAgreement(cfg: LP.Config, s: State, id: nat, now: int, latest: map<Coordinates, string>)
    requires Inv(cfg, s) && Agrees(s.tables, latest)
    requires id in s.requests && s.requests[id].Push? && s.requests[id].push.Upserting?
    ensures Agrees(Upserted(s, id, now).tables, latest)
  {
    var ref := s.requests[id].ref;
    forall tn, nm, v
      ensures AgreesAt(Upserted(s, id, now).tables, latest, tn, nm, v)
    {
      assert AgreesAt(s.tables, latest, tn, nm, v);
      FetchAfterUpsert(s.tables, ref.tenant, ref.name, now, tn, nm, v);
    }
  }

  lemma InsertAgrees(t: Tables, packageId: nat, d: Draft, now: int, latest: map<Coordinates, string>,
                     tenant: string, name: string)
    requires TablesOk(t) && Agrees(t, latest) && Owner(t.packages, packageId).Some?
    requires Owner(t.packages, packageId).value.tenant == tenant && Owner(t.packages, packageId).value.name == name
    ensures Agrees(Insert(t, packageId, d, now).0, latest[(tenant, name, d.version) := d.digest])
  {
    var t', latest' := Insert(t, packageId, d, now).0, latest[(tenant, name, d.version) := d.digest];
    forall tn, nm, v
      ensures AgreesAt(t', latest', tn, nm, v)
    {
      assert AgreesAt(t, latest, tn, nm, v);
      FetchAfterInsert(t, packageId, d, now, tn, nm, v);
    }
  }

  lemma InsertKeepsAgreement(cfg: LP.Config, s: State, id: nat, now: int, latest: map<Coordinates, string>)
    requires Inv(cfg, s) && Agrees(s.tables, latest)
    requires id in s.requests && s.requests[id].Push? && s.requests[id].push.Inserting?
    ensures Agrees(Inserted(s, id, now).tables, Noted(s, InsertVersion(id, now), latest))
  {
    var r := s.requests[id];
    assert RequestOk(cfg, s.store, s.tables.packages, id, r);
    InsertAgrees(s.tables, r.push.packageId, DraftOf(r, r.push.size, r.push.key), now,
                 latest, r.ref.tenant, r.ref.name);
  }

  lemma StartsKeepTables(cfg: LP.Config, s: State, step: Step)
    requires step.StartPublish? || step.StartManifest? || step.StartBlob? || step.StartUpload? || step.StartPull?
    ensures Next(cfg, s, step).tables == s.tables
  {
    if Next(cfg, s, step) == s { return; }
    match step
    case StartPublish(_, _, _, _, _, _, _, _, _, _) =>
    case StartManifest(_, _, _, _, _, _, _) =>
    case StartUpload(_, _) =>
    case StartBlob(_, _, _, _, _, _, _) =>
    case StartPull(_, _, _, _, _) =>
  }

  lemma StorageKeepsTables(cfg: LP.Config, s: State, step: Step)
    requires step.PutAction? || step.PutReturns? || step.StatementFails?
    ensures Next(cfg, s, step).tables == s.tables
  {
    if Next(cfg, s, step) == s { return; }
    match step
    case PutAction(_, _) =>
    case PutReturns(id) => assert AfterPut(s, id, s.store.puts[id].pc.result).tables == s.tables;
    case StatementFails(_) =>
  }

  lemma PullsKeepTables(cfg: LP.Config, s: State, step: Step)
    requires step.LookUp? || step.OpenBlob? || step.ReadBlob?
    ensures Next(cfg, s, step).tables == s.tables
  {
    if Next(cfg, s, step) == s { return; }
    match step
    case LookUp(_, _) =>
    case OpenBlob(id) => assert Opened(cfg, s, id).tables == s.tables;
    case ReadBlob(_, _) =>
  }

  lemma OtherStepsKeepTables(cfg: LP.Config, s: State, step: Step)
    requires !step.UpsertPackage? && !step.InsertVersion?
    ensures Next(cfg, s, step).tables == s.tables
  {
    if step.PutAction? || step.PutReturns? || step.StatementFails? { StorageKeepsTables(cfg, s, step); }
    else if step.LookUp? || step.OpenBlob? || step.ReadBlob? { PullsKeepTables(cfg, s, step); }
    else { StartsKeepTables(cfg, s, step); }
  }

  lemma NextKeepsAgreement(cfg: LP.Config, s: State, step: Step, latest: map<Coordinates, string>)
    requires Inv(cfg, s) && Agrees(s.tables, latest)
    ensures Agrees(Next(cfg, s, step).tables, Noted(s, step, latest))
  {
    if step.UpsertPackage? {
      if Next(cfg, s, step) != s { UpsertKeepsAgreement(cfg, s, step.id, step.now, latest); }
    } else if step.InsertVersion? {
      if step.id in s.requests && s.requests[step.id].Push? && s.requests[step.id].push.Inserting? {
        InsertKeepsAgreement(cfg, s, step.id, step.now, latest);
      }
    } else {
      OtherStepsKeepTables(cfg, s, step);
    }
  }

  lemma {:induction false} RunKeepsAgreement(cfg: LP.Config, s: State, steps: seq<Step>,
                                             latest: map<Coordinates, string>)
    requires Inv(cfg, s) && Agrees(s.tables, latest) && Disciplined(cfg, s, steps)
    ensures Inv(cfg, Run(cfg, s, steps)) && Agrees(Run(cfg, s, steps).tables, LatestDigests(cfg, s, steps, latest))
    decreases |steps|
  {
    if steps != [] {
      NextKeepsInv(cfg, s, steps[0]);
      NextKeepsAgreement(cfg, s, steps[0], latest);
      RunKeepsAgreement(cfg, Next(cfg, s, steps[0]), steps[1..], Noted(s, steps[0], latest));
    }
  }

  /** The version that was wanted, or any one whose latest digest was. */
  predicate Published(latest: map<Coordinates, string>, tenant: string, name: string, wanted: Wanted, version: string) {
    && (tenant, name, version) in latest
    && match wanted
       case ByVersion(v) => v == version
       case ByDigest(digest) => latest[(tenant, name, version)] == digest
  }

  lemma MatchesArePublished(t: Tables, latest: map<Coordinates, string>, row: Row,
                            tenant: string, name: string, wanted: Wanted)
    requires TablesOk(t) && Agrees(t, latest) && row in t.rows && Matches(t, row, tenant, name, wanted)
    ensures Published(latest, tenant, name, wanted, row.version) && row.digest == latest[(tenant, name, row.version)]
  {
    FetchFinds(t, tenant, name, row.version, row);
    assert AgreesAt(t, latest, tenant, name, row.version);
  }

  lemma PublishedAreMatches(t: Tables, latest: map<Coordinates, string>, version: string,
                            tenant: string, name: string, wanted: Wanted)
    requires TablesOk(t) && Agrees(t, latest) && Published(latest, tenant, name, wanted, version)
    ensures exists row | row in t.rows :: Matches(t, row, tenant, name, wanted)
  {
    assert AgreesAt(t, latest, tenant, name, version);
    var row := Fetch(t, tenant, name, version).value;
    FetchFinds(t, tenant, name, version, row);
    assert row in t.rows && Matches(t, row, tenant, name, wanted);
  }

  /** An answer to the lookup of a manifest that tells what was published: 404 if and only if no
      version of that tenant and name has the wanted tag, or has the wanted digest as that of its
      latest insert; otherwise a row of such a version with the digest of that insert. */
  ghost predicate Tells(pc: PullPc, latest: map<Coordinates, string>, tenant: string, name: string, wanted: Wanted) {
    && (pc == Failed(404, None) <==> forall v :: !Published(latest, tenant, name, wanted, v))
    && (pc.Opening? ==>
          && pc.row.Some? && Published(latest, tenant, name, wanted, pc.row.value.version)
          && pc.row.value.digest == latest[(tenant, name, pc.row.value.version)])
  }

  /** Whatever row the lookup may pick, its answer tells what was published, and when something
      was there is a row to pick. */
  ghost predicate LookUpTells(s: State, latest: map<Coordinates, string>, r: Request)
    requires r.Pull?
  {
    && (forall choice: nat :: Tells(LookedUp(s, r, choice), latest, r.tenant, r.name, r.wanted))
    && ((exists choice: nat :: LookedUp(s, r, choice).Opening?) <==>
        exists v :: Published(latest, r.tenant, r.name, r.wanted, v))
  }

  /** In every reachable state the lookup of a manifest tells what the run has published. */
  lemma ManifestIsFoundExactlyWhenPublished(cfg: LP.Config, s: State, steps: seq<Step>, r: Request)
    requires RG.Begins(cfg, s) && Disciplined(cfg, s, steps)
    requires r.Pull? && r.endpoint == GetManifest && r.pull == Looking
    ensures LookUpTells(Run(cfg, s, steps), LatestDigests(cfg, s, steps, map[]), r)
  {
    RunAgrees(cfg, s, steps);
    AgreementTells(Run(cfg, s, steps), LatestDigests(cfg, s, steps, map[]), r);
  }

  lemma RunAgrees(cfg: LP.Config, s: State, steps: seq<Step>)
    requires RG.Begins(cfg, s) && Disciplined(cfg, s, steps)
    ensures TablesOk(Run(cfg, s, steps).tables)
            && Agrees(Run(cfg, s, steps).tables, LatestDigests(cfg, s, steps, map[]))
  {
    RG.BeginsOk(cfg, s);
    assert Agrees(s.tables, map[]);
    RunKeepsAgreement(cfg, s, steps, map[]);
  }

  lemma AgreementTells(s: State, latest: map<Coordinates, string>, r: Request)
    requires TablesOk(s.tables) && Agrees(s.tables, latest)
    requires r.Pull? && r.endpoint == GetManifest && r.pull == Looking
    ensures LookUpTells(s, latest, r)
  {
    forall row | row in s.tables.rows && Matches(s.tables, row, r.tenant, r.name, r.wanted)
      ensures Published(latest, r.tenant, r.name, r.wanted, row.version)
      ensures row.digest == latest[(r.tenant, r.name, row.version)]
    {
      MatchesArePublished(s.tables, latest, row, r.tenant, r.name, r.wanted);
    }
    if v :| Published(latest, r.tenant, r.name, r.wanted, v) {
      PublishedAreMatches(s.tables, latest, v, r.tenant, r.name, r.wanted);
      var row :| row in s.tables.rows && Matches(s.tables, row, r.tenant, r.name, r.wanted);
      var i :| 0 <= i < |s.tables.rows| && s.tables.rows[i] == row;
      assert LookedUp(s, r, i) == Opening(Some(row));
    }
  }
}
