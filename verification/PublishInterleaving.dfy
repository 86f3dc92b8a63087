/** Publishing runs two statements with no transaction around them. Interleaved publishes still
    act like one map that is written at the second statement. */
module PublishInterleaving {
  import opened MetadataDb
  import opened MetadataIndex

  type Coordinates = (string, string, string)

  datatype Pc = Upserting | Inserting(packageId: nat) | Finished
  datatype Publisher = Publisher(tenant: string, name: string, draft: Draft, pc: Pc)

  /** The tables and the publishers, and what an observer of the statements writes down: the
      information of the latest draft, the next row id and the time at the first insert of some
      coordinates, and the id that each package was first given. */
  datatype State = State(tables: Tables, publishers: map<nat, Publisher>,
                         latest: map<Coordinates, Info>, first: map<Coordinates, (nat, int)>,
                         packageIds: map<(string, string), nat>)

  datatype Step =
    | Begin(id: nat, tenant: string, name: string, draft: Draft)
    | UpsertPackage(id: nat, now: int)
    | InsertVersion(id: nat, now: int)
    | GiveUp(id: nat)

  function Recorded<K, V>(m: map<K, V>, k: K, v: V): map<K, V> {
    if k in m then m else m[k := v]
  }

  function AfterUpsert(s: State, id: nat, now: int): State
    requires id in s.publishers
  {
    var p := s.publishers[id];
    var (t, packageId) := Upsert(s.tables, p.tenant, p.name, now);
    s.(tables := t, publishers := s.publishers[id := p.(pc := Inserting(packageId))],
       packageIds := Recorded(s.packageIds, (p.tenant, p.name), packageId))
  }

  function AfterInsert(s: State, id: nat, now: int): State
    requires id in s.publishers && s.publishers[id].pc.Inserting?
  {
    var p := s.publishers[id];
    var c := (p.tenant, p.name, p.draft.version);
    var (t, row) := Insert(s.tables, p.pc.packageId, p.draft, now);
    var s' := s.(tables := t, publishers := s.publishers[id := p.(pc := Finished)]);
    if row.None? then s'
    else s'.(latest := s.latest[c := Info(p.name, p.draft.version, p.draft.digest,
                                          p.draft.sizeBytes, p.draft.publishedBy)],
             first := Recorded(s.first, c, (s.tables.nextRow, now)))
  }

  function Next(s: State, step: Step): State {
    match step
    case Begin(id, tenant, name, draft) =>
      if id in s.publishers then s
      else s.(publishers := s.publishers[id := Publisher(tenant, name, draft, Upserting)])
    case UpsertPackage(id, now) =>
      if id in s.publishers && s.publishers[id].pc.Upserting? then AfterUpsert(s, id, now) else s
    case InsertVersion(id, now) =>
      if id in s.publishers && s.publishers[id].pc.Inserting? then AfterInsert(s, id, now) else s
    case GiveUp(id) =>
      if id in s.publishers then s.(publishers := s.publishers[id := s.publishers[id].(pc := Finished)]) else s
  }

  function Run(s: State, steps: seq<Step>): State
    decreases |steps|
  {
    if steps == [] then s else Run(Next(s, steps[0]), steps[1..])
  }

  /** The tables answer for these coordinates what the observer wrote down. */
  ghost predicate Answers(s: State, tn: string, nm: string, v: string) {
    var row := Fetch(s.tables, tn, nm, v);
    var c := (tn, nm, v);
    && (row.Some? <==> c in s.latest) && (c in s.latest <==> c in s.first)
    && (row.Some? ==> s.latest[c] == InfoOf(nm, row.value) && s.first[c] == (row.value.id, row.value.createdAt))
  }

  ghost predicate Names(packages: seq<Package>, id: nat, tenant: string, name: string) {
    var p := Owner(packages, id);
    p.Some? && p.value.tenant == tenant && p.value.name == name
  }

  ghost predicate Inv(s: State) {
    && TablesOk(s.tables)
    && (forall tn, nm, v :: Answers(s, tn, nm, v))
    && (forall i | i in s.publishers && s.publishers[i].pc.Inserting? ::
          Names(s.tables.packages, s.publishers[i].pc.packageId, s.publishers[i].tenant, s.publishers[i].name))
    && (forall k | k in s.packageIds :: Names(s.tables.packages, s.packageIds[k], k.0, k.1))
  }

  lemma UpsertKeepsInv(s: State, id: nat, now: int)
    requires Inv(s) && id in s.publishers
    ensures Inv(AfterUpsert(s, id, now))
  {
    var p := s.publishers[id];
    UpsertKeepsTables(s.tables, p.tenant, p.name, now);
    var t := AfterUpsert(s, id, now);
    forall tn, nm, v
      ensures Answers(t, tn, nm, v)
    {
      assert Answers(s, tn, nm, v);
      FetchAfterUpsert(s.tables, p.tenant, p.name, now, tn, nm, v);
    }
  }

  lemma InsertKeepsInv(s: State, id: nat, now: int)
    requires Inv(s) && id in s.publishers && s.publishers[id].pc.Inserting?
    ensures Inv(AfterInsert(s, id, now))
  {
    var p := s.publishers[id];
    InsertKeepsTables(s.tables, p.pc.packageId, p.draft, now);
    var t := AfterInsert(s, id, now);
    assert Names(s.tables.packages, p.pc.packageId, p.tenant, p.name);
    assert Answers(s, p.tenant, p.name, p.draft.version);
    forall tn, nm, v
      ensures Answers(t, tn, nm, v)
    {
      assert Answers(s, tn, nm, v);
      FetchAfterInsert(s.tables, p.pc.packageId, p.draft, now, tn, nm, v);
    }
  }

  lemma {:induction false} RunKeepsInv(s: State, steps: seq<Step>)
    requires Inv(s)
    ensures Inv(Run(s, steps))
    decreases |steps|
  {
    if steps != [] {
      var t := Next(s, steps[0]);
      if t != s {
        match steps[0]
        case UpsertPackage(id, now) => UpsertKeepsInv(s, id, now);
        case InsertVersion(id, now) => InsertKeepsInv(s, id, now);
        case _ =>
          forall tn, nm, v ensures Answers(t, tn, nm, v) { assert Answers(s, tn, nm, v); }
      }
      RunKeepsInv(t, steps[1..]);
    }
  }

  const EMPTY: Tables := Tables([], [], 1, 1)

  /** Whatever the interleaving, the constraints hold, every lookup gives the information of the
      latest InsertVersion of its coordinates, and each row keeps the id and the creation time of
      its first one. */
  lemma InterleavedPublishesLinearise(steps: seq<Step>, tn: string, nm: string, v: string)
    ensures var s := Run(State(EMPTY, map[], map[], map[], map[]), steps);
            var row := Fetch(s.tables, tn, nm, v); var c := (tn, nm, v);
            && TablesOk(s.tables)
            && (row.Some? <==> c in s.latest)
            && (row.Some? ==> InfoOf(nm, row.value) == s.latest[c])
            && (row.Some? ==> c in s.first && s.first[c] == (row.value.id, row.value.createdAt))
  {
    var s := State(EMPTY, map[], map[], map[], map[]);
    assert forall a, b, c :: Answers(s, a, b, c);
    RunKeepsInv(s, steps);
    assert Answers(Run(s, steps), tn, nm, v);
  }

  /** However often a package is published, it keeps the id that the first publisher was given. */
  lemma PackageIdsAreStable(steps: seq<Step>, id: nat, now: int)
    requires var s := Run(State(EMPTY, map[], map[], map[], map[]), steps); id in s.publishers
    ensures var s := Run(State(EMPTY, map[], map[], map[], map[]), steps); var p := s.publishers[id];
            (p.tenant, p.name) in s.packageIds ==>
              Upsert(s.tables, p.tenant, p.name, now).1 == s.packageIds[(p.tenant, p.name)]
  {
    var e := State(EMPTY, map[], map[], map[], map[]);
    assert forall a, b, c :: Answers(e, a, b, c);
    RunKeepsInv(e, steps);
    var s := Run(e, steps);
    var p := s.publishers[id];
    if (p.tenant, p.name) in s.packageIds {
      UpsertReturnsTheOwner(s.tables, p.tenant, p.name, now, s.packageIds[(p.tenant, p.name)]);
    }
  }

  lemma UpsertReturnsTheOwner(t: Tables, tenant: string, name: string, now: int, id: nat)
    requires TablesOk(t) && Names(t.packages, id, tenant, name)
    ensures Upsert(t, tenant, name, now).1 == id
  {
    var p := Owner(t.packages, id).value;
    var i :| 0 <= i < |t.packages| && t.packages[i] == p;
    assert FindPackage(t, tenant, name).Some?;
  }
}
