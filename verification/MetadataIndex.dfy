/** What the tables keep: their constraints, the effect of a publish on every lookup, and the
    agreement of interleaved publishes with one map. */
module MetadataIndex {
  import opened Content
  import opened MetadataDb

  // ---------------------------------------------------------------- constraints

  ghost predicate PackagesOk(ps: seq<Package>, next: nat) {
    && (forall i | 0 <= i < |ps| :: ps[i].id < next)
    && (forall i, j | 0 <= i < j < |ps| :: ps[i].id != ps[j].id)
    && (forall i, j | 0 <= i < j < |ps| :: ps[i].tenant != ps[j].tenant || ps[i].name != ps[j].name)
  }

  ghost predicate RowsOk(rows: seq<Row>, next: nat) {
    && (forall i | 0 <= i < |rows| :: rows[i].id < next)
    && (forall i, j | 0 <= i < j < |rows| :: rows[i].id != rows[j].id)
    && (forall i, j | 0 <= i < j < |rows| ::
          rows[i].packageId != rows[j].packageId || rows[i].version != rows[j].version)
  }

  ghost predicate ForeignKeysOk(t: Tables) {
    forall i | 0 <= i < |t.rows| :: Owner(t.packages, t.rows[i].packageId).Some?
  }

  /** Primary keys, both UNIQUE constraints and the foreign key. */
  ghost predicate TablesOk(t: Tables) {
    PackagesOk(t.packages, t.nextPackage) && RowsOk(t.rows, t.nextRow) && ForeignKeysOk(t)
  }

  lemma UpsertKeepsTables(t: Tables, tenant: string, name: string, now: int)
    requires TablesOk(t)
    ensures TablesOk(Upsert(t, tenant, name, now).0)
    ensures forall id | Owner(t.packages, id).Some? ::
              Owner(Upsert(t, tenant, name, now).0.packages, id) == Owner(t.packages, id)
    ensures var (t', id) := Upsert(t, tenant, name, now); var p := Owner(t'.packages, id);
            p.Some? && p.value.tenant == tenant && p.value.name == name
  {
    var (t', id) := Upsert(t, tenant, name, now);
    if FindPackage(t, tenant, name).None? {
      forall k
        ensures Owner(t'.packages, k) == if k == t.nextPackage then Some(t'.packages[|t.packages|])
                else Owner(t.packages, k)
      {
        OwnerOfAppended(t.packages, t'.packages[|t.packages|], k);
      }
    } else {
      var i := FindPackage(t, tenant, name).value;
      OwnerAt(t.packages, t.nextPackage, i);
    }
  }

  lemma OwnerAt(ps: seq<Package>, next: nat, i: nat)
    requires PackagesOk(ps, next) && i < |ps|
    ensures Owner(ps, ps[i].id) == Some(ps[i])
  {
    var r := Owner(ps, ps[i].id);
    assert r.Some?;
    var j :| 0 <= j < |ps| && ps[j] == r.value;
  }

  lemma OwnerOfAppended(ps: seq<Package>, p: Package, id: nat)
    ensures Owner(ps + [p], id) == if id == p.id then Some(p) else Owner(ps, id)
  {
    assert (ps + [p])[..|ps|] == ps;
  }

  lemma InsertKeepsTables(t: Tables, packageId: nat, d: Draft, now: int)
    requires TablesOk(t)
    ensures TablesOk(Insert(t, packageId, d, now).0)
    ensures Insert(t, packageId, d, now).0.packages == t.packages
  {
    if Owner(t.packages, packageId).Some? {
      var i := FindRow(t, packageId, d.version);
      if i.Some? {
        UpdateKeepsRows(t.rows, t.nextRow, i.value, Insert(t, packageId, d, now).1.value);
      } else {
        AppendKeepsRows(t.rows, t.nextRow, Insert(t, packageId, d, now).1.value);
      }
    }
  }

  lemma UpdateKeepsRows(rows: seq<Row>, next: nat, i: nat, row: Row)
    requires RowsOk(rows, next) && i < |rows|
    requires row.id == rows[i].id && row.packageId == rows[i].packageId && row.version == rows[i].version
    ensures RowsOk(rows[i := row], next + 1)
  {
  }

  lemma AppendKeepsRows(rows: seq<Row>, next: nat, row: Row)
    requires RowsOk(rows, next) && row.id == next
    requires forall k | 0 <= k < |rows| :: rows[k].packageId != row.packageId || rows[k].version != row.version
    ensures RowsOk(rows + [row], next + 1)
  {
  }

  // ---------------------------------------------------------------- lookups after statements

  lemma SameOwner(t: Tables, a: Row, b: Row, tenant: string, name: string)
    requires TablesOk(t) && Joins(t.packages, a, tenant, name) && Joins(t.packages, b, tenant, name)
    ensures a.packageId == b.packageId
  {
    var p, q := Owner(t.packages, a.packageId).value, Owner(t.packages, b.packageId).value;
    var i :| 0 <= i < |t.packages| && t.packages[i] == p;
    var j :| 0 <= j < |t.packages| && t.packages[j] == q;
  }

  /** A row is found under a name exactly when it is there. */
  lemma FetchFinds(t: Tables, tenant: string, name: string, version: string, row: Row)
    requires TablesOk(t)
    ensures Fetch(t, tenant, name, version) == Some(row) <==>
            row in t.rows && Joins(t.packages, row, tenant, name) && row.version == version
  {
    if row in t.rows && Joins(t.packages, row, tenant, name) && row.version == version {
      var j :| 0 <= j < |t.rows| && t.rows[j] == row;
      var found := Fetch(t, tenant, name, version);
      assert found.Some?;
      var i :| 0 <= i < |t.rows| && t.rows[i] == found.value && Joins(t.packages, t.rows[i], tenant, name)
          && t.rows[i].version == version;
      SameOwner(t, t.rows[i], t.rows[j], tenant, name);
    }
  }

  /** Publishing the package alone changes no lookup. */
  lemma FetchAfterUpsert(t: Tables, tenant: string, name: string, now: int, tn: string, nm: string, v: string)
    requires TablesOk(t)
    ensures Fetch(Upsert(t, tenant, name, now).0, tn, nm, v) == Fetch(t, tn, nm, v)
  {
    var t' := Upsert(t, tenant, name, now).0;
    UpsertKeepsTables(t, tenant, name, now);
    assert t'.rows == t.rows;
    forall row | row in t.rows
      ensures Joins(t'.packages, row, tn, nm) <==> Joins(t.packages, row, tn, nm)
    {
      assert Owner(t.packages, row.packageId).Some?;
    }
    var found, found' := Fetch(t, tn, nm, v), Fetch(t', tn, nm, v);
    if found.Some? { FetchFinds(t, tn, nm, v, found.value); FetchFinds(t', tn, nm, v, found.value); }
    if found'.Some? { FetchFinds(t', tn, nm, v, found'.value); FetchFinds(t, tn, nm, v, found'.value); }
  }

  /** Inserting a version changes the lookup of its own coordinates and no other. A row that was
      there keeps its id and its creation time. */
  lemma FetchAfterInsert(t: Tables, packageId: nat, d: Draft, now: int, tn: string, nm: string, v: string)
    requires TablesOk(t) && Owner(t.packages, packageId).Some?
    ensures var (t', row) := Insert(t, packageId, d, now); var p := Owner(t.packages, packageId).value;
            var was := Fetch(t, p.tenant, p.name, d.version);
            && row.Some?
            && row.value == (if was.Some? then NewRow(was.value.id, packageId, d, was.value.createdAt)
                             else NewRow(t.nextRow, packageId, d, now))
            && Fetch(t', tn, nm, v)
                 == if (tn, nm, v) == (p.tenant, p.name, d.version) then row else Fetch(t, tn, nm, v)
  {
    var (t', row) := Insert(t, packageId, d, now);
    var p := Owner(t.packages, packageId).value;
    InsertKeepsTables(t, packageId, d, now);
    ConflictIsFetched(t, packageId, d.version);
    InsertedRow(t, packageId, d, now);
    FetchFinds(t', p.tenant, p.name, d.version, row.value);
    if (tn, nm, v) != (p.tenant, p.name, d.version) {
      InsertLeavesOthers(t, packageId, d, now, tn, nm, v);
    }
  }

  lemma InsertedRow(t: Tables, packageId: nat, d: Draft, now: int)
    requires Owner(t.packages, packageId).Some?
    ensures var (t', row) := Insert(t, packageId, d, now); row.Some? && row.value in t'.rows
  {
    var (t', row) := Insert(t, packageId, d, now);
    var i := FindRow(t, packageId, d.version);
    assert t'.rows[if i.Some? then i.value else |t.rows|] == row.value;
  }

  /** The row that the UNIQUE constraint reports is the one that the join finds. */
  lemma ConflictIsFetched(t: Tables, packageId: nat, version: string)
    requires TablesOk(t) && Owner(t.packages, packageId).Some?
    ensures var p := Owner(t.packages, packageId).value; var i := FindRow(t, packageId, version);
            Fetch(t, p.tenant, p.name, version) == if i.Some? then Some(t.rows[i.value]) else None
  {
    var p := Owner(t.packages, packageId).value;
    var i := FindRow(t, packageId, version);
    if i.Some? {
      FetchFinds(t, p.tenant, p.name, version, t.rows[i.value]);
    } else {
      var found := Fetch(t, p.tenant, p.name, version);
      if found.Some? {
        FetchFinds(t, p.tenant, p.name, version, found.value);
        SameOwner(t, found.value, found.value.(packageId := packageId), p.tenant, p.name);
      }
    }
  }

  lemma InsertLeavesOthers(t: Tables, packageId: nat, d: Draft, now: int, tn: string, nm: string, v: string)
    requires TablesOk(t) && Owner(t.packages, packageId).Some?
    requires var p := Owner(t.packages, packageId).value; (tn, nm, v) != (p.tenant, p.name, d.version)
    ensures Fetch(Insert(t, packageId, d, now).0, tn, nm, v) == Fetch(t, tn, nm, v)
  {
    var t' := Insert(t, packageId, d, now).0;
    InsertKeepsTables(t, packageId, d, now);
    forall r: Row | Joins(t.packages, r, tn, nm) && r.version == v
      ensures r in t'.rows <==> r in t.rows
    {
      RowsAfterInsert(t, packageId, d, now, r);
    }
    var found, found' := Fetch(t, tn, nm, v), Fetch(t', tn, nm, v);
    if found.Some? { FetchFinds(t, tn, nm, v, found.value); FetchFinds(t', tn, nm, v, found.value); }
    if found'.Some? { FetchFinds(t', tn, nm, v, found'.value); FetchFinds(t, tn, nm, v, found'.value); }
  }

  lemma RowsAfterInsert(t: Tables, packageId: nat, d: Draft, now: int, r: Row)
    requires TablesOk(t) && Owner(t.packages, packageId).Some?
    requires r.packageId != packageId || r.version != d.version
    ensures r in Insert(t, packageId, d, now).0.rows <==> r in t.rows
  {
    var t' := Insert(t, packageId, d, now).0;
    var i := FindRow(t, packageId, d.version);
    if i.Some? {
      assert forall k | 0 <= k < |t.rows| && k != i.value :: t'.rows[k] == t.rows[k];
    }
  }
}
