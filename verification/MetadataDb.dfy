/** The metadata index: the two Postgres tables, the statements that the store runs on them,
    and the store itself. */
module MetadataDb {
  import opened Content
  import opened Sorting

  datatype Package = Package(id: nat, tenant: string, name: string, createdAt: int)

  datatype Row = Row(id: nat, packageId: nat, version: string, digest: string, sizeBytes: int,
                     storageKey: string, manifest: Bytes, publishedBy: string, createdAt: int)

  /** Rows in heap order, and the next values of the two id sequences. */
  datatype Tables = Tables(packages: seq<Package>, rows: seq<Row>, nextPackage: nat, nextRow: nat)

  /** What a publisher supplies for a row. */
  datatype Draft = Draft(version: string, digest: string, sizeBytes: int, storageKey: string,
                         manifest: Option<Bytes>, publishedBy: string)

  datatype Info = Info(name: string, version: string, digest: string, sizeBytes: int, publishedBy: string)

  const EMPTY_OBJECT: Bytes := [123, 125]

  // ---------------------------------------------------------------- lookups

  function IndexWhere<T>(f: T -> bool, s: seq<T>): (r: Option<nat>)
    ensures r.Some? ==> r.value < |s| && f(s[r.value])
    ensures r.None? ==> forall i | 0 <= i < |s| :: !f(s[i])
  {
    if s == [] then None
    else if f(s[0]) then Some(0)
    else match IndexWhere(f, s[1..])
      case None =>
        assert forall i | 0 < i < |s| :: s[i] == s[1..][i - 1];
        None
      case Some(i) => Some(i + 1)
  }

  function FindPackage(t: Tables, tenant: string, name: string): Option<nat> {
    IndexWhere((p: Package) => p.tenant == tenant && p.name == name, t.packages)
  }

  function FindRow(t: Tables, packageId: nat, version: string): Option<nat> {
    IndexWhere((r: Row) => r.packageId == packageId && r.version == version, t.rows)
  }

  /** The package that a row joins with. */
  function Owner(packages: seq<Package>, id: nat): (r: Option<Package>)
    ensures r.Some? ==> r.value in packages && r.value.id == id
    ensures r.None? ==> forall i | 0 <= i < |packages| :: packages[i].id != id
  {
    if packages == [] then None
    else if packages[|packages| - 1].id == id then Some(packages[|packages| - 1])
    else Owner(packages[..|packages| - 1], id)
  }

  predicate Joins(packages: seq<Package>, row: Row, tenant: string, name: string) {
    var p := Owner(packages, row.packageId);
    p.Some? && p.value.tenant == tenant && p.value.name == name
  }

  /** SELECT ... JOIN ... WHERE tenant AND name AND version LIMIT 1 */
  function Fetch(t: Tables, tenant: string, name: string, version: string): Option<Row> {
    match IndexWhere((r: Row) => Joins(t.packages, r, tenant, name) && r.version == version, t.rows)
    case None => None
    case Some(i) => Some(t.rows[i])
  }

  /** The rows of one package in heap order. */
  function SelectRows(packages: seq<Package>, rows: seq<Row>, tenant: string, name: string): (r: seq<Row>)
    ensures forall x :: x in r <==> x in rows && Joins(packages, x, tenant, name)
  {
    if rows == [] then []
    else
      var row := rows[|rows| - 1];
      var rest := SelectRows(packages, rows[..|rows| - 1], tenant, name);
      assert forall x :: x in rows <==> x == row || x in rows[..|rows| - 1];
      if Joins(packages, row, tenant, name) then rest + [row] else rest
  }

  predicate NewestFirst(a: Row, b: Row) {
    a.createdAt >= b.createdAt
  }

  /** ORDER BY created_at DESC */
  function VersionList(t: Tables, tenant: string, name: string): seq<Row> {
    Sort(NewestFirst, SelectRows(t.packages, t.rows, tenant, name))
  }

  datatype Joined = Joined(name: string, row: Row)

  function InfoOf(name: string, row: Row): Info {
    Info(name, row.version, row.digest, row.sizeBytes, row.publishedBy)
  }

  /** ORDER BY name ASC, created_at DESC */
  predicate ByNameThenNewest(a: Joined, b: Joined) {
    if a.name == b.name then a.row.createdAt >= b.row.createdAt else StringLeq(a.name, b.name)
  }

  function TenantRows(packages: seq<Package>, rows: seq<Row>, tenant: string): seq<Joined> {
    if rows == [] then []
    else
      var row := rows[|rows| - 1];
      var rest := TenantRows(packages, rows[..|rows| - 1], tenant);
      var p := Owner(packages, row.packageId);
      if p.Some? && p.value.tenant == tenant then rest + [Joined(p.value.name, row)] else rest
  }

  function PackageList(t: Tables, tenant: string): seq<Info> {
    Map((j: Joined) => InfoOf(j.name, j.row), Sort(ByNameThenNewest, TenantRows(t.packages, t.rows, tenant)))
  }

  // ---------------------------------------------------------------- statements

  /** INSERT INTO packages ... ON CONFLICT DO UPDATE ... RETURNING id. A conflicting insert has
      already drawn a number from the sequence. */
  function Upsert(t: Tables, tenant: string, name: string, now: int): (Tables, nat) {
    match FindPackage(t, tenant, name)
    case Some(i) => (t.(nextPackage := t.nextPackage + 1), t.packages[i].id)
    case None =>
      (t.(packages := t.packages + [Package(t.nextPackage, tenant, name, now)], nextPackage := t.nextPackage + 1),
       t.nextPackage)
  }

  function NewRow(id: nat, packageId: nat, d: Draft, createdAt: int): Row {
    var manifest := if d.manifest.None? then EMPTY_OBJECT else d.manifest.value;
    Row(id, packageId, d.version, d.digest, d.sizeBytes, d.storageKey, manifest, d.publishedBy, createdAt)
  }

  /** INSERT INTO package_versions ... ON CONFLICT DO UPDATE ... RETURNING id, created_at. The
      conflict branch keeps id and created_at. None when the foreign key fails. */
  function Insert(t: Tables, packageId: nat, d: Draft, now: int): (Tables, Option<Row>) {
    if Owner(t.packages, packageId).None? then (t.(nextRow := t.nextRow + 1), None)
    else match FindRow(t, packageId, d.version)
      case Some(i) =>
        var row := NewRow(t.rows[i].id, packageId, d, t.rows[i].createdAt);
        (t.(rows := t.rows[i := row], nextRow := t.nextRow + 1), Some(row))
      case None =>
        var row := NewRow(t.nextRow, packageId, d, now);
        (t.(rows := t.rows + [row], nextRow := t.nextRow + 1), Some(row))
  }

  function Publish(t: Tables, tenant: string, name: string, d: Draft, now: int): Tables {
    var (t', id) := Upsert(t, tenant, name, now);
    Insert(t', id, d, now).0
  }

  // ---------------------------------------------------------------- what callers rely on

  /** The row under these coordinates, by the UNIQUE constraint the only one. */
  predicate HasCoordinates(row: Row, packageId: nat, version: string) {
    row.packageId == packageId && row.version == version
  }

  /** A package of that tenant and name has the id; no row and no package has gone, and none has
      come if it was there already. */
  lemma UpsertMeans(t: Tables, tenant: string, name: string, now: int)
    ensures var (t', id) := Upsert(t, tenant, name, now);
            && t'.rows == t.rows && t'.nextRow == t.nextRow
            && t.packages <= t'.packages && |t'.packages| <= |t.packages| + 1
            && (exists p | p in t'.packages :: p.id == id && p.tenant == tenant && p.name == name)
            && ((exists p | p in t.packages :: p.tenant == tenant && p.name == name) ==> t'.packages == t.packages)
  {
    var (t', id) := Upsert(t, tenant, name, now);
    var i := FindPackage(t, tenant, name);
    var p := t'.packages[if i.Some? then i.value else |t.packages|];
    assert p in t'.packages && p.id == id;
  }

  /** The row that is returned is in the table with the data of the draft. It goes to the end, or in
      place of one with the same coordinates, whose id and creation time it keeps. */
  lemma InsertMeans(t: Tables, packageId: nat, d: Draft, now: int)
    ensures var (t', row) := Insert(t, packageId, d, now);
            && t'.packages == t.packages
            && (row.None? <==> forall p | p in t.packages :: p.id != packageId) && (row.None? ==> t'.rows == t.rows)
            && (row.Some? ==>
                  && row.value in t'.rows && row.value == NewRow(row.value.id, packageId, d, row.value.createdAt)
                  && (|| t'.rows == t.rows + [row.value]
                      || exists i | 0 <= i < |t.rows| && HasCoordinates(t.rows[i], packageId, d.version) ::
                           t'.rows == t.rows[i := row.value]
                           && row.value.id == t.rows[i].id && row.value.createdAt == t.rows[i].createdAt)
                  && ((forall i | 0 <= i < |t.rows| :: !HasCoordinates(t.rows[i], packageId, d.version)) <==>
                      t'.rows == t.rows + [row.value]))
  {
    var (t', row) := Insert(t, packageId, d, now);
    OwnerMeans(t.packages, packageId);
    if row.Some? {
      var i := FindRow(t, packageId, d.version);
      assert t'.rows[if i.Some? then i.value else |t.rows|] == row.value;
      if i.Some? { assert HasCoordinates(t.rows[i.value], packageId, d.version); }
    }
  }

  lemma OwnerMeans(packages: seq<Package>, id: nat)
    ensures Owner(packages, id).Some? <==> exists p | p in packages :: p.id == id
  {
    if p :| p in packages && p.id == id {
      var i :| 0 <= i < |packages| && packages[i] == p;
    }
  }

  /** A publish meets no foreign key error: its package is there. */
  lemma UpsertedPackageIsThere(t: Tables, tenant: string, name: string, now: int)
    ensures var (t', id) := Upsert(t, tenant, name, now); Owner(t'.packages, id).Some?
  {
    UpsertMeans(t, tenant, name, now);
    OwnerMeans(Upsert(t, tenant, name, now).0.packages, Upsert(t, tenant, name, now).1);
  }

  lemma {:induction false} SelectRowsCount(packages: seq<Package>, rows: seq<Row>,
                                           tenant: string, name: string, row: Row)
    ensures multiset(SelectRows(packages, rows, tenant, name))[row]
         == if Joins(packages, row, tenant, name) then multiset(rows)[row] else 0
  {
    if rows != [] {
      SelectRowsCount(packages, rows[..|rows| - 1], tenant, name, row);
      assert rows == rows[..|rows| - 1] + [rows[|rows| - 1]];
    }
  }

  lemma NewestFirstIsPreorder()
    ensures TotalPreorder(NewestFirst)
  {
  }

  /** Newest first, and each row of the package as often as in the table, no other. */
  lemma VersionListMeans(t: Tables, tenant: string, name: string)
    ensures var list := VersionList(t, tenant, name);
            && (forall i, j | 0 <= i < j < |list| :: list[i].createdAt >= list[j].createdAt)
            && (forall row ::
                  multiset(list)[row] == if Joins(t.packages, row, tenant, name) then multiset(t.rows)[row] else 0)
  {
    var list, selected := VersionList(t, tenant, name), SelectRows(t.packages, t.rows, tenant, name);
    NewestFirstIsPreorder();
    SortSorts(NewestFirst, selected);
    SortPermutes(NewestFirst, selected);
    forall row
      ensures multiset(list)[row] == if Joins(t.packages, row, tenant, name) then multiset(t.rows)[row] else 0
    {
      SelectRowsCount(t.packages, t.rows, tenant, name, row);
    }
    forall i, j | 0 <= i < j < |list| ensures list[i].createdAt >= list[j].createdAt {
      assert NewestFirst(list[i], list[j]);
    }
  }

  lemma {:induction false} TenantRowsContent(packages: seq<Package>, rows: seq<Row>, tenant: string)
    ensures var js := TenantRows(packages, rows, tenant);
            forall j :: j in js <==> j.row in rows && Joins(packages, j.row, tenant, j.name)
    ensures Distinct(rows) ==> Distinct(TenantRows(packages, rows, tenant))
  {
    if rows != [] {
      var front, row := rows[..|rows| - 1], rows[|rows| - 1];
      TenantRowsContent(packages, front, tenant);
      assert rows == front + [row];
      assert Distinct(rows) ==> row !in front && Distinct(front);
    }
  }

  lemma ByNameIsPreorder()
    ensures TotalPreorder(ByNameThenNewest)
  {
    StringsArePreordered();
    forall a, b | StringLeq(a, b) && StringLeq(b, a) ensures a == b { StringLeqTotal(a, b); }
  }

  predicate OfTenant(packages: seq<Package>, row: Row, tenant: string) {
    var p := Owner(packages, row.packageId);
    p.Some? && p.value.tenant == tenant
  }

  /** These are the rows behind a list of a tenant: each row of the tenant as often as in the table
      and no other, by name ascending, those of one name newest first. */
  ghost predicate ListsTenant(t: Tables, tenant: string, list: seq<Info>, rows: seq<Row>) {
    && |rows| == |list|
    && (forall i | 0 <= i < |list| ::
          && Joins(t.packages, rows[i], tenant, list[i].name)
          && list[i].version == rows[i].version && list[i].digest == rows[i].digest
          && list[i].sizeBytes == rows[i].sizeBytes && list[i].publishedBy == rows[i].publishedBy)
    && (forall row ::
          multiset(rows)[row] == if OfTenant(t.packages, row, tenant) then multiset(t.rows)[row] else 0)
    && (forall i, j | 0 <= i < j < |list| :: StringLeq(list[i].name, list[j].name))
    && (forall i, j | 0 <= i < j < |list| && list[i].name == list[j].name :: rows[i].createdAt >= rows[j].createdAt)
  }

  function RowOf(j: Joined): Row {
    j.row
  }

  lemma {:induction false} TenantRowsCount(packages: seq<Package>, rows: seq<Row>, tenant: string, row: Row)
    ensures multiset(Map(RowOf, TenantRows(packages, rows, tenant)))[row]
         == if OfTenant(packages, row, tenant) then multiset(rows)[row] else 0
  {
    if rows != [] {
      var front, last := rows[..|rows| - 1], rows[|rows| - 1];
      var js := TenantRows(packages, front, tenant);
      TenantRowsCount(packages, front, tenant, row);
      assert rows == front + [last];
      if OfTenant(packages, last, tenant) {
        var j := Joined(Owner(packages, last.packageId).value.name, last);
        assert Map(RowOf, js + [j]) == Map(RowOf, js) + [last];
      }
    }
  }

  lemma PackageListMeans(t: Tables, tenant: string)
    ensures exists rows :: ListsTenant(t, tenant, PackageList(t, tenant), rows)
  {
    var js := TenantRows(t.packages, t.rows, tenant);
    var sorted, list := Sort(ByNameThenNewest, js), PackageList(t, tenant);
    var rows := Map(RowOf, sorted);
    ByNameIsPreorder();
    SortSorts(ByNameThenNewest, js);
    SortPermutes(ByNameThenNewest, js);
    TenantRowsContent(t.packages, t.rows, tenant);
    SortPermutesMapped(ByNameThenNewest, RowOf, js);
    forall row
      ensures multiset(rows)[row] == if OfTenant(t.packages, row, tenant) then multiset(t.rows)[row] else 0
    {
      TenantRowsCount(t.packages, t.rows, tenant, row);
    }
    forall i | 0 <= i < |list|
      ensures Joins(t.packages, rows[i], tenant, list[i].name)
    {
      SameElements(sorted, js, sorted[i]);
    }
    forall i, j | 0 <= i < j < |list|
      ensures StringLeq(list[i].name, list[j].name)
      ensures list[i].name == list[j].name ==> rows[i].createdAt >= rows[j].createdAt
    {
      assert ByNameThenNewest(sorted[i], sorted[j]);
      StringLeqTotal(sorted[i].name, sorted[j].name);
    }
    assert ListsTenant(t, tenant, list, rows);
  }

  // ---------------------------------------------------------------- the store

  /** A row as the Go code holds it; InsertVersion writes id and creation time back into it. */
  class PackageVersion {
    var id: nat
    var createdAt: int
    var packageId: nat
    const draft: Draft

    constructor (packageId: nat, draft: Draft)
      ensures this.packageId == packageId && this.draft == draft && id == 0
    {
      this.packageId := packageId;
      this.draft := draft;
      this.id := 0;
      this.createdAt := 0;
    }
  }

  class Store {
    const connected: bool
    var tables: Tables

    constructor (connected: bool, tables: Tables)
      ensures this.connected == connected && this.tables == tables
    {
      this.connected := connected;
      this.tables := tables;
    }

    method UpsertPackage(tenant: string, name: string, now: int) returns (id: Option<nat>)
      modifies this`tables
      ensures !connected ==> id.None? && tables == old(tables)
      ensures connected ==> id.Some? && (tables, id.value) == Upsert(old(tables), tenant, name, now)
      ensures connected ==>
                && tables.rows == old(tables.rows)
                && old(tables.packages) <= tables.packages && |tables.packages| <= |old(tables.packages)| + 1
                && (exists p | p in tables.packages :: p.id == id.value && p.tenant == tenant && p.name == name)
                && ((exists p | p in old(tables.packages) :: p.tenant == tenant && p.name == name) ==>
                      tables.packages == old(tables.packages))
    {
      UpsertMeans(tables, tenant, name, now);
      if !connected { return None; }
      var r := Upsert(tables, tenant, name, now);
      tables := r.0;
      id := Some(r.1);
    }

    method InsertVersion(packageId: nat, v: PackageVersion, now: int) returns (ok: bool)
      modifies this`tables, v`id, v`createdAt
      ensures !connected ==> !ok && tables == old(tables) && v.id == old(v.id)
      ensures connected ==> (var (t, row) := Insert(old(tables), packageId, v.draft, now);
                && tables == t && ok == row.Some?
                && (if ok then v.id == row.value.id && v.createdAt == row.value.createdAt else v.id == old(v.id)))
      ensures connected ==> tables.packages == old(tables.packages)
      ensures connected ==> (ok <==> exists p | p in tables.packages :: p.id == packageId)
      ensures ok ==> NewRow(v.id, packageId, v.draft, v.createdAt) in tables.rows
      ensures ok ==> var row := NewRow(v.id, packageId, v.draft, v.createdAt); var was := old(tables.rows);
                (|| tables.rows == was + [row]
                 || exists i | 0 <= i < |was| && HasCoordinates(was[i], packageId, v.draft.version) ::
                      tables.rows == was[i := row] && v.id == was[i].id && v.createdAt == was[i].createdAt)
    {
      InsertMeans(tables, packageId, v.draft, now);
      if !connected { return false; }
      var r := Insert(tables, packageId, v.draft, now);
      tables := r.0;
      ok := r.1.Some?;
      if ok {
        v.id := r.1.value.id;
        v.createdAt := r.1.value.createdAt;
      }
    }

    method PublishPackage(tenant: string, name: string, draft: Draft, now: int) returns (ok: bool)
      modifies this`tables
      ensures ok == connected
      ensures !connected ==> tables == old(tables)
      ensures connected ==> tables == Publish(old(tables), tenant, name, draft, now)
    {
      UpsertedPackageIsThere(tables, tenant, name, now);
      var id := UpsertPackage(tenant, name, now);
      if id.None? { return false; }
      var pv := new PackageVersion(id.value, draft);
      ok := InsertVersion(id.value, pv, now);
    }

    method GetVersionByNameVersion(tenant: string, name: string, version: string) returns (failed: bool, r: Option<Row>)
      ensures failed == !connected
      ensures r == if connected then Fetch(tables, tenant, name, version) else None
    {
      if !connected { return true, None; }
      failed := false;
      r := Fetch(tables, tenant, name, version);
    }

    /** LIMIT 1 without an order: any of the matching rows. */
    method GetVersionByDigest(tenant: string, name: string, digest: string) returns (failed: bool, r: Option<Row>)
      ensures failed == !connected
      ensures r.Some? ==>
                r.value in tables.rows && Joins(tables.packages, r.value, tenant, name) && r.value.digest == digest
      ensures connected && r.None? ==> forall row | row in tables.rows ::
                !(Joins(tables.packages, row, tenant, name) && row.digest == digest)
    {
      if !connected { return true, None; }
      failed := false;
      var t := tables;
      var i := IndexWhere((row: Row) => Joins(t.packages, row, tenant, name) && row.digest == digest, t.rows);
      if i.Some? { r := Some(t.rows[i.value]); } else { r := None; }
    }

    method ListVersions(tenant: string, name: string) returns (failed: bool, versions: seq<Row>)
      ensures failed == !connected
      ensures versions == if connected then VersionList(tables, tenant, name) else []
      ensures forall i, j | 0 <= i < j < |versions| :: versions[i].createdAt >= versions[j].createdAt
      ensures connected ==> forall row ::
                multiset(versions)[row] == if Joins(tables.packages, row, tenant, name)
                  then multiset(tables.rows)[row] else 0
    {
      VersionListMeans(tables, tenant, name);
      versions := [];
      if !connected { return true, []; }
      failed := false;
      var rows := VersionList(tables, tenant, name);
      for i := 0 to |rows|
        invariant versions == rows[..i]
      {
        versions := versions + [rows[i]];
      }
      assert rows[..|rows|] == rows;
    }

    method FetchPackage(tenant: string, name: string, version: string) returns (failed: bool, r: Option<Info>)
      ensures failed == !connected
      ensures r.None? <==> !connected || forall row | row in tables.rows ::
                !(Joins(tables.packages, row, tenant, name) && row.version == version)
      ensures r.Some? ==> exists row | row in tables.rows ::
                && Joins(tables.packages, row, tenant, name) && row.version == version
                && r.value == Info(name, version, row.digest, row.sizeBytes, row.publishedBy)
    {
      var pv;
      failed, pv := GetVersionByNameVersion(tenant, name, version);
      if failed || pv.None? { return failed, None; }
      r := Some(InfoOf(name, pv.value));
    }

    method ListPackages(tenant: string) returns (failed: bool, results: seq<Info>)
      ensures failed == !connected
      ensures results == if connected then PackageList(tables, tenant) else []
      ensures connected ==> exists rows :: ListsTenant(tables, tenant, results, rows)
    {
      PackageListMeans(tables, tenant);
      results := [];
      if !connected { return true, []; }
      failed := false;
      var rows := Sort(ByNameThenNewest, TenantRows(tables.packages, tables.rows, tenant));
      for i := 0 to |rows|
        invariant results == PackageList(tables, tenant)[..i]
      {
        results := results + [InfoOf(rows[i].name, rows[i].row)];
      }
    }
  }
}
