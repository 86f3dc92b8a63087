/** The in-memory store that stands in for Postgres in tests, and its agreement with the tables. */
module MockStore {
  import opened Content
  import opened Sorting
  import opened MetadataDb
  import opened MetadataIndex

  /** tenant -> name -> version -> information */
  type Nested = map<string, map<string, map<string, Info>>>

  function Lookup(store: Nested, tenant: string, name: string, version: string): Option<Info> {
    if tenant !in store then None
    else if name !in store[tenant] then None
    else if version !in store[tenant][name] then None
    else Some(store[tenant][name][version])
  }

  function MockPublish(store: Nested, tenant: string, name: string, d: Draft): Nested {
    var names := if tenant in store then store[tenant] else map[];
    var versions := if name in names then names[name] else map[];
    store[tenant := names[name := versions[d.version := Info(name, d.version, d.digest, d.sizeBytes, d.publishedBy)]]]
  }

  /** Every entry carries the name and version that lead to it. */
  ghost predicate WellNamed(store: Nested) {
    forall t, n, v :: var info := Lookup(store, t, n, v); info.Some? ==> info.value.name == n && info.value.version == v
  }

  class MockRegistryStore {
    var store: Nested

    constructor ()
      ensures store == map[] && WellNamed(store)
    {
      store := map[];
    }

    /** Storage key and manifest are dropped. */
    method PublishPackage(tenant: string, name: string, d: Draft)
      requires WellNamed(store)
      modifies this`store
      ensures store == MockPublish(old(store), tenant, name, d) && WellNamed(store)
    {
      PublishSetsOneEntry(store, tenant, name, d);
      ghost var was := store;
      ghost var names := if tenant in was then was[tenant] else map[];
      ghost var versions := if name in names then names[name] else map[];
      if tenant !in store {
        store := store[tenant := map[]];
      }
      if name !in store[tenant] {
        store := store[tenant := store[tenant][name := map[]]];
      }
      var info := Info(name, d.version, d.digest, d.sizeBytes, d.publishedBy);
      assert store[tenant][name] == versions;
      assert store[tenant][name := versions[d.version := info]] == names[name := versions[d.version := info]];
      store := store[tenant := store[tenant][name := store[tenant][name][d.version := info]]];
      assert store == was[tenant := names[name := versions[d.version := info]]];
    }

    method FetchPackage(tenant: string, name: string, version: string) returns (r: Option<Info>)
      ensures r == Lookup(store, tenant, name, version)
    {
      if tenant !in store { return None; }
      if name !in store[tenant] { return None; }
      if version !in store[tenant][name] { return None; }
      r := Some(store[tenant][name][version]);
    }

    /** Every entry of the tenant once, in whatever order the maps yield them. */
    method ListPackages(tenant: string) returns (results: seq<Info>)
      requires WellNamed(store)
      ensures Distinct(results)
      ensures forall info :: info in results <==> Lookup(store, tenant, info.name, info.version) == Some(info)
    {
      results := [];
      if tenant !in store { return; }
      var pkgs := store[tenant];
      var names := pkgs.Keys;
      while names != {}
        invariant names <= pkgs.Keys
        invariant Distinct(results)
        invariant forall info :: info in results <==>
          info.name !in names && Lookup(store, tenant, info.name, info.version) == Some(info)
        decreases names
      {
        var n :| n in names;
        names := names - {n};
        var versions := pkgs[n].Keys;
        ghost var earlier := results;
        while versions != {}
          invariant versions <= pkgs[n].Keys
          invariant Distinct(results)
          invariant forall info :: info in results <==>
            info in earlier
            || (info.name == n && info.version !in versions && Lookup(store, tenant, n, info.version) == Some(info))
          decreases versions
        {
          var v :| v in versions;
          versions := versions - {v};
          var info := pkgs[n][v];
          assert Lookup(store, tenant, n, v) == Some(info);
          results := results + [info];
        }
      }
    }
  }

  lemma PublishSetsOneEntry(store: Nested, tenant: string, name: string, d: Draft)
    ensures forall t, n, v :: Lookup(MockPublish(store, tenant, name, d), t, n, v)
              == if (t, n, v) == (tenant, name, d.version)
                 then Some(Info(name, d.version, d.digest, d.sizeBytes, d.publishedBy))
                 else Lookup(store, t, n, v)
    ensures WellNamed(store) ==> WellNamed(MockPublish(store, tenant, name, d))
  {
    var store' := MockPublish(store, tenant, name, d);
    forall t, n, v
      ensures Lookup(store', t, n, v)
              == if (t, n, v) == (tenant, name, d.version)
                 then Some(Info(name, d.version, d.digest, d.sizeBytes, d.publishedBy))
                 else Lookup(store, t, n, v)
    {
    }
    if WellNamed(store) {
      forall t, n, v
        ensures var info := Lookup(store', t, n, v); info.Some? ==> info.value.name == n && info.value.version == v
      {
        assert Lookup(store', t, n, v) == Some(Info(name, d.version, d.digest, d.sizeBytes, d.publishedBy))
               || Lookup(store', t, n, v) == Lookup(store, t, n, v);
      }
    }
  }

  // ---------------------------------------------------------------- agreement

  function FetchInfo(t: Tables, tenant: string, name: string, version: string): Option<Info> {
    match Fetch(t, tenant, name, version)
    case None => None
    case Some(row) => Some(InfoOf(name, row))
  }

  ghost predicate Agree(t: Tables, store: Nested) {
    forall tn, nm, v :: FetchInfo(t, tn, nm, v) == Lookup(store, tn, nm, v)
  }

  lemma PublishSetsOneRow(t: Tables, tenant: string, name: string, d: Draft, now: int)
    requires TablesOk(t)
    ensures TablesOk(Publish(t, tenant, name, d, now))
    ensures forall tn, nm, v :: FetchInfo(Publish(t, tenant, name, d, now), tn, nm, v)
              == if (tn, nm, v) == (tenant, name, d.version)
                 then Some(Info(name, d.version, d.digest, d.sizeBytes, d.publishedBy))
                 else FetchInfo(t, tn, nm, v)
  {
    var (t', id) := Upsert(t, tenant, name, now);
    UpsertKeepsTables(t, tenant, name, now);
    InsertKeepsTables(t', id, d, now);
    forall tn, nm, v
      ensures FetchInfo(Publish(t, tenant, name, d, now), tn, nm, v)
              == if (tn, nm, v) == (tenant, name, d.version)
                 then Some(Info(name, d.version, d.digest, d.sizeBytes, d.publishedBy))
                 else FetchInfo(t, tn, nm, v)
    {
      FetchAfterInsert(t', id, d, now, tn, nm, v);
      FetchAfterUpsert(t, tenant, name, now, tn, nm, v);
    }
  }

  datatype Publication = Publication(tenant: string, name: string, draft: Draft, now: int)

  function SqlAfter(t: Tables, ps: seq<Publication>): Tables
    decreases |ps|
  {
    if ps == [] then t else SqlAfter(Publish(t, ps[0].tenant, ps[0].name, ps[0].draft, ps[0].now), ps[1..])
  }

  function MockAfter(store: Nested, ps: seq<Publication>): Nested
    decreases |ps|
  {
    if ps == [] then store else MockAfter(MockPublish(store, ps[0].tenant, ps[0].name, ps[0].draft), ps[1..])
  }

  /** After any publications both stores answer every fetch alike. */
  lemma {:induction false} StoresAgree(t: Tables, store: Nested, ps: seq<Publication>)
    requires TablesOk(t) && WellNamed(store) && Agree(t, store)
    ensures TablesOk(SqlAfter(t, ps)) && WellNamed(MockAfter(store, ps)) && Agree(SqlAfter(t, ps), MockAfter(store, ps))
    decreases |ps|
  {
    if ps != [] {
      PublishSetsOneRow(t, ps[0].tenant, ps[0].name, ps[0].draft, ps[0].now);
      PublishSetsOneEntry(store, ps[0].tenant, ps[0].name, ps[0].draft);
      StoresAgree(Publish(t, ps[0].tenant, ps[0].name, ps[0].draft, ps[0].now),
                  MockPublish(store, ps[0].tenant, ps[0].name, ps[0].draft), ps[1..]);
    }
  }

  // ---------------------------------------------------------------- lists

  /** The list of the SQL store: every row of the tenant once. */
  lemma PackageListContent(t: Tables, tenant: string)
    requires TablesOk(t)
    ensures Distinct(PackageList(t, tenant))
    ensures forall info ::
              info in PackageList(t, tenant) <==> FetchInfo(t, tenant, info.name, info.version) == Some(info)
  {
    var js := TenantRows(t.packages, t.rows, tenant);
    var sorted := Sort(ByNameThenNewest, js);
    var list := PackageList(t, tenant);
    TenantRowsContent(t.packages, t.rows, tenant);
    SortPermutes(ByNameThenNewest, js);
    SortKeepsDistinct(ByNameThenNewest, js);
    forall i | 0 <= i < |sorted|
      ensures sorted[i] in js && Fetch(t, tenant, sorted[i].name, sorted[i].row.version) == Some(sorted[i].row)
    {
      SameElements(sorted, js, sorted[i]);
      FetchFinds(t, tenant, sorted[i].name, sorted[i].row.version, sorted[i].row);
    }
    forall i, j | 0 <= i < j < |list|
      ensures list[i] != list[j]
    {
      assert sorted[i] != sorted[j];
    }
    forall info
      ensures info in list <==> FetchInfo(t, tenant, info.name, info.version) == Some(info)
    {
      if FetchInfo(t, tenant, info.name, info.version) == Some(info) {
        var row := Fetch(t, tenant, info.name, info.version).value;
        FetchFinds(t, tenant, info.name, info.version, row);
        var joined := Joined(info.name, row);
        SameElements(sorted, js, joined);
        var i :| 0 <= i < |sorted| && sorted[i] == joined;
        assert list[i] == info;
      }
      if info in list {
        var i :| 0 <= i < |list| && list[i] == info;
        assert info == InfoOf(sorted[i].name, sorted[i].row);
      }
    }
  }

  /** Whatever order the mock's maps yield, its list and the SQL list are the same multiset. */
  lemma ListsAgree(t: Tables, store: Nested, tenant: string, listed: seq<Info>)
    requires TablesOk(t) && Agree(t, store) && Distinct(listed)
    requires forall info :: info in listed <==> Lookup(store, tenant, info.name, info.version) == Some(info)
    ensures multiset(PackageList(t, tenant)) == multiset(listed)
  {
    PackageListContent(t, tenant);
    DistinctSameElements(PackageList(t, tenant), listed);
  }

  /** Rows whose packages belong to other tenants do not show. */
  lemma {:induction false} TenantRowsAlike(ps: seq<Package>, ps': seq<Package>, rows: seq<Row>,
                                           rows': seq<Row>, tenant: string)
    requires |rows| == |rows'|
    requires forall i | 0 <= i < |rows| :: Alike(ps, ps', rows[i], rows'[i], tenant)
    ensures TenantRows(ps, rows, tenant) == TenantRows(ps', rows', tenant)
  {
    if rows != [] {
      var n := |rows| - 1;
      assert forall i | 0 <= i < n :: rows[..n][i] == rows[i] && rows'[..n][i] == rows'[i];
      TenantRowsAlike(ps, ps', rows[..n], rows'[..n], tenant);
      assert Alike(ps, ps', rows[n], rows'[n], tenant);
    }
  }

  /** The same row of the same package, or two rows that are both not the tenant's. */
  ghost predicate Alike(ps: seq<Package>, ps': seq<Package>, a: Row, b: Row, tenant: string) {
    || (a == b && Owner(ps, a.packageId) == Owner(ps', b.packageId))
    || (!Has(ps, a, tenant) && !Has(ps', b, tenant))
  }

  predicate Has(ps: seq<Package>, row: Row, tenant: string) {
    Owner(ps, row.packageId).Some? && Owner(ps, row.packageId).value.tenant == tenant
  }

  lemma TenantRowsAfterInsert(t: Tables, packageId: nat, d: Draft, now: int, tenant: string)
    requires Owner(t.packages, packageId).Some? && Owner(t.packages, packageId).value.tenant != tenant
    ensures var t' := Insert(t, packageId, d, now).0;
            TenantRows(t'.packages, t'.rows, tenant) == TenantRows(t.packages, t.rows, tenant)
  {
    var t' := Insert(t, packageId, d, now).0;
    if FindRow(t, packageId, d.version).Some? {
      TenantRowsAlike(t.packages, t'.packages, t.rows, t'.rows, tenant);
    } else {
      assert t'.rows[..|t.rows|] == t.rows;
    }
  }

  lemma TenantRowsAfterUpsert(t: Tables, tn: string, name: string, now: int, tenant: string)
    requires TablesOk(t)
    ensures var t' := Upsert(t, tn, name, now).0;
            TenantRows(t'.packages, t'.rows, tenant) == TenantRows(t.packages, t.rows, tenant)
  {
    var t' := Upsert(t, tn, name, now).0;
    UpsertKeepsTables(t, tn, name, now);
    TenantRowsAlike(t.packages, t'.packages, t.rows, t'.rows, tenant);
  }

  /** A publish in one tenant shows in no other tenant's fetches and changes no other tenant's list,
      not even its order. */
  lemma TenantsAreIsolated(t: Tables, tenant: string, name: string, d: Draft, now: int, other: string)
    requires TablesOk(t) && other != tenant
    ensures forall nm, v :: FetchInfo(Publish(t, tenant, name, d, now), other, nm, v) == FetchInfo(t, other, nm, v)
    ensures PackageList(Publish(t, tenant, name, d, now), other) == PackageList(t, other)
  {
    var (upserted, id) := Upsert(t, tenant, name, now);
    PublishSetsOneRow(t, tenant, name, d, now);
    UpsertKeepsTables(t, tenant, name, now);
    TenantRowsAfterUpsert(t, tenant, name, now, other);
    TenantRowsAfterInsert(upserted, id, d, now, other);
  }
}
