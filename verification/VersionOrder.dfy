/** The order in which ListVersions shows a package: newest first publication first, whatever
    has been republished since and however the table holds its rows. */
module VersionOrder {
  import opened Sorting
  import opened MetadataDb
  import opened MetadataIndex

  datatype Stamp = Stamp(id: nat, version: string, createdAt: int)

  function StampOf(row: Row): Stamp {
    Stamp(row.id, row.version, row.createdAt)
  }

  predicate NewestStampFirst(a: Stamp, b: Stamp) {
    a.createdAt >= b.createdAt
  }

  /** What is listed, without the columns that a republish may change. */
  function StampList(t: Tables, tenant: string, name: string): seq<Stamp> {
    Map(StampOf, VersionList(t, tenant, name))
  }

  lemma {:induction false} SelectAfterUpdate(ps: seq<Package>, rows: seq<Row>, i: nat,
                                             row: Row, tenant: string, name: string)
    requires i < |rows| && StampOf(row) == StampOf(rows[i]) && row.packageId == rows[i].packageId
    ensures Map(StampOf, SelectRows(ps, rows[i := row], tenant, name))
         == Map(StampOf, SelectRows(ps, rows, tenant, name))
    decreases |rows|
  {
    var n := |rows| - 1;
    if i < n {
      SelectAfterUpdate(ps, rows[..n], i, row, tenant, name);
      assert rows[i := row][..n] == rows[..n][i := row];
    } else {
      assert rows[i := row][..n] == rows[..n];
    }
  }

  /** Republishing an existing version changes neither the order nor the length of any list. */
  lemma RepublishKeepsTheOrder(t: Tables, packageId: nat, d: Draft, now: int, tenant: string, name: string)
    requires TablesOk(t) && FindRow(t, packageId, d.version).Some?
    ensures StampList(Insert(t, packageId, d, now).0, tenant, name) == StampList(t, tenant, name)
    ensures |VersionList(Insert(t, packageId, d, now).0, tenant, name)| == |VersionList(t, tenant, name)|
  {
    var i := FindRow(t, packageId, d.version).value;
    var t' := Insert(t, packageId, d, now).0;
    var row := Insert(t, packageId, d, now).1.value;
    SelectAfterUpdate(t.packages, t.rows, i, row, tenant, name);
    SortMap(NewestFirst, NewestStampFirst, StampOf, SelectRows(t.packages, t.rows, tenant, name));
    SortMap(NewestFirst, NewestStampFirst, StampOf, SelectRows(t.packages, t'.rows, tenant, name));
    assert |StampList(t', tenant, name)| == |VersionList(t', tenant, name)|;
  }

  lemma TimesTellRowsApart(rows: seq<Row>, list: seq<Row>)
    requires forall i, j | 0 <= i < j < |rows| :: rows[i].createdAt != rows[j].createdAt
    requires forall row | row in list :: row in rows
    ensures forall i, j | 0 <= i < |list| && 0 <= j < |list| && list[i].createdAt == list[j].createdAt ::
              list[i] == list[j]
    ensures NoTies(NewestFirst, list)
  {
    forall i, j | 0 <= i < |list| && 0 <= j < |list| && list[i].createdAt == list[j].createdAt
      ensures list[i] == list[j]
    {
      assert list[i] in rows && list[j] in rows;
    }
  }

  lemma {:induction false} InsertBeforeAll(row: Row, s: seq<Row>)
    requires forall i | 0 <= i < |s| :: s[i].createdAt < row.createdAt
    ensures InsertInOrder(NewestFirst, row, s) == [row] + s
  {
    if s != [] {
      InsertBeforeAll(row, s[..|s| - 1]);
    }
  }

  lemma NewestGoesFirst(rows: seq<Row>, row: Row)
    requires forall r | r in rows :: r.createdAt < row.createdAt
    ensures Sort(NewestFirst, rows + [row]) == [row] + Sort(NewestFirst, rows)
  {
    var sorted := Sort(NewestFirst, rows);
    assert (rows + [row])[..|rows|] == rows;
    SortPermutes(NewestFirst, rows);
    forall i | 0 <= i < |sorted|
      ensures sorted[i].createdAt < row.createdAt
    {
      SameElements(sorted, rows, sorted[i]);
    }
    InsertBeforeAll(row, sorted);
  }

  /** A first publication, later than those before it, goes to the head of its package's list and
      leaves the rest of it and every other list alone. */
  lemma FirstPublicationComesFirst(t: Tables, packageId: nat, d: Draft, now: int, tenant: string, name: string)
    requires TablesOk(t) && Owner(t.packages, packageId).Some? && FindRow(t, packageId, d.version).None?
    requires forall i | 0 <= i < |t.rows| :: t.rows[i].createdAt < now
    ensures var (t', row) := Insert(t, packageId, d, now);
            && row.Some?
            && VersionList(t', tenant, name)
                 == (if Joins(t.packages, row.value, tenant, name) then [row.value] else [])
                    + VersionList(t, tenant, name)
  {
    var (t', r) := Insert(t, packageId, d, now);
    var row := r.value;
    var selected := SelectRows(t.packages, t.rows, tenant, name);
    assert t'.rows[..|t.rows|] == t.rows;
    if Joins(t.packages, row, tenant, name) {
      assert SelectRows(t.packages, t'.rows, tenant, name) == selected + [row];
      NewestGoesFirst(selected, row);
    } else {
      assert [] + VersionList(t, tenant, name) == VersionList(t, tenant, name);
    }
  }

  /** With distinct creation times the list is strictly ordered, holds exactly the rows of the
      package, and is the only such list: no other heap order could give another. */
  lemma ListIsDetermined(t: Tables, tenant: string, name: string, heap: seq<Row>)
    requires forall i, j | 0 <= i < j < |t.rows| :: t.rows[i].createdAt != t.rows[j].createdAt
    requires multiset(heap) == multiset(SelectRows(t.packages, t.rows, tenant, name))
    ensures var list := VersionList(t, tenant, name);
            && (forall i, j | 0 <= i < j < |list| :: list[i].createdAt >= list[j].createdAt)
            && (forall i, j | 0 <= i < |list| && 0 <= j < |list| && list[i].createdAt == list[j].createdAt ::
                  list[i] == list[j])
            && (forall row :: row in list <==> row in t.rows && Joins(t.packages, row, tenant, name))
            && Sort(NewestFirst, heap) == list
  {
    var selected := SelectRows(t.packages, t.rows, tenant, name);
    var list := VersionList(t, tenant, name);
    NewestFirstIsPreorder();
    SortSorts(NewestFirst, selected);
    SortSorts(NewestFirst, heap);
    SortPermutes(NewestFirst, selected);
    SortPermutes(NewestFirst, heap);
    forall row ensures row in list <==> row in selected { SameElements(list, selected, row); }
    TimesTellRowsApart(t.rows, list);
    SortedUnique(NewestFirst, list, Sort(NewestFirst, heap));
  }

  /** The name of the package that a row belongs to. */
  function NameOf(packages: seq<Package>, row: Row): string {
    if Owner(packages, row.packageId).Some? then Owner(packages, row.packageId).value.name else ""
  }

  /** With distinct creation times there is one list of a tenant: whatever the heap order of the
      rows, whatever else a sort may do, names and times leave no other. */
  lemma TenantListIsDetermined(t: Tables, u: Tables, tenant: string, a: seq<Info>, b: seq<Info>,
                               behindA: seq<Row>, behindB: seq<Row>)
    requires t.packages == u.packages && multiset(t.rows) == multiset(u.rows)
    requires forall i, j | 0 <= i < j < |t.rows| :: t.rows[i].createdAt != t.rows[j].createdAt
    requires ListsTenant(t, tenant, a, behindA) && ListsTenant(u, tenant, b, behindB)
    ensures a == b && behindA == behindB
  {
    var leq := (x: Row, y: Row) =>
      ByNameThenNewest(Joined(NameOf(t.packages, x), x), Joined(NameOf(t.packages, y), y));
    ByNameIsPreorder();
    assert multiset(behindA) == multiset(behindB);
    ListIsSorted(t, tenant, a, behindA);
    ListIsSorted(u, tenant, b, behindB);
    forall row | row in behindA
      ensures row in t.rows
    {
      assert multiset(behindA)[row] > 0;
      assert multiset(t.rows)[row] > 0;
    }
    TimesTellRowsApart(t.rows, behindA);
    forall i, j | 0 <= i < |behindA| && 0 <= j < |behindA| && leq(behindA[i], behindA[j]) && leq(behindA[j], behindA[i])
      ensures behindA[i] == behindA[j]
    {
      StringLeqTotal(NameOf(t.packages, behindA[i]), NameOf(t.packages, behindA[j]));
    }
    SortedUnique(leq, behindA, behindB);
    forall i | 0 <= i < |a|
      ensures a[i] == b[i]
    {
      assert a[i].name == NameOf(t.packages, behindA[i]) == b[i].name;
    }
  }

  lemma ListIsSorted(t: Tables, tenant: string, list: seq<Info>, rows: seq<Row>)
    requires ListsTenant(t, tenant, list, rows)
    ensures forall i, j | 0 <= i < j < |rows| ::
              ByNameThenNewest(Joined(NameOf(t.packages, rows[i]), rows[i]),
                               Joined(NameOf(t.packages, rows[j]), rows[j]))
  {
    forall i, j | 0 <= i < j < |rows|
      ensures ByNameThenNewest(Joined(NameOf(t.packages, rows[i]), rows[i]),
                               Joined(NameOf(t.packages, rows[j]), rows[j]))
    {
      assert list[i].name == NameOf(t.packages, rows[i]) && list[j].name == NameOf(t.packages, rows[j]);
      assert StringLeq(list[i].name, list[j].name);
    }
  }
}
