/** What a sequence of Puts and Deletes leaves for ListVersions to list. A Put makes directories
    before it looks at a byte, wherever its reference leads, and nothing keeps a reference at home. */
module VersionListing {
  import opened Content
  import opened Paths
  import opened FileTree
  import opened LocalProtocol
  import opened LocalProvider
  import opened LocalGuarantees

  datatype Call =
    | PutCall(ref: PackageRef, source: Bytes, size: int, checksum: string, stamp: Stamp)
    | DeleteCall(ref: PackageRef)

  function Do(cfg: Config, fs: Fs, call: Call): Fs {
    match call
    case PutCall(ref, source, size, checksum, stamp) => PutAlone(cfg, fs, ref, source, size, checksum, stamp).0
    case DeleteCall(ref) => DeleteAlone(fs, FullPath(cfg.root, ref)).0
  }

  function After(cfg: Config, fs: Fs, calls: seq<Call>): Fs
    decreases |calls|
  {
    if calls == [] then fs else After(cfg, Do(cfg, fs, calls[0]), calls[1..])
  }

  // ---------------------------------------------------------------- directories and the Puts behind them

  /** A directory is on the way to the root or on the way to the parent of some Put's file. */
  ghost predicate Accounted(cfg: Config, calls: seq<Call>, d: Path) {
    Under(d, Parse(cfg.root)) || exists c | c in calls :: c.PutCall? && Under(d, Parent(FullPath(cfg.root, c.ref)))
  }

  ghost predicate AllAccounted(cfg: Config, calls: seq<Call>, fs: Fs) {
    forall d | d in fs.dirs :: Accounted(cfg, calls, d)
  }

  /** A Put makes directories on the way to its own file only. */
  lemma PutMakesItsOwnDirs(cfg: Config, fs: Fs, call: Call)
    requires TreeOk(fs) && InodesOk(fs) && call.PutCall?
    ensures var fs' := Do(cfg, fs, call);
            && TreeOk(fs') && InodesOk(fs')
            && forall d | d in fs'.dirs :: d in fs.dirs || Under(d, Parent(FullPath(cfg.root, call.ref)))
  {
    PutStoresItsBytesOrNothing(cfg, fs, call.ref, call.source, call.size, call.checksum, call.stamp);
    if Complete(call.ref, call.checksum) { PutEndsWithMkdir(cfg, fs, call); }
  }

  /** The directories after a Put are those after its mkdir. */
  lemma PutEndsWithMkdir(cfg: Config, fs: Fs, call: Call)
    requires TreeOk(fs) && InodesOk(fs) && call.PutCall? && Complete(call.ref, call.checksum)
    ensures Do(cfg, fs, call).dirs == MkdirAll(fs, Parent(FullPath(cfg.root, call.ref))).0.dirs
  {
    var path := FullPath(cfg.root, call.ref);
    var (made, ok) := MkdirAll(fs, Parent(path));
    ParseIsCanonical(JoinPath([cfg.root, Key(call.ref)]));
    TempDiffers(path, call.stamp);
    assert InodesOk(made);
    if ok {
      PutIntoEffect(cfg, made, call.ref, call.source, call.size, call.checksum, path, TempPath(path, call.stamp));
    }
  }

  lemma DeleteMakesNoDirs(cfg: Config, fs: Fs, ref: PackageRef)
    requires TreeOk(fs) && InodesOk(fs)
    ensures var fs' := DeleteAlone(fs, FullPath(cfg.root, ref)).0; TreeOk(fs') && InodesOk(fs') && fs'.dirs <= fs.dirs
  {
    var path := FullPath(cfg.root, ref);
    var (a, removal) := Remove(fs, path);
    RemoveKeeps(fs, path);
    if !removal.Refused? {
      var b := Remove(a, Parent(path)).0;
      RemoveKeeps(a, Parent(path));
      RemoveKeeps(b, Parent(Parent(path)));
    }
  }

  lemma MoreCalls(cfg: Config, past: seq<Call>, call: Call, d: Path)
    requires Accounted(cfg, past, d)
    ensures Accounted(cfg, past + [call], d)
  {
    if !Under(d, Parse(cfg.root)) {
      var c :| c in past && c.PutCall? && Under(d, Parent(FullPath(cfg.root, c.ref)));
      assert c in past + [call];
    }
  }

  lemma DoIsAccounted(cfg: Config, fs: Fs, past: seq<Call>, call: Call)
    requires TreeOk(fs) && InodesOk(fs) && AllAccounted(cfg, past, fs)
    ensures var fs' := Do(cfg, fs, call); TreeOk(fs') && InodesOk(fs') && AllAccounted(cfg, past + [call], fs')
  {
    if call.PutCall? { PutMakesItsOwnDirs(cfg, fs, call); } else { DeleteMakesNoDirs(cfg, fs, call.ref); }
    forall d | d in Do(cfg, fs, call).dirs
      ensures Accounted(cfg, past + [call], d)
    {
      assert call in past + [call];
      if d in fs.dirs { MoreCalls(cfg, past, call, d); }
    }
  }

  lemma HeadAndRest(past: seq<Call>, calls: seq<Call>)
    requires calls != []
    ensures past + calls == past + [calls[0]] + calls[1..]
  {
  }

  lemma {:induction false} AfterIsAccounted(cfg: Config, fs: Fs, past: seq<Call>, calls: seq<Call>)
    requires TreeOk(fs) && InodesOk(fs) && AllAccounted(cfg, past, fs)
    ensures var t := After(cfg, fs, calls); TreeOk(t) && InodesOk(t) && AllAccounted(cfg, past + calls, t)
    decreases |calls|
  {
    if calls == [] {
      assert past + calls == past;
    } else {
      HeadAndRest(past, calls);
      DoIsAccounted(cfg, fs, past, calls[0]);
      AfterIsAccounted(cfg, Do(cfg, fs, calls[0]), past + [calls[0]], calls[1..]);
    }
  }

  /** A store with no directory but its root and those above it. */
  ghost predicate Fresh(cfg: Config, fs: Fs) {
    TreeOk(fs) && InodesOk(fs) && Parse(cfg.root) in fs.dirs && forall d | d in fs.dirs :: Under(d, Parse(cfg.root))
  }

  // ---------------------------------------------------------------- listings

  /** Tenants and names that lead to a directory of their own: fixed by sanitising, as far as the
      listing sanitises what Put does not, and neither empty nor dots. */
  predicate Listable(tenant: string, name: string) {
    Plain(tenant) && Sanitize(tenant) == tenant && Plain(Sanitize(name))
  }

  /** ListVersions shows this version. */
  predicate Listed(cfg: Config, fs: Fs, tenant: string, name: string, version: string) {
    Child(NameDir(cfg.root, tenant, name), version) in fs.dirs
  }

  lemma NameDirLayout(root: Root, tenant: string, name: string)
    requires Plain(Sanitize(tenant)) && Plain(Sanitize(name))
    ensures NameDir(root, tenant, name)
         == Path(Parse(root).rooted, Parse(root).elems + [Sanitize(tenant), Sanitize(name)])
  {
    var e := [Sanitize(tenant), Sanitize(name)];
    assert Join(e) == Sanitize(tenant) + "/" + Sanitize(name) by { assert e[1..] == [Sanitize(name)]; }
    assert Join([root] + e) == root + "/" + Join(e) by { assert ([root] + e)[1..] == e; }
    assert [root, Sanitize(tenant), Sanitize(name)] == [root] + e;
    PlainBelowRoot(root, e);
    ParseIsCanonical(root + "/" + Join(e));
    ParseRender(Parse(root + "/" + Join(e)));
  }

  /** The directory of a version lies three elements below the root. */
  lemma VersionDirLayout(root: Root, tenant: string, name: string, version: string)
    requires Listable(tenant, name)
    ensures Child(NameDir(root, tenant, name), version)
         == Path(Parse(root).rooted, Parse(root).elems + [tenant, Sanitize(name), version])
  {
    NameDirLayout(root, tenant, name);
    var r := Parse(root).elems;
    assert r + [tenant, Sanitize(name)] + [version] == r + [tenant, Sanitize(name), version];
  }

  ghost predicate BelowRoot(root: Root, p: Path) {
    Under(Parse(root), p)
  }

  /** The elements of a path below the root. */
  function Below(root: Root, p: Path): seq<string>
    requires |Parse(root).elems| <= |p.elems|
  {
    p.elems[|Parse(root).elems|..]
  }

  /** The parent of the reference's file lies in the directory of this version. */
  ghost predicate LiesIn(root: Root, ref: PackageRef, tenant: string, name: string, version: string) {
    var p := Parent(FullPath(root, ref));
    BelowRoot(root, p) && [tenant, name, version] <= Below(root, p)
  }

  lemma LiesInExactly(root: Root, ref: PackageRef, tenant: string, name: string, version: string)
    ensures LiesIn(root, ref, tenant, name, version) <==>
            Under(Path(Parse(root).rooted, Parse(root).elems + [tenant, name, version]), Parent(FullPath(root, ref)))
  {
    var r, p, e := Parse(root).elems, Parent(FullPath(root, ref)), [tenant, name, version];
    if |r| + 3 <= |p.elems| {
      assert p.elems[..|r| + 3] == p.elems[..|r|] + p.elems[|r|..][..3];
      assert (r + e)[..|r|] == r && (r + e)[|r|..] == e;
    }
  }

  /** Some Put among the calls was made with this tenant, name and version, as sanitised. */
  ghost predicate Attempted(calls: seq<Call>, tenant: string, name: string, version: string) {
    exists c | c in calls :: c.PutCall? && Own(c.ref) == [tenant, name, version]
  }

  /** The tenant, name and version that a reference states. */
  function Own(ref: PackageRef): seq<string> {
    [ref.tenant, Sanitize(ref.name), Sanitize(ref.version)]
  }

  /** After any calls, for all references: a listed version lies on the way to the parent of the
      file of some Put among them. */
  lemma ListedVersionsLieOnTheWayOfPuts(cfg: Config, fs: Fs, calls: seq<Call>, tenant: string, name: string,
                                        version: string)
    requires Fresh(cfg, fs) && Listable(tenant, name) && Listed(cfg, After(cfg, fs, calls), tenant, name, version)
    ensures exists c | c in calls :: c.PutCall? && LiesIn(cfg.root, c.ref, tenant, Sanitize(name), version)
  {
    var d := Child(NameDir(cfg.root, tenant, name), version);
    VersionDirLayout(cfg.root, tenant, name, version);
    assert [] + calls == calls;
    AfterIsAccounted(cfg, fs, [], calls);
    assert Accounted(cfg, calls, d);
    var c :| c in calls && c.PutCall? && Under(d, Parent(FullPath(cfg.root, c.ref)));
    LiesInExactly(cfg.root, c.ref, tenant, Sanitize(name), version);
  }

  /** The other half, after any calls: a version whose directory holds an object is listed. */
  lemma VersionsWithObjectsAreListed(cfg: Config, fs: Fs, calls: seq<Call>, ref: PackageRef, tenant: string,
                                     name: string, version: string)
    requires Fresh(cfg, fs) && Listable(tenant, name)
    requires LiesIn(cfg.root, ref, tenant, Sanitize(name), version)
    requires FullPath(cfg.root, ref) in After(cfg, fs, calls).files
    ensures Listed(cfg, After(cfg, fs, calls), tenant, name, version)
  {
    var t, d := After(cfg, fs, calls), Child(NameDir(cfg.root, tenant, name), version);
    AfterIsAccounted(cfg, fs, [], calls);
    VersionDirLayout(cfg.root, tenant, name, version);
    LiesInExactly(cfg.root, ref, tenant, Sanitize(name), version);
    DirsAbove(t, d, Parent(FullPath(cfg.root, ref)));
  }

  lemma {:induction false} DirsAbove(fs: Fs, d: Path, p: Path)
    requires TreeOk(fs) && p in fs.dirs && Under(d, p)
    ensures d in fs.dirs
    decreases |p.elems|
  {
    if |d.elems| == |p.elems| {
      assert d == p;
    } else {
      assert Parent(p) in fs.dirs;
      DirsAbove(fs, d, Parent(p));
    }
  }

  // ---------------------------------------------------------------- references that stray

  /** The parent of the reference's file lies in a directory that some listing shows as a version,
      and that is not the one of its own tenant, name and version. */
  predicate Strays(root: Root, ref: PackageRef) {
    var p, r := Parent(FullPath(root, ref)), Parse(root);
    && p.rooted == r.rooted && |r.elems| + 3 <= |p.elems| && r.elems == p.elems[..|r.elems|]
    && Listable(Below(root, p)[0], Below(root, p)[1]) && Sanitize(Below(root, p)[1]) == Below(root, p)[1]
    && Below(root, p)[..3] != Own(ref)
  }

  /** A Put lies in one version only: its own, or else it strays. */
  lemma LiesAtHomeOrStrays(root: Root, ref: PackageRef, tenant: string, name: string, version: string)
    requires Listable(tenant, name) && LiesIn(root, ref, tenant, Sanitize(name), version)
    ensures Own(ref) == [tenant, Sanitize(name), version] || Strays(root, ref)
  {
    var p := Parent(FullPath(root, ref));
    var e := [tenant, Sanitize(name), version];
    assert Below(root, p)[..3] == e;
    assert e[0] == tenant && e[1] == Sanitize(name);
    SanitizeTwice(name);
  }

  lemma SanitizeTwice(s: string)
    ensures Sanitize(Sanitize(s)) == Sanitize(s)
  {
  }

  /** When no Put among the calls strays, every listed version was attempted. */
  lemma ListedVersionsComeFromPuts(cfg: Config, fs: Fs, calls: seq<Call>, tenant: string, name: string,
                                   version: string)
    requires Fresh(cfg, fs) && Listable(tenant, name)
    requires forall c | c in calls && c.PutCall? :: !Strays(cfg.root, c.ref)
    ensures Listed(cfg, After(cfg, fs, calls), tenant, name, version)
            ==> Attempted(calls, tenant, Sanitize(name), version)
  {
    if Listed(cfg, After(cfg, fs, calls), tenant, name, version) {
      ListedVersionsLieOnTheWayOfPuts(cfg, fs, calls, tenant, name, version);
      var c :| c in calls && c.PutCall? && LiesIn(cfg.root, c.ref, tenant, Sanitize(name), version);
      LiesAtHomeOrStrays(cfg.root, c.ref, tenant, name, version);
    }
  }

  /** Some listing shows a version that no Put among the calls attempted. */
  ghost predicate Misleads(cfg: Config, fs: Fs, calls: seq<Call>) {
    exists tenant, name, version ::
      Listable(tenant, name) && Listed(cfg, fs, tenant, name, version)
      && !Attempted(calls, tenant, Sanitize(name), version)
  }

  /** The condition is exact, and one Put is enough: on an empty store a Put makes listings mislead
      if and only if its fields are given and its reference strays, whatever its bytes and its
      checksum. */
  lemma OnePutMisleadsExactlyWhenItStrays(cfg: Config, fs: Fs, call: Call)
    requires Fresh(cfg, fs) && fs.files == map[] && call.PutCall?
    ensures Misleads(cfg, Do(cfg, fs, call), [call])
            <==> Complete(call.ref, call.checksum) && Strays(cfg.root, call.ref)
  {
    if Complete(call.ref, call.checksum) && Strays(cfg.root, call.ref) { StrayPutMisleads(cfg, fs, call); }
    if Misleads(cfg, Do(cfg, fs, call), [call]) {
      var tenant, name, version :| Listable(tenant, name) && Listed(cfg, Do(cfg, fs, call), tenant, name, version)
                                   && !Attempted([call], tenant, Sanitize(name), version);
      OneCall(cfg, fs, call);
      if !Complete(call.ref, call.checksum) { NothingListed(cfg, fs, tenant, name, version); }
      if !Strays(cfg.root, call.ref) { ListedVersionsComeFromPuts(cfg, fs, [call], tenant, name, version); }
    }
  }

  lemma OneCall(cfg: Config, fs: Fs, call: Call)
    ensures After(cfg, fs, [call]) == Do(cfg, fs, call)
  {
    assert [call][1..] == [];
  }

  lemma NothingListed(cfg: Config, fs: Fs, tenant: string, name: string, version: string)
    requires Fresh(cfg, fs) && Listable(tenant, name)
    ensures !Listed(cfg, fs, tenant, name, version)
  {
    VersionDirLayout(cfg.root, tenant, name, version);
  }

  /** A Put on an empty store makes all directories on the way to its file. */
  lemma PutMakesItsWay(cfg: Config, fs: Fs, call: Call)
    requires Fresh(cfg, fs) && fs.files == map[] && call.PutCall? && Complete(call.ref, call.checksum)
    requires BelowRoot(cfg.root, Parent(FullPath(cfg.root, call.ref)))
    ensures var t := Do(cfg, fs, call); TreeOk(t) && Parent(FullPath(cfg.root, call.ref)) in t.dirs
  {
    MkdirAllSucceeds(fs, Parse(cfg.root), Parent(FullPath(cfg.root, call.ref)));
    PutEndsWithMkdir(cfg, fs, call);
    PutMakesItsOwnDirs(cfg, fs, call);
  }

  /** A straying reference lies in a version, which is not its own. */
  lemma StrayLiesElsewhere(root: Root, ref: PackageRef) returns (tenant: string, name: string, version: string)
    requires Strays(root, ref)
    ensures Listable(tenant, name) && LiesIn(root, ref, tenant, Sanitize(name), version)
    ensures Own(ref) != [tenant, Sanitize(name), version]
  {
    var b := Below(root, Parent(FullPath(root, ref)));
    tenant, name, version := b[0], b[1], b[2];
    assert [tenant, Sanitize(name), version] == b[..3];
  }

  lemma StrayPutMisleads(cfg: Config, fs: Fs, call: Call)
    requires Fresh(cfg, fs) && fs.files == map[] && call.PutCall?
    requires Complete(call.ref, call.checksum) && Strays(cfg.root, call.ref)
    ensures Misleads(cfg, Do(cfg, fs, call), [call])
  {
    var tenant, name, version := StrayLiesElsewhere(cfg.root, call.ref);
    var d := Child(NameDir(cfg.root, tenant, name), version);
    PutMakesItsWay(cfg, fs, call);
    VersionDirLayout(cfg.root, tenant, name, version);
    LiesInExactly(cfg.root, call.ref, tenant, Sanitize(name), version);
    DirsAbove(Do(cfg, fs, call), d, Parent(FullPath(cfg.root, call.ref)));
    assert Listed(cfg, Do(cfg, fs, call), tenant, name, version);
    assert !Attempted([call], tenant, Sanitize(name), version);
  }

  // ---------------------------------------------------------------- which references stay

  /** The elements that cleaning keeps where nothing climbs. */
  function Kept(parts: seq<string>): seq<string> {
    if parts == [] then []
    else if parts[0] == "" || parts[0] == "." then Kept(parts[1..])
    else [parts[0]] + Kept(parts[1..])
  }

  lemma {:induction false} ReduceWithoutClimbing(rooted: bool, parts: seq<string>, kept: seq<string>)
    requires ".." !in parts
    ensures Reduce(rooted, parts, kept) == kept + Kept(parts)
    decreases |parts|
  {
    if parts != [] {
      assert parts[0] in parts && ".." !in parts[1..];
      if parts[0] == "" || parts[0] == "." { ReduceWithoutClimbing(rooted, parts[1..], kept); }
      else { ReduceWithoutClimbing(rooted, parts[1..], kept + [parts[0]]); }
    }
  }

  lemma {:induction false} KeptArePlain(parts: seq<string>)
    requires ".." !in parts && forall i | 0 <= i < |parts| :: NoSlash(parts[i])
    ensures forall i | 0 <= i < |Kept(parts)| :: Plain(Kept(parts)[i])
  {
    if parts != [] {
      assert parts[0] in parts && ".." !in parts[1..];
      KeptArePlain(parts[1..]);
    }
  }

  /** Plain tenant, name and version, and a digest with no element that climbs; slashes and dots
      may be in it. */
  predicate StaysDown(ref: PackageRef) {
    && Plain(ref.tenant) && Plain(Sanitize(ref.name)) && Plain(Sanitize(ref.version))
    && ".." !in Split(HexPart(ref.digest))
  }

  lemma SplitOfFour(a: string, b: string, c: string, d: string)
    requires NoSlash(a) && NoSlash(b) && NoSlash(c)
    ensures Split(a + "/" + (b + "/" + (c + "/" + d))) == [a, b, c] + Split(d)
  {
    SplitConcat(a, b + "/" + (c + "/" + d));
    SplitConcat(b, c + "/" + d);
    SplitConcat(c, d);
    SplitOfOne(a);
    SplitOfOne(b);
    SplitOfOne(c);
    assert [a] + ([b] + ([c] + Split(d))) == [a, b, c] + Split(d);
  }

  lemma KeyParts(ref: PackageRef)
    requires Plain(ref.tenant) && Plain(Sanitize(ref.name)) && Plain(Sanitize(ref.version))
    ensures Key(ref) == Render(Path(false, Reduce(false, Own(ref) + Split(HexPart(ref.digest)), [])))
  {
    JoinOfFour(ref.tenant, Sanitize(ref.name), Sanitize(ref.version), HexPart(ref.digest));
    SplitOfFour(ref.tenant, Sanitize(ref.name), Sanitize(ref.version), HexPart(ref.digest));
    assert Join([ref.tenant, Sanitize(ref.name), Sanitize(ref.version), HexPart(ref.digest)])[0] == ref.tenant[0];
  }

  /** The key of a staying reference: its own three elements and what cleaning keeps of the digest. */
  lemma StayingKey(ref: PackageRef)
    requires StaysDown(ref)
    ensures var e := Own(ref) + Kept(Split(HexPart(ref.digest)));
            Key(ref) == Join(e) && forall i | 0 <= i < |e| :: Plain(e[i])
  {
    var parts := Split(HexPart(ref.digest));
    var e := Own(ref) + Kept(parts);
    KeyParts(ref);
    KeptArePlain(parts);
    ReduceConcat(false, Own(ref), parts, []);
    PushPlain(false, Own(ref), []);
    assert [] + Own(ref) == Own(ref);
    ReduceWithoutClimbing(false, parts, Own(ref));
    assert Render(Path(false, e)) == "" + Join(e);
  }

  lemma StayingLayout(root: Root, ref: PackageRef)
    requires StaysDown(ref)
    ensures FullPath(root, ref)
         == Path(Parse(root).rooted, Parse(root).elems + Own(ref) + Kept(Split(HexPart(ref.digest))))
  {
    var r, rest := Parse(root).elems, Kept(Split(HexPart(ref.digest)));
    StayingKey(ref);
    PlainLayout(root, Own(ref) + rest);
    assert r + Own(ref) + rest == r + (Own(ref) + rest);
  }

  /** Such references do not stray. */
  lemma StayingRefsDoNotStray(root: Root, ref: PackageRef)
    requires StaysDown(ref)
    ensures !Strays(root, ref)
  {
    StayingLayout(root, ref);
    var r, own, rest := Parse(root).elems, Own(ref), Kept(Split(HexPart(ref.digest)));
    var p := Parent(FullPath(root, ref));
    if |p.elems| >= |r| + 3 {
      assert (r + own + rest)[|r|..|r| + 3] == own;
      assert Below(root, p)[..3] == own;
    }
  }

  /** The version of a staying reference is its own, when its digest names a file below it. */
  lemma StayingRefsLieAtHome(root: Root, ref: PackageRef)
    requires StaysDown(ref) && Kept(Split(HexPart(ref.digest))) != []
    ensures LiesIn(root, ref, ref.tenant, Sanitize(ref.name), Sanitize(ref.version))
  {
    StayingLayout(root, ref);
    var r, own, rest := Parse(root).elems, Own(ref), Kept(Split(HexPart(ref.digest)));
    var p := Parent(FullPath(root, ref));
    assert p.elems == r + own + rest[..|rest| - 1];
    assert p.elems[..|r|] == r && p.elems[|r|..] == own + rest[..|rest| - 1];
  }

  /** Puts by digests that do not climb and any Deletes: what is listed was attempted, and a version
      that holds an object of such a digest is listed. */
  lemma StayingPutsAreListedRight(cfg: Config, fs: Fs, calls: seq<Call>, tenant: string, name: string, version: string)
    requires Fresh(cfg, fs) && Listable(tenant, name)
    requires forall c | c in calls && c.PutCall? :: StaysDown(c.ref)
    ensures var t := After(cfg, fs, calls);
            && (Listed(cfg, t, tenant, name, version) ==> Attempted(calls, tenant, Sanitize(name), version))
            && (forall ref | StaysDown(ref) && Own(ref) == [tenant, Sanitize(name), version]
                             && Kept(Split(HexPart(ref.digest))) != [] && FullPath(cfg.root, ref) in t.files ::
                  Listed(cfg, t, tenant, name, version))
  {
    forall c | c in calls && c.PutCall?
      ensures !Strays(cfg.root, c.ref)
    {
      StayingRefsDoNotStray(cfg.root, c.ref);
    }
    ListedVersionsComeFromPuts(cfg, fs, calls, tenant, name, version);
    forall ref | StaysDown(ref) && Own(ref) == [tenant, Sanitize(name), version]
                 && Kept(Split(HexPart(ref.digest))) != [] && FullPath(cfg.root, ref) in After(cfg, fs, calls).files
      ensures Listed(cfg, After(cfg, fs, calls), tenant, name, version)
    {
      StayingRefsLieAtHome(cfg.root, ref);
      assert Own(ref)[0] == tenant && Own(ref)[1] == Sanitize(name) && Own(ref)[2] == version;
      VersionsWithObjectsAreListed(cfg, fs, calls, ref, tenant, name, version);
    }
  }

  // ---------------------------------------------------------------- one that strays

  lemma ClimbingDigest(digest: string, w: string, x: string)
    requires Plain(w) && Plain(x) && digest == "../" + w + "/" + x
    ensures Split(HexPart(digest)) == [".."] + ([w] + [x])
  {
    assert digest[0] == '.' && HexPart(digest) == digest;
    assert digest == ".." + "/" + (w + "/" + x);
    SplitConcat("..", w + "/" + x);
    SplitConcat(w, x);
    SplitOfOne("..");
    SplitOfOne(w);
    SplitOfOne(x);
  }

  lemma ClimbOnce(rest: seq<string>, kept: seq<string>)
    requires kept != [] && kept[|kept| - 1] != ".."
    ensures Reduce(false, [".."] + rest, kept) == Reduce(false, rest, kept[..|kept| - 1])
  {
    assert ([".."] + rest)[1..] == rest;
  }

  lemma ClimbIntoAnother(own: seq<string>, rest: seq<string>)
    requires own != [] && forall i | 0 <= i < |own| :: Plain(own[i])
    requires forall i | 0 <= i < |rest| :: Plain(rest[i])
    ensures Reduce(false, own + ([".."] + rest), []) == own[..|own| - 1] + rest
  {
    ReduceConcat(false, own, [".."] + rest, []);
    PushPlain(false, own, []);
    assert [] + own == own;
    ClimbOnce(rest, own);
    PushPlain(false, rest, own[..|own| - 1]);
  }

  lemma ClimbingKey(ref: PackageRef, w: string, x: string)
    requires Plain(ref.tenant) && Plain(Sanitize(ref.name)) && Plain(Sanitize(ref.version)) && Plain(w) && Plain(x)
    requires ref.digest == "../" + w + "/" + x
    ensures Key(ref) == Join([ref.tenant, Sanitize(ref.name), w, x])
  {
    var e := [ref.tenant, Sanitize(ref.name), w, x];
    ClimbingDigest(ref.digest, w, x);
    KeyParts(ref);
    ClimbIntoAnother(Own(ref), [w] + [x]);
    assert Own(ref)[..2] + ([w] + [x]) == e;
    assert Render(Path(false, e)) == "" + Join(e);
  }

  /** The digest "../w/x", which a publish passes on unchecked and which no content has, makes the
      listing of its tenant and name show a version w that nobody has attempted. */
  lemma ClimbingDigestListsWhatNobodyAttempted(cfg: Config, fs: Fs, call: Call, w: string, x: string)
    requires Fresh(cfg, fs) && fs.files == map[] && call.PutCall? && Complete(call.ref, call.checksum)
    requires Listable(call.ref.tenant, call.ref.name) && Plain(Sanitize(call.ref.version)) && Plain(w) && Plain(x)
    requires call.ref.digest == "../" + w + "/" + x && w != Sanitize(call.ref.version)
    ensures Strays(cfg.root, call.ref)
    ensures Listed(cfg, Do(cfg, fs, call), call.ref.tenant, call.ref.name, w)
    ensures !Attempted([call], call.ref.tenant, Sanitize(call.ref.name), w)
  {
    ClimbingPath(cfg.root, call.ref, w, x);
    PutMakesItsWay(cfg, fs, call);
    VersionDirLayout(cfg.root, call.ref.tenant, call.ref.name, w);
    assert Own(call.ref)[2] != w;
  }

  lemma ClimbingPath(root: Root, ref: PackageRef, w: string, x: string)
    requires Listable(ref.tenant, ref.name) && Plain(Sanitize(ref.version)) && Plain(w) && Plain(x)
    requires ref.digest == "../" + w + "/" + x && w != Sanitize(ref.version)
    ensures var p := Parent(FullPath(root, ref));
            && p == Path(Parse(root).rooted, Parse(root).elems + [ref.tenant, Sanitize(ref.name), w])
            && Under(Parse(root), p) && Strays(root, ref)
  {
    var r, e := Parse(root).elems, [ref.tenant, Sanitize(ref.name), w, x];
    ClimbingKey(ref, w, x);
    PlainLayout(root, e);
    assert (r + e)[..|r + e| - 1] == r + [ref.tenant, Sanitize(ref.name), w];
    var q := r + [ref.tenant, Sanitize(ref.name), w];
    assert q[..|r|] == r && q[|r|..] == [ref.tenant, Sanitize(ref.name), w];
    assert Own(ref)[2] != w;
    SanitizeTwice(ref.name);
  }

  // ---------------------------------------------------------------- ordinary names

  /** After a stored Put of ordinary names, ListVersions shows the version as it was given. The
      checksum is the digest of the reference, as the handlers have it, or the digest does not climb. */
  lemma StoredVersionIsListed(cfg: Config, fs: Fs, ref: PackageRef, source: Bytes,
                              size: int, checksum: string, stamp: Stamp)
    requires TreeOk(fs) && InodesOk(fs) && Ordinary(ref.tenant) && Ordinary(ref.name) && Ordinary(ref.version)
    requires checksum == ref.digest || (".." !in Split(HexPart(ref.digest)) && Kept(Split(HexPart(ref.digest))) != [])
    requires PutAlone(cfg, fs, ref, source, size, checksum, stamp).1.Stored?
    ensures var fs' := PutAlone(cfg, fs, ref, source, size, checksum, stamp).0;
            var dir := NameDir(cfg.root, ref.tenant, ref.name);
            TreeOk(fs') && InodesOk(fs') && dir in fs'.dirs && Child(dir, ref.version) in fs'.dirs
  {
    var fs' := PutAlone(cfg, fs, ref, source, size, checksum, stamp).0;
    PutStoresItsBytesOrNothing(cfg, fs, ref, source, size, checksum, stamp);
    OrdinaryIsPlain(ref.tenant);
    OrdinaryIsPlain(ref.name);
    OrdinaryIsPlain(ref.version);
    if checksum == ref.digest { ChecksumStaysDown(cfg.sha, source); }
    StayingRefsLieAtHome(cfg.root, ref);
    VersionDirLayout(cfg.root, ref.tenant, ref.name, ref.version);
    LiesInExactly(cfg.root, ref, ref.tenant, ref.name, ref.version);
    var dir := NameDir(cfg.root, ref.tenant, ref.name);
    DirsAbove(fs', Child(dir, ref.version), Parent(FullPath(cfg.root, ref)));
    assert Parent(Child(dir, ref.version)) == dir by { assert (dir.elems + [ref.version])[..|dir.elems|] == dir.elems; }
  }

  lemma SanitizedStaysPlain(s: string)
    requires Plain(s)
    ensures Plain(Sanitize(s))
  {
    SanitizeKeepsExactly(s);
    var t := Sanitize(s);
    assert |s| == 1 ==> s == [s[0]] && t == [t[0]];
    assert |s| == 2 ==> s == [s[0], s[1]] && t == [t[0], t[1]];
  }

  lemma OrdinaryLiesAt(root: Root, ref: PackageRef)
    requires Plain(ref.tenant) && Ordinary(ref.name) && Ordinary(ref.version) && IsDigest(ref.digest)
    ensures Parent(FullPath(root, ref))
         == Path(Parse(root).rooted, Parse(root).elems + [ref.tenant, ref.name, ref.version])
  {
    var hex, r := HexPart(ref.digest), Parse(root).elems;
    assert ref.digest == "sha256:" + hex;
    OrdinaryLayout(root, ref, hex);
    assert (r + [ref.tenant, ref.name, ref.version, hex])[..|r| + 3] == r + [ref.tenant, ref.name, ref.version];
  }

  lemma OrdinaryDirOf(root: Root, tenant: string, name: string, version: string)
    requires Plain(tenant) && Ordinary(name)
    ensures Child(NameDir(root, tenant, name), version)
         == Path(Parse(root).rooted, Parse(root).elems + [Sanitize(tenant), name, version])
  {
    var r := Parse(root).elems;
    SanitizedStaysPlain(tenant);
    OrdinaryIsPlain(name);
    NameDirLayout(root, tenant, name);
    assert r + [Sanitize(tenant), name] + [version] == r + [Sanitize(tenant), name, version];
  }

  /** ListVersions sanitises the tenant and Put does not: the stored version of a tenant is listed
      under it exactly when sanitising leaves the tenant as it is. */
  lemma TenantIsListedExactlyWhenSafe(cfg: Config, fs: Fs, ref: PackageRef, source: Bytes, size: int, stamp: Stamp)
    requires Fresh(cfg, fs) && Plain(ref.tenant) && Ordinary(ref.name) && Ordinary(ref.version)
    requires PutAlone(cfg, fs, ref, source, size, ref.digest, stamp).1.Stored?
    ensures Listed(cfg, PutAlone(cfg, fs, ref, source, size, ref.digest, stamp).0, ref.tenant, ref.name, ref.version)
       <==> forall i | 0 <= i < |ref.tenant| :: ref.tenant[i] in NAME_CHARS
  {
    var call := PutCall(ref, source, size, ref.digest, stamp);
    var d := Child(NameDir(cfg.root, ref.tenant, ref.name), ref.version);
    PutStoresItsBytesOrNothing(cfg, fs, ref, source, size, ref.digest, stamp);
    ChecksumIsDigest(cfg.sha, source);
    PutMakesItsOwnDirs(cfg, fs, call);
    OrdinaryLiesAt(cfg.root, ref);
    OrdinaryDirOf(cfg.root, ref.tenant, ref.name, ref.version);
    SanitizeKeepsExactly(ref.tenant);
    assert Parent(FullPath(cfg.root, ref)) in Do(cfg, fs, call).dirs;
    SameOrNot(Parse(cfg.root), d, Parent(FullPath(cfg.root, ref)), ref.tenant, ref.name, ref.version);
    assert d in fs.dirs ==> Under(d, Parse(cfg.root));
  }

  lemma SameOrNot(root: Path, d: Path, p: Path, tenant: string, name: string, version: string)
    requires d == Path(root.rooted, root.elems + [Sanitize(tenant), name, version])
    requires p == Path(root.rooted, root.elems + [tenant, name, version])
    ensures Under(d, p) <==> Sanitize(tenant) == tenant
    ensures d == p <==> Sanitize(tenant) == tenant
    ensures !Under(d, root)
  {
    var n := |root.elems|;
    assert p.elems[..|d.elems|] == p.elems;
    assert d.elems[n] == Sanitize(tenant) && p.elems[n] == tenant;
  }

  lemma ChecksumStaysDown(sha: Sha256, source: Bytes)
    ensures var parts := Split(HexPart(Checksum(sha, source))); ".." !in parts && Kept(parts) != []
  {
    var hex := HexPart(Checksum(sha, source));
    ChecksumIsDigest(sha, source);
    HexIsPlain(hex);
    SplitOfOne(hex);
    assert Kept([hex]) == [hex];
  }

  /** On a settled store a version is listed after a Delete of one of its objects if and only if
      another file lies in its directory, and its package has a directory if and only if that or
      another version's directory is there. */
  lemma VersionStaysListedExactly(cfg: Config, fs: Fs, ref: PackageRef)
    requires Settled(cfg, fs) && FullPath(cfg.root, ref) in fs.files && IsDigest(ref.digest)
    requires Ordinary(ref.tenant) && Ordinary(ref.name) && Ordinary(ref.version)
    ensures var path := FullPath(cfg.root, ref); var dir := NameDir(cfg.root, ref.tenant, ref.name);
            var (fs', ok) := DeleteAlone(fs, path);
            && ok && path !in fs'.files
            && (Child(dir, ref.version) in fs'.dirs <==>
                exists q {:trigger q in fs.files} :: q in fs.files && q != path && Parent(q) == Child(dir, ref.version))
            && (dir in fs'.dirs <==> exists d {:trigger d in fs'.dirs} :: d in fs'.dirs && d != dir && Parent(d) == dir)
  {
    var path, dir := FullPath(cfg.root, ref), NameDir(cfg.root, ref.tenant, ref.name);
    var fs' := DeleteAlone(fs, path).0;
    HomeOf(cfg.root, ref);
    DeleteRefusesExactly(fs, path);
    DeleteRemovesOnlyItsObject(fs, path);
    DeletePrunesExactly(fs, path);
    OthersAreFiles(cfg, fs, path);
    OthersAreDirs(cfg, fs, fs', path);
  }

  /** The parent of an ordinary reference's file is the directory of its version, above that is its
      package's. */
  lemma HomeOf(root: Root, ref: PackageRef)
    requires Ordinary(ref.tenant) && Ordinary(ref.name) && Ordinary(ref.version) && IsDigest(ref.digest)
    ensures var path := FullPath(root, ref); var dir := NameDir(root, ref.tenant, ref.name);
            && Parent(path) == Child(dir, ref.version) && Parent(Parent(path)) == dir
            && |path.elems| == |Parse(root).elems| + 4
  {
    var hex, r := HexPart(ref.digest), Parse(root).elems;
    assert ref.digest == "sha256:" + hex;
    OrdinaryIsPlain(ref.tenant);
    OrdinaryIsPlain(ref.name);
    OrdinaryLayout(root, ref, hex);
    VersionDirLayout(root, ref.tenant, ref.name, ref.version);
    NameDirLayout(root, ref.tenant, ref.name);
    assert (r + [ref.tenant, ref.name, ref.version, hex])[..|r| + 3] == r + [ref.tenant, ref.name, ref.version];
    assert (r + [ref.tenant, ref.name, ref.version])[..|r| + 2] == r + [ref.tenant, ref.name];
  }

  lemma OthersAreFiles(cfg: Config, fs: Fs, path: Path)
    requires Settled(cfg, fs) && |path.elems| == Depth(cfg)
    ensures HoldsMoreThan(fs, Parent(path), path) <==>
            exists q {:trigger q in fs.files} :: q in fs.files && q != path && Parent(q) == Parent(path)
  {
    if HoldsMoreThan(fs, Parent(path), path) {
      var q :| (q in fs.dirs || q in fs.files) && q.elems != [] && Parent(q) == Parent(path) && q != path;
      assert |q.elems| == Depth(cfg) && q in fs.files;
    }
    if q :| q in fs.files && q != path && Parent(q) == Parent(path) {
      assert (q in fs.dirs || q in fs.files) && q.elems != [] && Parent(q) == Parent(path);
    }
  }

  lemma OthersAreDirs(cfg: Config, fs: Fs, fs': Fs, path: Path)
    requires Settled(cfg, fs) && TreeOk(fs') && path in fs.files && |path.elems| == Depth(cfg)
    requires var up, top := Parent(path), Parent(Parent(path));
             && fs'.dirs <= fs.dirs && (forall d | d in fs.dirs && d != path && d != up && d != top :: d in fs'.dirs)
             && (top in fs'.dirs <==> top in fs.dirs && (up in fs'.dirs || HoldsMoreThan(fs, top, up)))
    ensures var top := Parent(Parent(path));
            top in fs'.dirs <==> exists d {:trigger d in fs'.dirs} :: d in fs'.dirs && d != top && Parent(d) == top
  {
    var up, top := Parent(path), Parent(Parent(path));
    assert up in fs.dirs && top in fs.dirs;
    if HoldsMoreThan(fs, top, up) {
      var q :| (q in fs.dirs || q in fs.files) && q.elems != [] && Parent(q) == top && q != up;
      assert |q.elems| == Depth(cfg) - 1 && q in fs.dirs && q in fs'.dirs;
    }
    if d :| d in fs'.dirs && d != top && Parent(d) == top {
      assert Parent(d) in fs'.dirs;
    }
  }

  /** The directory two levels above a deleted object can be read, or is gone. */
  lemma GrandparentIsNoFile(fs: Fs, path: Path)
    requires TreeOk(fs) && InodesOk(fs) && path in fs.files && Parent(Parent(path)).elems != []
    ensures var e := Stat(DeleteAlone(fs, path).0, Parent(Parent(path))); e.Directory? || e.NotFound?
  {
    var fs', dir := DeleteAlone(fs, path).0, Parent(Parent(path));
    DeleteRemovesOnlyItsObject(fs, path);
    assert Parent(path) in fs.dirs && dir in fs.dirs && dir !in fs.files;
    ParentNotBlocked(fs, dir);
    NoNewFiles(fs, fs', path);
    UnblockedStays(fs, fs', dir);
  }

  lemma NoNewFiles(fs: Fs, fs': Fs, path: Path)
    requires path !in fs'.files && forall p | p != path :: Unchanged(fs, fs', p)
    ensures fs'.files.Keys <= fs.files.Keys
  {
    forall p | p in fs'.files ensures p in fs.files { assert Unchanged(fs, fs', p); }
  }
}
