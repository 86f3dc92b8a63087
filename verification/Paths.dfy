/** Storage keys. Go's lexical path handling (package path/filepath on Unix), the keys that
    the local backend derives with it, and the slash-joined keys of the object stores. */
module Paths {
  import opened Content

  /** What identifies one stored artifact. */
  datatype PackageRef = PackageRef(tenant: string, name: string, version: string, digest: string)

  // ---------------------------------------------------------------- splitting and joining

  predicate NoSlash(s: string) {
    '/' !in s
  }

  function Split(s: string): (parts: seq<string>)
    ensures |parts| > 0
    ensures forall i | 0 <= i < |parts| :: NoSlash(parts[i])
  {
    if s == "" then [""]
    else
      var rest := Split(s[1..]);
      if s[0] == '/' then [""] + rest else [[s[0]] + rest[0]] + rest[1..]
  }

  function Join(parts: seq<string>): string
    requires |parts| > 0
  {
    if |parts| == 1 then parts[0] else parts[0] + "/" + Join(parts[1..])
  }

  lemma {:induction false} SplitOfOne(a: string)
    requires NoSlash(a)
    ensures Split(a) == [a]
  {
    if a != "" {
      assert a[0] in a && NoSlash(a[1..]);
      SplitOfOne(a[1..]);
      assert a == [a[0]] + a[1..];
    }
  }

  lemma {:induction false} SplitConcat(a: string, b: string)
    ensures Split(a + "/" + b) == Split(a) + Split(b)
  {
    var s := a + "/" + b;
    if a == "" {
      assert s[1..] == b;
    } else {
      assert s[1..] == a[1..] + "/" + b;
      SplitConcat(a[1..], b);
    }
  }

  lemma {:induction false} JoinSplit(s: string)
    ensures Join(Split(s)) == s
  {
    if s != "" {
      JoinSplit(s[1..]);
      var rest := Split(s[1..]);
      if s[0] == '/' {
        assert ([""] + rest)[1..] == rest;
        assert s == "" + "/" + s[1..];
      } else {
        var parts := [[s[0]] + rest[0]] + rest[1..];
        assert parts == Split(s);
        assert parts[1..] == rest[1..];
        assert Join(parts) == [s[0]] + Join(rest);
      }
    }
  }

  lemma {:induction false} SplitJoin(parts: seq<string>)
    requires |parts| > 0 && forall i | 0 <= i < |parts| :: NoSlash(parts[i])
    ensures Split(Join(parts)) == parts
  {
    SplitOfOne(parts[0]);
    if |parts| > 1 {
      SplitJoin(parts[1..]);
      SplitConcat(parts[0], Join(parts[1..]));
      assert parts == [parts[0]] + parts[1..];
    } else {
      assert parts == [parts[0]];
    }
  }

  // ---------------------------------------------------------------- cleaned paths

  /** A cleaned path: the elements between its slashes. */
  datatype Path = Path(rooted: bool, elems: seq<string>)

  function Last(p: Path): string {
    if p.elems == [] then "" else p.elems[|p.elems| - 1]
  }

  /** filepath.Dir of a cleaned path. */
  function Parent(p: Path): Path {
    if p.elems == [] then p else p.(elems := p.elems[..|p.elems| - 1])
  }

  /** The loop of filepath.Clean over the elements of a path; the result is what it has kept. */
  function Reduce(rooted: bool, parts: seq<string>, kept: seq<string>): seq<string>
    decreases |parts|
  {
    if parts == [] then kept
    else if parts[0] == "" || parts[0] == "." then Reduce(rooted, parts[1..], kept)
    else if parts[0] == ".." then
      if kept != [] && kept[|kept| - 1] != ".." then Reduce(rooted, parts[1..], kept[..|kept| - 1])
      else if rooted then Reduce(rooted, parts[1..], kept)
      else Reduce(rooted, parts[1..], kept + [".."])
    else Reduce(rooted, parts[1..], kept + [parts[0]])
  }

  function Parse(s: string): Path {
    var rooted := s != "" && s[0] == '/';
    Path(rooted, Reduce(rooted, Split(s), []))
  }

  function Render(p: Path): string {
    if p.elems == [] then (if p.rooted then "/" else ".")
    else (if p.rooted then "/" else "") + Join(p.elems)
  }

  /** filepath.Clean */
  function Clean(s: string): string {
    Render(Parse(s))
  }

  /** filepath.Join: leading empty elements are dropped, the others joined and cleaned. */
  function JoinPath(elems: seq<string>): string {
    if elems == [] then ""
    else if elems[0] == "" then JoinPath(elems[1..])
    else Clean(Join(elems))
  }

  /** What Clean leaves: no empty or dot element, and dot-dot only in front of a relative path. */
  predicate Canonical(p: Path) {
    forall i {:trigger CanonicalAt(p, i)} {:trigger p.elems[i]} | 0 <= i < |p.elems| :: CanonicalAt(p, i)
  }

  predicate CanonicalAt(p: Path, i: nat)
    requires i < |p.elems|
  {
    && NoSlash(p.elems[i]) && p.elems[i] != "" && p.elems[i] != "."
    && (p.elems[i] == ".." ==> !p.rooted && (i == 0 || p.elems[i - 1] == ".."))
  }

  lemma {:induction false} ReduceConcat(rooted: bool, a: seq<string>, b: seq<string>, kept: seq<string>)
    ensures Reduce(rooted, a + b, kept) == Reduce(rooted, b, Reduce(rooted, a, kept))
    decreases |a|
  {
    if a == [] {
      assert a + b == b;
    } else {
      assert (a + b)[0] == a[0] && (a + b)[1..] == a[1..] + b;
      if a[0] == "" || a[0] == "." {
        ReduceConcat(rooted, a[1..], b, kept);
      } else if a[0] == ".." {
        if kept != [] && kept[|kept| - 1] != ".." {
          ReduceConcat(rooted, a[1..], b, kept[..|kept| - 1]);
        } else if rooted {
          ReduceConcat(rooted, a[1..], b, kept);
        } else {
          ReduceConcat(rooted, a[1..], b, kept + [".."]);
        }
      } else {
        ReduceConcat(rooted, a[1..], b, kept + [a[0]]);
      }
    }
  }

  lemma CanonicalPrefix(p: Path, n: nat)
    requires Canonical(p) && n <= |p.elems|
    ensures Canonical(Path(p.rooted, p.elems[..n]))
  {
    var q := Path(p.rooted, p.elems[..n]);
    forall i | 0 <= i < n
      ensures CanonicalAt(q, i)
    {
      assert CanonicalAt(p, i);
    }
  }

  lemma {:induction false} ReduceCanonical(rooted: bool, parts: seq<string>, kept: seq<string>)
    requires forall i | 0 <= i < |parts| :: NoSlash(parts[i])
    requires Canonical(Path(rooted, kept))
    ensures Canonical(Path(rooted, Reduce(rooted, parts, kept)))
    decreases |parts|
  {
    if parts != [] {
      if parts[0] == "" || parts[0] == "." {
        ReduceCanonical(rooted, parts[1..], kept);
      } else if parts[0] == ".." {
        if kept != [] && kept[|kept| - 1] != ".." {
          CanonicalPrefix(Path(rooted, kept), |kept| - 1);
          ReduceCanonical(rooted, parts[1..], kept[..|kept| - 1]);
        } else if rooted {
          ReduceCanonical(rooted, parts[1..], kept);
        } else {
          ReduceCanonical(rooted, parts[1..], kept + [".."]);
        }
      } else {
        ReduceCanonical(rooted, parts[1..], kept + [parts[0]]);
      }
    }
  }

  lemma ParseIsCanonical(s: string)
    ensures Canonical(Parse(s))
  {
    ReduceCanonical(Parse(s).rooted, Split(s), []);
  }

  /** The loop of Clean keeps a path that is clean already. */
  lemma {:induction false} ReduceKeeps(rooted: bool, parts: seq<string>, kept: seq<string>)
    requires Canonical(Path(rooted, kept + parts))
    ensures Reduce(rooted, parts, kept) == kept + parts
    decreases |parts|
  {
    if parts == [] {
      assert kept + parts == kept;
    } else {
      var p := Path(rooted, kept + parts);
      assert p.elems[|kept|] == parts[0];
      assert kept + parts == (kept + [parts[0]]) + parts[1..];
      if parts[0] == ".." && kept != [] {
        assert p.elems[|kept| - 1] == kept[|kept| - 1] == "..";
      }
      ReduceKeeps(rooted, parts[1..], kept + [parts[0]]);
    }
  }

  lemma SplitRender(p: Path)
    requires Canonical(p) && p.elems != []
    ensures Split(Render(p)) == (if p.rooted then [""] else []) + p.elems
  {
    SplitJoin(p.elems);
    if p.rooted {
      SplitConcat("", Join(p.elems));
      assert Render(p) == "" + "/" + Join(p.elems);
    } else {
      assert Render(p) == Join(p.elems);
    }
  }

  lemma JoinStart(parts: seq<string>)
    requires |parts| > 0 && parts[0] != ""
    ensures Join(parts) != "" && Join(parts)[0] == parts[0][0]
  {
  }

  /** Reading a cleaned path back gives the same path, so Clean is idempotent. */
  lemma ParseRender(p: Path)
    requires Canonical(p)
    ensures Parse(Render(p)) == p
  {
    if p.elems == [] {
      assert Split("/") == ["", ""] by { assert "/"[1..] == ""; }
      SplitOfOne(".");
    } else {
      JoinStart(p.elems);
      SplitRender(p);
      assert [] + p.elems == p.elems;
      ReduceKeeps(p.rooted, p.elems, []);
      ReduceConcat(p.rooted, if p.rooted then [""] else [], p.elems, []);
    }
  }

  // ---------------------------------------------------------------- local keys

  predicate IsSafeChar(c: char) {
    'a' <= c <= 'z' || 'A' <= c <= 'Z' || '0' <= c <= '9' || c == '-' || c == '_' || c == '.'
  }

  function Sanitize(s: string): (r: string)
    ensures |r| == |s| && NoSlash(r) && forall i | 0 <= i < |r| :: IsSafeChar(r[i])
  {
    seq(|s|, i requires 0 <= i < |s| => if IsSafeChar(s[i]) then s[i] else '-')
  }

  const LOWER_CASE := "abcdefghijklmnopqrstuvwxyz"
  const UPPER_CASE := "ABCDEFGHIJKLMNOPQRSTUVWXYZ"
  const NAME_CHARS := LOWER_CASE + UPPER_CASE + "0123456789-_."

  lemma LowerCaseChars(c: char)
    ensures c in LOWER_CASE <==> 'a' <= c <= 'z'
  {
    if 'a' <= c <= 'z' {
      var i := c as int - 'a' as int;
      assert LOWER_CASE[i] as int == 'a' as int + i;
      assert LOWER_CASE[i] == c;
    }
  }

  lemma UpperCaseChars(c: char)
    ensures c in UPPER_CASE <==> 'A' <= c <= 'Z'
  {
    if 'A' <= c <= 'Z' {
      var i := c as int - 'A' as int;
      assert UPPER_CASE[i] as int == 'A' as int + i;
      assert UPPER_CASE[i] == c;
    }
  }

  lemma DigitsAndMarks(c: char)
    ensures c in "0123456789-_." <==> '0' <= c <= '9' || c == '-' || c == '_' || c == '.'
  {
    if '0' <= c <= '9' {
      var i := c as int - '0' as int;
      assert "0123456789-_."[i] as int == '0' as int + i;
      assert "0123456789-_."[i] == c;
    }
  }

  lemma InNameChars(c: char)
    ensures c in NAME_CHARS <==> c in LOWER_CASE || c in UPPER_CASE || c in "0123456789-_."
  {
  }

  lemma NameCharsAreSafe(c: char)
    ensures c in NAME_CHARS <==> IsSafeChar(c)
  {
    InNameChars(c);
    LowerCaseChars(c);
    UpperCaseChars(c);
    DigitsAndMarks(c);
  }

  /** Sanitising keeps letters, digits, '-', '_' and '.' and puts '-' for every other character; it
      leaves a text alone exactly when the text has none of those. */
  lemma SanitizeKeepsExactly(s: string)
    ensures forall i | 0 <= i < |s| :: Sanitize(s)[i] == if s[i] in NAME_CHARS then s[i] else '-'
    ensures Sanitize(s) == s <==> forall i | 0 <= i < |s| :: s[i] in NAME_CHARS
  {
    forall i | 0 <= i < |s|
      ensures s[i] in NAME_CHARS <==> IsSafeChar(s[i])
    {
      NameCharsAreSafe(s[i]);
    }
  }

  function HexPart(digest: string): string {
    TrimPrefix(digest, ALGORITHM)
  }

  function Key(ref: PackageRef): string {
    JoinPath([ref.tenant, Sanitize(ref.name), Sanitize(ref.version), HexPart(ref.digest)])
  }

  function FullPath(root: string, ref: PackageRef): Path {
    Parse(JoinPath([root, Key(ref)]))
  }

  /** An element that lexical cleaning neither drops nor lets climb. */
  predicate Plain(s: string) {
    NoSlash(s) && s != "" && s != "." && s != ".."
  }

  /** A path whose text ends in a plain element ends in that element. */
  lemma PlainEnd(s: string, front: seq<string>, d: string)
    requires Split(s) == front + [d] && Plain(d)
    ensures Parse(s).elems != [] && Last(Parse(s)) == d
  {
    ReduceConcat(Parse(s).rooted, front, [d], []);
    var kept := Reduce(Parse(s).rooted, front, []);
    assert Reduce(Parse(s).rooted, [d], kept) == kept + [d] by { assert [d][1..] == []; }
  }

  /** A cleaned join ends in its last element when that element is plain. */
  lemma {:induction false} JoinPathEnd(elems: seq<string>)
    requires |elems| > 0 && Plain(elems[|elems| - 1])
    ensures Parse(JoinPath(elems)).elems != []
    ensures Last(Parse(JoinPath(elems))) == elems[|elems| - 1]
    ensures Canonical(Parse(JoinPath(elems)))
    ensures JoinPath(elems) == Render(Parse(JoinPath(elems)))
  {
    var d := elems[|elems| - 1];
    if elems[0] == "" {
      JoinPathEnd(elems[1..]);
    } else {
      var s := Join(elems);
      SplitOfLast(elems);
      ParseIsCanonical(s);
      ParseRender(Parse(s));
      var parts := Split(s);
      assert parts == parts[..|parts| - 1] + [d];
      PlainEnd(s, parts[..|parts| - 1], d);
    }
  }

  lemma {:induction false} SplitOfLast(elems: seq<string>)
    requires |elems| > 0 && NoSlash(elems[|elems| - 1])
    ensures var parts := Split(Join(elems)); parts[|parts| - 1] == elems[|elems| - 1]
  {
    if |elems| == 1 {
      SplitOfOne(elems[0]);
    } else {
      SplitConcat(elems[0], Join(elems[1..]));
      SplitOfLast(elems[1..]);
    }
  }

  lemma HexIsPlain(d: string)
    requires IsHexDigest(d)
    ensures Plain(d)
  {
    assert forall i | 0 <= i < |d| :: IsHexDigit(d[i]);
  }

  /** Joining a cleaned key to a root keeps its plain last element. */
  lemma BelowRoot(root: string, key: string, d: string)
    requires root != "" && Plain(d)
    requires var p := Parse(key); p.elems != [] && Last(p) == d && Canonical(p) && key == Render(p)
    ensures Parse(JoinPath([root, key])).elems != [] && Last(Parse(JoinPath([root, key]))) == d
  {
    var p := Parse(key);
    SplitRender(p);
    SplitConcat(root, key);
    var parts := Split(root + "/" + key);
    LastStaysLast(Split(root), if p.rooted then [""] else [], p.elems);
    PlainEnd(root + "/" + key, parts[..|parts| - 1], d);
    JoinedToRoot(root, key);
  }

  lemma LastStaysLast(a: seq<string>, b: seq<string>, c: seq<string>)
    requires c != []
    ensures var s := a + (b + c); s != [] && s == s[..|s| - 1] + [c[|c| - 1]]
  {
    var s := a + (b + c);
    assert s[|s| - 1] == c[|c| - 1];
  }

  lemma JoinedToRoot(root: string, key: string)
    requires root != ""
    ensures Parse(JoinPath([root, key])) == Parse(root + "/" + key)
  {
    var s := root + "/" + key;
    assert Join([root, key]) == s by { assert [root, key][1..] == [key]; }
    ParseIsCanonical(s);
    ParseRender(Parse(s));
  }

  /** The file of a well-formed digest is named by its hex part, whatever tenant, name and
      version say and however cleaning rearranges them. */
  lemma DigestNamesFile(root: string, ref: PackageRef)
    requires root != "" && IsHexDigest(HexPart(ref.digest))
    ensures FullPath(root, ref).elems != [] && Last(FullPath(root, ref)) == HexPart(ref.digest)
  {
    HexIsPlain(HexPart(ref.digest));
    var elems := [ref.tenant, Sanitize(ref.name), Sanitize(ref.version), HexPart(ref.digest)];
    JoinPathEnd(elems);
    BelowRoot(root, Key(ref), HexPart(ref.digest));
  }

  /** References that share a file, after sanitising and cleaning, have the same digest: what one
      overwrites has the hash of what it writes. */
  lemma CollidingRefsHaveOneDigest(root: string, a: PackageRef, b: PackageRef)
    requires root != "" && IsDigest(a.digest) && IsDigest(b.digest) && FullPath(root, a) == FullPath(root, b)
    ensures a.digest == b.digest
  {
    DigestNamesFile(root, a);
    DigestNamesFile(root, b);
    assert a.digest == ALGORITHM + HexPart(a.digest) && b.digest == ALGORITHM + HexPart(b.digest);
  }

  /** References that cleaning leaves where they are: one directory per part. */
  predicate Flat(ref: PackageRef) {
    && Plain(ref.tenant) && Plain(Sanitize(ref.name)) && Plain(Sanitize(ref.version)) && Plain(HexPart(ref.digest))
  }

  /** References whose parts survive both sanitising and cleaning, with a real digest. */
  predicate WellFormed(ref: PackageRef) {
    && (forall part | part in [ref.tenant, ref.name, ref.version] :: Plain(part) && Sanitize(part) == part)
    && IsDigest(ref.digest)
  }

  function Elements(ref: PackageRef): seq<string> {
    [ref.tenant, Sanitize(ref.name), Sanitize(ref.version), HexPart(ref.digest)]
  }

  lemma WellFormedIsFlat(ref: PackageRef)
    requires WellFormed(ref)
    ensures Flat(ref) && Sanitize(ref.tenant) == ref.tenant
    ensures Elements(ref) == [ref.tenant, ref.name, ref.version, HexPart(ref.digest)]
  {
    HexIsPlain(HexPart(ref.digest));
    assert ref.tenant in [ref.tenant, ref.name, ref.version];
    assert ref.name in [ref.tenant, ref.name, ref.version];
    assert ref.version in [ref.tenant, ref.name, ref.version];
  }

  /** A join of plain elements is clean, and below a root it stays where it is. */
  lemma PlainLayout(root: string, e: seq<string>)
    requires root != "" && e != [] && forall i | 0 <= i < |e| :: Plain(e[i])
    ensures Clean(Join(e)) == Join(e)
    ensures Parse(JoinPath([root, Join(e)])) == Path(Parse(root).rooted, Parse(root).elems + e)
  {
    PlainJoinIsClean(e);
    PlainBelowRoot(root, e);
    JoinedToRoot(root, Join(e));
  }

  lemma PlainJoinIsClean(e: seq<string>)
    requires e != [] && forall i | 0 <= i < |e| :: Plain(e[i])
    ensures Clean(Join(e)) == Join(e)
  {
    var p := Path(false, e);
    assert Canonical(p);
    ParseRender(p);
    assert Render(p) == Join(e) by { assert Render(p) == "" + Join(e); }
  }

  lemma PlainBelowRoot(root: string, e: seq<string>)
    requires root != "" && e != [] && forall i | 0 <= i < |e| :: Plain(e[i])
    ensures Parse(root + "/" + Join(e)) == Path(Parse(root).rooted, Parse(root).elems + e)
  {
    var s := root + "/" + Join(e);
    SplitConcat(root, Join(e));
    SplitJoin(e);
    ReduceConcat(Parse(s).rooted, Split(root), e, []);
    PushPlain(Parse(s).rooted, e, Parse(root).elems);
  }

  /** The layout of flat references is root/tenant/name/version/digest. */
  lemma FlatLayout(root: string, ref: PackageRef)
    requires root != "" && Flat(ref)
    ensures FullPath(root, ref) == Path(Parse(root).rooted, Parse(root).elems + Elements(ref))
    ensures Key(ref) == Join(Elements(ref))
  {
    PlainLayout(root, Elements(ref));
  }

  /** A name of letters, digits, '-', '_' and '.' that is no dot entry. */
  predicate Ordinary(s: string) {
    s != "" && s != "." && s != ".." && forall i | 0 <= i < |s| :: s[i] in NAME_CHARS
  }

  lemma OrdinaryIsPlain(s: string)
    requires Ordinary(s)
    ensures Plain(s) && Sanitize(s) == s
  {
    SanitizeKeepsExactly(s);
  }

  /** Ordinary parts with a real digest lie where one reads them, and so does their key. */
  lemma OrdinaryLayout(root: string, ref: PackageRef, hex: string)
    requires root != "" && Plain(ref.tenant) && Ordinary(ref.name) && Ordinary(ref.version)
    requires ref.digest == "sha256:" + hex && IsHexDigest(hex)
    ensures Key(ref) == ref.tenant + "/" + ref.name + "/" + ref.version + "/" + hex
    ensures FullPath(root, ref)
         == Path(Parse(root).rooted, Parse(root).elems + [ref.tenant, ref.name, ref.version, hex])
  {
    OrdinaryIsPlain(ref.name);
    OrdinaryIsPlain(ref.version);
    HexIsPlain(hex);
    assert ref.digest[..7] == "sha256:" && HexPart(ref.digest) == hex;
    FlatLayout(root, ref);
    JoinOfFour(ref.tenant, ref.name, ref.version, hex);
  }

  lemma JoinOfFour(a: string, b: string, c: string, d: string)
    ensures Join([a, b, c, d]) == a + "/" + b + "/" + c + "/" + d
    ensures Join([a, b, c, d]) == a + "/" + (b + "/" + (c + "/" + d))
  {
    assert [a, b, c, d][1..] == [b, c, d] && [b, c, d][1..] == [c, d] && [c, d][1..] == [d];
    assert Join([c, d]) == c + "/" + d;
    assert Join([b, c, d]) == b + "/" + Join([c, d]);
    assert a + "/" + (b + "/" + (c + "/" + d)) == a + "/" + b + "/" + c + "/" + d;
  }

  /** A digest that continues behind a slash turns the file of the digest into a directory. */
  lemma SlashInDigest(root: string, ref: PackageRef, extra: string)
    requires root != "" && Flat(ref) && HasPrefix(ref.digest, ALGORITHM) && Plain(extra)
    ensures var path := FullPath(root, ref);
            FullPath(root, ref.(digest := ref.digest + "/" + extra)) == path.(elems := path.elems + [extra])
  {
    FlatLayout(root, ref);
    PlainLayout(root, Elements(ref) + [extra]);
    HexPartOfLonger(ref.digest, "/" + extra);
    assert ref.digest + "/" + extra == ref.digest + ("/" + extra);
    assert HexPart(ref.digest) + "/" + extra == HexPart(ref.digest) + ("/" + extra);
    JoinOfFive(ref.tenant, Sanitize(ref.name), Sanitize(ref.version), HexPart(ref.digest), extra);
    assert Parse(root).elems + (Elements(ref) + [extra]) == Parse(root).elems + Elements(ref) + [extra];
  }

  lemma HexPartOfLonger(digest: string, more: string)
    requires HasPrefix(digest, ALGORITHM)
    ensures HexPart(digest + more) == HexPart(digest) + more
  {
    assert (digest + more)[..|ALGORITHM|] == ALGORITHM;
  }

  lemma JoinOfFive(a: string, b: string, c: string, d: string, e: string)
    ensures Join([a, b, c, d] + [e]) == Join([a, b, c, d + "/" + e])
  {
    assert [a, b, c, d] + [e] == [a, b, c, d, e];
    assert [d, e][1..] == [e] && Join([d, e]) == d + "/" + e == Join([d + "/" + e]);
    assert [c, d, e][1..] == [d, e] && [c, d + "/" + e][1..] == [d + "/" + e];
    assert Join([c, d, e]) == Join([c, d + "/" + e]);
    assert [b, c, d, e][1..] == [c, d, e] && [b, c, d + "/" + e][1..] == [c, d + "/" + e];
    assert Join([b, c, d, e]) == Join([b, c, d + "/" + e]);
    assert [a, b, c, d, e][1..] == [b, c, d, e] && [a, b, c, d + "/" + e][1..] == [b, c, d + "/" + e];
  }

  lemma {:induction false} PushPlain(rooted: bool, parts: seq<string>, kept: seq<string>)
    requires forall i | 0 <= i < |parts| :: Plain(parts[i])
    ensures Reduce(rooted, parts, kept) == kept + parts
    decreases |parts|
  {
    if parts == [] {
      assert kept + parts == kept;
    } else {
      PushPlain(rooted, parts[1..], kept + [parts[0]]);
      assert kept + [parts[0]] + parts[1..] == kept + parts;
    }
  }

  /** Distinct well-formed references never share a file. */
  lemma WellFormedPathInjective(root: string, a: PackageRef, b: PackageRef)
    requires root != "" && WellFormed(a) && WellFormed(b) && FullPath(root, a) == FullPath(root, b)
    ensures a == b
  {
    WellFormedIsFlat(a);
    WellFormedIsFlat(b);
    FlatLayout(root, a);
    FlatLayout(root, b);
    var r := Parse(root).elems;
    assert (r + Elements(a))[|r|..] == Elements(a);
    assert (r + Elements(b))[|r|..] == Elements(b);
    assert Elements(a)[0] == Elements(b)[0] && Elements(a)[1] == Elements(b)[1];
    assert Elements(a)[2] == Elements(b)[2] && Elements(a)[3] == Elements(b)[3];
    assert a.digest == ALGORITHM + HexPart(a.digest) && b.digest == ALGORITHM + HexPart(b.digest);
  }

  // ---------------------------------------------------------------- temporary files

  /** The path that Put writes to: p + ".tmp." + stamp. */
  function TempPath(p: Path, stamp: string): Path {
    Parse(Render(p) + TempSuffix(stamp))
  }

  function TempSuffix(stamp: string): string {
    ".tmp." + stamp
  }

  lemma {:induction false} JoinAppend(parts: seq<string>, t: string)
    requires |parts| > 0
    ensures Join(parts[..|parts| - 1] + [parts[|parts| - 1] + t]) == Join(parts) + t
  {
    var longer := parts[..|parts| - 1] + [parts[|parts| - 1] + t];
    if |parts| > 1 {
      JoinAppend(parts[1..], t);
      assert longer[1..] == parts[1..][..|parts[1..]| - 1] + [parts[1..][|parts[1..]| - 1] + t];
      assert Join(parts) + t == parts[0] + "/" + (Join(parts[1..]) + t);
    }
  }

  lemma TempShape(p: Path, stamp: string)
    requires Canonical(p) && p.elems != [] && NoSlash(stamp)
    ensures TempPath(p, stamp) == Path(p.rooted, Parent(p).elems + [Last(p) + TempSuffix(stamp)])
  {
    var t := TempSuffix(stamp);
    var q := Path(p.rooted, Parent(p).elems + [Last(p) + t]);
    forall i | 0 <= i < |q.elems|
      ensures CanonicalAt(q, i)
    {
      assert CanonicalAt(p, i);
      assert NoSlash(t);
    }
    JoinAppend(p.elems, t);
    assert Render(q) == Render(p) + t;
    ParseRender(q);
  }

  /** A file that a finished Put may have left: its name is a hex digest. */
  predicate Committed(p: Path) {
    p.elems != [] && IsHexDigest(Last(p))
  }

  lemma TempOfNothing(p: Path, stamp: string)
    requires p.elems == [] && NoSlash(stamp)
    ensures TempPath(p, stamp) == Path(p.rooted, [(if p.rooted then "" else ".") + TempSuffix(stamp)])
  {
    var t := Path(p.rooted, [(if p.rooted then "" else ".") + TempSuffix(stamp)]);
    assert Render(t) == Render(p) + TempSuffix(stamp);
    assert CanonicalAt(t, 0);
    ParseRender(t);
  }

  lemma TempIsNotCommitted(p: Path, stamp: string)
    requires Canonical(p) && NoSlash(stamp)
    ensures !Committed(TempPath(p, stamp))
  {
    if p.elems == [] {
      TempOfNothing(p, stamp);
      assert !IsHexDigit(Last(TempPath(p, stamp))[0]);
    } else {
      TempShape(p, stamp);
      var name := Last(p) + TempSuffix(stamp);
      assert Last(TempPath(p, stamp)) == name;
      assert name[|Last(p)|] == '.' && !IsHexDigit(name[|Last(p)|]);
    }
  }

  lemma SameFront<T>(a: seq<T>, b: seq<T>, x: seq<T>, y: seq<T>)
    requires a + x == b + y && |x| == |y|
    ensures a == b && x == y
  {
    assert |a| == |b|;
    assert (a + x)[..|a|] == a && (b + y)[..|b|] == b;
    assert (a + x)[|a|..] == x && (b + y)[|b|..] == y;
  }

  /** Uploads of different files never share a temporary file, whenever they started. */
  lemma TempPathInjective(p: Path, q: Path, s: string, t: string)
    requires Canonical(p) && Canonical(q) && p.elems != [] && q.elems != []
    requires NoSlash(s) && NoSlash(t) && |s| == |t|
    requires TempPath(p, s) == TempPath(q, t)
    ensures p == q
  {
    TempShape(p, s);
    TempShape(q, t);
    var a, b := TempSuffix(s), TempSuffix(t);
    var x, y := Last(p) + a, Last(q) + b;
    SameFront(Parent(p).elems, Parent(q).elems, [x], [y]);
    assert x == y by { assert [x][0] == [y][0]; }
    SameFront(Last(p), Last(q), a, b);
    SamePath(p, q);
  }

  lemma SamePath(p: Path, q: Path)
    requires p.elems != [] && q.elems != [] && p.rooted == q.rooted
    requires Parent(p).elems == Parent(q).elems && Last(p) == Last(q)
    ensures p == q
  {
    assert p.elems == Parent(p).elems + [Last(p)] && q.elems == Parent(q).elems + [Last(q)];
  }

  // ---------------------------------------------------------------- object keys

  /** The key of the S3 and GCS backends. */
  function ObjectKey(ref: PackageRef): string {
    Join([ref.tenant, ref.name, ref.version, ref.digest])
  }

  lemma ObjectKeySplits(ref: PackageRef)
    requires NoSlash(ref.tenant) && NoSlash(ref.name) && NoSlash(ref.version)
    ensures var parts := Split(ObjectKey(ref));
            |parts| > 3 && parts[..3] == [ref.tenant, ref.name, ref.version] && Join(parts[3..]) == ref.digest
  {
    var tail3 := [ref.digest];
    var tail2 := [ref.version, ref.digest];
    var tail1 := [ref.name, ref.version, ref.digest];
    assert tail2[1..] == tail3 && tail1[1..] == tail2;
    assert [ref.tenant, ref.name, ref.version, ref.digest][1..] == tail1;
    assert Join(tail2) == ref.version + "/" + ref.digest;
    assert Join(tail1) == ref.name + "/" + Join(tail2);
    assert ObjectKey(ref) == ref.tenant + "/" + Join(tail1);
    SplitConcat(ref.tenant, Join(tail1));
    SplitConcat(ref.name, Join(tail2));
    SplitConcat(ref.version, ref.digest);
    SplitOfOne(ref.tenant);
    SplitOfOne(ref.name);
    SplitOfOne(ref.version);
    AfterThree(ref.tenant, ref.name, ref.version, Split(ref.digest));
    JoinSplit(ref.digest);
  }

  lemma AfterThree(a: string, b: string, c: string, rest: seq<string>)
    ensures var parts := [a] + ([b] + ([c] + rest)); parts[..3] == [a, b, c] && parts[3..] == rest
  {
  }

  lemma ObjectKeyInjective(a: PackageRef, b: PackageRef)
    requires NoSlash(a.tenant) && NoSlash(a.name) && NoSlash(a.version)
    requires NoSlash(b.tenant) && NoSlash(b.name) && NoSlash(b.version)
    requires ObjectKey(a) == ObjectKey(b)
    ensures a == b
  {
    ObjectKeySplits(a);
    ObjectKeySplits(b);
    var x, y := [a.tenant, a.name, a.version], [b.tenant, b.name, b.version];
    assert x[0] == y[0] && x[1] == y[1] && x[2] == y[2];
  }

  lemma KeyText(ref: PackageRef)
    ensures ObjectKey(ref) == ref.tenant + "/" + (ref.name + "/" + (ref.version + "/" + ref.digest))
    ensures Split(ObjectKey(ref)) == Split(ref.tenant) + (Split(ref.name) + (Split(ref.version) + Split(ref.digest)))
  {
    var tail2, tail1 := [ref.version, ref.digest], [ref.name, ref.version, ref.digest];
    assert tail2[1..] == [ref.digest] && tail1[1..] == tail2
           && [ref.tenant, ref.name, ref.version, ref.digest][1..] == tail1;
    assert Join(tail2) == ref.version + "/" + ref.digest;
    assert Join(tail1) == ref.name + "/" + Join(tail2);
    SplitConcat(ref.version, ref.digest);
    SplitConcat(ref.name, Join(tail2));
    SplitConcat(ref.tenant, Join(tail1));
  }

  lemma OnePartExactly(s: string)
    ensures |Split(s)| == 1 <==> NoSlash(s)
  {
    if NoSlash(s) { SplitOfOne(s); }
    JoinSplit(s);
  }

  /** A slash in one part can move to the border of the next. */
  lemma SlashMoves(x: string, s: string, y: string, i: nat)
    requires i < |s| && s[i] == '/'
    ensures (x + "/" + s[..i]) + "/" + (s[i + 1..] + "/" + y) == x + "/" + (s + "/" + y)
    ensures s[..i] + "/" + (s[i + 1..] + "/" + y) == s + "/" + y
    ensures (x + "/" + s[..i]) + "/" + s[i + 1..] == x + "/" + s
  {
    assert s == s[..i] + "/" + s[i + 1..];
  }

  lemma SlashedKeyIsShared(ref: PackageRef)
    requires !(NoSlash(ref.tenant) && NoSlash(ref.name) && NoSlash(ref.version) && NoSlash(ref.digest))
    ensures exists other :: other != ref && ObjectKey(other) == ObjectKey(ref)
  {
    var rest := ref.version + "/" + ref.digest;
    KeyText(ref);
    var other: PackageRef;
    if i :| 0 <= i < |ref.tenant| && ref.tenant[i] == '/' {
      other := ref.(tenant := ref.tenant[..i], name := ref.tenant[i + 1..] + "/" + ref.name);
      SlashMoves("", ref.tenant, ref.name + "/" + rest, i);
      assert (ref.tenant[i + 1..] + "/" + ref.name) + "/" + rest == ref.tenant[i + 1..] + "/" + (ref.name + "/" + rest);
      assert |other.tenant| < |ref.tenant|;
    } else if i :| 0 <= i < |ref.name| && ref.name[i] == '/' {
      other := ref.(tenant := ref.tenant + "/" + ref.name[..i], name := ref.name[i + 1..]);
      SlashMoves(ref.tenant, ref.name, rest, i);
      assert |other.name| < |ref.name|;
    } else if i :| 0 <= i < |ref.version| && ref.version[i] == '/' {
      other := ref.(name := ref.name + "/" + ref.version[..i], version := ref.version[i + 1..]);
      SlashMoves(ref.name, ref.version, ref.digest, i);
      assert |other.version| < |ref.version|;
    } else {
      var i :| 0 <= i < |ref.digest| && ref.digest[i] == '/';
      other := ref.(version := ref.version + "/" + ref.digest[..i], digest := ref.digest[i + 1..]);
      SlashMoves(ref.version, ref.digest, "", i);
      assert |other.digest| < |ref.digest|;
    }
    KeyText(other);
    assert other != ref && ObjectKey(other) == ObjectKey(ref);
  }

  lemma UnslashedKeyIsItsOwn(ref: PackageRef, other: PackageRef)
    requires NoSlash(ref.tenant) && NoSlash(ref.name) && NoSlash(ref.version) && NoSlash(ref.digest)
    requires ObjectKey(other) == ObjectKey(ref)
    ensures other == ref
  {
    KeyText(ref);
    KeyText(other);
    OnePartExactly(ref.tenant);
    OnePartExactly(ref.name);
    OnePartExactly(ref.version);
    OnePartExactly(ref.digest);
    assert |Split(ObjectKey(other))| == 4;
    OnePartExactly(other.tenant);
    OnePartExactly(other.name);
    OnePartExactly(other.version);
    ObjectKeyInjective(other, ref);
  }

  /** A reference has its key to itself if and only if none of its parts holds a slash. */
  lemma ObjectKeyIsItsOwnExactly(ref: PackageRef)
    ensures (forall other :: ObjectKey(other) == ObjectKey(ref) ==> other == ref)
       <==> NoSlash(ref.tenant) && NoSlash(ref.name) && NoSlash(ref.version) && NoSlash(ref.digest)
  {
    if NoSlash(ref.tenant) && NoSlash(ref.name) && NoSlash(ref.version) && NoSlash(ref.digest) {
      forall other | ObjectKey(other) == ObjectKey(ref) ensures other == ref { UnslashedKeyIsItsOwn(ref, other); }
    } else {
      SlashedKeyIsShared(ref);
    }
  }
}
