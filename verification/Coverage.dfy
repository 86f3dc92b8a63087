/** Coverage profiles of the quality gate: accumulation by file, and the lookup by path suffix. */
module Coverage {
  import opened Content
  import opened Sorting

  /** A line of a Go coverage profile that has the expected form. */
  datatype Block = Block(file: string, statements: nat, count: nat)

  datatype Stats = Stats(covered: nat, total: nat)

  // ---------------------------------------------------------------- meaning

  function Blocks(lines: seq<Option<Block>>): seq<Block> {
    if lines == [] then []
    else
      var rest, last := Blocks(lines[..|lines| - 1]), lines[|lines| - 1];
      if last.Some? then rest + [last.value] else rest
  }

  function Weight(coveredOnly: bool, file: string, b: Block): nat {
    if b.file == file && (coveredOnly ==> b.count > 0) then b.statements else 0
  }

  /** The statements of one file, all of them or those that ran. */
  function Statements(coveredOnly: bool, file: string, blocks: seq<Block>): nat {
    if blocks == [] then 0
    else Statements(coveredOnly, file, blocks[..|blocks| - 1]) + Weight(coveredOnly, file, blocks[|blocks| - 1])
  }

  function StatsOf(file: string, blocks: seq<Block>): Stats {
    Stats(Statements(true, file, blocks), Statements(false, file, blocks))
  }

  /** A file without statements counts as covered. */
  function Ratio(s: Stats): real {
    if s.total > 0 then s.covered as real / s.total as real else 1.0
  }

  function Fraction(file: string, blocks: seq<Block>): real {
    Ratio(StatsOf(file, blocks))
  }

  /** The files of a profile in the order of their first lines: the key order of the dict. */
  function Files(blocks: seq<Block>): (names: seq<string>)
    ensures forall f :: f in names <==> exists i | 0 <= i < |blocks| :: blocks[i].file == f
  {
    if blocks == [] then []
    else
      var front, last := blocks[..|blocks| - 1], blocks[|blocks| - 1];
      assert forall i | 0 <= i < |front| :: front[i] == blocks[i];
      assert last.file == blocks[|blocks| - 1].file;
      if last.file in Files(front) then Files(front) else Files(front) + [last.file]
  }

  function FirstMatch(names: seq<string>, local: string): (r: Option<string>)
    ensures r.Some? ==> exists i | 0 <= i < |names| ::
              names[i] == r.value && HasSuffix(names[i], local) && forall k | 0 <= k < i :: !HasSuffix(names[k], local)
    ensures r.None? ==> forall f | f in names :: !HasSuffix(f, local)
  {
    if names == [] then None
    else if HasSuffix(names[0], local) then Some(names[0])
    else
      assert forall i | 0 < i < |names| :: names[i] == names[1..][i - 1];
      FirstMatch(names[1..], local)
  }

  /** The coverage of a local file: that of the first file whose import path ends in its path. */
  function Lookup(blocks: seq<Block>, local: string): real {
    match FirstMatch(Files(blocks), local)
    case None => 0.0
    case Some(file) => Fraction(file, blocks)
  }

  // ---------------------------------------------------------------- what the numbers say

  /** The lines that have no form are skipped, the others kept in order. */
  lemma OneLineMore(lines: seq<Option<Block>>, line: Option<Block>)
    ensures Blocks([]) == []
    ensures Blocks(lines + [line]) == Blocks(lines) + if line.Some? then [line.value] else []
  {
    assert (lines + [line])[..|lines|] == lines;
    assert Blocks(lines) + [] == Blocks(lines);
  }

  /** Statements add up, each line counting for its own file and as covered when its count is not 0. */
  lemma OneBlockCounts(coveredOnly: bool, file: string, blocks: seq<Block>, b: Block)
    ensures Statements(coveredOnly, file, []) == 0
    ensures Statements(coveredOnly, file, blocks + [b])
         == Statements(coveredOnly, file, blocks)
            + if b.file == file && !(coveredOnly && b.count == 0) then b.statements else 0
  {
    assert (blocks + [b])[..|blocks|] == blocks;
  }

  /** The fraction of a file is its covered share of all its statements, and 1 when it has none. */
  lemma FractionIsTheShare(file: string, blocks: seq<Block>)
    ensures Fraction(file, blocks) * Statements(false, file, blocks) as real == Statements(true, file, blocks) as real
    ensures Statements(false, file, blocks) == 0 ==> Fraction(file, blocks) == 1.0
  {
    CoveredAtMostAll(file, blocks);
  }

  /** f has a line in front of all lines of g. */
  ghost predicate AppearsBefore(blocks: seq<Block>, f: string, g: string) {
    exists i | 0 <= i < |blocks| :: blocks[i].file == f && forall k | 0 <= k <= i :: blocks[k].file != g
  }

  lemma StillAppearsBefore(front: seq<Block>, last: Block, f: string, g: string)
    requires AppearsBefore(front, f, g)
    ensures AppearsBefore(front + [last], f, g)
  {
    var i :| 0 <= i < |front| && front[i].file == f && forall k | 0 <= k <= i :: front[k].file != g;
    assert (front + [last])[i].file == f;
  }

  lemma NewKeyIsLast(front: seq<Block>, last: Block, f: string)
    requires f in Files(front) && last.file !in Files(front)
    ensures AppearsBefore(front + [last], f, last.file)
  {
    var i :| 0 <= i < |front| && front[i].file == f;
    assert (front + [last])[i].file == f;
    forall k | 0 <= k <= i ensures (front + [last])[k].file != last.file { assert front[k].file in Files(front); }
  }

  /** Each file has one key, and the keys are in the order in which the files first appear. */
  lemma {:induction false} KeysInOrder(blocks: seq<Block>)
    ensures Distinct(Files(blocks))
    ensures forall i, j | 0 <= i < j < |Files(blocks)| :: AppearsBefore(blocks, Files(blocks)[i], Files(blocks)[j])
  {
    if blocks != [] {
      var front, last := blocks[..|blocks| - 1], blocks[|blocks| - 1];
      var names := Files(front);
      KeysInOrder(front);
      assert blocks == front + [last];
      forall i, j | 0 <= i < j < |Files(blocks)|
        ensures AppearsBefore(blocks, Files(blocks)[i], Files(blocks)[j])
      {
        if j < |names| { StillAppearsBefore(front, last, names[i], names[j]); }
        else { NewKeyIsLast(front, last, names[i]); }
      }
    }
  }

  // ---------------------------------------------------------------- the loops

  /** The dict holds the sums of the lines read so far, and names its keys in order. */
  ghost predicate Accumulated(cov: map<string, Stats>, names: seq<string>, blocks: seq<Block>) {
    && names == Files(blocks)
    && (forall f :: f in cov <==> f in names)
    && Sums(cov, blocks)
  }

  ghost predicate Sums(cov: map<string, Stats>, blocks: seq<Block>) {
    forall f :: StatsOf(f, blocks) == if f in cov then cov[f] else Stats(0, 0)
  }

  lemma OneBlockMore(f: string, blocks: seq<Block>, b: Block)
    ensures StatsOf(f, blocks + [b])
         == Stats(StatsOf(f, blocks).covered + Weight(true, f, b), StatsOf(f, blocks).total + Weight(false, f, b))
    ensures Files(blocks + [b]) == if b.file in Files(blocks) then Files(blocks) else Files(blocks) + [b.file]
  {
    assert (blocks + [b])[..|blocks|] == blocks;
  }

  lemma AccumulatedOneMore(cov: map<string, Stats>, names: seq<string>, blocks: seq<Block>, b: Block, now: Stats)
    requires Accumulated(cov, names, blocks)
    requires var was := if b.file in cov then cov[b.file] else Stats(0, 0);
             now == Stats(was.covered + (if b.count > 0 then b.statements else 0), was.total + b.statements)
    ensures Accumulated(cov[b.file := now], if b.file in cov then names else names + [b.file], blocks + [b])
  {
    assert StatsOf(b.file, blocks) == if b.file in cov then cov[b.file] else Stats(0, 0);
    SumsOneMore(cov, blocks, b, now);
    OneBlockMore(b.file, blocks, b);
    NamesOneMore(cov, names, b.file, now);
  }

  lemma SumsOneMore(cov: map<string, Stats>, blocks: seq<Block>, b: Block, now: Stats)
    requires Sums(cov, blocks)
    requires now == Stats(StatsOf(b.file, blocks).covered + (if b.count > 0 then b.statements else 0),
                          StatsOf(b.file, blocks).total + b.statements)
    ensures Sums(cov[b.file := now], blocks + [b])
  {
    var cov' := cov[b.file := now];
    forall f
      ensures StatsOf(f, blocks + [b]) == if f in cov' then cov'[f] else Stats(0, 0)
    {
      StatsOneMore(cov, blocks, b, now, f);
    }
  }

  lemma StatsOneMore(cov: map<string, Stats>, blocks: seq<Block>, b: Block, now: Stats, f: string)
    requires StatsOf(f, blocks) == if f in cov then cov[f] else Stats(0, 0)
    requires f == b.file ==> now == Stats(StatsOf(f, blocks).covered + (if b.count > 0 then b.statements else 0),
                                          StatsOf(f, blocks).total + b.statements)
    ensures StatsOf(f, blocks + [b]) == if f in cov[b.file := now] then cov[b.file := now][f] else Stats(0, 0)
  {
    OneBlockMore(f, blocks, b);
  }

  lemma NamesOneMore(cov: map<string, Stats>, names: seq<string>, file: string, now: Stats)
    requires forall f :: f in cov <==> f in names
    ensures var names' := if file in cov then names else names + [file];
            forall f :: f in cov[file := now] <==> f in names'
  {
  }

  method Accumulate(lines: seq<Option<Block>>) returns (names: seq<string>, cov: map<string, Stats>)
    ensures Accumulated(cov, names, Blocks(lines))
  {
    cov, names := map[], [];
    for i := 0 to |lines|
      invariant Accumulated(cov, names, Blocks(lines[..i]))
    {
      assert lines[..i + 1][..i] == lines[..i];
      if lines[i].Some? {
        var b := lines[i].value;
        ghost var before, namesBefore := cov, names;
        if b.file !in cov {
          cov := cov[b.file := Stats(0, 0)];
          names := names + [b.file];
        }
        var stats := cov[b.file];
        stats := stats.(total := stats.total + b.statements);
        if b.count > 0 { stats := stats.(covered := stats.covered + b.statements); }
        cov := cov[b.file := stats];
        AccumulatedOneMore(before, namesBefore, Blocks(lines[..i]), b, stats);
        assert cov == before[b.file := stats];
      }
    }
    assert lines[..|lines|] == lines;
  }

  method ParseGoCoverage(lines: seq<Option<Block>>) returns (names: seq<string>, result: map<string, real>)
    ensures names == Files(Blocks(lines))
    ensures forall f :: f in result <==> f in names
    ensures forall f | f in names :: result[f] == Fraction(f, Blocks(lines))
  {
    var cov;
    names, cov := Accumulate(lines);
    result := map[];
    for i := 0 to |names|
      invariant forall f :: f in result <==> f in names[..i]
      invariant forall f | f in names[..i] :: result[f] == Fraction(f, Blocks(lines))
    {
      var stats := cov[names[i]];
      if stats.total > 0 {
        result := result[names[i] := stats.covered as real / stats.total as real];
      } else {
        result := result[names[i] := 1.0];
      }
    }
  }

  method FindMatchingCoverage(local: string, names: seq<string>, coverage: map<string, real>) returns (fraction: real)
    requires forall f | f in names :: f in coverage
    ensures fraction == match FirstMatch(names, local) case None => 0.0 case Some(f) => coverage[f]
  {
    for i := 0 to |names|
      invariant FirstMatch(names, local) == FirstMatch(names[i..], local)
    {
      if HasSuffix(names[i], local) { return coverage[names[i]]; }
    }
    fraction := 0.0;
  }

  // ---------------------------------------------------------------- fractions

  lemma {:induction false} CoveredAtMostAll(file: string, blocks: seq<Block>)
    ensures Statements(true, file, blocks) <= Statements(false, file, blocks)
  {
    if blocks != [] {
      CoveredAtMostAll(file, blocks[..|blocks| - 1]);
    }
  }

  lemma FractionIsInUnit(file: string, blocks: seq<Block>)
    ensures 0.0 <= Fraction(file, blocks) <= 1.0
  {
    CoveredAtMostAll(file, blocks);
    var s := StatsOf(file, blocks);
    if s.total > 0 { QuotientIsInUnit(s.covered as real, s.total as real); }
  }

  lemma QuotientIsInUnit(a: real, b: real)
    requires 0.0 <= a <= b && b > 0.0
    ensures 0.0 <= a / b <= 1.0
  {
    var q := a / b;
    assert q * b == a;
    assert q < 0.0 ==> q * b < 0.0;
    assert q > 1.0 ==> (q - 1.0) * b > 0.0;
  }

  lemma LookupIsInUnit(blocks: seq<Block>, local: string)
    ensures 0.0 <= Lookup(blocks, local) <= 1.0
  {
    var found := FirstMatch(Files(blocks), local);
    if found.Some? { FractionIsInUnit(found.value, blocks); }
  }

  // ---------------------------------------------------------------- the order of lines

  function Without(blocks: seq<Block>, j: nat): seq<Block>
    requires j < |blocks|
  {
    blocks[..j] + blocks[j + 1..]
  }

  lemma {:induction false} StatementsWithout(coveredOnly: bool, file: string, blocks: seq<Block>, j: nat)
    requires j < |blocks|
    ensures Statements(coveredOnly, file, blocks)
         == Statements(coveredOnly, file, Without(blocks, j)) + Weight(coveredOnly, file, blocks[j])
    decreases |blocks|
  {
    var n := |blocks| - 1;
    var w := Without(blocks, j);
    if j == n {
      assert w == blocks[..n];
    } else {
      StatementsWithout(coveredOnly, file, blocks[..n], j);
      assert w[..|w| - 1] == Without(blocks[..n], j) && w[|w| - 1] == blocks[n];
    }
  }

  lemma WithoutRemoves(blocks: seq<Block>, j: nat)
    requires j < |blocks|
    ensures multiset(Without(blocks, j)) == multiset(blocks) - multiset{blocks[j]}
  {
    assert blocks == blocks[..j] + [blocks[j]] + blocks[j + 1..];
  }

  lemma {:induction false} StatementsPermute(coveredOnly: bool, file: string, a: seq<Block>, b: seq<Block>)
    requires multiset(a) == multiset(b)
    ensures Statements(coveredOnly, file, a) == Statements(coveredOnly, file, b)
    decreases |a|
  {
    SameLength(a, b);
    if a != [] {
      var n := |a| - 1;
      SameElements(a, b, a[n]);
      var j :| 0 <= j < |b| && b[j] == a[n];
      StatementsWithout(coveredOnly, file, b, j);
      WithoutRemoves(b, j);
      AppendOne(a[..n], a);
      StatementsPermute(coveredOnly, file, a[..n], Without(b, j));
    }
  }

  /** No fraction depends on the order of the lines. */
  lemma FractionIgnoresOrder(file: string, a: seq<Block>, b: seq<Block>)
    requires multiset(a) == multiset(b)
    ensures Fraction(file, a) == Fraction(file, b)
  {
    StatementsPermute(true, file, a, b);
    StatementsPermute(false, file, a, b);
  }

  lemma FilesIgnoreOrder(a: seq<Block>, b: seq<Block>, file: string)
    requires multiset(a) == multiset(b) && file in Files(a)
    ensures file in Files(b)
  {
    var i :| 0 <= i < |a| && a[i].file == file;
    assert a[i] in multiset(b);
    var j :| 0 <= j < |b| && b[j] == a[i];
    assert b[j].file == file;
  }

  /** The profile with one line moved to its front. */
  lemma Fronted(blocks: seq<Block>, j: nat)
    requires j < |blocks|
    ensures var other := [blocks[j]] + Without(blocks, j);
            multiset(other) == multiset(blocks) && Files(other) != [] && Files(other)[0] == blocks[j].file
  {
    var other := [blocks[j]] + Without(blocks, j);
    assert blocks == blocks[..j] + [blocks[j]] + blocks[j + 1..];
    FirstFile(other);
  }

  lemma {:induction false} FirstFile(blocks: seq<Block>)
    requires blocks != []
    ensures Files(blocks) != [] && Files(blocks)[0] == blocks[0].file
  {
    if |blocks| > 1 { FirstFile(blocks[..|blocks| - 1]); }
  }

  /** The lookup does depend on the order, unless all files whose paths end in the local path
      have the same fraction: exactly then it gives the same for every order of the lines. */
  lemma LookupIgnoresOrderExactly(blocks: seq<Block>, local: string)
    ensures (forall other | multiset(other) == multiset(blocks) :: Lookup(other, local) == Lookup(blocks, local))
       <==> (forall f, g | f in Files(blocks) && g in Files(blocks) && HasSuffix(f, local) && HasSuffix(g, local) ::
               Fraction(f, blocks) == Fraction(g, blocks))
  {
    if forall other | multiset(other) == multiset(blocks) :: Lookup(other, local) == Lookup(blocks, local) {
      forall f | f in Files(blocks) && HasSuffix(f, local)
        ensures Fraction(f, blocks) == Lookup(blocks, local)
      {
        var j :| 0 <= j < |blocks| && blocks[j].file == f;
        Fronted(blocks, j);
        var other := [blocks[j]] + Without(blocks, j);
        assert FirstMatch(Files(other), local) == Some(f);
        FractionIgnoresOrder(f, blocks, other);
        assert Lookup(other, local) == Lookup(blocks, local);
      }
    }
    if forall f, g | f in Files(blocks) && g in Files(blocks) && HasSuffix(f, local) && HasSuffix(g, local) ::
         Fraction(f, blocks) == Fraction(g, blocks) {
      forall other | multiset(other) == multiset(blocks)
        ensures Lookup(other, local) == Lookup(blocks, local)
      {
        OrderDoesNotShow(blocks, other, local);
      }
    }
  }

  lemma OrderDoesNotShow(blocks: seq<Block>, other: seq<Block>, local: string)
    requires multiset(other) == multiset(blocks)
    requires forall f, g | f in Files(blocks) && g in Files(blocks) && HasSuffix(f, local) && HasSuffix(g, local) ::
               Fraction(f, blocks) == Fraction(g, blocks)
    ensures Lookup(other, local) == Lookup(blocks, local)
  {
    var here, there := FirstMatch(Files(blocks), local), FirstMatch(Files(other), local);
    if here.Some? { FilesIgnoreOrder(blocks, other, here.value); }
    if there.Some? {
      FilesIgnoreOrder(other, blocks, there.value);
      FractionIgnoresOrder(there.value, blocks, other);
    }
  }
}
