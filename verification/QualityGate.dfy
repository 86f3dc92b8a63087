/** The quality gate: complexity by counting decision tokens, CRAP scores, and the report. */
module QualityGate {
  import opened Content
  import opened Sorting
  import opened Coverage

  // ---------------------------------------------------------------- decision tokens

  /** The words of the pattern, in its order. */
  const KEYWORDS := ["if", "for", "while", "case", "select", "catch"]

  /** What \w matches. Beyond ASCII it is Python's affair. */
  type WordChar = f: char -> bool | (forall c :: 'a' <= c <= 'z' ==> f(c)) && !f('&') && !f('|')
    witness (c: char) => 'a' <= c <= 'z'

  predicate TextAt(line: string, i: nat, word: string) {
    i + |word| <= |line| && line[i..i + |word|] == word
  }

  predicate WordBefore(isWord: WordChar, line: string, i: nat) {
    0 < i <= |line| && isWord(line[i - 1])
  }

  predicate WordAfter(isWord: WordChar, line: string, i: nat) {
    i < |line| && isWord(line[i])
  }

  /** A keyword between word boundaries. */
  predicate KeywordAt(isWord: WordChar, line: string, i: nat, k: nat)
    requires k < |KEYWORDS|
  {
    TextAt(line, i, KEYWORDS[k]) && !WordBefore(isWord, line, i) && !WordAfter(isWord, line, i + |KEYWORDS[k]|)
  }

  /** The length of the alternative that matches at i, 0 when none does. */
  function TokenAt(isWord: WordChar, line: string, i: nat): (n: nat)
    ensures i + n <= |line| || n == 0
  {
    if KeywordAt(isWord, line, i, 0) then 2
    else if KeywordAt(isWord, line, i, 1) then 3
    else if KeywordAt(isWord, line, i, 2) then 5
    else if KeywordAt(isWord, line, i, 3) then 4
    else if KeywordAt(isWord, line, i, 4) then 6
    else if KeywordAt(isWord, line, i, 5) then 5
    else if TextAt(line, i, "&&") || TextAt(line, i, "||") then 2
    else 0
  }

  /** len(findall(line)): matches from left to right that do not overlap. */
  function Matches(isWord: WordChar, line: string, i: nat): nat
    requires i <= |line|
    decreases |line| - i
  {
    if i == |line| then 0
    else if TokenAt(isWord, line, i) > 0 then 1 + Matches(isWord, line, i + TokenAt(isWord, line, i))
    else Matches(isWord, line, i + 1)
  }

  predicate SomeKeywordAt(isWord: WordChar, line: string, i: nat) {
    exists k | 0 <= k < |KEYWORDS| :: KeywordAt(isWord, line, i, k)
  }

  /** The positions of keywords from i on. */
  function Keywords(isWord: WordChar, line: string, i: nat): nat
    requires i <= |line|
    decreases |line| - i
  {
    if i == |line| then 0
    else (if SomeKeywordAt(isWord, line, i) then 1 else 0) + Keywords(isWord, line, i + 1)
  }

  /** Disjoint pairs of a character: half of each run. */
  function Pairs(c: char, line: string, i: nat, half: bool): nat
    requires i <= |line|
    decreases |line| - i
  {
    if i == |line| then 0
    else if line[i] != c then Pairs(c, line, i + 1, false)
    else if half then 1 + Pairs(c, line, i + 1, false)
    else Pairs(c, line, i + 1, true)
  }

  /** What Pairs counts: a run of n of the character gives n / 2, rounded down, and other characters
      give nothing. */
  lemma {:induction false} RunsGiveHalf(c: char, line: string, i: nat, n: nat, half: bool)
    requires i + n <= |line| && forall k | i <= k < i + n :: line[k] == c
    requires i + n < |line| ==> line[i + n] != c
    ensures Pairs(c, line, i, half) == (n + if half then 1 else 0) / 2 + Pairs(c, line, i + n, false)
    ensures n == 0 && i < |line| ==> Pairs(c, line, i, half) == Pairs(c, line, i + 1, false)
    ensures Pairs(c, line, |line|, half) == 0
    decreases n
  {
    if n > 0 { RunsGiveHalf(c, line, i + 1, n - 1, !half); }
  }

  /** A word that is no part of a longer one. */
  predicate WholeWordAt(isWord: WordChar, line: string, i: nat, word: string) {
    && i + |word| <= |line| && line[i..i + |word|] == word
    && (i == 0 || !isWord(line[i - 1])) && (i + |word| == |line| || !isWord(line[i + |word|]))
  }

  lemma KeywordIsWhole(isWord: WordChar, line: string, i: nat, k: nat)
    requires k < |KEYWORDS|
    ensures KeywordAt(isWord, line, i, k) <==> WholeWordAt(isWord, line, i, KEYWORDS[k])
  {
  }

  /** The keywords are six words. */
  lemma KeywordsAreSixWords(isWord: WordChar, line: string, i: nat)
    ensures SomeKeywordAt(isWord, line, i) <==>
            (|| WholeWordAt(isWord, line, i, "if") || WholeWordAt(isWord, line, i, "for")
             || WholeWordAt(isWord, line, i, "while") || WholeWordAt(isWord, line, i, "case")
             || WholeWordAt(isWord, line, i, "select") || WholeWordAt(isWord, line, i, "catch"))
  {
    forall k | 0 <= k < |KEYWORDS|
      ensures KeywordAt(isWord, line, i, k) <==> WholeWordAt(isWord, line, i, KEYWORDS[k])
    {
      KeywordIsWhole(isWord, line, i, k);
    }
    assert KEYWORDS[0] == "if" && KEYWORDS[1] == "for" && KEYWORDS[2] == "while"
           && KEYWORDS[3] == "case" && KEYWORDS[4] == "select" && KEYWORDS[5] == "catch";
    if SomeKeywordAt(isWord, line, i) {
      var k :| 0 <= k < |KEYWORDS| && KeywordAt(isWord, line, i, k);
      assert WholeWordAt(isWord, line, i, KEYWORDS[k]);
    }
  }

  lemma WordsOfKeyword(line: string, i: nat, k: nat, j: nat)
    requires k < |KEYWORDS| && TextAt(line, i, KEYWORDS[k]) && i <= j < i + |KEYWORDS[k]|
    ensures 'a' <= line[j] <= 'z'
  {
    assert line[j] == line[i..i + |KEYWORDS[k]|][j - i] == KEYWORDS[k][j - i];
  }

  /** Inside a keyword there is no other token. */
  lemma {:induction false} InsideKeyword(isWord: WordChar, line: string, i: nat, k: nat, j: nat)
    requires k < |KEYWORDS| && TextAt(line, i, KEYWORDS[k]) && i < j <= i + |KEYWORDS[k]|
    ensures var end := i + |KEYWORDS[k]|;
            && Keywords(isWord, line, j) == Keywords(isWord, line, end)
            && Pairs('&', line, j, false) == Pairs('&', line, end, false)
            && Pairs('|', line, j, false) == Pairs('|', line, end, false)
    decreases |line| - j
  {
    if j < i + |KEYWORDS[k]| {
      WordsOfKeyword(line, i, k, j);
      WordsOfKeyword(line, i, k, j - 1);
      assert WordBefore(isWord, line, j);
      InsideKeyword(isWord, line, i, k, j + 1);
    }
  }

  lemma OperatorIsNoKeyword(isWord: WordChar, line: string, i: nat)
    requires i < |line| && !('a' <= line[i] <= 'z')
    ensures !SomeKeywordAt(isWord, line, i)
  {
    if k :| 0 <= k < |KEYWORDS| && KeywordAt(isWord, line, i, k) {
      assert |KEYWORDS[k]| > 0;
      WordsOfKeyword(line, i, k, i);
    }
  }

  lemma PairLater(c: char, line: string, i: nat)
    requires i < |line| && !(i + 1 < |line| && line[i] == c && line[i + 1] == c)
    ensures Pairs(c, line, i, false) == Pairs(c, line, i + 1, false)
  {
  }

  lemma TwoOf(c: char, line: string, i: nat)
    requires c == '&' || c == '|'
    ensures TextAt(line, i, [c, c]) <==> i + 1 < |line| && line[i] == c && line[i + 1] == c
  {
    if i + 1 < |line| { assert line[i..i + 2] == [line[i], line[i + 1]]; }
  }

  /** The one scan with eight alternatives finds what separate counts of the keywords and of the
      two operators find. */
  lemma {:induction false} MatchesAreCounts(isWord: WordChar, line: string, i: nat)
    requires i <= |line|
    ensures Matches(isWord, line, i)
         == Keywords(isWord, line, i) + Pairs('&', line, i, false) + Pairs('|', line, i, false)
    decreases |line| - i
  {
    if i < |line| {
      TwoOf('&', line, i);
      TwoOf('|', line, i);
      if k :| 0 <= k < |KEYWORDS| && KeywordAt(isWord, line, i, k) {
        KeywordStep(isWord, line, i, k);
        MatchesAreCounts(isWord, line, i + |KEYWORDS[k]|);
      } else if TextAt(line, i, "&&") || TextAt(line, i, "||") {
        OperatorStep(isWord, line, i);
        MatchesAreCounts(isWord, line, i + 2);
      } else {
        assert TokenAt(isWord, line, i) == 0;
        PairLater('&', line, i);
        PairLater('|', line, i);
        MatchesAreCounts(isWord, line, i + 1);
      }
    }
  }

  lemma KeywordStep(isWord: WordChar, line: string, i: nat, k: nat)
    requires i < |line| && k < |KEYWORDS| && KeywordAt(isWord, line, i, k)
    ensures var end := i + |KEYWORDS[k]|;
            && TokenAt(isWord, line, i) == |KEYWORDS[k]|
            && Keywords(isWord, line, i) == 1 + Keywords(isWord, line, end)
            && Pairs('&', line, i, false) == Pairs('&', line, end, false)
            && Pairs('|', line, i, false) == Pairs('|', line, end, false)
  {
    OneKeyword(isWord, line, i, k);
    WordsOfKeyword(line, i, k, i);
    InsideKeyword(isWord, line, i, k, i + 1);
  }

  /** Word boundaries leave room for one keyword only. */
  lemma OneKeyword(isWord: WordChar, line: string, i: nat, k: nat)
    requires i < |line| && k < |KEYWORDS| && KeywordAt(isWord, line, i, k)
    ensures TokenAt(isWord, line, i) == |KEYWORDS[k]|
  {
    forall m | 0 <= m < |KEYWORDS| && KeywordAt(isWord, line, i, m)
      ensures |KEYWORDS[m]| == |KEYWORDS[k]|
    {
      if |KEYWORDS[m]| < |KEYWORDS[k]| { WordsOfKeyword(line, i, k, i + |KEYWORDS[m]|); }
      if |KEYWORDS[k]| < |KEYWORDS[m]| { WordsOfKeyword(line, i, m, i + |KEYWORDS[k]|); }
    }
  }

  lemma OperatorStep(isWord: WordChar, line: string, i: nat)
    requires TextAt(line, i, "&&") || TextAt(line, i, "||")
    ensures TokenAt(isWord, line, i) == 2
    ensures Keywords(isWord, line, i) == Keywords(isWord, line, i + 2)
    ensures Pairs('&', line, i, false) + Pairs('|', line, i, false)
         == 1 + Pairs('&', line, i + 2, false) + Pairs('|', line, i + 2, false)
  {
    TwoOf('&', line, i);
    TwoOf('|', line, i);
    OperatorIsNoKeyword(isWord, line, i);
    OperatorIsNoKeyword(isWord, line, i + 1);
  }

  // ---------------------------------------------------------------- complexity

  predicate EndsInAny(path: string, endings: seq<string>) {
    exists i | 0 <= i < |endings| :: HasSuffix(path, endings[i])
  }

  const COMMENTED := [".go", ".ts", ".tsx", ".js", ".jsx"]

  /** str.find of two slashes. */
  function FindSlashes(line: string, i: nat): (r: Option<nat>)
    requires i <= |line|
    ensures r.Some? ==> i <= r.value < |line|
    decreases |line| - i
  {
    if i == |line| then None else if TextAt(line, i, "//") then Some(i) else FindSlashes(line, i + 1)
  }

  function StripComments(line: string, path: string): string {
    if EndsInAny(path, COMMENTED) && FindSlashes(line, 0).Some? then line[..FindSlashes(line, 0).value] else line
  }

  lemma {:induction false} FirstSlashes(line: string, i: nat)
    requires i <= |line|
    ensures FindSlashes(line, i).Some? ==> TextAt(line, FindSlashes(line, i).value, "//")
    ensures forall k | i <= k < (if FindSlashes(line, i).Some? then FindSlashes(line, i).value else |line|) ::
              !TextAt(line, k, "//")
    decreases |line| - i
  {
    if i < |line| && !TextAt(line, i, "//") { FirstSlashes(line, i + 1); }
  }

  /** What is left of a line: of a commented language what stands in front of its first two slashes,
      if there are any, else all of it. */
  lemma CommentsAreStripped(line: string, path: string)
    ensures var left := StripComments(line, path);
            && left <= line
            && (if HasSuffix(path, ".go") || HasSuffix(path, ".ts") || HasSuffix(path, ".tsx")
                   || HasSuffix(path, ".js") || HasSuffix(path, ".jsx")
                then (left == line || TextAt(line, |left|, "//"))
                     && forall k | 0 <= k < |left| :: !TextAt(line, k, "//")
                else left == line)
  {
    FirstSlashes(line, 0);
    assert COMMENTED[0] == ".go" && COMMENTED[1] == ".ts" && COMMENTED[2] == ".tsx" && COMMENTED[3] == ".js"
           && COMMENTED[4] == ".jsx";
  }

  function LineTokens(isWord: WordChar, path: string, line: string): nat {
    Matches(isWord, StripComments(line, path), 0)
  }

  /** One more than the decision tokens of all lines. */
  function Complexity(isWord: WordChar, path: string, lines: seq<string>): nat {
    if lines == [] then 1
    else Complexity(isWord, path, lines[..|lines| - 1]) + LineTokens(isWord, path, lines[|lines| - 1])
  }

  method EstimateComplexity(isWord: WordChar, path: string, lines: seq<string>) returns (complexity: nat)
    ensures complexity == Complexity(isWord, path, lines)
  {
    complexity := 1;
    for i := 0 to |lines|
      invariant complexity == Complexity(isWord, path, lines[..i])
    {
      assert lines[..i + 1][..i] == lines[..i];
      var stripped := StripComments(lines[i], path);
      complexity := complexity + Matches(isWord, stripped, 0);
    }
    assert lines[..|lines|] == lines;
  }

  /** A line counts for its keywords and its disjoint pairs of operators, as far as it is no comment. */
  lemma OneLineMore(isWord: WordChar, path: string, lines: seq<string>, line: string)
    ensures Complexity(isWord, path, []) == 1
    ensures var left := StripComments(line, path);
            Complexity(isWord, path, lines + [line])
              == Complexity(isWord, path, lines)
                 + Keywords(isWord, left, 0) + Pairs('&', left, 0, false) + Pairs('|', left, 0, false)
  {
    assert (lines + [line])[..|lines|] == lines;
    MatchesAreCounts(isWord, StripComments(line, path), 0);
  }

  lemma {:induction false} MoreLinesMoreComplexity(isWord: WordChar, path: string,
                                                   lines: seq<string>, more: seq<string>)
    ensures 1 <= Complexity(isWord, path, lines) <= Complexity(isWord, path, lines + more)
    decreases |lines| + |more|
  {
    if more != [] {
      MoreLinesMoreComplexity(isWord, path, lines, more[..|more| - 1]);
      assert (lines + more)[..|lines + more| - 1] == lines + more[..|more| - 1];
    } else {
      assert lines + more == lines;
      if lines != [] { MoreLinesMoreComplexity(isWord, path, lines[..|lines| - 1], []); }
    }
  }

  // ---------------------------------------------------------------- CRAP

  function Cube(x: real): real {
    x * x * x
  }

  function Crap(complexity: nat, coverage: real): real {
    (complexity * complexity) as real * Cube(1.0 - coverage) + complexity as real
  }

  lemma ProductGrows(a: real, b: real, c: real, d: real)
    requires 0.0 <= a <= b && 0.0 <= c <= d
    ensures 0.0 <= a * c <= b * d
  {
    assert a * c <= b * c;
    assert b * c <= b * d;
  }

  lemma CubeGrows(x: real, y: real)
    requires 0.0 <= x <= y
    ensures 0.0 <= Cube(x) <= Cube(y)
  {
    ProductGrows(x, y, x, y);
    ProductGrows(x * x, y * y, x, y);
  }

  lemma SquareGrows(a: nat, b: nat)
    requires a <= b
    ensures a * a <= b * b
  {
    assert a * a <= a * b;
    assert a * b <= b * b;
  }

  /** The score rises with complexity and falls with coverage. */
  lemma CrapIsMonotone(c: nat, d: nat, coverage: real, less: real)
    requires c <= d && less <= coverage <= 1.0
    ensures Crap(c, coverage) <= Crap(d, less)
  {
    SquareGrows(c, d);
    CubeGrows(1.0 - coverage, 1.0 - less);
    ProductGrows((c * c) as real, (d * d) as real, Cube(1.0 - coverage), Cube(1.0 - less));
  }

  lemma CrapBounds(c: nat, coverage: real)
    requires 0.0 <= coverage <= 1.0
    ensures c as real <= Crap(c, coverage) <= (c * c + c) as real
  {
    CrapIsMonotone(c, c, coverage, 0.0);
    CrapIsMonotone(c, c, 1.0, coverage);
    CrapExtremes(c);
  }

  lemma CrapExtremes(c: nat)
    ensures Crap(c, 0.0) == (c * c + c) as real && Crap(c, 1.0) == c as real
  {
    assert Cube(1.0 - 0.0) == 1.0 && Cube(1.0 - 1.0) == 0.0;
  }

  /** The part of the score above the complexity goes with the third power of the uncovered part
      and with the square of the complexity. */
  lemma ExcessScales(c: nat, d: nat, factor: real, uncovered: real)
    ensures Crap(c, 1.0 - factor * uncovered) - c as real
         == factor * factor * factor * (Crap(c, 1.0 - uncovered) - c as real)
    ensures (d * d) as real * (Crap(c, 1.0 - uncovered) - c as real)
         == (c * c) as real * (Crap(d, 1.0 - uncovered) - d as real)
    ensures Crap(1, 0.0) == 2.0
  {
    CubeScales(factor, uncovered);
    var cc, dd, u := (c * c) as real, (d * d) as real, Cube(uncovered);
    assert 1.0 - (1.0 - factor * uncovered) == factor * uncovered && 1.0 - (1.0 - uncovered) == uncovered;
    MoveOut(cc, factor * factor * factor, u);
    Exchange(cc, dd, u);
    CrapExtremes(1);
  }

  lemma CubeScales(factor: real, x: real)
    ensures Cube(factor * x) == factor * factor * factor * Cube(x)
  {
    var f, y := factor, factor * x;
    assert y * y == f * f * (x * x);
    assert y * y * y == f * f * (x * x) * (f * x);
    assert f * f * (x * x) * (f * x) == f * f * f * (x * x * x);
  }

  lemma MoveOut(a: real, f: real, u: real)
    ensures a * (f * u) == f * (a * u)
  {
  }

  lemma Exchange(a: real, b: real, u: real)
    ensures b * (a * u) == a * (b * u)
  {
  }

  const DEFAULT_CRAP_LIMIT := 30.0

  /** At the default limit tests are not needed up to complexity 5 and of no avail beyond 30. */
  lemma WhatTestsCanSave(c: nat)
    ensures (forall coverage | 0.0 <= coverage <= 1.0 :: Crap(c, coverage) <= DEFAULT_CRAP_LIMIT) <==> c <= 5
    ensures (forall coverage | 0.0 <= coverage <= 1.0 :: Crap(c, coverage) > DEFAULT_CRAP_LIMIT) <==> c > 30
  {
    CrapExtremes(c);
    forall coverage | 0.0 <= coverage <= 1.0
      ensures c as real <= Crap(c, coverage) <= (c * c + c) as real
    {
      CrapBounds(c, coverage);
    }
    if c <= 5 { SquareGrows(c, 5); } else { SquareGrows(6, c); }
    assert Crap(c, 0.0) == (c * c + c) as real;
    assert Crap(c, 1.0) == c as real;
  }

  /** What the gate says of one file: every audited score lies between its complexity and the
      score without tests. */
  lemma AuditedScoreBounds(isWord: WordChar, blocks: seq<Block>, path: string, lines: seq<string>)
    ensures var c := Complexity(isWord, path, lines);
            c as real <= Crap(c, Lookup(blocks, path)) <= (c * c + c) as real
  {
    LookupIsInUnit(blocks, path);
    CrapBounds(Complexity(isWord, path, lines), Lookup(blocks, path));
  }

  /** Appending lines to a file never lowers its score. */
  lemma AppendingNeverLowers(isWord: WordChar, blocks: seq<Block>, path: string, lines: seq<string>, more: seq<string>)
    ensures Crap(Complexity(isWord, path, lines), Lookup(blocks, path))
         <= Crap(Complexity(isWord, path, lines + more), Lookup(blocks, path))
  {
    LookupIsInUnit(blocks, path);
    MoreLinesMoreComplexity(isWord, path, lines, more);
    CrapIsMonotone(Complexity(isWord, path, lines), Complexity(isWord, path, lines + more),
                   Lookup(blocks, path), Lookup(blocks, path));
  }

  // ---------------------------------------------------------------- the audit

  /** A file that the directory walk meets, with its path below the audited root. */
  datatype Source = Source(dir: string, name: string, path: string, lines: seq<string>)

  datatype Result = Result(file: string, complexity: nat, coverage: real, crap: real)

  const EXTENSIONS := [".go", ".ts", ".tsx"]
  const EXCLUDED := [".git", "node_modules", "vendor", ".tmp", "dist", "testdata", ".drover-*-workers"]

  predicate Contains(s: string, part: string) {
    exists i | 0 <= i <= |s| :: TextAt(s, i, part)
  }

  /** Directories are excluded by parts of their names, files taken by their endings. */
  predicate IsAudited(f: Source) {
    && (forall i | 0 <= i < |EXCLUDED| :: !Contains(f.dir, EXCLUDED[i]))
    && EndsInAny(f.name, EXTENSIONS) && !HasSuffix(f.name, "_test.go")
  }

  lemma ContainsIs(s: string, part: string)
    ensures Contains(s, part) <==> exists a, b :: s == a + part + b
  {
    if i :| 0 <= i <= |s| && TextAt(s, i, part) {
      assert s == s[..i] + part + s[i + |part|..];
    }
    if a, b :| s == a + part + b {
      assert s[|a|..|a| + |part|] == part;
      assert TextAt(s, |a|, part);
    }
  }

  /** Which files are audited. */
  lemma AuditedExactly(f: Source)
    ensures IsAudited(f) <==>
            && (HasSuffix(f.name, ".go") || HasSuffix(f.name, ".ts") || HasSuffix(f.name, ".tsx"))
            && !HasSuffix(f.name, "_test.go")
            && !Contains(f.dir, ".git") && !Contains(f.dir, "node_modules") && !Contains(f.dir, "vendor")
            && !Contains(f.dir, ".tmp") && !Contains(f.dir, "dist") && !Contains(f.dir, "testdata")
            && !Contains(f.dir, ".drover-*-workers")
  {
    assert EXTENSIONS[0] == ".go" && EXTENSIONS[1] == ".ts" && EXTENSIONS[2] == ".tsx";
    assert EXCLUDED[0] == ".git" && EXCLUDED[1] == "node_modules" && EXCLUDED[2] == "vendor" && EXCLUDED[3] == ".tmp"
           && EXCLUDED[4] == "dist" && EXCLUDED[5] == "testdata" && EXCLUDED[6] == ".drover-*-workers";
  }

  function ResultOf(isWord: WordChar, blocks: seq<Block>, f: Source): Result {
    var c, fraction := Complexity(isWord, f.path, f.lines), Lookup(blocks, f.path);
    Result(f.path, c, fraction * 100.0, Crap(c, fraction))
  }

  function Results(isWord: WordChar, blocks: seq<Block>, files: seq<Source>): seq<Result> {
    if files == [] then []
    else
      var rest, last := Results(isWord, blocks, files[..|files| - 1]), files[|files| - 1];
      if IsAudited(last) then rest + [ResultOf(isWord, blocks, last)] else rest
  }

  /** One file more: a result with its path, its complexity, its coverage in percent and its score
      comes last, if the file is audited. */
  lemma OneFileMore(isWord: WordChar, blocks: seq<Block>, files: seq<Source>, f: Source)
    ensures Results(isWord, blocks, []) == []
    ensures var c, fraction := Complexity(isWord, f.path, f.lines), Lookup(blocks, f.path);
            Results(isWord, blocks, files + [f])
              == Results(isWord, blocks, files)
                 + if IsAudited(f) then [Result(f.path, c, 100.0 * fraction, Crap(c, fraction))] else []
  {
    assert (files + [f])[..|files|] == files;
    assert Results(isWord, blocks, files) + [] == Results(isWord, blocks, files);
  }

  function Violations(limit: real, results: seq<Result>): seq<Result> {
    if results == [] then []
    else
      var rest, last := Violations(limit, results[..|results| - 1]), results[|results| - 1];
      if last.crap > limit then rest + [last] else rest
  }

  /** sort(key=crap, reverse=True), which keeps the order of ties. */
  predicate HighestFirst(a: Result, b: Result) {
    a.crap >= b.crap
  }

  lemma {:induction false} ViolationsCount(limit: real, results: seq<Result>, x: Result)
    ensures multiset(Violations(limit, results))[x] == if x.crap > limit then multiset(results)[x] else 0
    ensures |Violations(limit, results)| <= |results|
  {
    if results != [] {
      var n := |results| - 1;
      ViolationsCount(limit, results[..n], x);
      assert results == results[..n] + [results[n]];
    }
  }

  /** In a list that is sorted downwards the violations stand in front. */
  lemma {:induction false} SortedViolations(limit: real, results: seq<Result>)
    requires Sorted(HighestFirst, results)
    ensures var k := |Violations(limit, results)|;
            && k <= |results| && Violations(limit, results) == results[..k]
            && (forall i | 0 <= i < |results| :: results[i].crap > limit <==> i < k)
  {
    if results != [] {
      var n := |results| - 1;
      SortedViolations(limit, results[..n]);
      if results[n].crap > limit {
        assert forall i | 0 <= i < n :: HighestFirst(results[i], results[n]);
        assert results[..n] + [results[n]] == results;
      } else {
        var k := |Violations(limit, results[..n])|;
        assert results[..n][..k] == results[..k];
      }
    }
  }

  /** Sorting moves the violations to the front and loses none. */
  lemma ViolationsAreAPrefix(limit: real, results: seq<Result>)
    ensures var sorted := Sort(HighestFirst, results); var k := |Violations(limit, results)|;
            && k <= |sorted| == |results|
            && multiset(sorted[..k]) == multiset(Violations(limit, results))
            && (forall i | 0 <= i < |sorted| :: sorted[i].crap > limit <==> i < k)
  {
    var sorted := Sort(HighestFirst, results);
    SortSorts(HighestFirst, results);
    SortPermutes(HighestFirst, results);
    SortedViolations(limit, sorted);
    forall x
      ensures multiset(Violations(limit, sorted))[x] == multiset(Violations(limit, results))[x]
    {
      ViolationsCount(limit, sorted, x);
      ViolationsCount(limit, results, x);
    }
    assert multiset(Violations(limit, sorted)) == multiset(Violations(limit, results));
    assert |Violations(limit, sorted)| == |multiset(Violations(limit, sorted))| == |Violations(limit, results)|;
  }

  /** Files of one score are reported in the order of the walk. */
  lemma ReportKeepsTies(results: seq<Result>, r: Result)
    ensures Tied(HighestFirst, r, Sort(HighestFirst, results)) == Tied(HighestFirst, r, results)
  {
    SortKeepsTies(HighestFirst, r, results);
  }

  lemma {:induction false} NoViolations(isWord: WordChar, blocks: seq<Block>, files: seq<Source>, limit: real)
    ensures Violations(limit, Results(isWord, blocks, files)) == []
       <==> forall f | f in files && IsAudited(f) :: ResultOf(isWord, blocks, f).crap <= limit
  {
    if files != [] {
      var n := |files| - 1;
      NoViolations(isWord, blocks, files[..n], limit);
      var rest := Results(isWord, blocks, files[..n]);
      assert forall f :: f in files <==> f in files[..n] || f == files[n];
      if IsAudited(files[n]) {
        assert (rest + [ResultOf(isWord, blocks, files[n])])[..|rest|] == rest;
      }
    }
  }

  method AuditFile(isWord: WordChar, f: Source, names: seq<string>, coverage: map<string, real>,
                   ghost blocks: seq<Block>)
    returns (result: Result)
    requires names == Files(blocks) && forall n | n in names :: n in coverage && coverage[n] == Fraction(n, blocks)
    ensures result == ResultOf(isWord, blocks, f)
  {
    var complexity := EstimateComplexity(isWord, f.path, f.lines);
    var fraction := FindMatchingCoverage(f.path, names, coverage);
    result := Result(f.path, complexity, fraction * 100.0, Crap(complexity, fraction));
  }

  lemma OneResultMore(limit: real, results: seq<Result>, r: Result)
    ensures Violations(limit, results + [r])
         == if r.crap > limit then Violations(limit, results) + [r] else Violations(limit, results)
  {
    assert (results + [r])[..|results|] == results;
  }

  method AuditFiles(isWord: WordChar, files: seq<Source>, profile: seq<Option<Block>>, limit: real)
    returns (auditResults: seq<Result>, violations: seq<Result>)
    ensures auditResults == Results(isWord, Blocks(profile), files) && violations == Violations(limit, auditResults)
  {
    var names, coverage := ParseGoCoverage(profile);
    violations, auditResults := [], [];
    for i := 0 to |files|
      invariant auditResults == Results(isWord, Blocks(profile), files[..i])
      invariant violations == Violations(limit, auditResults)
    {
      assert files[..i + 1][..i] == files[..i];
      if IsAudited(files[i]) {
        var result := AuditFile(isWord, files[i], names, coverage, Blocks(profile));
        OneResultMore(limit, auditResults, result);
        auditResults := auditResults + [result];
        if result.crap > limit { violations := violations + [result]; }
      }
    }
    assert files[..|files|] == files;
  }

  const SHOWN_AT_LEAST := 15

  /** The audit of a walked directory with its profile: what is listed, and how many violations
      are returned to become the exit status. */
  method AuditDirectory(isWord: WordChar, files: seq<Source>, profile: seq<Option<Block>>, limit: real)
    returns (count: nat, listed: seq<Result>)
    ensures var blocks := Blocks(profile);
            var results := Results(isWord, blocks, files);
            && listed <= Sort(HighestFirst, results) && count == |Violations(limit, results)|
            && |listed| == (var shown := if count > 15 then count else 15;
                            if shown < |results| then shown else |results|)
            && (forall f | f in files && IsAudited(f) && ResultOf(isWord, blocks, f).crap > limit ::
                  ResultOf(isWord, blocks, f) in listed)
            && (forall i | 0 <= i < |listed| :: listed[i].crap > limit <==> i < count)
            && (count == 0 <==> forall f | f in files && IsAudited(f) :: ResultOf(isWord, blocks, f).crap <= limit)
  {
    ghost var blocks := Blocks(profile);
    var auditResults, violations := AuditFiles(isWord, files, profile, limit);
    ghost var results := auditResults;
    auditResults := Sort(HighestFirst, auditResults);
    ViolationsAreAPrefix(limit, results);
    NoViolations(isWord, blocks, files, limit);
    var showLimit := if |violations| > SHOWN_AT_LEAST then |violations| else SHOWN_AT_LEAST;
    listed := if showLimit < |auditResults| then auditResults[..showLimit] else auditResults;
    forall f | f in files && IsAudited(f) && ResultOf(isWord, blocks, f).crap > limit
      ensures ResultOf(isWord, blocks, f) in listed
    {
      ViolationIsListed(isWord, blocks, files, f, limit, listed);
    }
    count := |violations|;
  }

  lemma {:induction false} EveryFileHasItsResult(isWord: WordChar, blocks: seq<Block>, files: seq<Source>, f: Source)
    requires f in files && IsAudited(f)
    ensures ResultOf(isWord, blocks, f) in Results(isWord, blocks, files)
  {
    var n := |files| - 1;
    if files[n] != f {
      assert f in files[..n];
      EveryFileHasItsResult(isWord, blocks, files[..n], f);
    }
  }

  lemma ViolationIsListed(isWord: WordChar, blocks: seq<Block>, files: seq<Source>, f: Source,
                          limit: real, listed: seq<Result>)
    requires f in files && IsAudited(f) && ResultOf(isWord, blocks, f).crap > limit
    requires var results := Results(isWord, blocks, files);
             listed <= Sort(HighestFirst, results) && |Violations(limit, results)| <= |listed|
    ensures ResultOf(isWord, blocks, f) in listed
  {
    var results, r := Results(isWord, blocks, files), ResultOf(isWord, blocks, f);
    EveryFileHasItsResult(isWord, blocks, files, f);
    ViolationsCount(limit, results, r);
    ViolationsAreAPrefix(limit, results);
    var k := |Violations(limit, results)|;
    assert r in multiset(results);
    assert r in multiset(Sort(HighestFirst, results)[..k]);
    assert Sort(HighestFirst, results)[..k] == listed[..k];
  }
}
