/** The frontmatter of a document: what the regular expression of the validator captures. */
module Frontmatter {
  import opened Content

  // ---------------------------------------------------------------- the matcher

  /** \r?\n at position i: the position behind it. */
  function NewlineAt(text: string, i: nat): (r: Option<nat>)
    ensures r.Some? ==> i < r.value <= |text|
  {
    if i < |text| && text[i] == '\n' then Some(i + 1)
    else if i + 1 < |text| && text[i] == '\r' && text[i + 1] == '\n' then Some(i + 2)
    else None
  }

  predicate DashesAt(text: string, i: nat) {
    i + 3 <= |text| && text[i..i + 3] == "---"
  }

  /** \r?\n---(\r?\n|\Z) at position i. */
  predicate ClosesAt(text: string, i: nat) {
    NewlineAt(text, i).Some? &&
    var j := NewlineAt(text, i).value;
    DashesAt(text, j) && (j + 3 == |text| || NewlineAt(text, j + 3).Some?)
  }

  /** The lazy group: the first position from i on where the rest of the pattern matches. */
  function FirstClose(text: string, i: nat): (r: Option<nat>)
    requires i <= |text|
    ensures r.Some? ==>
              && i <= r.value < |text| && ClosesAt(text, r.value)
              && forall k | i <= k < r.value :: !ClosesAt(text, k)
    ensures r.None? ==> forall k | i <= k :: !ClosesAt(text, k)
    decreases |text| - i
  {
    if i == |text| then None
    else if ClosesAt(text, i) then Some(i)
    else FirstClose(text, i + 1)
  }

  /** Group 1 of FRONTMATTER_RE.match(text). */
  function Capture(text: string): Option<string> {
    if !DashesAt(text, 0) || NewlineAt(text, 3).None? then None
    else
      var start := NewlineAt(text, 3).value;
      match FirstClose(text, start)
      case None => None
      case Some(end) => Some(text[start..end])
  }

  lemma ClosesLater(text: string, i: nat)
    requires text != ""
    ensures ClosesAt(text, i + 1) <==> ClosesAt(text[1..], i)
  {
    NewlineLater(text, i);
    if NewlineAt(text, i + 1).Some? {
      var j := NewlineAt(text, i + 1).value;
      NewlineLater(text, j - 1 + 3);
      if j + 3 <= |text| { assert text[1..][j - 1..j + 2] == text[j..j + 3]; }
    }
  }

  lemma NewlineLater(text: string, i: nat)
    requires text != ""
    ensures NewlineAt(text, i + 1).Some? <==> NewlineAt(text[1..], i).Some?
    ensures NewlineAt(text, i + 1).Some? ==> NewlineAt(text, i + 1).value == NewlineAt(text[1..], i).value + 1
  {
  }

  lemma {:induction false} Dropped(front: string, tail: string, i: nat)
    ensures ClosesAt(front + tail, |front| + i) <==> ClosesAt(tail, i)
  {
    if front == "" {
      assert front + tail == tail;
    } else {
      Dropped(front[1..], tail, i);
      ClosesLater(front + tail, |front| - 1 + i);
      assert (front + tail)[1..] == front[1..] + tail;
    }
  }

  // ---------------------------------------------------------------- what the expression means

  const NEWLINES := {"\n", "\r\n"}

  /** text is one word of the expression with this capture, followed by anything. */
  ghost predicate Admissible(text: string, body: string) {
    exists open, close, end, rest ::
      && open in NEWLINES && close in NEWLINES && (end in NEWLINES || (end == "" && rest == ""))
      && text == "---" + open + body + close + "---" + end + rest
  }

  lemma Slice(a: string, b: string, c: string)
    ensures (a + b + c)[|a|..|a| + |b|] == b
  {
  }

  lemma NewlineIs(text: string, i: nat, nl: string)
    requires i + |nl| <= |text| && text[i..i + |nl|] == nl && nl in NEWLINES
    ensures NewlineAt(text, i) == Some(i + |nl|)
  {
    assert text[i] == nl[0];
    if |nl| == 2 { assert text[i + 1] == nl[1]; }
  }

  lemma NewlineText(text: string, i: nat)
    requires NewlineAt(text, i).Some?
    ensures text[i..NewlineAt(text, i).value] in NEWLINES
  {
    if text[i] == '\n' { assert text[i..i + 1] == "\n"; }
    else { assert text[i..i + 2] == "\r\n"; }
  }

  /** A text cut at four places behind its first dashes. */
  lemma Cut(text: string, a: nat, b: nat, c: nat, d: nat)
    requires 3 <= a <= b <= c && c + 3 <= d <= |text| && text[..3] == "---" && text[c..c + 3] == "---"
    ensures text == "---" + text[3..a] + text[a..b] + text[b..c] + "---" + text[c + 3..d] + text[d..]
  {
    assert text[..a] == "---" + text[3..a];
    assert text[..b] == text[..a] + text[a..b];
    assert text[..c] == text[..b] + text[b..c];
    assert text[..c + 3] == text[..c] + "---";
    assert text[..d] == text[..c + 3] + text[c + 3..d];
    assert text == text[..d] + text[d..];
  }

  /** What is captured is admissible. */
  lemma CaptureIsAdmissible(text: string)
    requires Capture(text).Some?
    ensures Admissible(text, Capture(text).value)
  {
    var start := NewlineAt(text, 3).value;
    var i := FirstClose(text, start).value;
    var j := NewlineAt(text, i).value;
    var k := if j + 3 == |text| then j + 3 else NewlineAt(text, j + 3).value;
    NewlineText(text, 3);
    NewlineText(text, i);
    if j + 3 < |text| { NewlineText(text, j + 3); }
    Cut(text, start, i, j, k);
    ByParts(text, text[3..start], text[start..i], text[i..j], text[j + 3..k], text[k..]);
  }

  lemma ByParts(text: string, open: string, body: string, close: string, end: string, rest: string)
    requires open in NEWLINES && close in NEWLINES && (end in NEWLINES || (end == "" && rest == ""))
    requires text == "---" + open + body + close + "---" + end + rest
    ensures Admissible(text, body)
  {
  }

  /** Where the parts of an admissible text lie. */
  lemma PartsClose(open: string, body: string, close: string, end: string, rest: string)
    requires open in NEWLINES && close in NEWLINES && (end in NEWLINES || (end == "" && rest == ""))
    ensures var text := "---" + open + body + close + "---" + end + rest; var start := 3 + |open|;
            && text == "---" + open + body + (close + "---" + end + rest)
            && DashesAt(text, 0) && NewlineAt(text, 3) == Some(start)
            && start + |body| <= |text| && text[start..start + |body|] == body && ClosesAt(text, start + |body|)
  {
    var front, tail := "---" + open + body, close + "---" + end + rest;
    Regroup(front, close, "---", end, rest);
    ClosingStart(close, end, rest);
    Dropped(front, tail, 0);
    OpeningStart(open, body, tail);
  }

  lemma Regroup(a: string, b: string, c: string, d: string, e: string)
    ensures a + b + c + d + e == a + (b + c + d + e)
  {
    Associate(a, b, c);
    Associate(a, b + c, d);
    Associate(a, b + c + d, e);
  }

  lemma Associate(a: string, b: string, c: string)
    ensures (a + b) + c == a + (b + c)
  {
  }

  lemma OpeningStart(open: string, body: string, tail: string)
    requires open in NEWLINES
    ensures var text := "---" + open + body + tail;
            && DashesAt(text, 0) && NewlineAt(text, 3) == Some(3 + |open|)
            && text[3 + |open|..3 + |open| + |body|] == body
  {
    var text := "---" + open + body + tail;
    Associate("---" + open, body, tail);
    Associate("---", open, body + tail);
    Slice("", "---", open + (body + tail));
    Slice("---", open, body + tail);
    Slice("---" + open, body, tail);
    assert text == "" + "---" + (open + (body + tail));
    NewlineIs(text, 3, open);
  }

  lemma ClosingStart(close: string, end: string, rest: string)
    requires close in NEWLINES && (end in NEWLINES || (end == "" && rest == ""))
    ensures ClosesAt(close + "---" + end + rest, 0)
  {
    var text, j := close + "---" + end + rest, |close|;
    Associate(close + "---", end, rest);
    Associate(close, "---", end + rest);
    Slice("", close, "---" + (end + rest));
    Slice(close, "---", end + rest);
    Slice(close + "---", end, rest);
    assert text == "" + close + ("---" + (end + rest));
    NewlineIs(text, 0, close);
    if end != "" { NewlineIs(text, j + 3, end); }
  }

  /** Every admissible body starts where the capture starts and ends where a closing line does. */
  lemma AdmissibleCloses(text: string, body: string)
    requires Admissible(text, body)
    ensures DashesAt(text, 0) && NewlineAt(text, 3).Some?
    ensures var start := NewlineAt(text, 3).value;
            start + |body| <= |text| && text[start..start + |body|] == body && ClosesAt(text, start + |body|)
  {
    var open, close, end, rest :|
      && open in NEWLINES && close in NEWLINES && (end in NEWLINES || (end == "" && rest == ""))
      && text == "---" + open + body + close + "---" + end + rest;
    PartsClose(open, body, close, end, rest);
  }

  /** The capture is the shortest admissible body, and there is none exactly when no body is
      admissible. */
  lemma CaptureIsShortest(text: string)
    ensures Capture(text).None? <==> forall body :: !Admissible(text, body)
    ensures forall body :: Admissible(text, body) ==> Capture(text).Some? && Capture(text).value <= body
    ensures Capture(text).Some? ==> Admissible(text, Capture(text).value)
  {
    forall body | Admissible(text, body)
      ensures Capture(text).Some? && Capture(text).value <= body
    {
      AdmissibleCloses(text, body);
      var start := NewlineAt(text, 3).value;
      var end := FirstClose(text, start);
      assert end.Some? && end.value <= start + |body|;
      assert text[start..end.value] == body[..end.value - start];
    }
    if Capture(text).Some? { CaptureIsAdmissible(text); }
  }

  // ---------------------------------------------------------------- printing and reading back

  function Print(body: string, rest: string): string {
    "---\n" + body + "\n---\n" + rest
  }

  /** The lines of a text, without their line feeds. */
  function Lines(s: string): (lines: seq<string>)
    ensures |lines| > 0
  {
    if s == "" then [""]
    else
      var rest := Lines(s[1..]);
      if s[0] == '\n' then [""] + rest else [[s[0]] + rest[0]] + rest[1..]
  }

  predicate IsDelimiter(line: string) {
    line == "---" || line == "---\r"
  }

  /** A line behind the first that reads as a delimiter. */
  predicate HasDelimiterLine(body: string) {
    exists j | 1 <= j < |Lines(body)| :: IsDelimiter(Lines(body)[j])
  }

  predicate EndsInReturn(body: string) {
    body != "" && body[|body| - 1] == '\r'
  }

  /** The printed text from the start of the body on. */
  function Tail(body: string, rest: string): string {
    body + "\n---\n" + rest
  }

  lemma {:induction false} FirstLineEnds(body: string)
    ensures var line := Lines(body)[0];
            && |line| <= |body| && line == body[..|line|] && '\n' !in line
            && (|line| < |body| ==> body[|line|] == '\n')
  {
    if body != "" && body[0] != '\n' {
      FirstLineEnds(body[1..]);
      var line := Lines(body[1..])[0];
      assert body[..|line| + 1] == [body[0]] + body[1..][..|line|];
    }
  }

  /** A closing line at the very start of the printed tail is the first line of the body. */
  lemma FirstLineCloses(body: string, rest: string)
    ensures IsDelimiter(Lines(body)[0]) <==> DashesAt(Tail(body, rest), 0) && NewlineAt(Tail(body, rest), 3).Some?
  {
    var tail, line := Tail(body, rest), Lines(body)[0];
    FirstLineEnds(body);
    assert tail[..|line|] == line && tail[|line|] == '\n';
    if IsDelimiter(line) {
      assert tail[0..3] == line[..3];
      if |line| == 4 { assert tail[3] == line[3]; }
    }
    if DashesAt(tail, 0) && NewlineAt(tail, 3).Some? {
      assert forall k | 0 <= k < 3 :: tail[k] == tail[0..3][k] == '-';
      assert |line| >= 3 && line[..3] == "---";
      if |line| > 3 { assert line[3] == tail[3]; assert |line| == 4; }
    }
  }

  /** The printed body is cut short. */
  predicate ClosesEarly(body: string, rest: string) {
    exists i | 0 <= i < |body| :: ClosesAt(Tail(body, rest), i)
  }

  /** The first character opens a closing line, or it does not matter. */
  lemma ClosesEarlyFrom(body: string, rest: string)
    requires body != ""
    ensures ClosesEarly(body, rest) <==> ClosesAt(Tail(body, rest), 0) || ClosesEarly(body[1..], rest)
  {
    var tail := Tail(body, rest);
    assert tail[1..] == Tail(body[1..], rest);
    if ClosesEarly(body[1..], rest) {
      var i :| 0 <= i < |body[1..]| && ClosesAt(Tail(body[1..], rest), i);
      ClosesLater(tail, i);
    }
    if ClosesEarly(body, rest) {
      var i :| 0 <= i < |body| && ClosesAt(tail, i);
      if i > 0 { ClosesLater(tail, i - 1); }
    }
  }

  lemma HasDelimiterLineFrom(body: string)
    requires body != ""
    ensures HasDelimiterLine(body) <==>
              (body[0] == '\n' && IsDelimiter(Lines(body[1..])[0])) || HasDelimiterLine(body[1..])
  {
    var lines, rest := Lines(body), Lines(body[1..]);
    assert forall j | 1 <= j < |rest| :: rest[j] == lines[if body[0] == '\n' then j + 1 else j];
    assert body[0] == '\n' ==> lines[1] == rest[0];
    if HasDelimiterLine(body[1..]) {
      var j :| 1 <= j < |rest| && IsDelimiter(rest[j]);
      assert IsDelimiter(lines[if body[0] == '\n' then j + 1 else j]);
    }
    if HasDelimiterLine(body) {
      var j :| 1 <= j < |lines| && IsDelimiter(lines[j]);
      assert lines[j] == rest[if body[0] == '\n' then j - 1 else j];
    }
  }

  /** What a first character in front of the tail can close. */
  lemma ClosesFirst(body: string, rest: string)
    requires body != ""
    ensures body[0] == '\n' ==> (ClosesAt(Tail(body, rest), 0) <==> IsDelimiter(Lines(body[1..])[0]))
    ensures body == "\r" ==> ClosesAt(Tail(body, rest), 0)
    ensures body[0] != '\n' && |body| > 1 ==> (ClosesAt(Tail(body, rest), 0) ==> ClosesAt(Tail(body[1..], rest), 0))
    ensures body[0] != '\n' && body[0] != '\r' ==> !ClosesAt(Tail(body, rest), 0)
  {
    var tail := Tail(body, rest);
    assert tail[1..] == Tail(body[1..], rest);
    if body[0] == '\n' {
      FirstLineCloses(body[1..], rest);
      NewlineLater(tail, 3);
      assert tail[1..4] == tail[1..][0..3];
    } else if body == "\r" {
      assert tail == "\r\n" + "---" + "\n" + rest;
      assert tail[2..5] == "---";
    } else if |body| > 1 && ClosesAt(tail, 0) {
      ClosesLater(tail, 0);
      assert NewlineAt(tail, 1) == Some(2);
    }
  }

  /** Closing early is a matter of the body alone. */
  lemma {:induction false} ClosesEarlyExactly(body: string, rest: string)
    ensures ClosesEarly(body, rest) <==> HasDelimiterLine(body) || EndsInReturn(body)
  {
    if body != "" {
      ClosesEarlyExactly(body[1..], rest);
      ClosesEarlyFrom(body, rest);
      HasDelimiterLineFrom(body);
      ClosesFirst(body, rest);
    }
  }

  /** Reading back what was printed gives the body, exactly when the body does not end in a
      carriage return and none of its lines behind the first is a delimiter. */
  lemma PrintThenCapture(body: string, rest: string)
    ensures Capture(Print(body, rest)) == Some(body) <==> !EndsInReturn(body) && !HasDelimiterLine(body)
  {
    ClosesEarlyExactly(body, rest);
    var text := Print(body, rest);
    TailCloses(body, rest);
    assert text[0..3] == "---" && text[3] == '\n';
    forall i: nat ensures ClosesAt(text, 4 + i) <==> ClosesAt(Tail(body, rest), i) {
      PrintedTail(body, rest, i);
    }
    var end := FirstClose(text, 4);
    assert end.Some? && end.value <= 4 + |body|;
    if end.value < 4 + |body| { assert ClosesAt(Tail(body, rest), end.value - 4); }
    if ClosesEarly(body, rest) {
      var i :| 0 <= i < |body| && ClosesAt(Tail(body, rest), i);
      assert ClosesAt(text, 4 + i);
    }
    assert text[4..4 + |body|] == body;
  }

  lemma TailCloses(body: string, rest: string)
    ensures ClosesAt(Tail(body, rest), |body|)
  {
    var tail := Tail(body, rest);
    assert tail == body + "\n" + "---" + "\n" + rest;
    assert tail[|body|] == '\n' && tail[|body| + 1..|body| + 4] == "---" && tail[|body| + 4] == '\n';
  }

  lemma PrintedTail(body: string, rest: string, i: nat)
    ensures ClosesAt(Print(body, rest), 4 + i) <==> ClosesAt(Tail(body, rest), i)
  {
    var text, tail := Print(body, rest), Tail(body, rest);
    assert text == "---\n" + tail;
    Dropped("---\n", tail, i);
  }
}
