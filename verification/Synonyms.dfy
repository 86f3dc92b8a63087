/** The rewriting of synonyms in parsed frontmatter, in place. */
module Synonyms {
  import opened Content

  /** A YAML value as far as the validator looks into it. */
  datatype Value = Text(text: string) | Items(items: seq<Value>) | Other(id: nat)

  type Mapping = map<string, string>

  /** One entry of the taxonomy's synonyms; entries that are no mappings are skipped. */
  datatype Rule = Rule(facet: string, mapping: Option<Mapping>)

  datatype Note = Note(facet: string, was: string, preferred: string)

  /** mapping.get(value, value) */
  function Preferred(mapping: Mapping, value: string): string {
    if value in mapping then mapping[value] else value
  }

  function RewriteItem(mapping: Mapping, item: Value): Value {
    if item.Text? then Text(Preferred(mapping, item.text)) else item
  }

  function RewriteItems(mapping: Mapping, items: seq<Value>): (r: seq<Value>)
    ensures |r| == |items|
  {
    seq(|items|, i requires 0 <= i < |items| => RewriteItem(mapping, items[i]))
  }

  function ItemNotes(facet: string, mapping: Mapping, items: seq<Value>): seq<Note> {
    if items == [] then []
    else
      var item := items[|items| - 1];
      var notes := ItemNotes(facet, mapping, items[..|items| - 1]);
      if item.Text? && Preferred(mapping, item.text) != item.text
      then notes + [Note(facet, item.text, Preferred(mapping, item.text))] else notes
  }

  /** The facet "topic" governs the field "topics". */
  function Target(facet: string): string {
    if facet == "topic" then "topics" else facet
  }

  /** A rule works on lists and, except for topics, on single texts. */
  function Rewrite(rule: Rule, value: Value): Value
    requires rule.mapping.Some?
  {
    match value
    case Items(items) => Items(RewriteItems(rule.mapping.value, items))
    case Text(text) => if rule.facet == "topic" then value else Text(Preferred(rule.mapping.value, text))
    case Other(_) => value
  }

  function RewriteNotes(rule: Rule, value: Value): seq<Note>
    requires rule.mapping.Some?
  {
    match value
    case Items(items) => ItemNotes(Target(rule.facet), rule.mapping.value, items)
    case Text(text) =>
      var preferred := Preferred(rule.mapping.value, text);
      if rule.facet == "topic" || preferred == text then [] else [Note(rule.facet, text, preferred)]
    case Other(_) => []
  }

  predicate Applies(rule: Rule, fields: map<string, Value>) {
    rule.mapping.Some? && Target(rule.facet) in fields
  }

  function Pass(fields: map<string, Value>, rule: Rule): map<string, Value> {
    if Applies(rule, fields) then fields[Target(rule.facet) := Rewrite(rule, fields[Target(rule.facet)])] else fields
  }

  function PassNotes(fields: map<string, Value>, rule: Rule): seq<Note> {
    if Applies(rule, fields) then RewriteNotes(rule, fields[Target(rule.facet)]) else []
  }

  function Normalized(fields: map<string, Value>, rules: seq<Rule>): map<string, Value> {
    if rules == [] then fields else Pass(Normalized(fields, rules[..|rules| - 1]), rules[|rules| - 1])
  }

  function NotesOf(fields: map<string, Value>, rules: seq<Rule>): seq<Note> {
    if rules == [] then []
    else NotesOf(fields, rules[..|rules| - 1]) + PassNotes(Normalized(fields, rules[..|rules| - 1]), rules[|rules| - 1])
  }

  class Document {
    var fields: map<string, Value>

    constructor (fields: map<string, Value>)
      ensures this.fields == fields
    {
      this.fields := fields;
    }

    static method NormalizeItems(facet: string, mapping: Mapping, items: seq<Value>)
      returns (normalized: seq<Value>, notes: seq<Note>)
      ensures normalized == RewriteItems(mapping, items) && notes == ItemNotes(facet, mapping, items)
    {
      normalized, notes := [], [];
      for i := 0 to |items|
        invariant normalized == RewriteItems(mapping, items[..i]) && notes == ItemNotes(facet, mapping, items[..i])
      {
        assert items[..i + 1][..i] == items[..i];
        if !items[i].Text? {
          normalized := normalized + [items[i]];
        } else {
          var preferred := if items[i].text in mapping then mapping[items[i].text] else items[i].text;
          if preferred != items[i].text { notes := notes + [Note(facet, items[i].text, preferred)]; }
          normalized := normalized + [Text(preferred)];
        }
      }
      assert items[..|items|] == items;
    }

    method NormalizeSynonyms(rules: seq<Rule>) returns (notes: seq<Note>)
      modifies this`fields
      ensures fields == Normalized(old(fields), rules)
      ensures notes == NotesOf(old(fields), rules)
    {
      notes := [];
      for i := 0 to |rules|
        invariant fields == Normalized(old(fields), rules[..i]) && notes == NotesOf(old(fields), rules[..i])
      {
        assert rules[..i + 1][..i] == rules[..i];
        if rules[i].mapping.Some? {
          var facet, mapping := rules[i].facet, rules[i].mapping.value;
          if facet == "topic" {
            if "topics" in fields && fields["topics"].Items? {
              var normalized, found := NormalizeItems("topics", mapping, fields["topics"].items);
              notes := notes + found;
              fields := fields["topics" := Items(normalized)];
            } else if "topics" in fields {
              assert fields["topics" := fields["topics"]] == fields;
            }
          } else if facet in fields {
            var value := fields[facet];
            if value.Text? {
              var preferred := if value.text in mapping then mapping[value.text] else value.text;
              if preferred != value.text { notes := notes + [Note(facet, value.text, preferred)]; }
              fields := fields[facet := Text(preferred)];
            } else if value.Items? {
              var normalized, found := NormalizeItems(facet, mapping, value.items);
              notes := notes + found;
              fields := fields[facet := Items(normalized)];
            } else {
              assert fields[facet := fields[facet]] == fields;
            }
          }
        }
      }
      assert rules[..|rules|] == rules;
    }
  }

  // ---------------------------------------------------------------- what the rules do together

  /** A rule works on a text of a field: on any text in a list, on a single text unless it is the
      rule for topics. */
  predicate Governs(rule: Rule, key: string, listed: bool) {
    rule.mapping.Some? && Target(rule.facet) == key && (listed || rule.facet != "topic")
  }

  /** Where the rules for a field send a text, one after the other. */
  function Through(rules: seq<Rule>, key: string, listed: bool, text: string): string {
    if rules == [] then text
    else
      var n := |rules| - 1;
      var sent := Through(rules[..n], key, listed, text);
      if Governs(rules[n], key, listed) then Preferred(rules[n].mapping.value, sent) else sent
  }

  /** No rule for the field has another word for this text. */
  predicate Quiet(rules: seq<Rule>, key: string, listed: bool, text: string) {
    forall i | 0 <= i < |rules| && Governs(rules[i], key, listed) :: Preferred(rules[i].mapping.value, text) == text
  }

  function ThroughItem(rules: seq<Rule>, key: string, item: Value): Value {
    if item.Text? then Text(Through(rules, key, true, item.text)) else item
  }

  function ThroughValue(rules: seq<Rule>, key: string, value: Value): Value {
    match value
    case Items(items) => Items(seq(|items|, i requires 0 <= i < |items| => ThroughItem(rules, key, items[i])))
    case Text(text) => Text(Through(rules, key, false, text))
    case Other(_) => value
  }

  /** One more rule looks up what the rules before it have made of a text: in the lists of "topics"
      when it is the rule for "topic", else in lists and single texts of its own field. */
  lemma OneMoreRule(rules: seq<Rule>, rule: Rule, key: string, listed: bool, text: string)
    ensures Through([], key, listed, text) == text
    ensures var was := Through(rules, key, listed, text);
            Through(rules + [rule], key, listed, text)
              == if rule.mapping.Some? && was in rule.mapping.value
                    && (if rule.facet == "topic" then key == "topics" && listed else key == rule.facet)
                 then rule.mapping.value[was] else was
  {
    assert (rules + [rule])[..|rules|] == rules;
  }

  /** The rules together do to each text of each field what they do to it one after the other, and
      nothing to anything else. */
  lemma EachTextIsSent(fields: map<string, Value>, rules: seq<Rule>, key: string)
    ensures key in Normalized(fields, rules) <==> key in fields
    ensures key in fields && fields[key].Text? ==>
              Normalized(fields, rules)[key] == Text(Through(rules, key, false, fields[key].text))
    ensures key in fields && fields[key].Other? ==> Normalized(fields, rules)[key] == fields[key]
    ensures key in fields && fields[key].Items? ==>
              var was, now := fields[key].items, Normalized(fields, rules)[key];
              && now.Items? && |now.items| == |was|
              && forall i | 0 <= i < |was| ::
                   now.items[i] == if was[i].Text? then Text(Through(rules, key, true, was[i].text)) else was[i]
  {
    NormalizedSendsEachText(fields, rules, key);
  }

  lemma {:induction false} NormalizedSendsEachText(fields: map<string, Value>, rules: seq<Rule>, key: string)
    ensures key in Normalized(fields, rules) <==> key in fields
    ensures key in fields ==> Normalized(fields, rules)[key] == ThroughValue(rules, key, fields[key])
  {
    if rules == [] {
      if key in fields && fields[key].Items? {
        assert ThroughValue(rules, key, fields[key]).items == fields[key].items;
      }
    } else {
      var n := |rules| - 1;
      NormalizedSendsEachText(fields, rules[..n], key);
      if key in fields { LastRuleSends(rules, key, fields[key]); }
    }
  }

  lemma LastRuleSends(rules: seq<Rule>, key: string, value: Value)
    requires rules != []
    ensures var n := |rules| - 1; var front := ThroughValue(rules[..n], key, value);
            ThroughValue(rules, key, value)
              == if rules[n].mapping.Some? && Target(rules[n].facet) == key then Rewrite(rules[n], front) else front
  {
    var n := |rules| - 1;
    if value.Items? {
      var front := ThroughValue(rules[..n], key, value).items;
      var whole := ThroughValue(rules, key, value).items;
      if rules[n].mapping.Some? && Target(rules[n].facet) == key {
        assert whole == RewriteItems(rules[n].mapping.value, front);
      } else {
        assert whole == front;
      }
    }
  }

  /** A text that a field holds, singly or in a list. */
  predicate Holds(value: Value, listed: bool, text: string) {
    if listed then value.Items? && Text(text) in value.items else value == Text(text)
  }

  /** A text of a document, with the field and the way it is held. */
  predicate Occurs(fields: map<string, Value>, key: string, listed: bool, text: string) {
    key in fields && Holds(fields[key], listed, text)
  }

  ghost predicate AllReturn(fields: map<string, Value>, rules: seq<Rule>) {
    forall key, listed, text | Occurs(fields, key, listed, text) :: Through(rules, key, listed, text) == text
  }

  ghost predicate AllQuiet(fields: map<string, Value>, rules: seq<Rule>) {
    forall key, listed, text | Occurs(fields, key, listed, text) :: Quiet(rules, key, listed, text)
  }

  /** The rules, applied once more, leave every text where they have sent it. */
  ghost predicate AllSettle(fields: map<string, Value>, rules: seq<Rule>) {
    forall key, listed, text | Occurs(fields, key, listed, text) ::
      Through(rules, key, listed, Through(rules, key, listed, text)) == Through(rules, key, listed, text)
  }

  /** One rule has no other word for any text that it works on. */
  ghost predicate SilentRule(fields: map<string, Value>, rule: Rule) {
    forall key, listed, text | Occurs(fields, key, listed, text) && Governs(rule, key, listed) ::
      Preferred(rule.mapping.value, text) == text
  }

  lemma ValueIsFixed(rules: seq<Rule>, key: string, value: Value)
    ensures ThroughValue(rules, key, value) == value
       <==> forall listed, text | Holds(value, listed, text) :: Through(rules, key, listed, text) == text
  {
    if value.Items? {
      var items, sent := value.items, ThroughValue(rules, key, value).items;
      if sent == items {
        forall text | Text(text) in items
          ensures Through(rules, key, true, text) == text
        {
          var i :| 0 <= i < |items| && items[i] == Text(text);
          assert sent[i] == items[i];
        }
      }
      if forall listed, text | Holds(value, listed, text) :: Through(rules, key, listed, text) == text {
        forall i | 0 <= i < |items|
          ensures sent[i] == items[i]
        {
          if items[i].Text? { assert Holds(value, true, items[i].text); }
        }
        assert sent == items;
      }
    } else if value.Text? {
      assert Holds(value, false, value.text);
    }
  }

  /** A document is left as it is if and only if every text in it comes back to itself. */
  lemma UnchangedExactlyWhenReturned(fields: map<string, Value>, rules: seq<Rule>)
    ensures Normalized(fields, rules) == fields
       <==> AllReturn(fields, rules)
  {
    forall key
      ensures key in Normalized(fields, rules) <==> key in fields
      ensures key in fields ==>
                (Normalized(fields, rules)[key] == fields[key] <==>
                 forall listed, text | Holds(fields[key], listed, text) :: Through(rules, key, listed, text) == text)
    {
      NormalizedSendsEachText(fields, rules, key);
      if key in fields { ValueIsFixed(rules, key, fields[key]); }
    }
  }

  // ---------------------------------------------------------------- notes

  lemma {:induction false} NoNotesForItems(facet: string, mapping: Mapping, items: seq<Value>)
    ensures ItemNotes(facet, mapping, items) == []
       <==> forall text | Text(text) in items :: Preferred(mapping, text) == text
  {
    if items != [] {
      var n := |items| - 1;
      NoNotesForItems(facet, mapping, items[..n]);
      assert forall v :: v in items <==> v in items[..n] || v == items[n];
      if items[n].Text? { assert items[n] == Text(items[n].text); }
    }
  }

  /** The notes on a list are those on its items in their order: one for each text that its rule
      replaces by another. */
  lemma {:induction false} NotesOnItems(facet: string, mapping: Mapping, a: seq<Value>, b: seq<Value>, item: Value)
    ensures ItemNotes(facet, mapping, a + b) == ItemNotes(facet, mapping, a) + ItemNotes(facet, mapping, b)
    ensures ItemNotes(facet, mapping, [item])
         == if item.Text? && item.text in mapping && mapping[item.text] != item.text
            then [Note(facet, item.text, mapping[item.text])] else []
    decreases |b|
  {
    assert [item][..0] == [] && ItemNotes(facet, mapping, []) == [];
    if b == [] {
      assert a + b == a;
    } else {
      var n := |b| - 1;
      NotesOnItems(facet, mapping, a, b[..n], item);
      assert (a + b)[..|a + b| - 1] == a + b[..n];
    }
  }

  /** The notes of one more rule come last. They name the field that it works on, what was there
      and what is there now. */
  lemma NotesOfOneMoreRule(fields: map<string, Value>, rules: seq<Rule>, rule: Rule)
    ensures NotesOf(fields, []) == []
    ensures var was := Normalized(fields, rules); var key := if rule.facet == "topic" then "topics" else rule.facet;
            NotesOf(fields, rules + [rule])
              == NotesOf(fields, rules)
                 + if rule.mapping.None? || key !in was then []
                   else match was[key]
                     case Items(items) => ItemNotes(key, rule.mapping.value, items)
                     case Text(text) =>
                       if rule.facet != "topic" && text in rule.mapping.value && rule.mapping.value[text] != text
                       then [Note(key, text, rule.mapping.value[text])] else []
                     case Other(_) => []
  {
    assert (rules + [rule])[..|rules|] == rules;
  }

  lemma NoNotesForValue(rule: Rule, key: string, value: Value)
    requires rule.mapping.Some? && Target(rule.facet) == key
    ensures RewriteNotes(rule, value) == []
       <==> forall listed, text | Holds(value, listed, text) && Governs(rule, key, listed) ::
              Preferred(rule.mapping.value, text) == text
  {
    if value.Items? {
      NoNotesForItems(Target(rule.facet), rule.mapping.value, value.items);
      assert forall text :: Holds(value, true, text) <==> Text(text) in value.items;
    } else if value.Text? {
      assert Holds(value, false, value.text);
    }
  }

  /** Texts that no rule touches are still there when the next rule comes. */
  lemma QuietStays(rules: seq<Rule>, key: string, listed: bool, text: string)
    requires Quiet(rules, key, listed, text)
    ensures Through(rules, key, listed, text) == text
  {
    if rules != [] {
      assert Quiet(rules[..|rules| - 1], key, listed, text);
      QuietStays(rules[..|rules| - 1], key, listed, text);
    }
  }

  lemma QuietAndLast(rules: seq<Rule>, key: string, listed: bool, text: string)
    requires rules != []
    ensures var n := |rules| - 1;
            Quiet(rules, key, listed, text) <==>
            Quiet(rules[..n], key, listed, text)
            && (Governs(rules[n], key, listed) ==> Preferred(rules[n].mapping.value, text) == text)
  {
    var n := |rules| - 1;
    assert forall i | 0 <= i < n :: rules[..n][i] == rules[i];
    if Quiet(rules, key, listed, text) {
      forall i | 0 <= i < n && Governs(rules[..n][i], key, listed)
        ensures Preferred(rules[..n][i].mapping.value, text) == text
      {
        assert rules[..n][i] == rules[i];
      }
    }
  }

  /** There are no notes if and only if no rule has another word for a text of its field. */
  lemma {:induction false} SilentExactlyWhenQuiet(fields: map<string, Value>, rules: seq<Rule>)
    ensures NotesOf(fields, rules) == [] <==> AllQuiet(fields, rules)
  {
    if rules != [] {
      var n := |rules| - 1;
      SilentExactlyWhenQuiet(fields, rules[..n]);
      forall key, listed, text
        ensures Quiet(rules, key, listed, text) <==>
                Quiet(rules[..n], key, listed, text)
                && (Governs(rules[n], key, listed) ==> Preferred(rules[n].mapping.value, text) == text)
      {
        QuietAndLast(rules, key, listed, text);
      }
      assert AllQuiet(fields, rules) <==> AllQuiet(fields, rules[..n]) && SilentRule(fields, rules[n]);
      if AllQuiet(fields, rules[..n]) { LastRuleIsSilent(fields, rules); }
    }
  }

  /** When the rules before it have said nothing, the last one meets the document as it was. */
  lemma LastRuleIsSilent(fields: map<string, Value>, rules: seq<Rule>)
    requires rules != [] && AllQuiet(fields, rules[..|rules| - 1])
    ensures var n := |rules| - 1;
            PassNotes(Normalized(fields, rules[..n]), rules[n]) == [] <==> SilentRule(fields, rules[n])
  {
    var n := |rules| - 1;
    QuietReturns(fields, rules[..n]);
    UnchangedExactlyWhenReturned(fields, rules[..n]);
    var rule := rules[n];
    var key := Target(rule.facet);
    if Applies(rule, fields) {
      NoNotesForValue(rule, key, fields[key]);
      assert forall listed, text :: Occurs(fields, key, listed, text) <==> Holds(fields[key], listed, text);
    }
    assert forall k, listed :: Governs(rule, k, listed) ==> k == key;
  }

  lemma QuietReturns(fields: map<string, Value>, rules: seq<Rule>)
    requires AllQuiet(fields, rules)
    ensures AllReturn(fields, rules)
  {
    forall key, listed, text | Occurs(fields, key, listed, text)
      ensures Through(rules, key, listed, text) == text
    {
      QuietStays(rules, key, listed, text);
    }
  }

  ghost predicate Honest(fields: map<string, Value>, rules: seq<Rule>) {
    NotesOf(fields, rules) == [] <==> Normalized(fields, rules) == fields
  }

  /** Without notes nothing has changed, whatever the rules. */
  lemma SilenceMeansNoChange(fields: map<string, Value>, rules: seq<Rule>)
    ensures NotesOf(fields, rules) == [] ==> Normalized(fields, rules) == fields
  {
    SilentExactlyWhenQuiet(fields, rules);
    UnchangedExactlyWhenReturned(fields, rules);
    if AllQuiet(fields, rules) { QuietReturns(fields, rules); }
  }

  /** A document of one text. */
  function Lone(key: string, listed: bool, text: string): map<string, Value> {
    map[key := if listed then Items([Text(text)]) else Text(text)]
  }

  lemma LoneHolds(key: string, listed: bool, text: string)
    ensures forall k, l, x :: Occurs(Lone(key, listed, text), k, l, x) <==> k == key && l == listed && x == text
  {
    assert Text(text) in [Text(text)];
  }

  /** A taxonomy's notes are honest for every document if and only if it sends no text away and
      back to itself. */
  lemma NotesTellOfChanges(rules: seq<Rule>)
    ensures (forall fields :: Honest(fields, rules))
       <==> forall key, listed, text | Through(rules, key, listed, text) == text :: Quiet(rules, key, listed, text)
  {
    if forall key, listed, text | Through(rules, key, listed, text) == text :: Quiet(rules, key, listed, text) {
      forall fields
        ensures Honest(fields, rules)
      {
        SilenceMeansNoChange(fields, rules);
        SilentExactlyWhenQuiet(fields, rules);
        UnchangedExactlyWhenReturned(fields, rules);
      }
    }
    if forall fields :: Honest(fields, rules) {
      forall key, listed, text | Through(rules, key, listed, text) == text
        ensures Quiet(rules, key, listed, text)
      {
        var fields := Lone(key, listed, text);
        LoneHolds(key, listed, text);
        assert Honest(fields, rules);
        SilentExactlyWhenQuiet(fields, rules);
        UnchangedExactlyWhenReturned(fields, rules);
      }
    }
  }

  /** Normalising a second time changes nothing if and only if the rules, applied once more, leave
      every text where they have sent it. */
  lemma NormalizingTwice(fields: map<string, Value>, rules: seq<Rule>)
    ensures var once := Normalized(fields, rules);
            Normalized(once, rules) == once <==> AllSettle(fields, rules)
  {
    var once := Normalized(fields, rules);
    UnchangedExactlyWhenReturned(once, rules);
    forall key, listed, sent
      ensures Occurs(once, key, listed, sent) <==>
              exists text :: Occurs(fields, key, listed, text) && sent == Through(rules, key, listed, text)
    {
      NormalizedSendsEachText(fields, rules, key);
      if key in fields { TextsAreSent(rules, key, fields[key], listed, sent); }
    }
    if AllReturn(once, rules) {
      forall key, listed, text | Occurs(fields, key, listed, text)
        ensures Through(rules, key, listed, Through(rules, key, listed, text)) == Through(rules, key, listed, text)
      {
        assert Occurs(once, key, listed, Through(rules, key, listed, text));
      }
    }
  }

  lemma TextsAreSent(rules: seq<Rule>, key: string, value: Value, listed: bool, sent: string)
    ensures Holds(ThroughValue(rules, key, value), listed, sent) <==>
            exists text :: Holds(value, listed, text) && sent == Through(rules, key, listed, text)
  {
    if value.Items? && listed {
      var items, to := value.items, ThroughValue(rules, key, value).items;
      if Text(sent) in to {
        var i :| 0 <= i < |to| && to[i] == Text(sent);
        assert Holds(value, true, items[i].text);
      }
      if text :| Holds(value, true, text) && sent == Through(rules, key, true, text) {
        var i :| 0 <= i < |items| && items[i] == Text(text);
        assert to[i] == Text(sent);
      }
    } else if value.Text? && !listed {
      assert Holds(value, false, value.text);
    }
  }

  // ---------------------------------------------------------------- taxonomies

  /** The keys of a YAML mapping differ. */
  ghost predicate DistinctFacets(rules: seq<Rule>) {
    forall i, j | 0 <= i < j < |rules| :: rules[i].facet != rules[j].facet
  }

  /** The earlier of two rules for one field changes a text, and the later one changes it back. */
  ghost predicate SendsBack(rules: seq<Rule>, i: nat, j: nat, text: string) {
    && i < j < |rules| && rules[i].mapping.Some? && rules[j].mapping.Some?
    && Target(rules[i].facet) == Target(rules[j].facet)
    && Preferred(rules[i].mapping.value, text) != text
    && Preferred(rules[j].mapping.value, Preferred(rules[i].mapping.value, text)) == text
  }

  lemma {:induction false} Ungoverned(rules: seq<Rule>, key: string, listed: bool, text: string)
    requires forall i | 0 <= i < |rules| :: !Governs(rules[i], key, listed)
    ensures Through(rules, key, listed, text) == text
  {
    if rules != [] { Ungoverned(rules[..|rules| - 1], key, listed, text); }
  }

  lemma {:induction false} GovernedOnce(rules: seq<Rule>, i: nat, key: string, listed: bool, text: string)
    requires i < |rules| && Governs(rules[i], key, listed)
    requires forall k | 0 <= k < |rules| && Governs(rules[k], key, listed) :: k == i
    ensures Through(rules, key, listed, text) == Preferred(rules[i].mapping.value, text)
  {
    var n := |rules| - 1;
    if i == n { Ungoverned(rules[..n], key, listed, text); }
    else { GovernedOnce(rules[..n], i, key, listed, text); }
  }

  lemma {:induction false} GovernedTwice(rules: seq<Rule>, i: nat, j: nat, key: string, listed: bool, text: string)
    requires i < j < |rules| && Governs(rules[i], key, listed) && Governs(rules[j], key, listed)
    requires forall k | 0 <= k < |rules| && Governs(rules[k], key, listed) :: k == i || k == j
    ensures Through(rules, key, listed, text)
         == Preferred(rules[j].mapping.value, Preferred(rules[i].mapping.value, text))
  {
    var n := |rules| - 1;
    if j == n { GovernedOnce(rules[..n], i, key, listed, text); }
    else { GovernedTwice(rules[..n], i, j, key, listed, text); }
  }

  /** With distinct facets two rules govern "topics" and one any other field, at the most. */
  lemma TwoGovernors(rules: seq<Rule>, i: nat, j: nat, k: nat, key: string, listed: bool)
    requires DistinctFacets(rules) && i < |rules| && j < |rules| && k < |rules| && i != j
    requires Governs(rules[i], key, listed) && Governs(rules[j], key, listed) && Governs(rules[k], key, listed)
    ensures k == i || k == j
  {
    assert forall m, n | 0 <= m < |rules| && 0 <= n < |rules| && rules[m].facet == rules[n].facet :: m == n;
    assert rules[i].facet in {key, "topic"} && rules[j].facet in {key, "topic"} && rules[k].facet in {key, "topic"};
  }

  /** A text that comes back to itself without being left alone has been sent away and back. */
  lemma ReturnedTextWasSentBack(rules: seq<Rule>, key: string, listed: bool, text: string)
    requires DistinctFacets(rules) && Through(rules, key, listed, text) == text && !Quiet(rules, key, listed, text)
    ensures exists i, j :: SendsBack(rules, i, j, text)
  {
    var i :| 0 <= i < |rules| && Governs(rules[i], key, listed) && Preferred(rules[i].mapping.value, text) != text;
    if j :| 0 <= j < |rules| && j != i && Governs(rules[j], key, listed) {
      forall k | 0 <= k < |rules| && Governs(rules[k], key, listed)
        ensures k == i || k == j
      {
        TwoGovernors(rules, i, j, k, key, listed);
      }
      if i < j {
        GovernedTwice(rules, i, j, key, listed, text);
        assert SendsBack(rules, i, j, text);
      } else {
        GovernedTwice(rules, j, i, key, listed, text);
        assert SendsBack(rules, j, i, text);
      }
    } else {
      GovernedOnce(rules, i, key, listed, text);
    }
  }

  lemma SentBackTextReturns(rules: seq<Rule>, i: nat, j: nat, text: string)
    requires DistinctFacets(rules) && SendsBack(rules, i, j, text)
    ensures var key := Target(rules[i].facet);
            Through(rules, key, true, text) == text && !Quiet(rules, key, true, text)
  {
    var key := Target(rules[i].facet);
    assert Governs(rules[i], key, true) && Governs(rules[j], key, true);
    forall k | 0 <= k < |rules| && Governs(rules[k], key, true)
      ensures k == i || k == j
    {
      TwoGovernors(rules, i, j, k, key, true);
    }
    GovernedTwice(rules, i, j, key, true, text);
  }

  /** Which taxonomies mislead: their notes are honest for every document if and only if no text
      is changed by the earlier rule of a field and changed back by the later one. */
  lemma TwoRulesForTopics(rules: seq<Rule>)
    requires DistinctFacets(rules)
    ensures (forall fields :: Honest(fields, rules)) <==> forall i, j, text :: !SendsBack(rules, i, j, text)
  {
    NotesTellOfChanges(rules);
    if i, j, text :| SendsBack(rules, i, j, text) {
      SentBackTextReturns(rules, i, j, text);
    } else {
      forall key, listed, text | Through(rules, key, listed, text) == text
        ensures Quiet(rules, key, listed, text)
      {
        if !Quiet(rules, key, listed, text) { ReturnedTextWasSentBack(rules, key, listed, text); }
      }
    }
  }
}
