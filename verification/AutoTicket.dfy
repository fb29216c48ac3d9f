/**
 Auto-ticket rules: matching incidents and rendering titles (internal/worker/autoticket.go).
 */
module AutoTicket {
  datatype Rule = Rule(
    name: string, enabled: bool, alertGroup: string, minSeverity: string, defaultGroup: string, titleTemplate: string)

  datatype Incident = Incident(slug: string, summary: string, severity: string, service: string)

  /******* Matching *******/

  const SEVERITY_RANK: map<string, nat> := map["low" := 1, "medium" := 2, "high" := 3, "critical" := 4]

  function Lower(s: string): string {
    seq(|s|, i requires 0 <= i < |s| => if 'A' <= s[i] <= 'Z' then (s[i] as int + 32) as char else s[i])
  }

  function SeverityRank(severity: string): nat {
    if Lower(severity) in SEVERITY_RANK then SEVERITY_RANK[Lower(severity)] else 0
  }

  predicate HasPrefix(s: string, prefix: string) { prefix <= s }

  function MatchRule(rule: Rule, incident: Incident): bool {
    if !rule.enabled then false
    else if rule.alertGroup != "" && rule.alertGroup[|rule.alertGroup| - 1] == '-'
            && !HasPrefix(incident.service, rule.alertGroup) then false
    else if rule.alertGroup != "" && rule.alertGroup[|rule.alertGroup| - 1] != '-'
            && incident.service != rule.alertGroup then false
    else if rule.minSeverity != "" && SeverityRank(incident.severity) < SeverityRank(rule.minSeverity) then false
    else true
  }

  // The text is the name, a lower-case word, in any mixture of cases.
  predicate Spells(text: string, name: string) {
    |text| == |name| && forall i :: 0 <= i < |text| ==> text[i] == name[i] || text[i] as int + 32 == name[i] as int
  }

  predicate LowerCase(name: string) { forall c <- name :: 'a' <= c <= 'z' }

  lemma LowerSpells(text: string, name: string)
    requires LowerCase(name)
    ensures Lower(text) == name <==> Spells(text, name)
  {
    if Spells(text, name) {
      forall i | 0 <= i < |text| ensures Lower(text)[i] == name[i] { assert name[i] in name; }
      assert Lower(text) == name;
    }
  }

  // The severities, from the least grave.
  const SEVERITIES: seq<string> := ["low", "medium", "high", "critical"]

  // A rank is a place among the severities, in any spelling; any other text ranks below them all.
  lemma RankLaw(text: string)
    ensures forall k :: 0 <= k < 4 ==> (SeverityRank(text) == k + 1 <==> Spells(text, SEVERITIES[k]))
    ensures SeverityRank(text) <= 4
  {
    forall k | 0 <= k < 4 ensures LowerCase(SEVERITIES[k]) {}
    forall k | 0 <= k < 4 { LowerSpells(text, SEVERITIES[k]); }
  }

  // A rule matches if it is enabled, its group, if any, covers the incident's service, and the incident
  // is at least as grave as the rule asks for. A minimum that is no severity asks for nothing, and an
  // incident whose severity is none meets no minimum that is one.
  lemma MatchLaw(rule: Rule, incident: Incident)
    ensures MatchRule(rule, incident) <==>
              && rule.enabled
              && (rule.alertGroup == "" || incident.service == rule.alertGroup
                  || (rule.alertGroup[|rule.alertGroup| - 1] == '-' && rule.alertGroup <= incident.service))
              && forall k :: 0 <= k < 4 && Spells(rule.minSeverity, SEVERITIES[k]) ==>
                   exists j :: k <= j < 4 && Spells(incident.severity, SEVERITIES[j])
  {
    RankLaw(rule.minSeverity);
    RankLaw(incident.severity);
    var r, i := SeverityRank(rule.minSeverity), SeverityRank(incident.severity);
    if r > 0 { assert Spells(rule.minSeverity, SEVERITIES[r - 1]); }
    if i > 0 { assert Spells(incident.severity, SEVERITIES[i - 1]); }
  }

  // The matching rules, in table order.
  function Matching(rules: seq<Rule>, incident: Incident): (r: seq<Rule>)
    ensures forall m :: m in r <==> m in rules && MatchRule(m, incident)
  {
    if rules == [] then []
    else
      var last := rules[|rules| - 1];
      assert rules == rules[..|rules| - 1] + [last];
      Matching(rules[..|rules| - 1], incident) + (if MatchRule(last, incident) then [last] else [])
  }

  method FindMatchingRules(rules: seq<Rule>, incident: Incident) returns (matched: seq<Rule>)
    ensures matched == Matching(rules, incident)
  {
    matched := [];
    for i := 0 to |rules|
      invariant matched == Matching(rules[..i], incident)
    {
      assert rules[..i + 1][..i] == rules[..i];
      if MatchRule(rules[i], incident) {
        matched := matched + [rules[i]];
      }
    }
    assert rules[..|rules|] == rules;
  }

  predicate Subsequence(a: seq<Rule>, b: seq<Rule>)
    decreases |b|
  {
    if b == [] then a == []
    else Subsequence(a, b[..|b| - 1])
         || (a != [] && a[|a| - 1] == b[|b| - 1] && Subsequence(a[..|a| - 1], b[..|b| - 1]))
  }

  predicate IsFamily(group: string) { group != "" && group[|group| - 1] == '-' }

  // An incident that every rule likes at least as well opens every ticket the other would, in the
  // same order.
  lemma {:induction false} MatchesMore(rules: seq<Rule>, incident: Incident, other: Incident)
    requires forall rule <- rules :: MatchRule(rule, incident) ==> MatchRule(rule, other)
    ensures Subsequence(Matching(rules, incident), Matching(rules, other))
  {
    if rules != [] {
      var front, last := rules[..|rules| - 1], rules[|rules| - 1];
      MatchesMore(front, incident, other);
      var a, b := Matching(front, incident), Matching(front, other);
      if MatchRule(last, incident) {
        assert (a + [last])[..|a + [last]| - 1] == a && (b + [last])[..|b + [last]| - 1] == b;
      } else if MatchRule(last, other) {
        assert (b + [last])[..|b + [last]| - 1] == b;
        assert a + [] == a;
      } else {
        assert a + [] == a && b + [] == b;
      }
    }
  }

  // A graver incident on the same service ...
  lemma GraverIncidentsMatchMore(rules: seq<Rule>, incident: Incident, severity: string)
    requires SeverityRank(incident.severity) <= SeverityRank(severity)
    ensures Subsequence(Matching(rules, incident), Matching(rules, incident.(severity := severity)))
  {
    MatchesMore(rules, incident, incident.(severity := severity));
  }

  // ... and one on a service named below it, as far as the rules select families of services, which
  // an alert group with a trailing dash does, or all of them. A rule for a single service is lost.
  lemma SubservicesMatchMore(rules: seq<Rule>, incident: Incident, suffix: string)
    ensures var below := incident.(service := incident.service + suffix);
            && ((forall rule <- rules :: rule.alertGroup == "" || IsFamily(rule.alertGroup)) ==>
                 Subsequence(Matching(rules, incident), Matching(rules, below)))
            && (suffix != "" ==> forall rule <- Matching(rules, incident) ::
                 rule in Matching(rules, below) <==> rule.alertGroup == "" || IsFamily(rule.alertGroup))
  {
    var below := incident.(service := incident.service + suffix);
    forall rule: Rule | rule.alertGroup == "" || IsFamily(rule.alertGroup)
      ensures MatchRule(rule, incident) ==> MatchRule(rule, below)
    {
      if HasPrefix(incident.service, rule.alertGroup) { assert rule.alertGroup <= below.service; }
    }
    if forall rule <- rules :: rule.alertGroup == "" || IsFamily(rule.alertGroup) {
      MatchesMore(rules, incident, below);
    }
  }

  /******* Rendering *******/

  datatype Field = AlertName | Summary | Service | Severity

  function Placeholder(f: Field): string {
    match f
    case AlertName => "{{.AlertName}}"
    case Summary => "{{.Summary}}"
    case Service => "{{.Service}}"
    case Severity => "{{.Severity}}"
  }

  function Value(f: Field, incident: Incident): string {
    match f
    case AlertName => incident.slug
    case Summary => incident.summary
    case Service => incident.service
    case Severity => incident.severity
  }

  // strings.ReplaceAll for a non-empty pattern: leftmost matches that do not overlap.
  function ReplaceAll(s: string, pattern: string, value: string): string
    requires pattern != ""
    decreases |s|
  {
    if s == "" then ""
    else if pattern <= s then value + ReplaceAll(s[|pattern|..], pattern, value)
    else [s[0]] + ReplaceAll(s[1..], pattern, value)
  }

  method RenderTitle(template: string, incident: Incident) returns (title: string)
    ensures title == Rendered(template, incident)
    ensures WellFormed(template) && LaterPassesFindNothing(incident) ==> title == Substituted(template, incident)
    ensures WellFormed(template) && (forall f: Field :: NoBrace(Value(f, incident))) ==> NoBrace(title)
  {
    title := template;
    title := ReplaceAll(title, Placeholder(AlertName), incident.slug);
    title := ReplaceAll(title, Placeholder(Summary), incident.summary);
    title := ReplaceAll(title, Placeholder(Service), incident.service);
    title := ReplaceAll(title, Placeholder(Severity), incident.severity);
    TitleIsSubstitution(template, incident);
    TitleHasNoBrace(template, incident);
  }

  function Pass(title: string, f: Field, incident: Incident): string {
    ReplaceAll(title, Placeholder(f), Value(f, incident))
  }

  function Rendered(template: string, incident: Incident): string {
    Pass(Pass(Pass(Pass(template, AlertName, incident), Summary, incident), Service, incident), Severity, incident)
  }

  predicate Opens(f: Field, s: string) { Placeholder(f) <= s }

  // The placeholder a text starts with, if any.
  ghost function Leading(s: string): seq<Field> {
    if exists f :: Opens(f, s) then var f :| Opens(f, s); [f] else []
  }

  // The reference: one scan from left to right that replaces each placeholder where it stands and
  // never looks at a replacement again.
  ghost function Substituted(template: string, incident: Incident): string
    decreases |template|
  {
    if template == "" then ""
    else if Leading(template) != [] then
      var f := Leading(template)[0];
      Value(f, incident) + Substituted(template[|Placeholder(f)|..], incident)
    else
      [template[0]] + Substituted(template[1..], incident)
  }

  // A template, or a title half way through its four passes, in pieces.
  datatype Piece = Plain(text: string) | Hole(field: Field)

  predicate NoBrace(s: string) { '{' !in s }

  // No occurrence of the pattern can begin in the text, whatever follows the text.
  predicate Inert(text: string, pattern: string) {
    forall i :: 0 <= i < |text| ==> !(pattern <= text[i..]) && !(text[i..] <= pattern)
  }

  predicate PlainTexts(ps: seq<Piece>) {
    forall p <- ps :: p.Plain? ==> NoBrace(p.text)
  }

  // The plain pieces hold nothing for a pass of field f to replace.
  predicate InertFor(ps: seq<Piece>, f: Field) {
    forall p <- ps :: p.Plain? ==> Inert(p.text, Placeholder(f))
  }

  function TextOf(p: Piece): string { if p.Plain? then p.text else Placeholder(p.field) }

  function Text(ps: seq<Piece>): string {
    if ps == [] then "" else TextOf(ps[0]) + Text(ps[1..])
  }

  function Fill(ps: seq<Piece>, f: Field, value: string): seq<Piece> {
    seq(|ps|, i requires 0 <= i < |ps| => if ps[i] == Hole(f) then Plain(value) else ps[i])
  }

  // A pass copies a text in which its pattern begins nowhere.
  lemma {:induction false} ReplaceSkips(text: string, rest: string, pattern: string, value: string)
    requires pattern != "" && forall i :: 0 <= i < |text| ==> !(pattern <= text[i..] + rest)
    ensures ReplaceAll(text + rest, pattern, value) == text + ReplaceAll(rest, pattern, value)
    decreases |text|
  {
    if text == "" {
      assert text + rest == rest;
    } else {
      assert text[0..] == text;
      assert (text + rest)[1..] == text[1..] + rest;
      forall i | 0 <= i < |text| - 1 ensures !(pattern <= text[1..][i..] + rest) {
        assert text[1..][i..] == text[i + 1..];
      }
      ReplaceSkips(text[1..], rest, pattern, value);
    }
  }

  lemma ReplaceSkipsInert(text: string, rest: string, pattern: string, value: string)
    requires Inert(text, pattern) && pattern != ""
    ensures ReplaceAll(text + rest, pattern, value) == text + ReplaceAll(rest, pattern, value)
  {
    forall i | 0 <= i < |text| ensures !(pattern <= text[i..] + rest) {
      if pattern <= text[i..] + rest { PrefixOfConcat(pattern, text[i..], rest); }
    }
    ReplaceSkips(text, rest, pattern, value);
  }

  lemma PrefixOfConcat(p: string, a: string, b: string)
    requires p <= a + b
    ensures p <= a || (a <= p && p[|a|..] <= b)
  {
    if |a| < |p| { assert p[..|a|] == (a + b)[..|a|] == a; }
  }

  lemma PlainIsInert(text: string, f: Field)
    requires NoBrace(text)
    ensures Inert(text, Placeholder(f))
  {
    PlaceholdersAreBraced(f);
    forall i | 0 <= i < |text| ensures !(Placeholder(f) <= text[i..]) && !(text[i..] <= Placeholder(f)) {
      assert text[i..][0] == text[i] != '{' == Placeholder(f)[0];
    }
  }

  // Two braces and no third: the shape of every placeholder.
  predicate Braced(q: string) { |q| > 2 && q[0] == '{' && q[1] == '{' && NoBrace(q[2..]) }

  lemma PlaceholdersAreBraced(f: Field)
    ensures Braced(Placeholder(f))
  {
  }

  // No placeholder begins another.
  lemma PlaceholdersDiffer(f: Field, g: Field, rest: string)
    requires f != g
    ensures !(Placeholder(f) <= Placeholder(g) + rest)
  {
    var p, q := Placeholder(f), Placeholder(g);
    assert p[3] != q[3] || p[4] != q[4] || p[5] != q[5];
  }

  // An occurrence of one placeholder cannot begin inside another.
  lemma OtherHoleIsInert(g: Field, f: Field)
    requires f != g
    ensures Inert(Placeholder(g), Placeholder(f))
  {
    var p, q := Placeholder(f), Placeholder(g);
    PlaceholdersAreBraced(f);
    PlaceholdersAreBraced(g);
    forall i | 0 <= i < |q| ensures !(p <= q[i..]) && !(q[i..] <= p) {
      if i == 0 {
        assert q[0..] == q;
        PlaceholdersDiffer(f, g, "");
        PlaceholdersDiffer(g, f, "");
        assert q + "" == q && p + "" == p;
      } else if i == 1 {
        assert q[1..][1] == q[2] == q[2..][0] != p[1];
      } else {
        assert q[i..][0] == q[i] == q[2..][i - 2] != p[0];
      }
    }
  }

  // One pass turns one piece into itself, or into the value if it is a hole of the pass's field.
  lemma PassOverPiece(p: Piece, rest: string, f: Field, value: string)
    requires p.Plain? ==> Inert(p.text, Placeholder(f))
    ensures ReplaceAll(TextOf(p) + rest, Placeholder(f), value)
         == (if p == Hole(f) then value else TextOf(p)) + ReplaceAll(rest, Placeholder(f), value)
  {
    PlaceholdersAreBraced(f);
    if p != Hole(f) {
      if p.Hole? { OtherHoleIsInert(p.field, f); }
      ReplaceSkipsInert(TextOf(p), rest, Placeholder(f), value);
    } else {
      assert (Placeholder(f) + rest)[|Placeholder(f)|..] == rest;
    }
  }

  // One pass fills exactly the holes of its field.
  lemma {:induction false} PassFills(ps: seq<Piece>, f: Field, value: string)
    requires InertFor(ps, f)
    ensures ReplaceAll(Text(ps), Placeholder(f), value) == Text(Fill(ps, f, value))
    decreases |ps|
  {
    if ps != [] {
      PassFills(ps[1..], f, value);
      assert Fill(ps, f, value)[1..] == Fill(ps[1..], f, value);
      PassOverPiece(ps[0], Text(ps[1..]), f, value);
    }
  }

  lemma LeadingNeedsABrace(s: string)
    requires s != "" && s[0] != '{'
    ensures Leading(s) == []
  {
    forall f | Opens(f, s) ensures false { PlaceholdersAreBraced(f); }
  }

  lemma LeadingHole(f: Field, rest: string)
    ensures Leading(Placeholder(f) + rest) == [f]
  {
    assert Opens(f, Placeholder(f) + rest);
    forall g: Field | g != f ensures !Opens(g, Placeholder(f) + rest) { PlaceholdersDiffer(g, f, rest); }
  }

  lemma ScanStep(s: string, incident: Incident)
    requires s != "" && s[0] != '{'
    ensures Substituted(s, incident) == [s[0]] + Substituted(s[1..], incident)
  {
    LeadingNeedsABrace(s);
  }

  lemma {:induction false} ScanSkipsPlain(text: string, rest: string, incident: Incident)
    requires NoBrace(text)
    ensures Substituted(text + rest, incident) == text + Substituted(rest, incident)
    decreases |text|
  {
    if text == "" {
      assert text + rest == rest;
    } else {
      ScanStep(text + rest, incident);
      ScanSkipsPlain(text[1..], rest, incident);
      Glue(text, rest, Substituted(rest, incident));
    }
  }

  lemma Glue(text: string, rest: string, done: string)
    requires text != ""
    ensures (text + rest)[0] == text[0] && (text + rest)[1..] == text[1..] + rest
    ensures [text[0]] + (text[1..] + done) == text + done
  {
  }

  lemma ScanFillsHole(f: Field, rest: string, incident: Incident)
    ensures Substituted(Placeholder(f) + rest, incident) == Value(f, incident) + Substituted(rest, incident)
  {
    LeadingHole(f, rest);
    assert (Placeholder(f) + rest)[|Placeholder(f)|..] == rest;
  }

  function FillAll(ps: seq<Piece>, incident: Incident): seq<Piece> {
    seq(|ps|, i requires 0 <= i < |ps| => if ps[i].Hole? then Plain(Value(ps[i].field, incident)) else ps[i])
  }

  lemma {:induction false} ScanFills(ps: seq<Piece>, incident: Incident)
    requires PlainTexts(ps)
    ensures Substituted(Text(ps), incident) == Text(FillAll(ps, incident))
    decreases |ps|
  {
    if ps != [] {
      ScanFills(ps[1..], incident);
      assert FillAll(ps, incident)[1..] == FillAll(ps[1..], incident);
      if ps[0].Plain? {
        ScanSkipsPlain(ps[0].text, Text(ps[1..]), incident);
      } else {
        ScanFillsHole(ps[0].field, Text(ps[1..]), incident);
      }
    }
  }

  // Each pass puts in nothing that a later pass could take for the start of its placeholder.
  predicate LaterPassesFindNothing(incident: Incident) {
    && Inert(incident.slug, Placeholder(Summary))
    && Inert(incident.slug, Placeholder(Service))
    && Inert(incident.slug, Placeholder(Severity))
    && Inert(incident.summary, Placeholder(Service))
    && Inert(incident.summary, Placeholder(Severity))
    && Inert(incident.service, Placeholder(Severity))
  }

  // The four passes are one simultaneous substitution, for every template of placeholders and
  // brace-free text, unless a value holds a later pass's placeholder or ends in the start of one.
  // Other braces do no harm, and the last value may hold anything: no pass looks at it.
  lemma RenderIsSubstitution(ps: seq<Piece>, incident: Incident)
    requires PlainTexts(ps) && LaterPassesFindNothing(incident)
    ensures Rendered(Text(ps), incident) == Substituted(Text(ps), incident)
  {
    var p1 := Fill(ps, AlertName, incident.slug);
    var p2 := Fill(p1, Summary, incident.summary);
    var p3 := Fill(p2, Service, incident.service);
    forall f: Field ensures InertFor(ps, f) {
      forall p <- ps | p.Plain? ensures Inert(p.text, Placeholder(f)) { PlainIsInert(p.text, f); }
    }
    forall f: Field | f != AlertName ensures InertFor(p1, f) { FillKeepsInert(ps, AlertName, incident.slug, f); }
    forall f: Field | f == Service || f == Severity
      ensures InertFor(p2, f)
    {
      FillKeepsInert(p1, Summary, incident.summary, f);
    }
    FillKeepsInert(p2, Service, incident.service, Severity);
    PassFills(ps, AlertName, incident.slug);
    PassFills(p1, Summary, incident.summary);
    PassFills(p2, Service, incident.service);
    PassFills(p3, Severity, incident.severity);
    ScanFills(ps, incident);
    FourFills(ps, incident);
  }

  // A template of placeholders and brace-free text.
  ghost predicate WellFormed(template: string) {
    exists ps :: PlainTexts(ps) && Text(ps) == template
  }

  lemma TitleIsSubstitution(template: string, incident: Incident)
    ensures WellFormed(template) && LaterPassesFindNothing(incident) ==>
              Rendered(template, incident) == Substituted(template, incident)
  {
    if WellFormed(template) && LaterPassesFindNothing(incident) {
      var ps :| PlainTexts(ps) && Text(ps) == template;
      RenderIsSubstitution(ps, incident);
    }
  }

  lemma TitleHasNoBrace(template: string, incident: Incident)
    ensures WellFormed(template) && (forall f: Field :: NoBrace(Value(f, incident))) ==>
              NoBrace(Rendered(template, incident))
  {
    if WellFormed(template) && forall f: Field :: NoBrace(Value(f, incident)) {
      var ps :| PlainTexts(ps) && Text(ps) == template;
      NoPlaceholderSurvives(ps, incident);
    }
  }

  lemma BraceFreeValuesAreInert(incident: Incident)
    requires NoBrace(incident.slug) && NoBrace(incident.summary) && NoBrace(incident.service)
    ensures LaterPassesFindNothing(incident)
  {
    forall f: Field
      ensures Inert(incident.slug, Placeholder(f)) && Inert(incident.summary, Placeholder(f))
            && Inert(incident.service, Placeholder(f))
    {
      PlainIsInert(incident.slug, f);
      PlainIsInert(incident.summary, f);
      PlainIsInert(incident.service, f);
    }
  }

  lemma FillKeepsInert(ps: seq<Piece>, f: Field, value: string, g: Field)
    requires InertFor(ps, g) && Inert(value, Placeholder(g))
    ensures InertFor(Fill(ps, f, value), g)
  {
    forall p | p in Fill(ps, f, value) && p.Plain? ensures Inert(p.text, Placeholder(g)) {
      var i :| 0 <= i < |ps| && Fill(ps, f, value)[i] == p;
      assert ps[i] in ps;
    }
  }

  lemma FourFills(ps: seq<Piece>, incident: Incident)
    ensures Fill(Fill(Fill(Fill(ps, AlertName, incident.slug), Summary, incident.summary), Service, incident.service),
                 Severity, incident.severity) == FillAll(ps, incident)
  {
  }

  lemma {:induction false} PlainPiecesHaveNoBrace(ps: seq<Piece>)
    requires PlainTexts(ps) && forall p <- ps :: p.Plain?
    ensures NoBrace(Text(ps))
    decreases |ps|
  {
    if ps != [] { PlainPiecesHaveNoBrace(ps[1..]); }
  }

  // With four brace-free values no brace is left, so no placeholder either.
  lemma NoPlaceholderSurvives(ps: seq<Piece>, incident: Incident)
    requires PlainTexts(ps) && forall f: Field :: NoBrace(Value(f, incident))
    ensures NoBrace(Rendered(Text(ps), incident))
  {
    assert NoBrace(Value(AlertName, incident)) && NoBrace(Value(Summary, incident))
           && NoBrace(Value(Service, incident));
    BraceFreeValuesAreInert(incident);
    RenderIsSubstitution(ps, incident);
    ScanFills(ps, incident);
    PlainPiecesHaveNoBrace(FillAll(ps, incident));
  }

  // What stands for what: with no brace but the placeholder's, the title shows the incident's value in
  // its place.
  lemma TitleLaw(before: string, rest: string, incident: Incident)
    requires NoBrace(before) && NoBrace(rest) && NoBrace(incident.slug) && NoBrace(incident.summary)
    requires NoBrace(incident.service) && NoBrace(incident.severity)
    ensures Rendered(before + "{{.AlertName}}" + rest, incident) == before + incident.slug + rest
    ensures Rendered(before + "{{.Summary}}" + rest, incident) == before + incident.summary + rest
    ensures Rendered(before + "{{.Service}}" + rest, incident) == before + incident.service + rest
    ensures Rendered(before + "{{.Severity}}" + rest, incident) == before + incident.severity + rest
  {
    OneHole(before, AlertName, rest, incident);
    OneHole(before, Summary, rest, incident);
    OneHole(before, Service, rest, incident);
    OneHole(before, Severity, rest, incident);
  }

  lemma OneHole(before: string, f: Field, rest: string, incident: Incident)
    requires NoBrace(before) && NoBrace(rest) && forall g: Field :: NoBrace(Value(g, incident))
    ensures Rendered(before + Placeholder(f) + rest, incident) == before + Value(f, incident) + rest
  {
    var ps := [Plain(before), Hole(f), Plain(rest)];
    assert NoBrace(Value(AlertName, incident)) && NoBrace(Value(Summary, incident))
           && NoBrace(Value(Service, incident));
    BraceFreeValuesAreInert(incident);
    RenderIsSubstitution(ps, incident);
    ScanFills(ps, incident);
    assert FillAll(ps, incident) == [Plain(before), Plain(Value(f, incident)), Plain(rest)];
    ThreePieces(ps[0], ps[1], ps[2]);
    ThreePieces(Plain(before), Plain(Value(f, incident)), Plain(rest));
  }

  // When a value ends in the start of a later placeholder, or in all of it, a template that
  // completes it is substituted a second time, where the simultaneous reading keeps the value.
  lemma ValueSubstitutedTwice(incident: Incident, g: Field, before: string, start: string, rest: string)
    requires g != AlertName && NoBrace(incident.summary) && NoBrace(incident.service)
    requires incident.slug == before + start && start + rest == Placeholder(g) && NoBrace(before) && NoBrace(rest)
    ensures var template := Placeholder(AlertName) + rest;
            && Rendered(template, incident) == before + Value(g, incident)
            && Substituted(template, incident) == before + Placeholder(g)
            && (Rendered(template, incident) == Substituted(template, incident)
                <==> Value(g, incident) == Placeholder(g))
  {
    Completed(before, start, rest, Placeholder(g));
    RenderedTwice(incident, g, before, rest);
    SubstitutedOnce(incident, rest);
    var a, b := Value(g, incident), Placeholder(g);
    assert (before + a)[|before|..] == a && (before + b)[|before|..] == b;
  }

  lemma Completed(before: string, start: string, rest: string, whole: string)
    requires start + rest == whole
    ensures before + start + rest == before + whole
  {
  }

  lemma RenderedTwice(incident: Incident, g: Field, before: string, rest: string)
    requires g != AlertName && NoBrace(incident.summary) && NoBrace(incident.service)
             && NoBrace(before) && NoBrace(rest)
    requires incident.slug + rest == before + Placeholder(g)
    ensures Rendered(Placeholder(AlertName) + rest, incident) == before + Value(g, incident)
  {
    var u, v := [Plain(before), Hole(g)], incident.(slug := "");
    FirstPassOf(rest, incident);
    TwoPieces(u[0], u[1]);
    FirstPassFindsNothing(u, v);
    BraceFreeValuesAreInert(v);
    RenderIsSubstitution(u, v);
    ScanFills(u, v);
    assert FillAll(u, v) == [Plain(before), Plain(Value(g, incident))];
    TwoPieces(Plain(before), Plain(Value(g, incident)));
  }

  lemma FirstPassOf(rest: string, incident: Incident)
    requires NoBrace(rest)
    ensures Pass(Placeholder(AlertName) + rest, AlertName, incident) == incident.slug + rest
  {
    var t := [Hole(AlertName), Plain(rest)];
    PlainIsInert(rest, AlertName);
    TwoPieces(t[0], t[1]);
    PassFills(t, AlertName, incident.slug);
    assert Fill(t, AlertName, incident.slug) == [Plain(incident.slug), Plain(rest)];
    TwoPieces(Plain(incident.slug), Plain(rest));
  }

  lemma FirstPassFindsNothing(ps: seq<Piece>, incident: Incident)
    requires PlainTexts(ps) && Hole(AlertName) !in ps
    ensures Pass(Text(ps), AlertName, incident) == Text(ps)
  {
    forall p <- ps | p.Plain? ensures Inert(p.text, Placeholder(AlertName)) { PlainIsInert(p.text, AlertName); }
    PassFills(ps, AlertName, incident.slug);
    assert Fill(ps, AlertName, incident.slug) == ps;
  }

  lemma SubstitutedOnce(incident: Incident, rest: string)
    requires NoBrace(rest)
    ensures Substituted(Placeholder(AlertName) + rest, incident) == incident.slug + rest
  {
    var t := [Hole(AlertName), Plain(rest)];
    TwoPieces(t[0], t[1]);
    ScanFills(t, incident);
    assert FillAll(t, incident) == [Plain(incident.slug), Plain(rest)];
    TwoPieces(Plain(incident.slug), Plain(rest));
  }

  lemma TwoPieces(p: Piece, q: Piece)
    ensures Text([p, q]) == TextOf(p) + TextOf(q)
  {
    assert [p, q][1..] == [q] && [q][1..] == [];
    assert Text([q]) == TextOf(q) + "";
  }

  lemma ThreePieces(a: Piece, b: Piece, c: Piece)
    ensures Text([a, b, c]) == TextOf(a) + TextOf(b) + TextOf(c)
  {
    assert [a, b, c][1..] == [b, c];
    TwoPieces(b, c);
  }
}
