/**
 Exactly which slugs are safe to render, when the other three values hold no brace: those for which
 the four passes of RenderTitle are one simultaneous substitution on every template.
 */
module TitleSafety {
  import opened AutoTicket

  // In some title the slug is part of the placeholder p: it holds it, or ends in its first two or more
  // characters, which the template's text completes, or ends in a brace that a second copy of the slug
  // completes.
  predicate Completable(slug: string, p: string) {
    || (exists i :: 0 <= i < |slug| && p <= slug[i..])
    || (exists i :: 0 <= i < |slug| - 1 && slug[i..] <= p)
    || (EndsInBrace(slug) && (slug == "{" || p <= "{" + slug))
  }

  predicate EndsInBrace(s: string) { s != "" && s[|s| - 1] == '{' }

  predicate Safe(slug: string, f: Field) { !Completable(slug, Placeholder(f)) }

  predicate SafeSlug(slug: string) { Safe(slug, Summary) && Safe(slug, Service) && Safe(slug, Severity) }

  predicate OthersHaveNoBrace(incident: Incident) {
    NoBrace(incident.summary) && NoBrace(incident.service) && NoBrace(incident.severity)
  }

  /******* A safe slug is never looked at *******/

  // Titles under way: the template's text, values without braces, and copies of the slug.
  predicate Clear(ps: seq<Piece>, slug: string) {
    forall p <- ps :: p.Plain? ==> NoBrace(p.text) || p.text == slug
  }

  // A brace that ends a copy of the slug is not completed by what follows.
  lemma {:induction false} NothingCompletes(ps: seq<Piece>, slug: string, p: string)
    requires Clear(ps, slug) && Braced(p) && EndsInBrace(slug) && !Completable(slug, p)
    requires p[2] == '.'
    ensures !(p[1..] <= Text(ps))
    decreases |ps|
  {
    if ps != [] {
      var t, rest := TextOf(ps[0]), Text(ps[1..]);
      NothingCompletes(ps[1..], slug, p);
      if ps[0].Hole? {
        PlaceholdersAreBraced(ps[0].field);
        assert (t + rest)[1] == t[1] && p[1..][1] == p[2];
      } else if NoBrace(t) {
        assert t == "" ==> t + rest == rest;
        assert t != "" ==> (t + rest)[0] == t[0];
      } else {
        OneBrace(p, slug);
        if p[1..] <= t + rest { PrefixOfConcat(p[1..], t, rest); }
      }
    }
  }

  // A slug that ends in a brace neither begins with a placeholder's rest after its first brace nor is
  // the beginning of that rest.
  lemma OneBrace(p: string, slug: string)
    requires Braced(p) && EndsInBrace(slug) && !Completable(slug, p)
    ensures !(p[1..] <= slug) && !(slug <= p[1..])
  {
    assert "{" + p[1..] == p;
    assert 1 < |slug| < |p| ==> p[2..][|slug| - 2] == p[|slug|];
  }

  lemma PlaceholdersAreDotted(f: Field)
    ensures Placeholder(f)[2] == '.'
  {
  }

  lemma NothingBeginsInSlug(slug: string, ps: seq<Piece>, f: Field, i: nat)
    requires Safe(slug, f) && Clear(ps, slug) && i < |slug|
    ensures !(Placeholder(f) <= slug[i..] + Text(ps))
  {
    var p := Placeholder(f);
    PlaceholdersAreDotted(f);
    PlaceholdersAreBraced(f);
    if p <= slug[i..] + Text(ps) {
      PrefixOfConcat(p, slug[i..], Text(ps));
      assert i == |slug| - 1;
      assert slug[i..][0] == p[0];
      NothingCompletes(ps, slug, p);
    }
  }

  lemma {:induction false} SafePassFills(ps: seq<Piece>, slug: string, f: Field, value: string)
    requires Clear(ps, slug) && Safe(slug, f)
    ensures ReplaceAll(Text(ps), Placeholder(f), value) == Text(Fill(ps, f, value))
    decreases |ps|
  {
    if ps != [] {
      var p, rest := ps[0], ps[1..];
      SafePassFills(rest, slug, f, value);
      assert Fill(ps, f, value)[1..] == Fill(rest, f, value);
      if p.Plain? && !NoBrace(p.text) {
        forall i | 0 <= i < |slug| ensures !(Placeholder(f) <= slug[i..] + Text(rest)) {
          NothingBeginsInSlug(slug, rest, f, i);
        }
        ReplaceSkips(slug, Text(rest), Placeholder(f), value);
      } else {
        if p.Plain? { PlainIsInert(p.text, f); }
        PassOverPiece(p, Text(rest), f, value);
      }
    }
  }

  lemma FillKeepsClear(ps: seq<Piece>, slug: string, f: Field, value: string)
    requires Clear(ps, slug) && (NoBrace(value) || value == slug)
    ensures Clear(Fill(ps, f, value), slug)
  {
    forall p | p in Fill(ps, f, value) && p.Plain? ensures NoBrace(p.text) || p.text == slug {
      var i :| 0 <= i < |ps| && Fill(ps, f, value)[i] == p;
      assert ps[i] in ps;
    }
  }

  lemma SafeSlugsRender(ps: seq<Piece>, incident: Incident)
    requires PlainTexts(ps) && OthersHaveNoBrace(incident) && SafeSlug(incident.slug)
    ensures Rendered(Text(ps), incident) == Substituted(Text(ps), incident)
  {
    var slug := incident.slug;
    var p1 := Fill(ps, AlertName, slug);
    var p2 := Fill(p1, Summary, incident.summary);
    var p3 := Fill(p2, Service, incident.service);
    forall p <- ps | p.Plain? ensures Inert(p.text, Placeholder(AlertName)) { PlainIsInert(p.text, AlertName); }
    PassFills(ps, AlertName, slug);
    FillKeepsClear(ps, slug, AlertName, slug);
    SafePassFills(p1, slug, Summary, incident.summary);
    FillKeepsClear(p1, slug, Summary, incident.summary);
    SafePassFills(p2, slug, Service, incident.service);
    FillKeepsClear(p2, slug, Service, incident.service);
    SafePassFills(p3, slug, Severity, incident.severity);
    ScanFills(ps, incident);
    FourFills(ps, incident);
  }

  /******* Any other slug is substituted again in some title *******/

  predicate Occurs(p: string, s: string) { exists i :: 0 <= i < |s| && p <= s[i..] }

  function Braces(s: string): nat {
    if s == "" then 0 else (if s[0] == '{' then 1 else 0) + Braces(s[1..])
  }

  lemma {:induction false} BracesAppend(a: string, b: string)
    ensures Braces(a + b) == Braces(a) + Braces(b)
  {
    if a == "" {
      assert a + b == b;
    } else {
      assert (a + b)[1..] == a[1..] + b;
      BracesAppend(a[1..], b);
    }
  }

  lemma {:induction false} NoBraces(s: string)
    requires NoBrace(s)
    ensures Braces(s) == 0
  {
    if s != "" { NoBraces(s[1..]); }
  }

  // A pass that finds nothing changes nothing, and one that finds something leaves fewer braces.
  lemma {:induction false} PassLowersBraces(s: string, p: string, value: string)
    requires Braced(p) && NoBrace(value)
    ensures Occurs(p, s) ==> Braces(ReplaceAll(s, p, value)) < Braces(s)
    ensures !Occurs(p, s) ==> ReplaceAll(s, p, value) == s
    decreases |s|
  {
    if s != "" {
      if p <= s {
        var rest := s[|p|..];
        assert s == p + rest && p == p[..1] + p[1..] && s[0..] == s;
        PassLowersBraces(rest, p, value);
        BracesAppend(p, rest);
        BracesAppend(value, ReplaceAll(rest, p, value));
        NoBraces(value);
      } else {
        PassLowersBraces(s[1..], p, value);
        TailOccurs(p, s);
        BracesAppend([s[0]], ReplaceAll(s[1..], p, value));
        assert ([s[0]] + s[1..]) == s;
      }
    }
  }

  lemma TailOccurs(p: string, s: string)
    requires s != "" && !(p <= s)
    ensures Occurs(p, s) <==> Occurs(p, s[1..])
  {
    assert s[0..] == s;
    if Occurs(p, s) {
      var i :| 0 <= i < |s| && p <= s[i..];
      assert s[1..][i - 1..] == s[i..];
    }
    if Occurs(p, s[1..]) {
      var i :| 0 <= i < |s[1..]| && p <= s[1..][i..];
      assert s[1..][i..] == s[i + 1..];
    }
  }

  function LaterPasses(title: string, incident: Incident): string {
    Pass(Pass(Pass(title, Summary, incident), Service, incident), Severity, incident)
  }

  // The last three passes leave a title alone only if it holds none of their placeholders.
  lemma LaterPassesChange(s: string, incident: Incident, g: Field)
    requires OthersHaveNoBrace(incident) && g != AlertName && Occurs(Placeholder(g), s)
    ensures LaterPasses(s, incident) != s
  {
    forall f: Field ensures Braced(Placeholder(f)) { PlaceholdersAreBraced(f); }
    var s1 := Pass(s, Summary, incident);
    var s2 := Pass(s1, Service, incident);
    PassLowersBraces(s, Placeholder(Summary), incident.summary);
    PassLowersBraces(s1, Placeholder(Service), incident.service);
    PassLowersBraces(s2, Placeholder(Severity), incident.severity);
  }

  lemma OccursAt(p: string, s: string, i: nat)
    requires p != "" && i <= |s| && p <= s[i..]
    ensures Occurs(p, s)
  {
  }

  lemma HeldBySlug(slug: string, p: string, i: nat)
    requires p != "" && i < |slug| && p <= slug[i..]
    ensures Occurs(p, slug + slug + "")
  {
    assert (slug + slug + "")[i..] == slug[i..] + slug;
    OccursAt(p, slug + slug + "", i);
  }

  lemma EndedByText(slug: string, p: string, i: nat)
    requires p != "" && i < |slug| && slug[i..] <= p
    ensures Occurs(p, slug + slug + p[|slug| - i..])
  {
    var s := slug + slug + p[|slug| - i..];
    assert s[|slug| + i..] == slug[i..] + p[|slug| - i..] == p;
    OccursAt(p, s, |slug| + i);
  }

  lemma DoubledBrace(slug: string, p: string)
    requires Braced(p) && EndsInBrace(slug)
    ensures p <= "{" + slug ==> Occurs(p, slug + slug + "")
    ensures slug == "{" ==> Occurs(p, slug + slug + p[2..])
  {
    if p <= "{" + slug {
      assert (slug + slug + "")[|slug| - 1..] == "{" + slug;
      OccursAt(p, slug + slug + "", |slug| - 1);
    }
    if slug == "{" {
      assert slug + slug + p[2..] == p;
      OccursAt(p, slug + slug + p[2..], 0);
    }
  }

  // Two copies of the slug and the text that completes the placeholder hold it.
  lemma UnsafeSlugCompletes(slug: string, p: string) returns (rest: string)
    requires Braced(p) && Completable(slug, p)
    ensures NoBrace(rest) && Occurs(p, slug + slug + rest)
  {
    rest := "";
    if i :| 0 <= i < |slug| && p <= slug[i..] {
      HeldBySlug(slug, p, i);
    } else if i :| 0 <= i < |slug| - 1 && slug[i..] <= p {
      rest := p[|slug| - i..];
      assert rest == p[2..][|slug| - i - 2..];
      EndedByText(slug, p, i);
    } else {
      if !(p <= "{" + slug) { rest := p[2..]; }
      DoubledBrace(slug, p);
    }
  }

  // The template that shows the slug twice before the text.
  function Twice(rest: string): seq<Piece> { [Hole(AlertName), Hole(AlertName), Plain(rest)] }

  lemma TwiceRendered(rest: string, incident: Incident)
    requires NoBrace(rest)
    ensures var s := incident.slug + incident.slug + rest;
            && Rendered(Text(Twice(rest)), incident) == LaterPasses(s, incident)
            && Substituted(Text(Twice(rest)), incident) == s
  {
    var slug := Plain(incident.slug);
    var t := Twice(rest);
    PlainIsInert(rest, AlertName);
    PassFills(t, AlertName, incident.slug);
    assert Fill(t, AlertName, incident.slug) == [slug, slug, Plain(rest)];
    ScanFills(t, incident);
    assert FillAll(t, incident) == [slug, slug, Plain(rest)];
    ThreePieces(slug, slug, Plain(rest));
  }

  ghost predicate RendersAlike(incident: Incident) {
    forall ps :: PlainTexts(ps) ==> Rendered(Text(ps), incident) == Substituted(Text(ps), incident)
  }

  lemma UnsafeSlugsDoNot(incident: Incident, g: Field)
    requires OthersHaveNoBrace(incident) && g != AlertName && !Safe(incident.slug, g)
    ensures !RendersAlike(incident)
  {
    PlaceholdersAreBraced(g);
    var rest := UnsafeSlugCompletes(incident.slug, Placeholder(g));
    TwiceRendered(rest, incident);
    LaterPassesChange(incident.slug + incident.slug + rest, incident, g);
    assert PlainTexts(Twice(rest));
  }

  // With no brace in the other values, the four passes are one simultaneous substitution on every
  // template of placeholders and brace-free text if and only if the slug is safe.
  lemma RendersAlikeIffSafe(incident: Incident)
    requires OthersHaveNoBrace(incident)
    ensures RendersAlike(incident) <==> SafeSlug(incident.slug)
  {
    if SafeSlug(incident.slug) {
      forall ps | PlainTexts(ps) ensures Rendered(Text(ps), incident) == Substituted(Text(ps), incident) {
        SafeSlugsRender(ps, incident);
      }
    } else {
      var g :| g != AlertName && !Safe(incident.slug, g);
      UnsafeSlugsDoNot(incident, g);
    }
  }
}
