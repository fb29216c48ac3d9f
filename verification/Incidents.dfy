/**
 The incident lifecycle: incident.created opens one linked ticket per matching rule,
 incident.resolved closes the linked tickets (internal/worker/resolve.go, internal/link/store.go).
 */
module Incidents {
  import opened Prelude
  import opened TicketMeta
  import opened AutoTicket

  const CLOSED_STATE := 4

  datatype ZammadTicket = ZammadTicket(number: string, title: string, stateId: int)

  datatype IncidentLink = IncidentLink(ticketMetaId: Uuid, incidentId: Uuid, slug: string)

  // Zammad's tickets, ticket_meta, and incident_links in order of creation.
  datatype Desk = Desk(zammad: map<int, ZammadTicket>, metas: Metas, links: seq<IncidentLink>)

  // How the calls for one matching rule go. Zammad picks the ticket's id, number and first state, the
  // database the id of a new metadata row.
  datatype Attempt = Attempt(
    zammadId: int, number: string, stateId: int, newMetaId: Uuid, createFails: bool, metaFails: bool, linkFails: bool)

  predicate Linked(links: seq<IncidentLink>, metaId: Uuid, incidentId: Uuid) {
    exists l <- links :: l.ticketMetaId == metaId && l.incidentId == incidentId
  }

  // One round of the loop over the matching rules.
  ghost function Open(d: Desk, rule: Rule, incident: Incident, incidentId: Uuid, a: Attempt): Desk {
    if a.createFails || a.zammadId in d.zammad then d
    else
      var d1 := d.(zammad := d.zammad[a.zammadId :=
                        ZammadTicket(a.number, Rendered(rule.titleTemplate, incident), a.stateId)]);
      var u := Upserted(d.metas, a.zammadId, a.number, None, a.newMetaId);
      if a.metaFails || u.None? then d1
      else
        var (metas, id) := u.value;
        d1.(metas := metas,
            links := if a.linkFails || Linked(d.links, id, incidentId) then d.links
                     else d.links + [IncidentLink(id, incidentId, incident.slug)])
  }

  ghost function OpenAll(d: Desk, rules: seq<Rule>, incident: Incident, incidentId: Uuid, attempts: seq<Attempt>): Desk
    requires |rules| <= |attempts|
  {
    if rules == [] then d
    else
      var n := |rules| - 1;
      Open(OpenAll(d, rules[..n], incident, incidentId, attempts), rules[n], incident, incidentId, attempts[n])
  }

  // The incident's links, in order.
  function LinksOf(links: seq<IncidentLink>, incidentId: Uuid): seq<IncidentLink> {
    if links == [] then []
    else
      var last := links[|links| - 1];
      LinksOf(links[..|links| - 1], incidentId) + (if last.incidentId == incidentId then [last] else [])
  }

  // A link of the incident that leads to the ticket.
  predicate LeadsTo(metas: Metas, l: IncidentLink, incidentId: Uuid, z: int) {
    l.incidentId == incidentId && l.ticketMetaId in metas && metas[l.ticketMetaId].zammadId == z
  }

  // The ticket has a link to the incident.
  predicate IsLinked(d: Desk, incidentId: Uuid, zammadId: int) {
    exists l <- d.links :: LeadsTo(d.metas, l, incidentId, zammadId)
  }

  // Every linked ticket that Zammad still has is closed, except those whose update fails.
  function Resolved(d: Desk, incidentId: Uuid, fails: set<int>): Desk {
    d.(zammad := map z | z in d.zammad ::
         if IsLinked(d, incidentId, z) && z !in fails then d.zammad[z].(stateId := CLOSED_STATE) else d.zammad[z])
  }

  class IncidentHandler {
    const tickets: TicketStore
    var zammad: map<int, ZammadTicket>
    var links: seq<IncidentLink>

    ghost function View(): Desk
      reads this, tickets
    {
      Desk(zammad, tickets.metas, links)
    }

    constructor (existing: map<int, ZammadTicket>)
      ensures View() == Desk(existing, map[], []) && fresh(tickets)
    {
      tickets := new TicketStore();
      zammad, links := existing, [];
    }

    // UNIQUE (ticket_meta_id, incident_id), and ticket_meta_id references ticket_meta.
    method CreateIncidentLink(metaId: Uuid, incidentId: Uuid, slug: string) returns (ok: bool)
      modifies this`links
      ensures ok == (metaId in tickets.metas
                     && forall l <- old(links) :: !(l.ticketMetaId == metaId && l.incidentId == incidentId))
      ensures old(ValidLinks(View())) ==> ValidLinks(View())
      ensures links == if ok then old(links) + [IncidentLink(metaId, incidentId, slug)] else old(links)
    {
      ok := metaId in tickets.metas && !Linked(links, metaId, incidentId);
      if ok { links := links + [IncidentLink(metaId, incidentId, slug)]; }
    }

    method OpenOne(rule: Rule, incident: Incident, incidentId: Uuid, a: Attempt)
      requires ValidMetas(tickets.metas)
      modifies this, tickets
      ensures ValidMetas(tickets.metas)
      ensures View() == Open(old(View()), rule, incident, incidentId, a)
    {
      var title := RenderTitle(rule.titleTemplate, incident);
      if a.createFails || a.zammadId in zammad { return; }
      zammad := zammad[a.zammadId := ZammadTicket(a.number, title, a.stateId)];
      if a.metaFails { return; }
      var meta := tickets.Upsert(a.zammadId, a.number, None, a.newMetaId);
      if meta.None? || a.linkFails { return; }
      var _ := CreateIncidentLink(meta.value.id, incidentId, incident.slug);
    }

    // `parsed` is the incident's id, if its text is a UUID. An error in one round moves on to the next.
    method HandleIncidentCreated(rules: seq<Rule>, incident: Incident, parsed: Option<Uuid>,
                                 readsFail: bool, configFails: bool, attempts: seq<Attempt>)
      returns (failed: bool)
      requires ValidMetas(tickets.metas) && |Matching(rules, incident)| <= |attempts|
      modifies this, tickets
      ensures ValidMetas(tickets.metas)
      ensures failed <==> readsFail || (Matching(rules, incident) != [] && (configFails || parsed.None?))
      ensures View() == if readsFail || configFails || parsed.None? then old(View())
                        else OpenAll(old(View()), Matching(rules, incident), incident, parsed.value, attempts)
    {
      if readsFail { return true; }
      var matched := FindMatchingRules(rules, incident);
      if matched == [] { return false; }
      if configFails || parsed.None? { return true; }
      for i := 0 to |matched|
        invariant ValidMetas(tickets.metas)
        invariant View() == OpenAll(old(View()), matched[..i], incident, parsed.value, attempts)
      {
        assert matched[..i + 1][..i] == matched[..i];
        OpenOne(matched[i], incident, parsed.value, attempts[i]);
      }
      assert matched[..|matched|] == matched;
      failed := false;
    }

    // In order of creation, each link as often as the table holds it.
    method ListIncidentLinksByIncidentID(incidentId: Uuid) returns (r: seq<IncidentLink>)
      ensures r == LinksOf(links, incidentId)
      ensures forall l :: l in r <==> l in links && l.incidentId == incidentId
      ensures forall l: IncidentLink :: l.incidentId == incidentId ==> multiset(r)[l] == multiset(links)[l]
    {
      r := [];
      for i := 0 to |links|
        invariant r == LinksOf(links[..i], incidentId)
        invariant forall l :: l in r <==> l in links[..i] && l.incidentId == incidentId
        invariant forall l: IncidentLink :: l.incidentId == incidentId ==> multiset(r)[l] == multiset(links[..i])[l]
      {
        assert links[..i + 1] == links[..i] + [links[i]];
        if links[i].incidentId == incidentId { r := r + [links[i]]; }
      }
      assert links[..|links|] == links;
    }

    // Closes every linked ticket, whether or not it is closed already.
    method HandleIncidentResolved(parsed: Option<Uuid>, readsFail: bool, configFails: bool,
                                  fails: set<int>) returns (failed: bool)
      requires ValidMetas(tickets.metas)
      modifies this`zammad
      ensures View() == if failed || parsed.None? then old(View()) else Resolved(old(View()), parsed.value, fails)
      ensures failed <==>
                (parsed.None? || readsFail || (configFails && exists l <- links :: l.incidentId == parsed.value))
    {
      if parsed.None? || readsFail { return true; }
      var linked := ListIncidentLinksByIncidentID(parsed.value);
      if linked == [] {
        ClosedIsResolved(View(), linked, parsed.value, fails, zammad);
        return false;
      }
      assert linked[0] in links;
      if configFails { return true; }
      CloseAll(linked, fails);
      ClosedIsResolved(old(View()), linked, parsed.value, fails, zammad);
      failed := false;
    }

    method CloseAll(linked: seq<IncidentLink>, fails: set<int>)
      modifies this`zammad
      ensures zammad.Keys == old(zammad).Keys
      ensures forall z <- zammad :: zammad[z] == Closed(tickets.metas, linked, fails, z, old(zammad)[z])
    {
      for i := 0 to |linked|
        invariant zammad.Keys == old(zammad).Keys
        invariant forall z <- zammad :: zammad[z] == Closed(tickets.metas, linked[..i], fails, z, old(zammad)[z])
      {
        assert linked[..i + 1] == linked[..i] + [linked[i]];
        var meta := tickets.GetByID(linked[i].ticketMetaId);
        if meta.Some? && meta.value.zammadId in zammad && meta.value.zammadId !in fails {
          var z := meta.value.zammadId;
          zammad := zammad[z := zammad[z].(stateId := CLOSED_STATE)];
        }
      }
      assert linked[..|linked|] == linked;
    }
  }

  predicate LedTo(metas: Metas, ls: seq<IncidentLink>, zammadId: int) {
    exists l <- ls :: l.ticketMetaId in metas && metas[l.ticketMetaId].zammadId == zammadId
  }

  function Closed(metas: Metas, ls: seq<IncidentLink>, fails: set<int>, z: int, t: ZammadTicket): ZammadTicket {
    if LedTo(metas, ls, z) && z !in fails then t.(stateId := CLOSED_STATE) else t
  }

  lemma ClosedIsResolved(d: Desk, linked: seq<IncidentLink>, incidentId: Uuid, fails: set<int>,
                         after: map<int, ZammadTicket>)
    requires forall l :: l in linked <==> l in d.links && l.incidentId == incidentId
    requires after.Keys == d.zammad.Keys
    requires forall z <- after :: after[z] == Closed(d.metas, linked, fails, z, d.zammad[z])
    ensures d.(zammad := after) == Resolved(d, incidentId, fails)
  {
    LinkedTickets(d, linked, incidentId);
    assert after == Resolved(d, incidentId, fails).zammad;
  }

  // The links read lead to the tickets linked to the incident.
  lemma LinkedTickets(d: Desk, linked: seq<IncidentLink>, incidentId: Uuid)
    requires forall l :: l in linked <==> l in d.links && l.incidentId == incidentId
    ensures forall z :: LedTo(d.metas, linked, z) == IsLinked(d, incidentId, z)
  {
    forall z ensures LedTo(d.metas, linked, z) == IsLinked(d, incidentId, z) {
      if LedTo(d.metas, linked, z) {
        var l :| l in linked && l.ticketMetaId in d.metas && d.metas[l.ticketMetaId].zammadId == z;
        assert LeadsTo(d.metas, l, incidentId, z);
      }
    }
  }

  // Resolving sets the state id 4 on the tickets the incident's links lead to, but for failed updates,
  // and changes nothing else.
  lemma ResolveLaw(d: Desk, incidentId: Uuid, fails: set<int>)
    ensures var r := Resolved(d, incidentId, fails);
            && r.metas == d.metas && r.links == d.links && r.zammad.Keys == d.zammad.Keys
            && forall z <- d.zammad ::
                 r.zammad[z] == d.zammad[z].(stateId :=
                   if z !in fails && (exists l <- d.links :: l.incidentId == incidentId
                                        && l.ticketMetaId in d.metas && d.metas[l.ticketMetaId].zammadId == z)
                   then 4 else d.zammad[z].stateId)
  {
    forall l <- d.links, z <- d.zammad
      ensures LeadsTo(d.metas, l, incidentId, z) <==>
                l.incidentId == incidentId && l.ticketMetaId in d.metas && d.metas[l.ticketMetaId].zammadId == z
    {
    }
  }

  // The links of an incident stand in the order in which the table holds them.
  lemma {:induction false} LinksKeepOrder(a: seq<IncidentLink>, b: seq<IncidentLink>, incidentId: Uuid)
    ensures LinksOf(a + b, incidentId) == LinksOf(a, incidentId) + LinksOf(b, incidentId)
    ensures |b| == 1 ==> LinksOf(b, incidentId) == if b[0].incidentId == incidentId then b else []
  {
    if b == [] {
      assert a + b == a;
    } else {
      var front := b[..|b| - 1];
      assert (a + b)[..|a + b| - 1] == a + front;
      LinksKeepOrder(a, front, incidentId);
    }
  }

  // One round for one rule, whatever fails in it, when the ids and the number it is given are new: a
  // failing Zammad leaves everything, a failing upsert only the Zammad ticket, a failing link insert a
  // ticket without its link.
  lemma OpenLaw(d: Desk, rule: Rule, incident: Incident, incidentId: Uuid, a: Attempt)
    requires a.zammadId !in d.zammad && a.newMetaId !in d.metas
    requires forall m <- d.metas :: d.metas[m].zammadId != a.zammadId && d.metas[m].zammadNumber != a.number
    requires forall l <- d.links :: l.ticketMetaId in d.metas
    ensures var d' := Open(d, rule, incident, incidentId, a);
            && (d'.zammad == if a.createFails then d.zammad
                  else d.zammad[a.zammadId :=
                         ZammadTicket(a.number, Rendered(rule.titleTemplate, incident), a.stateId)])
            && (d'.metas == if a.createFails || a.metaFails then d.metas
                  else d.metas[a.newMetaId := Meta(a.newMetaId, a.zammadId, a.number, None)])
            && (d'.links == if a.createFails || a.metaFails || a.linkFails then d.links
                  else d.links + [IncidentLink(a.newMetaId, incidentId, incident.slug)])
  {
    UpsertRefused(d.metas, a.zammadId, a.number, None, a.newMetaId);
  }

  /******* Lifecycle *******/

  // Nothing fails, and every id and number handed out is new.
  ghost predicate Fresh(d: Desk, attempts: seq<Attempt>) {
    && (forall a <- attempts :: !a.createFails && !a.metaFails && !a.linkFails
          && a.zammadId !in d.zammad && !Holds(d.metas, a.zammadId) && a.newMetaId !in d.metas
          && (forall id <- d.metas :: d.metas[id].zammadNumber != a.number))
    && (forall i, j :: 0 <= i < j < |attempts| ==>
          attempts[i].zammadId != attempts[j].zammadId && attempts[i].newMetaId != attempts[j].newMetaId
          && attempts[i].number != attempts[j].number)
  }

  // Every link leads to a ticket_meta row (its foreign key).
  predicate ValidLinks(d: Desk) { forall l <- d.links :: l.ticketMetaId in d.metas }

  function NewLinks(incident: Incident, incidentId: Uuid, attempts: seq<Attempt>): seq<IncidentLink> {
    seq(|attempts|, i requires 0 <= i < |attempts| => IncidentLink(attempts[i].newMetaId, incidentId, incident.slug))
  }

  function NewTickets(rules: seq<Rule>, incident: Incident, attempts: seq<Attempt>): map<int, ZammadTicket>
    requires |rules| == |attempts|
  {
    if rules == [] then map[]
    else
      var n := |rules| - 1;
      NewTickets(rules[..n], incident, attempts[..n])
        [attempts[n].zammadId :=
          ZammadTicket(attempts[n].number, Rendered(rules[n].titleTemplate, incident), attempts[n].stateId)]
  }

  function NewMetas(attempts: seq<Attempt>): Metas {
    if attempts == [] then map[]
    else
      var a := attempts[|attempts| - 1];
      NewMetas(attempts[..|attempts| - 1])[a.newMetaId := Meta(a.newMetaId, a.zammadId, a.number, None)]
  }

  // What the new rows and tickets are: one per attempt.
  lemma {:induction false} NewMetasFacts(attempts: seq<Attempt>)
    ensures forall id <- NewMetas(attempts) ::
              exists a <- attempts :: a.newMetaId == id
                                    && NewMetas(attempts)[id] == Meta(a.newMetaId, a.zammadId, a.number, None)
    ensures forall a <- attempts :: a.newMetaId in NewMetas(attempts)
  {
    if attempts != [] {
      var front, last := attempts[..|attempts| - 1], attempts[|attempts| - 1];
      assert attempts == front + [last] && last in attempts;
      NewMetasFacts(front);
    }
  }

  lemma {:induction false} NewTicketsFacts(rules: seq<Rule>, incident: Incident, attempts: seq<Attempt>)
    requires |rules| == |attempts|
    ensures forall z :: z in NewTickets(rules, incident, attempts) <==> exists a <- attempts :: a.zammadId == z
  {
    if rules != [] {
      var n := |rules| - 1;
      assert attempts == attempts[..n] + [attempts[n]];
      NewTicketsFacts(rules[..n], incident, attempts[..n]);
    }
  }

  // Fresh ids make it one ticket and one row for each rule, not fewer.
  lemma {:induction false} NewTicketsAreAsMany(d: Desk, rules: seq<Rule>, incident: Incident, attempts: seq<Attempt>)
    requires |rules| == |attempts| && Fresh(d, attempts)
    ensures |NewTickets(rules, incident, attempts)| == |NewMetas(attempts)| == |rules|
  {
    if rules != [] {
      var n := |rules| - 1;
      FreshPrefix(d, attempts);
      NewTicketsAreAsMany(d, rules[..n], incident, attempts[..n]);
      NewTicketsFacts(rules[..n], incident, attempts[..n]);
      NewMetasFacts(attempts[..n]);
    }
  }

  lemma FreshPrefix(d: Desk, attempts: seq<Attempt>)
    requires attempts != [] && Fresh(d, attempts)
    ensures Fresh(d, attempts[..|attempts| - 1])
  {
    assert forall a <- attempts[..|attempts| - 1] :: a in attempts;
  }

  // The desk with one ticket, one metadata row and one link for each rule, links in rule order.
  function Opened(d: Desk, rules: seq<Rule>, incident: Incident, incidentId: Uuid, attempts: seq<Attempt>): Desk
    requires |rules| == |attempts|
  {
    Desk(d.zammad + NewTickets(rules, incident, attempts), d.metas + NewMetas(attempts),
         d.links + NewLinks(incident, incidentId, attempts))
  }

  // What a fresh attempt finds on the desk the earlier ones have left.
  lemma NothingInTheWay(d: Desk, rules: seq<Rule>, incident: Incident, incidentId: Uuid, attempts: seq<Attempt>)
    requires rules != [] && |rules| == |attempts| && Fresh(d, attempts) && ValidLinks(d)
    ensures var n := |rules| - 1;
            var d', a := Opened(d, rules[..n], incident, incidentId, attempts[..n]), attempts[n];
            && a.zammadId !in d'.zammad && a.newMetaId !in d'.metas
            && !Holds(d'.metas, a.zammadId) && !NumberTaken(d'.metas, a.zammadId, a.number)
            && !Linked(d'.links, a.newMetaId, incidentId)
  {
    var n := |rules| - 1;
    assert attempts[n] in attempts;
    NewTicketsFacts(rules[..n], incident, attempts[..n]);
    NewMetasFacts(attempts[..n]);
  }

  lemma OpensOne(d: Desk, rules: seq<Rule>, incident: Incident, incidentId: Uuid, attempts: seq<Attempt>)
    requires rules != [] && |rules| == |attempts| && Fresh(d, attempts) && ValidLinks(d)
    ensures var n := |rules| - 1;
            Open(Opened(d, rules[..n], incident, incidentId, attempts[..n]),
                 rules[n], incident, incidentId, attempts[n])
            == Opened(d, rules, incident, incidentId, attempts)
  {
    var n := |rules| - 1;
    NothingInTheWay(d, rules, incident, incidentId, attempts);
    assert attempts[n] in attempts;
    OpensOnAClearDesk(Opened(d, rules[..n], incident, incidentId, attempts[..n]),
                      rules[n], incident, incidentId, attempts[n]);
    OpenedGrows(d, rules, incident, incidentId, attempts);
  }

  lemma OpenedGrows(d: Desk, rules: seq<Rule>, incident: Incident, incidentId: Uuid, attempts: seq<Attempt>)
    requires rules != [] && |rules| == |attempts|
    ensures var n := |rules| - 1;
            var before, a := Opened(d, rules[..n], incident, incidentId, attempts[..n]), attempts[n];
            Opened(d, rules, incident, incidentId, attempts)
            == Desk(before.zammad[a.zammadId :=
                    ZammadTicket(a.number, Rendered(rules[n].titleTemplate, incident), a.stateId)],
                    before.metas[a.newMetaId := Meta(a.newMetaId, a.zammadId, a.number, None)],
                    before.links + [IncidentLink(a.newMetaId, incidentId, incident.slug)])
  {
    var n := |rules| - 1;
    var a := attempts[n];
    MergeUpdate(d.zammad, NewTickets(rules[..n], incident, attempts[..n]), a.zammadId,
                ZammadTicket(a.number, Rendered(rules[n].titleTemplate, incident), a.stateId));
    MergeUpdate(d.metas, NewMetas(attempts[..n]), a.newMetaId, Meta(a.newMetaId, a.zammadId, a.number, None));
    LinksGrow(d.links, incident, incidentId, attempts);
  }

  lemma MergeUpdate<K, V>(m: map<K, V>, n: map<K, V>, k: K, v: V)
    ensures m + n[k := v] == (m + n)[k := v]
  {
  }

  lemma LinksGrow(links: seq<IncidentLink>, incident: Incident, incidentId: Uuid, attempts: seq<Attempt>)
    requires attempts != []
    ensures var n := |attempts| - 1;
            links + NewLinks(incident, incidentId, attempts)
            == links + NewLinks(incident, incidentId, attempts[..n])
               + [IncidentLink(attempts[n].newMetaId, incidentId, incident.slug)]
  {
  }

  lemma OpensOnAClearDesk(d: Desk, rule: Rule, incident: Incident, incidentId: Uuid, a: Attempt)
    requires !a.createFails && !a.metaFails && !a.linkFails
    requires a.zammadId !in d.zammad && a.newMetaId !in d.metas
    requires !Holds(d.metas, a.zammadId) && !NumberTaken(d.metas, a.zammadId, a.number)
             && !Linked(d.links, a.newMetaId, incidentId)
    ensures Open(d, rule, incident, incidentId, a)
         == Desk(d.zammad[a.zammadId := ZammadTicket(a.number, Rendered(rule.titleTemplate, incident), a.stateId)],
                 d.metas[a.newMetaId := Meta(a.newMetaId, a.zammadId, a.number, None)],
                 d.links + [IncidentLink(a.newMetaId, incidentId, incident.slug)])
  {
  }

  // With nothing failing, incident.created adds exactly one ticket and one link per matching rule,
  // in rule order, and touches nothing that was there.
  lemma {:induction false} OneTicketPerRule(d: Desk, rules: seq<Rule>, incident: Incident, incidentId: Uuid,
                                            attempts: seq<Attempt>)
    requires |rules| == |attempts| && Fresh(d, attempts) && ValidLinks(d)
    ensures OpenAll(d, rules, incident, incidentId, attempts) == Opened(d, rules, incident, incidentId, attempts)
  {
    if rules != [] {
      var n := |rules| - 1;
      FreshPrefix(d, attempts);
      OneTicketPerRule(d, rules[..n], incident, incidentId, attempts[..n]);
      SparesAreUnused(d, rules[..n], incident, incidentId, attempts, n);
      OpensOne(d, rules, incident, incidentId, attempts);
    } else {
      assert d.links + [] == d.links;
    }
  }

  lemma {:induction false} SparesAreUnused(d: Desk, rules: seq<Rule>, incident: Incident, incidentId: Uuid,
                                           attempts: seq<Attempt>, n: nat)
    requires |rules| <= n <= |attempts|
    ensures OpenAll(d, rules, incident, incidentId, attempts) == OpenAll(d, rules, incident, incidentId, attempts[..n])
  {
    if rules != [] { SparesAreUnused(d, rules[..|rules| - 1], incident, incidentId, attempts, n); }
  }

  // Links that were there still lead to the same tickets ...
  lemma OldLinkLeadsTo(d: Desk, attempts: seq<Attempt>, l: IncidentLink, incidentId: Uuid, z: int)
    requires Fresh(d, attempts) && l.ticketMetaId in d.metas
    ensures LeadsTo(d.metas + NewMetas(attempts), l, incidentId, z) <==> LeadsTo(d.metas, l, incidentId, z)
  {
    NewMetasFacts(attempts);
  }

  // ... and each new one to its new ticket.
  lemma NewLinkLeadsTo(d: Desk, incident: Incident, incidentId: Uuid, attempts: seq<Attempt>, i: nat, z: int)
    requires Fresh(d, attempts) && i < |attempts|
    ensures LeadsTo(d.metas + NewMetas(attempts), NewLinks(incident, incidentId, attempts)[i], incidentId, z)
       <==> attempts[i].zammadId == z
  {
    NewMetaOf(d, attempts, attempts[i]);
  }

  lemma LinkedAfterOpening(d: Desk, rules: seq<Rule>, incident: Incident, incidentId: Uuid, attempts: seq<Attempt>,
                           z: int)
    requires |rules| == |attempts| && Fresh(d, attempts) && ValidLinks(d)
    ensures IsLinked(Opened(d, rules, incident, incidentId, attempts), incidentId, z)
       <==> IsLinked(d, incidentId, z) || exists a <- attempts :: a.zammadId == z
  {
    var added := NewLinks(incident, incidentId, attempts);
    forall l | l in d.links { OldLinkLeadsTo(d, attempts, l, incidentId, z); }
    forall i | 0 <= i < |added| { NewLinkLeadsTo(d, incident, incidentId, attempts, i, z); }
    forall a | a in attempts && a.zammadId == z
      ensures exists l <- added :: LeadsTo(d.metas + NewMetas(attempts), l, incidentId, z)
    {
      var i :| 0 <= i < |attempts| && attempts[i] == a;
      assert added[i] in added;
    }
  }

  lemma NewMetaOf(d: Desk, attempts: seq<Attempt>, a: Attempt)
    requires Fresh(d, attempts) && a in attempts
    ensures a.newMetaId in NewMetas(attempts) && NewMetas(attempts)[a.newMetaId].zammadId == a.zammadId
  {
    NewMetasFacts(attempts);
  }

  // Resolving an incident closes exactly the tickets it opened and those already linked to it.
  lemma ResolvingClosesWhatWasOpened(d: Desk, rules: seq<Rule>, incident: Incident, incidentId: Uuid,
                                     attempts: seq<Attempt>)
    requires |rules| == |attempts| && Fresh(d, attempts) && ValidLinks(d)
    ensures var open := OpenAll(d, rules, incident, incidentId, attempts);
            var closed := Resolved(open, incidentId, {});
            && closed.metas == open.metas && closed.links == open.links && closed.zammad.Keys == open.zammad.Keys
            && (forall z <- open.zammad :: closed.zammad[z] ==
                 (if IsLinked(d, incidentId, z) || exists a <- attempts :: a.zammadId == z
                  then open.zammad[z].(stateId := CLOSED_STATE) else open.zammad[z]))
  {
    OneTicketPerRule(d, rules, incident, incidentId, attempts);
    forall z { LinkedAfterOpening(d, rules, incident, incidentId, attempts, z); }
  }

  // Resolving again closes what failed before and nothing more; with no failures it changes nothing.
  lemma ResolvingAgain(d: Desk, incidentId: Uuid, f: set<int>, g: set<int>)
    ensures Resolved(Resolved(d, incidentId, f), incidentId, g) == Resolved(d, incidentId, f * g)
    ensures Resolved(Resolved(d, incidentId, {}), incidentId, g) == Resolved(d, incidentId, {})
  {
    var once := Resolved(d, incidentId, f);
    assert forall z :: IsLinked(once, incidentId, z) == IsLinked(d, incidentId, z);
    assert Resolved(once, incidentId, g).zammad == Resolved(d, incidentId, f * g).zammad;
    var clean := Resolved(d, incidentId, {});
    assert forall z :: IsLinked(clean, incidentId, z) == IsLinked(d, incidentId, z);
    assert Resolved(clean, incidentId, g).zammad == clean.zammad;
  }
}
