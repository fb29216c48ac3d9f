/**
 What agents read: the merged comment thread (internal/comment/service.go) and tickets joined
 with their metadata (internal/ticket/service.go, internal/ticket/ticket.go).
 */
module TicketViews {
  import opened Prelude
  import opened Clock
  import opened TicketMeta

  /******* Thread *******/

  datatype Source = FromZammad | FromTicketOwl

  datatype Article = Article(id: int, sender: string, body: string, isInternal: bool, createdAt: Instant)

  datatype Note = Note(id: int, author: string, body: string, createdAt: Instant)

  datatype Entry = Entry(id: int, source: Source, sender: string, body: string, isInternal: bool, createdAt: Instant)

  datatype MetaLookup = Known(metaId: Uuid) | NoRows | LookupFails

  function FromArticle(a: Article): Entry { Entry(a.id, FromZammad, a.sender, a.body, a.isInternal, a.createdAt) }

  function FromNote(n: Note): Entry { Entry(n.id, FromTicketOwl, n.author, n.body, true, n.createdAt) }

  function Entries(articles: seq<Article>, notes: seq<Note>): seq<Entry> {
    seq(|articles|, i requires 0 <= i < |articles| => FromArticle(articles[i]))
    + seq(|notes|, i requires 0 <= i < |notes| => FromNote(notes[i]))
  }

  // What an entry shows: an article as Zammad has it, a note under its author's name and always internal.
  lemma EntriesShow(articles: seq<Article>, notes: seq<Note>)
    ensures var es := Entries(articles, notes);
            && |es| == |articles| + |notes|
            && (forall i :: 0 <= i < |articles| ==>
                 var a := articles[i];
                 es[i] == Entry(a.id, FromZammad, a.sender, a.body, a.isInternal, a.createdAt))
            && (forall i :: 0 <= i < |notes| ==>
                 var n := notes[i];
                 es[|articles| + i] == Entry(n.id, FromTicketOwl, n.author, n.body, true, n.createdAt))
  {
  }

  predicate InTimeOrder(es: seq<Entry>) {
    forall i, j :: 0 <= i < j < |es| ==> es[i].createdAt <= es[j].createdAt
  }

  method InsertByTime(sorted: seq<Entry>, e: Entry) returns (r: seq<Entry>)
    requires InTimeOrder(sorted)
    ensures InTimeOrder(r) && multiset(r) == multiset(sorted) + multiset{e}
  {
    var k := |sorted|;
    while k > 0 && e.createdAt < sorted[k - 1].createdAt
      invariant 0 <= k <= |sorted|
      invariant k < |sorted| ==> e.createdAt < sorted[k].createdAt
    {
      k := k - 1;
    }
    r := sorted[..k] + [e] + sorted[k..];
    InsertedAt(sorted, k, e);
  }

  lemma InsertedAt(sorted: seq<Entry>, k: nat, e: Entry)
    requires k <= |sorted|
    ensures multiset(sorted[..k] + [e] + sorted[k..]) == multiset(sorted) + multiset{e}
  {
    assert sorted == sorted[..k] + sorted[k..];
  }

  // The order of entries with equal times is the library's affair; this one is as good as any.
  method SortByTime(entries: seq<Entry>) returns (sorted: seq<Entry>)
    ensures InTimeOrder(sorted) && multiset(sorted) == multiset(entries)
  {
    sorted := [];
    for i := 0 to |entries|
      invariant InTimeOrder(sorted) && multiset(sorted) == multiset(entries[..i])
    {
      sorted := InsertByTime(sorted, entries[i]);
      assert entries[..i + 1] == entries[..i] + [entries[i]];
    }
    assert entries[..|entries|] == entries;
  }

  // None stands for an error. The inputs are what Zammad and the notes table answer.
  method ListThread(articles: Option<seq<Article>>, lookup: MetaLookup, stored: Option<seq<Note>>)
    returns (thread: Option<seq<Entry>>)
    ensures thread.None? <==> articles.None? || lookup.LookupFails? || (lookup.Known? && stored.None?)
    ensures thread.Some? ==>
      && InTimeOrder(thread.value)
      && multiset(thread.value) == multiset(Entries(articles.value, if lookup.Known? then stored.value else []))
      && (forall e <- thread.value :: e.source == FromTicketOwl ==> e.isInternal)
      && |thread.value| == |articles.value| + if lookup.Known? then |stored.value| else 0
  {
    if articles.None? || lookup.LookupFails? { return None; }
    var notes: seq<Note> := [];
    if lookup.Known? {
      if stored.None? { return None; }
      notes := stored.value;
    }
    var entries: seq<Entry> := [];
    for i := 0 to |articles.value|
      invariant entries == Entries(articles.value[..i], [])
    {
      entries := entries + [FromArticle(articles.value[i])];
    }
    for i := 0 to |notes|
      invariant entries == Entries(articles.value, notes[..i])
    {
      entries := entries + [FromNote(notes[i])];
    }
    assert notes[..|notes|] == notes;
    var sorted := SortByTime(entries);
    assert |sorted| == |multiset(sorted)| == |multiset(entries)| == |entries|;
    forall e <- sorted ensures e.source == FromTicketOwl ==> e.isInternal {
      NotesStayInternal(articles.value, notes, sorted, e);
    }
    thread := Some(sorted);
  }

  // Whatever the order among equal times: no note of TicketOwl's own is ever shown as public, and
  // an article is shown as internal exactly when Zammad says so.
  lemma NotesStayInternal(articles: seq<Article>, notes: seq<Note>, thread: seq<Entry>, e: Entry)
    requires multiset(thread) == multiset(Entries(articles, notes)) && e in thread
    ensures e.source == FromTicketOwl ==> e.isInternal && exists n <- notes :: e == FromNote(n)
    ensures e.source == FromZammad ==> exists a <- articles :: e == FromArticle(a) && e.isInternal == a.isInternal
  {
    assert e in multiset(thread);
    assert e in Entries(articles, notes);
  }

  /******* Tickets with metadata *******/

  datatype Ticket = Ticket(id: int, number: string, title: string)

  datatype EnrichedTicket = EnrichedTicket(ticket: Ticket, metaId: Option<Uuid>, slaPolicyId: Option<Uuid>)

  function Enrich(t: Ticket, meta: Option<Meta>): EnrichedTicket {
    if meta.Some? then EnrichedTicket(t, Some(meta.value.id), meta.value.slaPolicyId) else EnrichedTicket(t, None, None)
  }

  // The one row for a Zammad ticket, if there is one.
  ghost function MetaFor(ms: Metas, zammadId: int): Option<Meta> {
    if Find(ms, zammadId).Some? then Some(ms[Find(ms, zammadId).value]) else None
  }

  // The id and policy of the ticket's metadata row, or nothing if it has none.
  predicate ShowsMeta(e: EnrichedTicket, ms: Metas, zammadId: int) {
    && (forall m <- ms :: ms[m].zammadId == zammadId ==> e.metaId == Some(m) && e.slaPolicyId == ms[m].slaPolicyId)
    && ((forall m <- ms :: ms[m].zammadId != zammadId) ==> e.metaId.None? && e.slaPolicyId.None?)
  }

  lemma EnrichShows(t: Ticket, ms: Metas, zammadId: int)
    requires ValidMetas(ms)
    ensures ShowsMeta(Enrich(t, MetaFor(ms, zammadId)), ms, zammadId) && Enrich(t, MetaFor(ms, zammadId)).ticket == t
    ensures Enrich(t, None).ticket == t && Enrich(t, None).metaId.None? && Enrich(t, None).slaPolicyId.None?
  {
    forall m <- ms | ms[m].zammadId == zammadId { FindIs(ms, m); }
  }

  class TicketService {
    const store: TicketStore

    constructor (store: TicketStore)
      ensures this.store == store
    {
      this.store := store;
    }

    // The rows of the given tickets, in no particular order.
    method ListByZammadIDs(ids: set<int>) returns (rows: seq<Meta>)
      requires ValidMetas(store.metas)
      ensures forall m :: m in rows <==> m.id in store.metas && store.metas[m.id] == m && m.zammadId in ids
    {
      rows := [];
      var todo := set id | id in store.metas && store.metas[id].zammadId in ids;
      while todo != {}
        invariant forall id <- todo :: id in store.metas && store.metas[id].zammadId in ids
        invariant forall m :: m in rows ==> m.id in store.metas && store.metas[m.id] == m && m.zammadId in ids
        invariant forall id <- store.metas :: store.metas[id].zammadId in ids ==> id in todo || store.metas[id] in rows
        decreases todo
      {
        var id := AnyOf(todo);
        todo := todo - {id};
        rows := rows + [store.metas[id]];
      }
    }

    // `fetched` is what Zammad answers for the requested id.
    method Get(zammadId: int, fetched: Option<Ticket>, lookupFails: bool) returns (r: Option<EnrichedTicket>)
      requires ValidMetas(store.metas)
      ensures r == if fetched.None? || lookupFails then None
                   else Some(Enrich(fetched.value, MetaFor(store.metas, zammadId)))
      ensures r.Some? ==> r.value.ticket == fetched.value && ShowsMeta(r.value, store.metas, zammadId)
    {
      if fetched.None? || lookupFails { return None; }
      var meta := store.GetByZammadID(zammadId);
      EnrichShows(fetched.value, store.metas, zammadId);
      r := Some(Enrich(fetched.value, meta));
    }

    // Keeps Zammad's order, and entry by entry shows what Get shows for the ticket's id; without
    // metadata when its query fails.
    method List(fetched: Option<seq<Ticket>>, metasFail: bool) returns (r: Option<seq<EnrichedTicket>>)
      requires ValidMetas(store.metas)
      ensures r.None? <==> fetched.None?
      ensures r.Some? && !metasFail ==>
        forall i :: 0 <= i < |r.value| && i < |fetched.value| ==>
          r.value[i].ticket == fetched.value[i] && ShowsMeta(r.value[i], store.metas, fetched.value[i].id)
      ensures r.Some? ==>
        && |r.value| == |fetched.value|
        && forall i :: 0 <= i < |r.value| ==>
             r.value[i] == Enrich(fetched.value[i],
                                          if metasFail then None else MetaFor(store.metas, fetched.value[i].id))
    {
      if fetched.None? { return None; }
      var tickets := fetched.value;
      var rows: seq<Meta> := [];
      if !metasFail {
        rows := ListByZammadIDs(set t <- tickets :: t.id);
      }
      var byZammadId: map<int, Meta> := map[];
      for i := 0 to |rows|
        invariant forall z <- byZammadId :: byZammadId[z] in rows && byZammadId[z].zammadId == z
        invariant forall j :: 0 <= j < i ==> rows[j].zammadId in byZammadId
      {
        byZammadId := byZammadId[rows[i].zammadId := rows[i]];
      }
      var result: seq<EnrichedTicket> := [];
      for i := 0 to |tickets|
        invariant |result| == i
        invariant forall j :: 0 <= j < i ==>
                    result[j] == Enrich(tickets[j], if metasFail then None else MetaFor(store.metas, tickets[j].id))
      {
        var meta := if tickets[i].id in byZammadId then Some(byZammadId[tickets[i].id]) else None;
        if !metasFail { IndexAgrees(store.metas, rows, byZammadId, tickets, i); }
        result := result + [Enrich(tickets[i], meta)];
      }
      forall i | 0 <= i < |tickets| { EnrichShows(tickets[i], store.metas, tickets[i].id); }
      r := Some(result);
    }
  }

  // The index built from the rows finds for each listed ticket the row the table has for it.
  lemma IndexAgrees(ms: Metas, rows: seq<Meta>, index: map<int, Meta>, tickets: seq<Ticket>, i: nat)
    requires ValidMetas(ms) && i < |tickets|
    requires forall m :: m in rows <==> m.id in ms && ms[m.id] == m && m.zammadId in set t <- tickets :: t.id
    requires forall z <- index :: index[z] in rows && index[z].zammadId == z
    requires forall j :: 0 <= j < |rows| ==> rows[j].zammadId in index
    ensures (if tickets[i].id in index then Some(index[tickets[i].id]) else None) == MetaFor(ms, tickets[i].id)
  {
    var z := tickets[i].id;
    assert tickets[i] in tickets;
    if Find(ms, z).Some? {
      var m := ms[Find(ms, z).value];
      assert m in rows;
    }
  }
}
