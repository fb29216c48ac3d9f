/**
 The poller and the event processor run side by side (internal/worker/worker.go). Between the
 query of a pass and the write of a row, handlers may run; the pass then writes back, in full,
 the row it read. A ticket.update does the same between its own read and write. This module says
 when that is as good as atomic steps, and for each race on one row exactly when it is not.
 */
module Interleaving {
  import opened Prelude
  import opened Clock
  import opened Sla
  import opened SlaRow
  import opened TicketMeta
  import opened WorkerModel
  import opened WorkerRuns
  import opened PollPasses

  // A pass processing one row it read earlier, or a handler call in between.
  datatype Action =
    | BreachRow(row: State)
    | ActiveStep(active: ActiveRow)
    | Handle(event: Event)

  predicate IsHandler(e: Event) { e.TicketCreate? || e.TicketUpdate? || e.RecordTicket? }

  function RowId(a: Action): Uuid
    requires !a.Handle?
  {
    if a.BreachRow? then a.row.ticketMetaId else a.active.st.ticketMetaId
  }

  ghost function Do(w: World, a: Action, now: Instant, f: PollFaults): World {
    match a
    case BreachRow(st) => ProcessBreached(w, st, now, FaultsOf(f, st.ticketMetaId))
    case ActiveStep(a) => ProcessActive(w, a, now, FaultsOf(f, a.st.ticketMetaId))
    case Handle(e) => Apply(w, e)
  }

  ghost function Exec(w: World, acts: seq<Action>, now: Instant, f: PollFaults): World {
    if acts == [] then w else Do(Exec(w, acts[..|acts| - 1], now, f), acts[|acts| - 1], now, f)
  }

  // The actions of the pass, and those of the handlers, each in their own order.
  function Part(acts: seq<Action>, handlers: bool): seq<Action> {
    if acts == [] then []
    else
      var last := acts[|acts| - 1];
      Part(acts[..|acts| - 1], handlers) + (if last.Handle? == handlers then [last] else [])
  }

  predicate Stored(w: World, id: Uuid) { id in w.metas && id in w.states }

  // No handler touches a ticket of the pass.
  ghost predicate Apart(w: World, acts: seq<Action>) {
    && (forall a <- acts :: if a.Handle? then IsHandler(a.event) else Stored(w, RowId(a)))
    && (forall a <- acts, b <- acts :: !a.Handle? && b.Handle? ==> w.metas[RowId(a)].zammadId != b.event.zammadId)
  }

  // What a row action writes: at most one full row, and at most one alert.
  function RowWrite(w: World, a: Action, now: Instant, f: PollFaults): (Option<State>, seq<Alert>)
    requires !a.Handle?
  {
    match a
    case BreachRow(st) =>
      var policy, g := PolicyAt(w, st.ticketMetaId), FaultsOf(f, st.ticketMetaId);
      if st.firstBreachAlertedAt.Some? then (if g.writeOk then Some(st.(updatedAt := now)) else None, [])
      else if !g.lookupsOk || policy.None? || !g.alertOk then (None, [])
      else (if g.writeOk then Some(MarkBreached(st, now)) else None,
            [AlertFor(st, w.metas[st.ticketMetaId], policy.value, now)])
    case ActiveStep(a) =>
      var g := FaultsOf(f, a.st.ticketMetaId);
      if a.st.stateLabel == OnTrack && g.warnWriteOk
         && ShouldWarn(a.st, a.responseMinutes, a.resolutionMinutes, a.warningThousandths, now)
      then (Some(MarkWarning(a.st, now)), []) else (None, [])
  }

  function Written(w: World, write: (Option<State>, seq<Alert>)): World {
    w.(states := if write.0.Some? then UpsertedState(w.states, write.0.value) else w.states,
       alerts := w.alerts + write.1)
  }

  lemma RowActionWrites(w: World, a: Action, now: Instant, f: PollFaults)
    requires !a.Handle?
    ensures Do(w, a, now, f) == Written(w, RowWrite(w, a, now, f))
    ensures var st := RowWrite(w, a, now, f).0; st.Some? ==> st.value.ticketMetaId == RowId(a)
  {
    assert w.alerts + [] == w.alerts;
  }

  // A handler for another ticket leaves the metadata of this one and the policies alone.
  lemma HandlerKeepsOthers(w: World, e: Event, id: Uuid)
    requires ValidWorld(w) && IsHandler(e) && id in w.metas && w.metas[id].zammadId != e.zammadId
    ensures var w' := Apply(w, e);
            && id in w'.metas && w'.metas[id] == w.metas[id] && w'.policies == w.policies && w'.alerts == w.alerts
            && StateAt(w', id) == StateAt(w, id)
  {
    if e.TicketCreate? { CreateKeepsMetas(w, e); }
    if e.RecordTicket? && Upserted(w.metas, e.zammadId, e.number, None, e.newMetaId).Some? {
      UpsertedFacts(w.metas, e.zammadId, e.number, None, e.newMetaId);
    }
  }

  // ... and does the same to its own ticket whatever is written to this one's row.
  predicate WritesElsewhere(w: World, write: (Option<State>, seq<Alert>), zammadId: int) {
    write.0.Some? ==> Stored(w, write.0.value.ticketMetaId) && w.metas[write.0.value.ticketMetaId].zammadId != zammadId
  }

  lemma CreateIgnoresOtherRows(w: World, e: Event, write: (Option<State>, seq<Alert>))
    requires ValidWorld(w) && e.TicketCreate? && WritesElsewhere(w, write, e.zammadId)
    ensures Apply(Written(w, write), e) == Written(Apply(w, e), write)
  {
    CreateKeepsMetas(w, e);
    InitialisesAlike(w, e, write);
    var init := Initialises(w, e);
    if init.Some? && write.0.Some? {
      UpsertsCommute(w.states, InitState(e.newStateId, init.value.0, init.value.1, e.now), write.0.value);
    }
  }

  // A row rewritten in between does not change what ticket.create sets out to do.
  lemma InitialisesAlike(w: World, e: Event, write: (Option<State>, seq<Alert>))
    requires e.TicketCreate? && (write.0.Some? ==> write.0.value.ticketMetaId in w.states)
    ensures CreateMeta(Written(w, write), e) == CreateMeta(w, e)
    ensures Initialises(Written(w, write), e) == Initialises(w, e)
  {
    assert CreateMeta(Written(w, write), e) == CreateMeta(w, e);
    if write.0.Some? { RewriteKeepsKeys(w.states, write.0.value); }
  }

  lemma UpsertsCommute(states: map<Uuid, State>, a: State, b: State)
    requires a.ticketMetaId != b.ticketMetaId && b.ticketMetaId in states
    ensures UpsertedState(UpsertedState(states, a), b) == UpsertedState(UpsertedState(states, b), a)
  {
    RewriteKeepsKeys(states, b);
    assert UpsertedState(UpsertedState(states, a), b) == UpsertedState(UpsertedState(states, b), a);
  }

  lemma UpdateIgnoresOtherRows(w: World, e: Event, write: (Option<State>, seq<Alert>))
    requires ValidWorld(w) && e.TicketUpdate? && WritesElsewhere(w, write, e.zammadId)
    ensures Apply(Written(w, write), e) == Written(Apply(w, e), write)
  {
    var id := Find(w.metas, e.zammadId);
    if write.0.Some? && id.Some? && id.value in w.states {
      var row := PauseOrResume(w.states[id.value], IsPauseState(e.zammadState), e.now);
      TurnElsewhere(w.states, write.0.value, id.value, row);
    }
  }

  lemma TurnElsewhere(states: map<Uuid, State>, st: State, id: Uuid, row: State)
    requires st.ticketMetaId in states && id in states && id != st.ticketMetaId
    ensures UpsertedState(states, st)[id := row] == UpsertedState(states[id := row], st)
    ensures UpsertedState(states, st)[id] == states[id]
  {
  }

  lemma HandlerIgnoresOtherRows(w: World, e: Event, write: (Option<State>, seq<Alert>))
    requires ValidWorld(w) && IsHandler(e) && WritesElsewhere(w, write, e.zammadId)
    ensures Apply(Written(w, write), e) == Written(Apply(w, e), write)
  {
    match e
    case TicketCreate(_, _, _, _, _, _, _) => CreateIgnoresOtherRows(w, e, write);
    case TicketUpdate(_, _, _, _, _) => UpdateIgnoresOtherRows(w, e, write);
    case RecordTicket(_, _, _, _) =>
  }

  lemma Commutes(w: World, e: Event, a: Action, now: Instant, f: PollFaults)
    requires ValidWorld(w) && IsHandler(e) && !a.Handle? && Stored(w, RowId(a))
    requires w.metas[RowId(a)].zammadId != e.zammadId
    ensures Do(Apply(w, e), a, now, f) == Apply(Do(w, a, now, f), e)
  {
    HandlerKeepsOthers(w, e, RowId(a));
    RowActionWrites(w, a, now, f);
    RowActionWrites(Apply(w, e), a, now, f);
    assert RowWrite(Apply(w, e), a, now, f) == RowWrite(w, a, now, f);
    HandlerIgnoresOtherRows(w, e, RowWrite(w, a, now, f));
  }

  lemma {:induction false} PartFacts(acts: seq<Action>, handlers: bool)
    ensures forall a <- Part(acts, handlers) :: a in acts && a.Handle? == handlers
  {
    if acts != [] { PartFacts(acts[..|acts| - 1], handlers); }
  }

  lemma ApartPrefix(w: World, acts: seq<Action>)
    requires acts != [] && Apart(w, acts)
    ensures Apart(w, acts[..|acts| - 1])
  {
    assert forall a <- acts[..|acts| - 1] :: a in acts;
  }

  // Every action keeps the tables valid and the zammad_id of every ticket.
  lemma DoKeepsValid(w: World, a: Action, now: Instant, f: PollFaults)
    requires ValidWorld(w) && if a.Handle? then IsHandler(a.event) else Stored(w, RowId(a))
    ensures var w' := Do(w, a, now, f);
            && ValidWorld(w') && w.states.Keys <= w'.states.Keys
            && (forall id <- w.metas :: id in w'.metas && w'.metas[id].zammadId == w.metas[id].zammadId)
  {
    if a.Handle? {
      var e := a.event;
      ApplyKeepsValid(w, e);
      if e.TicketCreate? { CreateKeepsMetas(w, e); }
      if e.RecordTicket? && Upserted(w.metas, e.zammadId, e.number, None, e.newMetaId).Some? {
        UpsertedFacts(w.metas, e.zammadId, e.number, None, e.newMetaId);
      }
    } else {
      RowActionWrites(w, a, now, f);
      var st := RowWrite(w, a, now, f).0;
      if st.Some? { UpsertKeepsKeys(w.states, st.value); }
    }
  }

  lemma {:induction false} ExecKeepsValid(w: World, acts: seq<Action>, now: Instant, f: PollFaults)
    requires ValidWorld(w) && forall a <- acts :: if a.Handle? then IsHandler(a.event) else Stored(w, RowId(a))
    ensures var w' := Exec(w, acts, now, f);
            && ValidWorld(w') && w.states.Keys <= w'.states.Keys
            && (forall id <- w.metas :: id in w'.metas && w'.metas[id].zammadId == w.metas[id].zammadId)
  {
    if acts != [] {
      ExecKeepsValid(w, acts[..|acts| - 1], now, f);
      DoKeepsValid(Exec(w, acts[..|acts| - 1], now, f), acts[|acts| - 1], now, f);
    }
  }

  // A row action moves in front of any number of handlers for other tickets.
  lemma {:induction false} RowBeforeHandlers(w: World, hs: seq<Action>, a: Action, now: Instant, f: PollFaults)
    requires ValidWorld(w) && !a.Handle? && Stored(w, RowId(a))
    requires forall h <- hs :: h.Handle? && IsHandler(h.event) && w.metas[RowId(a)].zammadId != h.event.zammadId
    ensures Do(Exec(w, hs, now, f), a, now, f) == Exec(Do(w, a, now, f), hs, now, f)
  {
    if hs != [] {
      var front, h := hs[..|hs| - 1], hs[|hs| - 1];
      RowBeforeHandlers(w, front, a, now, f);
      ExecKeepsValid(w, front, now, f);
      Commutes(Exec(w, front, now, f), h.event, a, now, f);
    }
  }

  // Reduction: if handlers that run during a pass touch only tickets outside it, the interleaved
  // run ends with the same tables and the same alert log as the pass, undisturbed, followed by
  // those handlers.
  lemma {:induction false} PassReduces(w: World, acts: seq<Action>, now: Instant, f: PollFaults)
    requires ValidWorld(w) && Apart(w, acts)
    ensures Exec(w, acts, now, f) == Exec(Exec(w, Part(acts, false), now, f), Part(acts, true), now, f)
  {
    if acts != [] {
      var front, last := acts[..|acts| - 1], acts[|acts| - 1];
      ApartPrefix(w, acts);
      PassReduces(w, front, now, f);
      PartFacts(front, false);
      PartFacts(front, true);
      var rows, hs := Part(front, false), Part(front, true);
      if last.Handle? {
        assert Part(acts, true)[..|hs|] == hs && Part(acts, false) == rows;
      } else {
        ExecKeepsValid(w, rows, now, f);
        RowBeforeHandlers(Exec(w, rows, now, f), hs, last, now, f);
        assert Part(acts, false)[..|rows|] == rows && Part(acts, true) == hs;
      }
    }
  }

  function RowActions(rows: seq<State>): (acts: seq<Action>)
    ensures |acts| == |rows|
  {
    seq(|rows|, i requires 0 <= i < |rows| => BreachRow(rows[i]))
  }

  lemma {:induction false} RowActionsFold(w: World, rows: seq<State>, now: Instant, f: PollFaults)
    ensures Exec(w, RowActions(rows), now, f) == BreachFold(w, rows, now, f)
  {
    if rows != [] {
      RowActionsFold(w, rows[..|rows| - 1], now, f);
      assert RowActions(rows)[..|rows| - 1] == RowActions(rows[..|rows| - 1]);
    }
  }

  // The breach pass of a real listing, interleaved with handlers for other tickets, is the poll
  // step of the state machine followed by those handlers.
  lemma InterleavedBreachPassIsAtomic(w: World, rows: seq<State>, acts: seq<Action>, now: Instant, f: PollFaults)
    requires ValidWorld(w) && Apart(w, acts) && Part(acts, false) == RowActions(rows)
    requires BreachRows(w, now, rows) && BreachListing(w, now, Ids(rows)) && Unbroken(f)
    ensures var g := f.(unreached := {}, warnPassSkipped := true);
            Exec(w, acts, now, f) == Exec(Apply(w, Poll(now, g, Ids(rows))), Part(acts, true), now, f)
  {
    PassReduces(w, acts, now, f);
    RowActionsFold(w, rows, now, f);
    assert rows[..|rows|] == rows && IdsFrom(Ids(rows), |rows|) == {};
    BreachPassOnly(w, rows, |rows|, now, f, f.(unreached := {}, warnPassSkipped := true));
  }

  function ActiveSteps(rows: seq<ActiveRow>): (acts: seq<Action>)
    ensures |acts| == |rows|
  {
    seq(|rows|, i requires 0 <= i < |rows| => ActiveStep(rows[i]))
  }

  lemma {:induction false} ActiveStepsFold(w: World, rows: seq<ActiveRow>, now: Instant, f: PollFaults)
    ensures Exec(w, ActiveSteps(rows), now, f) == WarnFold(w, rows, now, f)
  {
    if rows != [] {
      ActiveStepsFold(w, rows[..|rows| - 1], now, f);
      assert ActiveSteps(rows)[..|rows| - 1] == ActiveSteps(rows[..|rows| - 1]);
    }
  }

  // A complete second pass alone is a poll whose first pass reaches no row.
  lemma WarnPassOnly(w: World, rows: seq<ActiveRow>, order: seq<Uuid>, now: Instant, f: PollFaults)
    requires ActiveListing(w, rows) && Unbroken(f)
    ensures WarnFold(w, rows, now, f) == AfterPoll(w, now, f.(unreached := w.states.Keys), order)
  {
    var g := f.(unreached := w.states.Keys);
    WarnFoldIsRowLocal(w, rows, now, f);
    NobodyToAlert(w, order, g, now);
    forall id | id in w.states
      ensures AfterWarn(w, rows, id, now, f) == RowPoll(w.states[id], PolicyAt(w, id), FaultsOf(g, id), now)
    {
      assert BreachPass(w.states[id], PolicyAt(w, id), FaultsOf(g, id), now) == w.states[id];
    }
    assert WarnFold(w, rows, now, f).states == AfterPoll(w, now, g, order).states;
  }

  // The same for the warning pass alone, over the tables it finds.
  lemma InterleavedWarnPassIsAtomic(w: World, rows: seq<ActiveRow>, acts: seq<Action>, order: seq<Uuid>,
                                    now: Instant, f: PollFaults)
    requires ValidWorld(w) && Apart(w, acts) && Part(acts, false) == ActiveSteps(rows)
    requires ActiveListing(w, rows) && Unbroken(f) && BreachListing(w, now, order)
    ensures var g := f.(unreached := w.states.Keys);
            && ValidEvent(w, Poll(now, g, order))
            && Exec(w, acts, now, f) == Exec(Apply(w, Poll(now, g, order)), Part(acts, true), now, f)
  {
    PassReduces(w, acts, now, f);
    ActiveStepsFold(w, rows, now, f);
    WarnPassOnly(w, rows, order, now, f);
  }

  /******* Where reduction fails *******/

  // The row as the pass read it.
  function RowRead(a: Action): State
    requires !a.Handle?
  {
    if a.BreachRow? then a.row else a.active.st
  }

  // Without the hypothesis reduction is false of the code. For ticket.update exactly when: an update
  // that reaches a row between the pass's read and its write is lost if it pauses the ticket and
  // the pass then writes the row. Nothing else a ticket.update can do is lost.
  lemma LostPause(w: World, a: Action, u: Event, now: Instant, f: PollFaults)
    requires ValidWorld(w) && !a.Handle? && StateAt(w, RowId(a)) == Some(RowRead(a)) && !RowRead(a).paused
    requires UpdateReaches(w, u, RowId(a))
    ensures var racing, atomic := Exec(w, [Handle(u), a], now, f), Exec(w, [a, Handle(u)], now, f);
            racing == atomic <==> !(IsPauseState(u.zammadState) && RowWrite(w, a, now, f).0.Some?)
    ensures var racing, atomic := Exec(w, [Handle(u), a], now, f), Exec(w, [a, Handle(u)], now, f);
            IsPauseState(u.zammadState) && RowWrite(w, a, now, f).0.Some? ==>
              && StateAt(racing, RowId(a)).Some? && StateAt(atomic, RowId(a)).Some?
              && !StateAt(racing, RowId(a)).value.paused && StateAt(atomic, RowId(a)).value.paused
  {
    ExecPair(w, Handle(u), a, now, f);
    ExecPair(w, a, Handle(u), now, f);
    PauseFirst(w, a, u, now, f);
    PauseLast(w, a, u, now, f);
    WriteAfterTurn(w, RowWrite(w, a, now, f), RowId(a), IsPauseState(u.zammadState), u.now);
  }

  lemma PauseFirst(w: World, a: Action, u: Event, now: Instant, f: PollFaults)
    requires ValidWorld(w) && !a.Handle? && RowId(a) in w.states && UpdateReaches(w, u, RowId(a))
    ensures Do(Apply(w, u), a, now, f)
         == Written(Turned(w, RowId(a), IsPauseState(u.zammadState), u.now), RowWrite(w, a, now, f))
  {
    UpdateTurnsRow(w, u, RowId(a));
    RowActionWrites(Apply(w, u), a, now, f);
    assert RowWrite(Apply(w, u), a, now, f) == RowWrite(w, a, now, f);
  }

  lemma PauseLast(w: World, a: Action, u: Event, now: Instant, f: PollFaults)
    requires ValidWorld(w) && !a.Handle? && RowId(a) in w.states && UpdateReaches(w, u, RowId(a))
    ensures RowId(a) in Do(w, a, now, f).states
    ensures Do(w, a, now, f) == Written(w, RowWrite(w, a, now, f))
    ensures Apply(Do(w, a, now, f), u) == Turned(Do(w, a, now, f), RowId(a), IsPauseState(u.zammadState), u.now)
  {
    RowActionWrites(w, a, now, f);
    UpdateTurnsRow(Written(w, RowWrite(w, a, now, f)), u, RowId(a));
  }

  // A ticket.create that initialises SLA between the read and the write is lost exactly when the
  // pass then writes: the row of the former epoch, marked, stands where the new epoch's should.
  lemma LostRestart(w: World, a: Action, c: Event, now: Instant, f: PollFaults)
    requires ValidWorld(w) && !a.Handle? && StateAt(w, RowId(a)) == Some(RowRead(a))
    requires c.TicketCreate? && Initialises(w, c).Some? && Initialises(w, c).value.0 == RowId(a)
    requires a.BreachRow? ==> BreachListed(a.row, now)
    ensures var racing, atomic := Exec(w, [Handle(c), a], now, f), Exec(w, [a, Handle(c)], now, f);
            var writes := RowWrite(Apply(w, c), a, now, f).0.Some?;
            && (racing.states == atomic.states <==> !writes)
            && StateAt(racing, RowId(a)).Some? && StateAt(atomic, RowId(a)).Some?
            && StateAt(atomic, RowId(a)).value.stateLabel == OnTrack
            && (writes ==> var st := StateAt(racing, RowId(a)).value;
                 && st.stateLabel == (if a.BreachRow? then Breached else Warning)
                 && st.responseDueAt == RowRead(a).responseDueAt && st.resolutionDueAt == RowRead(a).resolutionDueAt)
  {
    ExecPair(w, Handle(c), a, now, f);
    ExecPair(w, a, Handle(c), now, f);
    RestartLast(w, a, c, now, f);
    RestartFirst(w, a, c, now, f);
  }

  // The row of the new epoch.
  ghost function Restarted(w: World, c: Event): State
    requires c.TicketCreate? && Initialises(w, c).Some?
  {
    var (id, policy) := Initialises(w, c).value;
    KeepId(StateAt(w, id), InitState(c.newStateId, id, policy, c.now))
  }

  lemma RestartLast(w: World, a: Action, c: Event, now: Instant, f: PollFaults)
    requires ValidWorld(w) && !a.Handle? && StateAt(w, RowId(a)) == Some(RowRead(a))
    requires c.TicketCreate? && Initialises(w, c).Some? && Initialises(w, c).value.0 == RowId(a)
    ensures Apply(Do(w, a, now, f), c).states == w.states[RowId(a) := Restarted(w, c)]
  {
    RowActionWrites(w, a, now, f);
    InitialisesAlike(w, c, RowWrite(w, a, now, f));
  }

  lemma RestartFirst(w: World, a: Action, c: Event, now: Instant, f: PollFaults)
    requires ValidWorld(w) && !a.Handle? && StateAt(w, RowId(a)) == Some(RowRead(a))
    requires c.TicketCreate? && Initialises(w, c).Some? && Initialises(w, c).value.0 == RowId(a)
    ensures Apply(w, c).states == w.states[RowId(a) := Restarted(w, c)]
    ensures var st := RowWrite(Apply(w, c), a, now, f).0;
            Do(Apply(w, c), a, now, f).states
            == if st.Some? then w.states[RowId(a) := st.value.(id := w.states[RowId(a)].id)] else Apply(w, c).states
  {
    RowActionWrites(Apply(w, c), a, now, f);
  }

  // The worlds after a full-row write that follows an update of that row, and the other way round.
  function Turned(w: World, id: Uuid, isPause: bool, t: Instant): World
    requires id in w.states
  {
    w.(states := w.states[id := PauseOrResume(w.states[id], isPause, t)])
  }

  lemma WriteAfterTurn(w: World, write: (Option<State>, seq<Alert>), id: Uuid, isPause: bool, t: Instant)
    requires id in w.states && !w.states[id].paused
    requires write.0.Some? ==> write.0.value.ticketMetaId == id && !write.0.value.paused
    ensures id in Written(w, write).states
    ensures var racing, atomic := Written(Turned(w, id, isPause, t), write), Turned(Written(w, write), id, isPause, t);
            && (racing == atomic <==> !(isPause && write.0.Some?))
            && (isPause && write.0.Some? ==> !racing.states[id].paused && atomic.states[id].paused)
  {
    var racing, atomic := Written(Turned(w, id, isPause, t), write), Turned(Written(w, write), id, isPause, t);
    if write.0.None? {
      assert racing.states == atomic.states;
    } else if !isPause {
      assert Turned(w, id, isPause, t).states == w.states;
      assert racing.states == atomic.states;
    } else {
      assert !racing.states[id].paused && atomic.states[id].paused;
    }
  }

  // The update finds the row's ticket and none of its calls fails.
  ghost predicate UpdateReaches(w: World, u: Event, id: Uuid) {
    u.TicketUpdate? && Find(w.metas, u.zammadId) == Some(id) && !u.readsFail && !u.writeFails
  }

  lemma UpdateTurnsRow(w: World, u: Event, id: Uuid)
    requires UpdateReaches(w, u, id) && id in w.states
    ensures Apply(w, u) == Turned(w, id, IsPauseState(u.zammadState), u.now)
  {
  }

  lemma ExecPair(w: World, a: Action, b: Action, now: Instant, f: PollFaults)
    ensures Exec(w, [a, b], now, f) == Do(Do(w, a, now, f), b, now, f)
  {
    assert [a, b][..1] == [a] && [a][..0] == [];
    assert Exec(w, [a], now, f) == Do(w, a, now, f);
  }

  /******* A handler in two halves *******/

  // The second half of a ticket.update: the row it read, paused or resumed, is written back in full.
  function WriteUpdate(w: World, u: Event, row: State): World
    requires u.TicketUpdate?
  {
    var isPause := IsPauseState(u.zammadState);
    if u.writeFails || !ChangesClass(row, isPause) then w
    else w.(states := UpsertedState(w.states, PauseOrResume(row, isPause, u.now)))
  }

  // The update finds the row's ticket and reads its row.
  ghost predicate UpdateFinds(w: World, u: Event, id: Uuid) {
    u.TicketUpdate? && Find(w.metas, u.zammadId) == Some(id) && !u.readsFail && Stored(w, id)
  }

  lemma UpdateReadsAndWrites(w: World, u: Event, id: Uuid)
    requires ValidWorld(w) && UpdateFinds(w, u, id)
    ensures Apply(w, u) == WriteUpdate(w, u, w.states[id])
  {
    if !ChangesClass(w.states[id], IsPauseState(u.zammadState)) {
      assert w.states[id := w.states[id]] == w.states;
    }
  }

  // A pass that deals with other tickets between the two halves does no harm.
  lemma {:induction false} SplitUpdateIsAtomic(w: World, rows: seq<Action>, u: Event, id: Uuid, now: Instant,
                                               f: PollFaults)
    requires ValidWorld(w) && UpdateFinds(w, u, id)
    requires forall a <- rows :: !a.Handle? && Stored(w, RowId(a)) && RowId(a) != id
    ensures var v := Exec(w, rows, now, f); ValidWorld(v) && WriteUpdate(v, u, w.states[id]) == Apply(v, u)
  {
    var v := Exec(w, rows, now, f);
    ExecKeepsValid(w, rows, now, f);
    RowsKeepOthers(w, rows, id, now, f);
    UpdateReadsAndWrites(v, u, id);
  }

  lemma {:induction false} RowsKeepOthers(w: World, rows: seq<Action>, id: Uuid, now: Instant, f: PollFaults)
    requires ValidWorld(w) && Stored(w, id)
    requires forall a <- rows :: !a.Handle? && Stored(w, RowId(a)) && RowId(a) != id
    ensures var v := Exec(w, rows, now, f); v.metas == w.metas && StateAt(v, id) == StateAt(w, id)
  {
    if rows != [] {
      var front, a := rows[..|rows| - 1], rows[|rows| - 1];
      RowsKeepOthers(w, front, id, now, f);
      RowActionWrites(Exec(w, front, now, f), a, now, f);
    }
  }

  // The other half of the race: a pass that gets in between the two halves of an update of its own
  // row loses its mark, if it makes one and the update pauses the ticket. The page has gone out all
  // the same, so the ticket is paged again once it is resumed.
  lemma LostBreach(w: World, a: Action, u: Event, now: Instant, f: PollFaults)
    requires ValidWorld(w) && !a.Handle? && StateAt(w, RowId(a)) == Some(RowRead(a)) && !RowRead(a).paused
    requires a.BreachRow? ==> BreachListed(a.row, now)
    requires UpdateReaches(w, u, RowId(a))
    ensures var split, atomic := WriteUpdate(Do(w, a, now, f), u, RowRead(a)), Apply(Do(w, a, now, f), u);
            var lost := IsPauseState(u.zammadState) && RowWrite(w, a, now, f).0.Some?;
            && (split == atomic <==> !lost)
            && split.alerts == atomic.alerts
            && StateAt(split, RowId(a)).Some? && StateAt(atomic, RowId(a)).Some?
            && (lost ==>
                 && StateAt(split, RowId(a)).value.stateLabel == RowRead(a).stateLabel
                 && StateAt(split, RowId(a)).value.firstBreachAlertedAt == RowRead(a).firstBreachAlertedAt
                 && StateAt(atomic, RowId(a)).value.stateLabel == (if a.BreachRow? then Breached else Warning))
  {
    var id, write, isPause := RowId(a), RowWrite(w, a, now, f), IsPauseState(u.zammadState);
    RowActionWrites(w, a, now, f);
    WrittenRow(w, a, now, f);
    TurnAfterWrite(w, write, id, isPause, u.now);
    UpdateTurnsRow(Written(w, write), u, id);
  }

  // What a pass writes to an unpaused row it has just read.
  lemma WrittenRow(w: World, a: Action, now: Instant, f: PollFaults)
    requires !a.Handle? && StateAt(w, RowId(a)) == Some(RowRead(a)) && !RowRead(a).paused
    requires a.BreachRow? ==> BreachListed(a.row, now)
    ensures var st := RowWrite(w, a, now, f).0;
            st.Some? ==>
              && st.value.ticketMetaId == RowId(a) && !st.value.paused && st.value.id == RowRead(a).id
              && st.value.stateLabel == (if a.BreachRow? then Breached else Warning)
              && (a.ActiveStep? ==> RowRead(a).stateLabel == OnTrack)
              && (a.BreachRow? ==> st.value.firstBreachAlertedAt != RowRead(a).firstBreachAlertedAt)
  {
  }

  // A stale row written back after the pass's write, beside the row the update should have read.
  lemma TurnAfterWrite(w: World, write: (Option<State>, seq<Alert>), id: Uuid, isPause: bool, t: Instant)
    requires id in w.states && w.states[id].ticketMetaId == id && !w.states[id].paused
    requires write.0.Some? ==> write.0.value.ticketMetaId == id && !write.0.value.paused
                               && write.0.value.id == w.states[id].id
    requires write.0.Some? ==> (write.0.value.stateLabel != w.states[id].stateLabel
                                || write.0.value.firstBreachAlertedAt != w.states[id].firstBreachAlertedAt)
    ensures id in Written(w, write).states
    ensures var v := Written(w, write);
            var stale := UpsertedState(v.states, PauseOrResume(w.states[id], isPause, t));
            && stale[id] == PauseOrResume(w.states[id], isPause, t)
            && (isPause ==> (stale == Turned(v, id, isPause, t).states <==> write.0.None?))
            && (!isPause ==> Turned(v, id, isPause, t) == v)
            && (write.0.Some? ==> Turned(v, id, isPause, t).states[id].stateLabel == write.0.value.stateLabel)
  {
    var v := Written(w, write);
    if !isPause { assert Turned(v, id, isPause, t).states == v.states; }
  }

  /******* A whole poll *******/

  // The events of the handlers, in order.
  function HandlersIn(acts: seq<Action>): seq<Event> {
    if acts == [] then []
    else
      var last := acts[|acts| - 1];
      HandlersIn(acts[..|acts| - 1]) + (if last.Handle? then [last.event] else [])
  }

  lemma {:induction false} HandlersRun(w: World, acts: seq<Action>, now: Instant, f: PollFaults)
    ensures Exec(w, Part(acts, true), now, f) == Run(w, HandlersIn(acts))
  {
    if acts != [] {
      var front, last := acts[..|acts| - 1], acts[|acts| - 1];
      HandlersRun(w, front, now, f);
      if last.Handle? {
        assert Part(acts, true)[..|Part(front, true)|] == Part(front, true);
        assert HandlersIn(acts)[..|HandlersIn(front)|] == HandlersIn(front);
      } else {
        assert Part(acts, true) == Part(front, true) && HandlersIn(acts) == HandlersIn(front);
      }
    }
  }

  lemma {:induction false} ExecAppend(w: World, a: seq<Action>, b: seq<Action>, now: Instant, f: PollFaults)
    ensures Exec(w, a + b, now, f) == Exec(Exec(w, a, now, f), b, now, f)
  {
    if b == [] {
      assert a + b == a;
    } else {
      assert (a + b)[..|a + b| - 1] == a + b[..|b| - 1];
      ExecAppend(w, a, b[..|b| - 1], now, f);
    }
  }

  lemma PartSnoc(acts: seq<Action>, last: Action, handlers: bool)
    ensures Part(acts + [last], handlers) == Part(acts, handlers) + (if last.Handle? == handlers then [last] else [])
  {
    assert (acts + [last])[..|acts|] == acts;
  }

  lemma {:induction false} PartAppend(a: seq<Action>, b: seq<Action>, handlers: bool)
    ensures Part(a + b, handlers) == Part(a, handlers) + Part(b, handlers)
  {
    if b == [] {
      assert a + b == a;
    } else {
      var front, last := b[..|b| - 1], b[|b| - 1];
      PartAppend(a, front, handlers);
      PartSnoc(a + front, last, handlers);
      PartSnoc(front, last, handlers);
      assert a + b == (a + front) + [last] && front + [last] == b;
    }
  }

  // Handlers for other tickets leave a ticket as the second query sees it.
  lemma {:induction false} HandlersKeepOthers(w: World, hs: seq<Action>, id: Uuid, now: Instant, f: PollFaults)
    requires ValidWorld(w) && id in w.metas
    requires forall h <- hs :: h.Handle? && IsHandler(h.event) && w.metas[id].zammadId != h.event.zammadId
    ensures var v := Exec(w, hs, now, f);
            && ValidWorld(v) && id in v.metas && v.metas[id] == w.metas[id]
            && v.policies == w.policies && StateAt(v, id) == StateAt(w, id)
  {
    if hs != [] {
      var front, h := hs[..|hs| - 1], hs[|hs| - 1];
      HandlersKeepOthers(w, front, id, now, f);
      ExecKeepsValid(w, hs, now, f);
      HandlerKeepsOthers(Exec(w, front, now, f), h.event, id);
    }
  }

  // Both passes of one poll, as they ran: the rows each of them listed, and the handlers in between.
  ghost predicate PollRan(w: World, rows: seq<State>, active: seq<ActiveRow>, first: seq<Action>, second: seq<Action>,
                          now: Instant, f: PollFaults) {
    && BreachRows(w, now, rows) && BreachListing(w, now, Ids(rows)) && Part(first, false) == RowActions(rows)
    && ActiveListing(Exec(w, first, now, f), active) && Part(second, false) == ActiveSteps(active)
  }

  // The rows the second query would have returned without the handlers of the first pass.
  function Missed(v: World, active: seq<ActiveRow>): set<Uuid> {
    set id | id in v.states && ActiveAt(v, id) && id !in ActiveIds(active)
  }

  lemma ApartParts(w: World, a: seq<Action>, b: seq<Action>)
    requires Apart(w, a + b)
    ensures Apart(w, a)
  {
    assert forall x <- a :: x in a + b;
  }

  // The second query sees the tables of the undisturbed first pass, changed by that pass's handlers.
  lemma AfterFirstPass(w: World, rows: seq<State>, first: seq<Action>, now: Instant, f: PollFaults)
    requires ValidWorld(w) && Apart(w, first) && Part(first, false) == RowActions(rows)
    requires BreachRows(w, now, rows) && Unbroken(f)
    ensures var v := BreachFold(w, rows, now, f);
            && ValidWorld(v) && v.metas == w.metas && v.states.Keys == w.states.Keys
            && Exec(w, first, now, f) == Exec(v, Part(first, true), now, f)
  {
    PassReduces(w, first, now, f);
    RowActionsFold(w, rows, now, f);
    BreachFoldIsRowLocal(w, rows, now, f);
    PartFacts(first, false);
    assert forall a <- RowActions(rows) :: a in Part(first, false);
    ExecKeepsValid(w, RowActions(rows), now, f);
  }

  // A ticket no handler of the first pass is for stands in the second listing as it would without them.
  lemma SeenAlike(w: World, rows: seq<State>, first: seq<Action>, now: Instant, f: PollFaults, id: Uuid)
    requires ValidWorld(w) && Apart(w, first) && Part(first, false) == RowActions(rows)
    requires BreachRows(w, now, rows) && Unbroken(f) && id in w.metas
    requires forall h <- Part(first, true) ::
               h.Handle? && IsHandler(h.event) && w.metas[id].zammadId != h.event.zammadId
    ensures var u, v := Exec(w, first, now, f), BreachFold(w, rows, now, f);
            StateAt(u, id) == StateAt(v, id) && PolicyAt(u, id) == PolicyAt(v, id)
  {
    AfterFirstPass(w, rows, first, now, f);
    HandlersKeepOthers(BreachFold(w, rows, now, f), Part(first, true), id, now, f);
  }

  // The second listing, told by the tables the first pass alone would leave.
  lemma SecondListing(w: World, rows: seq<State>, active: seq<ActiveRow>, first: seq<Action>, second: seq<Action>,
                      now: Instant, f: PollFaults)
    requires ValidWorld(w) && Apart(w, first + second) && PollRan(w, rows, active, first, second, now, f) && Unbroken(f)
    ensures Covers(BreachFold(w, rows, now, f), active, Missed(BreachFold(w, rows, now, f), active))
  {
    ApartParts(w, first, second);
    forall a <- active ensures JoinedRow(BreachFold(w, rows, now, f), a) {
      ListedApart(w, active, first, second, a);
      SeenAlike(w, rows, first, now, f, a.st.ticketMetaId);
    }
  }

  // Only a ticket that a handler of the first pass dealt with can drop out of the second listing.
  lemma MissedWereHandled(w: World, rows: seq<State>, active: seq<ActiveRow>, first: seq<Action>, second: seq<Action>,
                          now: Instant, f: PollFaults, id: Uuid)
    requires ValidWorld(w) && Apart(w, first + second) && PollRan(w, rows, active, first, second, now, f) && Unbroken(f)
    requires id in Missed(BreachFold(w, rows, now, f), active)
    ensures id in w.metas && exists h <- first :: h.Handle? && h.event.zammadId == w.metas[id].zammadId
  {
    ApartParts(w, first, second);
    AfterFirstPass(w, rows, first, now, f);
    PartFacts(first, true);
    if forall h <- Part(first, true) :: w.metas[id].zammadId != h.event.zammadId {
      SeenAlike(w, rows, first, now, f, id);
    }
  }

  lemma ListedApart(w: World, active: seq<ActiveRow>, first: seq<Action>, second: seq<Action>, a: ActiveRow)
    requires Apart(w, first + second) && Part(second, false) == ActiveSteps(active) && a in active
    ensures Stored(w, a.st.ticketMetaId)
    ensures forall h <- Part(first, true) ::
              h.Handle? && IsHandler(h.event) && w.metas[a.st.ticketMetaId].zammadId != h.event.zammadId
  {
    PartFacts(second, false);
    PartFacts(first, true);
    var i :| 0 <= i < |active| && active[i] == a;
    assert ActiveSteps(active)[i] == ActiveStep(a);
    assert ActiveStep(a) in first + second;
    assert RowId(ActiveStep(a)) == a.st.ticketMetaId;
  }

  // Clocks of handlers that run while a poll with clock `now` is under way.
  predicate InTime(now: Instant, es: seq<Event>) {
    && (es != [] ==> now <= es[0].now)
    && forall i :: 0 < i < |es| ==> es[i - 1].now <= es[i].now
  }

  // Reduction for a whole poll: when the handlers that run between its first query and its last
  // write touch no ticket it lists, the run ends as one step of the state machine followed by
  // those handlers, in a valid chronological run.
  lemma InterleavedPollIsAtomic(w: World, from: Instant, rows: seq<State>, active: seq<ActiveRow>,
                                first: seq<Action>, second: seq<Action>, now: Instant, f: PollFaults)
    requires ValidWorld(w) && Apart(w, first + second) && PollRan(w, rows, active, first, second, now, f) && Unbroken(f)
    requires from <= now
    requires InTime(now, HandlersIn(first + second))
    ensures var missed := Missed(BreachFold(w, rows, now, f), active);
            var es := [Poll(now, f.(unreachedWarn := missed), Ids(rows))] + HandlersIn(first + second);
            Exec(w, first + second, now, f) == Run(w, es) && ValidRun(w, from, es)
  {
    var poll := Poll(now, f.(unreachedWarn := Missed(BreachFold(w, rows, now, f), active)), Ids(rows));
    PollReduces(w, rows, active, first, second, now, f);
    AllHandlers(w, first + second);
    HandlersRun(Apply(w, poll), first + second, now, f);
    PollThenHandlers(w, from, poll, HandlersIn(first + second));
  }

  // So the tables it leaves are those of a run without interleaving, of which every theorem about
  // runs from the empty schema holds.
  lemma InterleavedPollStaysReachable(from: Instant, past: seq<Event>, rows: seq<State>, active: seq<ActiveRow>,
                                      first: seq<Action>, second: seq<Action>, now: Instant, f: PollFaults)
    requires ValidRun(EmptyWorld(), from, past) && EndTime(from, past) <= now
    requires var w := Run(EmptyWorld(), past);
             && Apart(w, first + second) && PollRan(w, rows, active, first, second, now, f) && Unbroken(f)
    requires InTime(now, HandlersIn(first + second))
    ensures var w := Run(EmptyWorld(), past);
            var poll := Poll(now, f.(unreachedWarn := Missed(BreachFold(w, rows, now, f), active)), Ids(rows));
            var es := past + ([poll] + HandlersIn(first + second));
            && ValidRun(EmptyWorld(), from, es) && Run(EmptyWorld(), es) == Exec(w, first + second, now, f)
            && Reachable(Exec(w, first + second, now, f))
  {
    var w := Run(EmptyWorld(), past);
    RunKeepsValid(EmptyWorld(), from, past);
    InterleavedPollIsAtomic(w, EndTime(from, past), rows, active, first, second, now, f);
    var poll := Poll(now, f.(unreachedWarn := Missed(BreachFold(w, rows, now, f), active)), Ids(rows));
    StaysReachable(from, past, [poll] + HandlersIn(first + second));
  }

  lemma {:induction false} AllHandlers(w: World, acts: seq<Action>)
    requires Apart(w, acts)
    ensures forall e <- HandlersIn(acts) :: IsHandler(e)
  {
    if acts != [] {
      ApartPrefix(w, acts);
      AllHandlers(w, acts[..|acts| - 1]);
    }
  }

  lemma PollReduces(w: World, rows: seq<State>, active: seq<ActiveRow>, first: seq<Action>, second: seq<Action>,
                    now: Instant, f: PollFaults)
    requires ValidWorld(w) && Apart(w, first + second) && PollRan(w, rows, active, first, second, now, f) && Unbroken(f)
    ensures var poll := Poll(now, f.(unreachedWarn := Missed(BreachFold(w, rows, now, f), active)), Ids(rows));
            Exec(w, first + second, now, f) == Exec(Apply(w, poll), Part(first + second, true), now, f)
  {
    PassReduces(w, first + second, now, f);
    PartAppend(first, second, false);
    SecondListing(w, rows, active, first, second, now, f);
    UndisturbedPoll(w, rows, active, now, f, Missed(BreachFold(w, rows, now, f), active));
  }

  // The rows of both passes, with nothing in between, are the poll step.
  lemma UndisturbedPoll(w: World, rows: seq<State>, active: seq<ActiveRow>, now: Instant, f: PollFaults,
                        missed: set<Uuid>)
    requires BreachRows(w, now, rows) && BreachListing(w, now, Ids(rows)) && Unbroken(f)
    requires Covers(BreachFold(w, rows, now, f), active, missed)
    ensures Exec(w, RowActions(rows) + ActiveSteps(active), now, f)
         == Apply(w, Poll(now, f.(unreachedWarn := missed), Ids(rows)))
  {
    ExecAppend(w, RowActions(rows), ActiveSteps(active), now, f);
    RowActionsFold(w, rows, now, f);
    ActiveStepsFold(BreachFold(w, rows, now, f), active, now, f);
    BothPasses(w, rows, active, now, f, f.(unreachedWarn := missed));
  }

  lemma {:induction false} PollThenHandlers(w: World, from: Instant, poll: Event, es: seq<Event>)
    requires poll.Poll? && ValidEvent(w, poll) && from <= poll.now && InTime(poll.now, es)
    requires forall e <- es :: IsHandler(e)
    ensures Run(w, [poll] + es) == Run(Apply(w, poll), es) && ValidRun(w, from, [poll] + es)
    ensures EndTime(from, [poll] + es) == if es == [] then poll.now else es[|es| - 1].now
  {
    var all := [poll] + es;
    if es == [] {
      assert all[..0] == [] && Run(w, []) == w && ValidRun(w, from, []);
    } else {
      var front, last := es[..|es| - 1], es[|es| - 1];
      assert all[..|all| - 1] == [poll] + front && all[|all| - 1] == last;
      PollThenHandlers(w, from, poll, front);
      assert last in es;
      assert ValidEvent(Run(w, [poll] + front), last);
    }
  }
}
