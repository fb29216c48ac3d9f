/**
 What each step of the worker does to the stored tables, told by their columns and the constants of the
 source alone: which states pause, whose policy is assigned, when a poll pages and when it warns.
 */
module StepLaws {
  import opened Prelude
  import opened Clock
  import opened Sla
  import opened SlaRow
  import opened SlaRowRuns
  import opened TicketMeta
  import opened WorkerModel
  import opened WorkerRuns
  import opened PollPasses

  /******* ticket.update *******/

  // The row is paused afterwards exactly if the ticket is pending. Nothing else in the tables changes.
  lemma UpdateLaw(w: World, u: Event, id: Uuid)
    requires ValidWorld(w) && u.TicketUpdate? && !u.readsFail && !u.writeFails
    requires id in w.metas && w.metas[id].zammadId == u.zammadId && id in w.states
    ensures var st, w' := w.states[id], Apply(w, u);
            && w' == w.(states := w'.states) && w'.states.Keys == w.states.Keys
            && (forall k <- w.states :: k != id ==> w'.states[k] == w.states[k])
            && (w'.states[id].paused <==> u.zammadState == "pending reminder" || u.zammadState == "pending close")
            && (w'.states[id].paused == st.paused ==> w'.states[id] == st)
            && (w'.states[id].paused && !st.paused ==>
                  w'.states[id] == st.(paused := true, pausedAt := Some(u.now), updatedAt := u.now))
            && (!w'.states[id].paused && st.paused && st.pausedAt.Some? && st.pausedAt.value <= u.now ==>
                  Resumed(st, w'.states[id], u.now))
  {
    FindIs(w.metas, id);
  }

  // The accumulated pause and both deadlines grow by the whole seconds since the pause.
  predicate Resumed(st: State, st': State, now: Instant)
    requires st.pausedAt.Some?
  {
    var secs := st'.accumulatedPauseSecs - st.accumulatedPauseSecs;
    && 1_000_000_000 * secs <= now - st.pausedAt.value < 1_000_000_000 * (secs + 1)
    && st' == st.(accumulatedPauseSecs := st.accumulatedPauseSecs + secs,
                  responseDueAt := Moved(st.responseDueAt, 1_000_000_000 * secs),
                  resolutionDueAt := Moved(st.resolutionDueAt, 1_000_000_000 * secs),
                  paused := false, pausedAt := None, updatedAt := now)
  }

  function Moved(due: Option<Instant>, span: int): Option<Instant> {
    if due.Some? then Some(due.value + span) else None
  }

  // An update whose calls fail, or of a ticket without a row, changes nothing.
  lemma UpdateWithoutEffect(w: World, u: Event)
    requires u.TicketUpdate?
    requires u.readsFail || u.writeFails
             || forall id <- w.metas :: w.metas[id].zammadId == u.zammadId ==> id !in w.states
    ensures Apply(w, u) == w
  {
  }

  // There is a row for the ticket, and its pause class is not the one of the ticket's new state.
  predicate TurnsARow(w: World, zammadId: int, zammadState: string) {
    exists m <- w.metas :: w.metas[m].zammadId == zammadId && m in w.states
      && w.states[m].paused != (zammadState == "pending reminder" || zammadState == "pending close")
  }

  /******* ticket.create *******/

  // The default policy of the ticket's priority, which is "normal" when none is given.
  predicate IsItsDefault(p: Policy, c: Event)
    requires c.TicketCreate?
  {
    p.isDefault && p.priority == if c.priority == "" then "normal" else c.priority
  }

  // An epoch starts with the default policy of the ticket's priority: it is assigned to the ticket, and
  // the row is written afresh with the deadlines it sets.
  lemma CreateStartsTheClock(w: World, c: Event)
    requires ValidWorld(w) && c.TicketCreate? && Initialises(w, c).Some?
    ensures var (id, p) := Initialises(w, c).value;
            IsItsDefault(p, c) && Started(w, Apply(w, c), c, id, p)
  {
    CreateKeepsMetas(w, c);
  }

  ghost predicate Started(w: World, w': World, c: Event, id: Uuid, p: Policy)
    requires c.TicketCreate?
  {
    && p.id in w.policies && w.policies[p.id] == p && w'.policies == w.policies && w'.alerts == w.alerts
    && id in w'.metas && w'.metas[id].zammadId == c.zammadId && w'.metas[id].slaPolicyId == Some(p.id)
    && id in w'.states
    && w'.states[id] == State(
         if id in w.states then w.states[id].id else c.newStateId, id,
         Some(c.now + 60_000_000_000 * p.responseMinutes), Some(c.now + 60_000_000_000 * p.resolutionMinutes),
         None, None, OnTrack, false, None, 0, c.now)
    && forall k :: k != id ==> StateAt(w', k) == StateAt(w, k)
  }

  ghost predicate NoCallFails(c: Event)
    requires c.TicketCreate?
  {
    c.createFaults == CreateFaults(false, false, false, false, false)
  }

  // No other ticket has the number, and the ids generated for new rows are not in use.
  predicate NoKeyTaken(w: World, c: Event)
    requires c.TicketCreate?
  {
    && (forall m <- w.metas :: w.metas[m].zammadNumber == c.number ==> w.metas[m].zammadId == c.zammadId)
    && c.newMetaId !in w.metas
    && (forall m <- w.states :: w.states[m].id != c.newStateId)
  }

  // Conversely, where such a policy exists and nothing fails, the clock starts.
  lemma CreateFindsTheDefault(w: World, c: Event, p: Policy)
    requires ValidWorld(w) && c.TicketCreate? && NoCallFails(c) && NoKeyTaken(w, c)
    requires p.id in w.policies && w.policies[p.id] == p && IsItsDefault(p, c)
    ensures Initialises(w, c).Some? && Initialises(w, c).value.1 == p
    ensures Started(w, Apply(w, c), c, Initialises(w, c).value.0, p)
  {
    var ms := w.metas;
    assert IsDefaultFor(w.policies, p.id, PriorityOf(c.priority));
    UpsertRefused(ms, c.zammadId, c.number, None, c.newMetaId);
    var (m1, id) := Upserted(ms, c.zammadId, c.number, None, c.newMetaId).value;
    UpsertedFacts(ms, c.zammadId, c.number, None, c.newMetaId);
    UpsertRefused(m1, c.zammadId, c.number, Some(p.id), c.newMetaId);
    assert DefaultPolicy(w.policies, PriorityOf(c.priority)) == Some(p);
    assert m1[id].zammadId == c.zammadId;
    CreateStartsTheClock(w, c);
  }

  // Every other ticket.create leaves the SLA rows, and without a failure at the last statement also
  // every ticket's policy, as they were; if its first statements fail it changes nothing at all.
  lemma CreateWithoutEffect(w: World, c: Event)
    requires ValidWorld(w) && c.TicketCreate?
    requires var f := c.createFaults;
             || f.connFails || f.upsertFails || f.policyFails || f.assignFails || f.stateFails
             || forall p <- w.policies :: !IsItsDefault(w.policies[p], c)
    ensures var f, w' := c.createFaults, Apply(w, c);
            && w'.states == w.states && w'.policies == w.policies && w'.alerts == w.alerts
            && (f.connFails || f.upsertFails ==> w' == w)
            && (f.policyFails || f.assignFails || (forall p <- w.policies :: !IsItsDefault(w.policies[p], c)) ==>
                  forall id <- w.metas :: id in w'.metas && w'.metas[id].slaPolicyId == w.metas[id].slaPolicyId)
  {
    if Upserted(w.metas, c.zammadId, c.number, None, c.newMetaId).Some? {
      UpsertedFacts(w.metas, c.zammadId, c.number, None, c.newMetaId);
    }
  }

  // ticket.create returns an error: a statement fails or violates a key, before or after a default
  // policy for the ticket's priority is found.
  ghost predicate CreateErrs(w: World, c: Event)
    requires c.TicketCreate?
  {
    var f, known := c.createFaults, exists m <- w.metas :: w.metas[m].zammadId == c.zammadId;
    || f.connFails || f.upsertFails
    || (exists m <- w.metas :: w.metas[m].zammadNumber == c.number && w.metas[m].zammadId != c.zammadId)
    || (!known && c.newMetaId in w.metas)
    || f.policyFails
    || ((exists p <- w.policies :: IsItsDefault(w.policies[p], c))
        && (f.assignFails || f.stateFails
            || ((exists k <- w.states :: w.states[k].id == c.newStateId)
                && !exists m <- w.metas :: w.metas[m].zammadId == c.zammadId && m in w.states)))
  }

  // The handler, statement by statement.
  ghost predicate CreateStops(w: World, c: Event)
    requires c.TicketCreate?
  {
    var f, u := c.createFaults, Upserted(w.metas, c.zammadId, c.number, None, c.newMetaId);
    var policy := DefaultPolicy(w.policies, PriorityOf(c.priority));
    || f.connFails || f.upsertFails || u.None? || f.policyFails
    || (policy.Some?
        && (f.assignFails || SecondUpsert(w, c, policy.value).None? || f.stateFails
            || Refused(w.states, u.value.1, c.newStateId)))
  }

  lemma CreateStopsOnErrors(w: World, c: Event)
    requires ValidWorld(w) && c.TicketCreate?
    ensures CreateStops(w, c) <==> CreateErrs(w, c)
  {
    var u := Upserted(w.metas, c.zammadId, c.number, None, c.newMetaId);
    UpsertRefused(w.metas, c.zammadId, c.number, None, c.newMetaId);
    DefaultIff(w, c);
    if u.Some? {
      var (m1, id) := u.value;
      UpsertedFacts(w.metas, c.zammadId, c.number, None, c.newMetaId);
      forall policy ensures Upserted(m1, c.zammadId, c.number, policy, c.newMetaId).Some? {
        UpsertRefused(m1, c.zammadId, c.number, policy, c.newMetaId);
        assert m1[id].zammadId == c.zammadId;
      }
      RefusedIff(w, c, id);
    }
  }

  lemma DefaultIff(w: World, c: Event)
    requires c.TicketCreate?
    ensures DefaultPolicy(w.policies, PriorityOf(c.priority)).Some? <==>
              exists p <- w.policies :: IsItsDefault(w.policies[p], c)
  {
    assert forall p <- w.policies :: IsItsDefault(w.policies[p], c)
             <==> IsDefaultFor(w.policies, p, PriorityOf(c.priority));
  }

  lemma RefusedIff(w: World, c: Event, id: Uuid)
    requires ValidWorld(w) && c.TicketCreate? && Upserted(w.metas, c.zammadId, c.number, None, c.newMetaId).Some?
    requires id == Upserted(w.metas, c.zammadId, c.number, None, c.newMetaId).value.1
    ensures Refused(w.states, id, c.newStateId) <==>
              && (exists k <- w.states :: w.states[k].id == c.newStateId)
              && !exists m <- w.metas :: w.metas[m].zammadId == c.zammadId && m in w.states
  {
    UpsertedFacts(w.metas, c.zammadId, c.number, None, c.newMetaId);
    if id in w.metas { FindIs(w.metas, id); }
  }

  /******* Polls *******/

  // A deadline lies in the past, and the row still waits for its first page.
  predicate DueForPaging(st: State, now: Instant) {
    && !st.paused && st.firstBreachAlertedAt.None?
    && ((st.responseDueAt.Some? && st.responseDueAt.value < now && st.responseMetAt.None?)
        || (st.resolutionDueAt.Some? && st.resolutionDueAt.value < now))
  }

  // Less than the threshold's share of the total time is left until one of the deadlines.
  predicate DueForWarning(st: State, p: Policy, now: Instant) {
    && !st.paused && st.firstBreachAlertedAt.None? && st.stateLabel == OnTrack
    && ((st.responseDueAt.Some? && st.responseMetAt.None? && p.responseMinutes > 0
         && 1000 * (st.responseDueAt.value - now) < p.warningThousandths * (60_000_000_000 * p.responseMinutes))
        || (st.resolutionDueAt.Some? && p.resolutionMinutes > 0
            && 1000 * (st.resolutionDueAt.value - now) < p.warningThousandths * (60_000_000_000 * p.resolutionMinutes)))
  }

  // The policy a ticket has, if it has one.
  predicate HasPolicy(w: World, id: Uuid, p: Policy) {
    && id in w.metas && w.metas[id].slaPolicyId == Some(p.id) && p.id in w.policies && w.policies[p.id] == p
  }

  // One poll, whatever fails in it, for one row with a policy: it is paged when due and no call before
  // or in the alert fails, marked when moreover its write succeeds, and otherwise warned when due and
  // that pass gets to it.
  lemma PollLaw(w: World, e: Event, id: Uuid, p: Policy)
    requires ValidWorld(w) && e.Poll? && ValidEvent(w, e) && id in w.states && HasPolicy(w, id, p)
    ensures var st, f, w' := w.states[id], e.pollFaults, Apply(w, e);
            var paged := DueForPaging(st, e.now) && !f.breachQueryFails && id !in f.unreached
                         && id !in f.lookupFails && id !in f.alertFails;
            var warned := DueForWarning(st, p, e.now) && !f.breachQueryFails && !f.warnPassSkipped
                          && id !in f.unreachedWarn && id !in f.warnWriteFails;
            && w'.metas == w.metas && w'.policies == w.policies && w'.states.Keys == w.states.Keys
            && AlertCount(w'.alerts, id) == AlertCount(w.alerts, id) + (if paged then 1 else 0)
            && w'.states[id] == (
                 if paged && id !in f.writeFails
                 then st.(stateLabel := Breached, firstBreachAlertedAt := Some(e.now), updatedAt := e.now)
                 else if warned then st.(stateLabel := Warning, updatedAt := e.now)
                 else st)
  {
    ApplyProjects(w, e, id);
    assert w.policies[p.id].id == p.id && PolicyAt(w, id) == Some(p);
    RowPollLaw(w.states[id], p, FaultsOf(e.pollFaults, id), e.now);
  }

  lemma RowPollLaw(st: State, p: Policy, f: RowFaults, now: Instant)
    ensures var paged := DueForPaging(st, now) && f.reached && f.lookupsOk && f.alertOk;
            && (Alerts(st, Some(p), f, now) <==> paged)
            && RowPoll(st, Some(p), f, now) == (
                 if paged && f.writeOk
                 then st.(stateLabel := Breached, firstBreachAlertedAt := Some(now), updatedAt := now)
                 else if DueForWarning(st, p, now) && f.reachedWarn && f.warnWriteOk
                 then st.(stateLabel := Warning, updatedAt := now)
                 else st)
  {
    WindowIsAShare(p.responseMinutes, p.warningThousandths);
    WindowIsAShare(p.resolutionMinutes, p.warningThousandths);
  }

  // A row without a policy is neither paged nor warned.
  lemma PollSkipsRowsWithoutPolicy(w: World, e: Event, id: Uuid)
    requires ValidWorld(w) && e.Poll? && ValidEvent(w, e) && id in w.states && w.metas[id].slaPolicyId.None?
    ensures var w' := Apply(w, e);
            id in w'.states && w'.states[id] == w.states[id] && AlertCount(w'.alerts, id) == AlertCount(w.alerts, id)
  {
    ApplyProjects(w, e, id);
  }

  // A row that was alerted already, should the breach query ever return one, is only touched.
  lemma AlertedRowIsOnlyTouched(w: World, st: State, now: Instant, f: RowFaults)
    requires st.firstBreachAlertedAt.Some? && StateAt(w, st.ticketMetaId) == Some(st)
    ensures var w' := ProcessBreached(w, st, now, f);
            w' == w.(states := if f.writeOk then w.states[st.ticketMetaId := st.(updatedAt := now)] else w.states)
  {
  }

  // The stored label after any run that ends in a clean poll, told by the stored deadlines and the
  // policy of the epoch alone.
  lemma StoredLabelLaw(from: Instant, es: seq<Event>, id: Uuid)
    requires ValidRun(EmptyWorld(), from, es) && es != [] && IsCleanPoll(es[|es| - 1])
    requires id in Run(EmptyWorld(), es).states && !Run(EmptyWorld(), es).states[id].paused
    requires Track(es, id).Some? && Track(es, id).value.epoch.samePolicy
    ensures var st, p, now := Run(EmptyWorld(), es).states[id], Track(es, id).value.epoch.policy, es[|es| - 1].now;
            && st.responseDueAt.Some? && st.resolutionDueAt.Some?
            && st.stateLabel == LabelAt(st.responseDueAt.value - now, st.resolutionDueAt.value - now, p)
  {
    var front, now := es[..|es| - 1], es[|es| - 1].now;
    TrackStep(es, id);
    TrackedInv(from, es, id);
    TrackedInv(from, front, id);
    var tr := Track(front, id).value;
    PolledLabel(tr, EndTime(from, front), Project(Run(EmptyWorld(), front), es[|es| - 1], id));
    if now <= EarliestDue(tr.epoch) { WarnPastLaw(tr, EndTime(from, front), now); }
  }

  // The label for the time left until the two deadlines.
  function LabelAt(responseLeft: int, resolutionLeft: int, p: Policy): StateLabel {
    if responseLeft < 0 || resolutionLeft < 0 then Breached
    else if 1000 * responseLeft < p.warningThousandths * (60_000_000_000 * p.responseMinutes)
         || 1000 * resolutionLeft < p.warningThousandths * (60_000_000_000 * p.resolutionMinutes) then Warning
    else OnTrack
  }

  // Before the deadlines the sign of the minutes needs no test of its own.
  lemma WarnPastLaw(tr: Tracked, from: Instant, now: Instant)
    requires RowInv(tr, from) && from <= now && !tr.st.paused && now <= EarliestDue(tr.epoch)
    ensures var e := tr.epoch;
            LabelAt(ResponseDue(e) - now, ResolutionDue(e) - now, e.policy)
            == if WarnPast(e, now) then Warning else OnTrack
  {
    var p := tr.epoch.policy;
    FloorDrift(tr.epoch.pauses);
    WindowIsAShare(p.responseMinutes, p.warningThousandths);
    WindowIsAShare(p.resolutionMinutes, p.warningThousandths);
  }
}
