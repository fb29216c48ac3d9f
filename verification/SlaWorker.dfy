/**
 The running worker: handlers and poller over the tables they change in place
 (internal/worker/resolve.go, internal/worker/slapoller.go, internal/worker/store.go,
 internal/sla/store.go). Every method is proved to take exactly the step the state machine
 takes, so the theorems of WorkerRuns hold of every object a program can reach.
 */
module SlaWorker {
  import opened Prelude
  import opened Clock
  import opened Sla
  import opened SlaRow
  import opened TicketMeta
  import opened WorkerModel
  import opened WorkerRuns
  import opened PollPasses
  import opened StepLaws

  // UNIQUE (priority, is_default).
  predicate KeyTaken(ps: map<Uuid, Policy>, p: Policy) {
    exists q :: q in ps && q != p.id && ps[q].priority == p.priority && ps[q].isDefault == p.isDefault
  }

  datatype PolicyEdit = PolicyEdit(
    responseMinutes: Option<int>, resolutionMinutes: Option<int>, warningThousandths: Option<int>,
    isDefault: Option<bool>)

  function Given<T>(edit: Option<T>, before: T): T { if edit.Some? then edit.value else before }

  // COALESCE, column by column.
  function Edited(p: Policy, edit: PolicyEdit): Policy {
    p.(responseMinutes := Given(edit.responseMinutes, p.responseMinutes),
       resolutionMinutes := Given(edit.resolutionMinutes, p.resolutionMinutes),
       warningThousandths := Given(edit.warningThousandths, p.warningThousandths),
       isDefault := Given(edit.isDefault, p.isDefault))
  }

  // The faults of the step a poll takes, given those of its single calls. A failing first query
  // ends the poll. A cancelled context leaves the rest of the listing unreached and, like a failing
  // second query, keeps the second pass from running. Nothing else is left out but rows of a second
  // pass that was cancelled.
  predicate PollEnds(f: PollFaults, breachQueryFails: bool, activeQueryFails: bool, order: seq<Uuid>, budget: nat,
                     g: PollFaults)
  {
    if breachQueryFails then g == f.(breachQueryFails := true)
    else if budget < |order| then g == f.(unreached := IdsFrom(order, budget), warnPassSkipped := true)
    else if activeQueryFails then g == f.(warnPassSkipped := true)
    else g == f.(unreachedWarn := g.unreachedWarn)
  }

  class Worker {
    const tickets: TicketStore
    var policies: map<Uuid, Policy>
    var states: map<Uuid, State>
    ghost var alerts: seq<Alert>     // what NightOwl has accepted
    ghost var trace: seq<Event>      // the steps taken so far
    ghost const born: Instant

    ghost function View(): World
      reads this, tickets
    {
      World(tickets.metas, policies, states, alerts)
    }

    // The tables are the ones a chronological run from the empty schema leaves.
    ghost predicate Valid()
      reads this, tickets
    {
      ValidRun(EmptyWorld(), born, trace) && View() == Run(EmptyWorld(), trace) && ValidWorld(View())
    }

    ghost function Time(): Instant
      reads this
    {
      EndTime(born, trace)
    }

    // The object took exactly the step e.
    twostate predicate Took(e: Event)
      reads this, tickets
    {
      && trace == old(trace) + [e]
      && View() == Apply(old(View()), e)
    }

    constructor (now: Instant)
      ensures Valid() && fresh(tickets) && trace == [] && Time() == now
    {
      tickets := new TicketStore();
      policies, states := map[], map[];
      alerts, trace, born := [], [], now;
    }

    // The trace after a step whose effect on the tables has just been established.
    lemma Extends(before: World, past: seq<Event>, e: Event)
      requires ValidRun(EmptyWorld(), born, past) && before == Run(EmptyWorld(), past) && ValidWorld(before)
      requires ValidEvent(before, e) && EndTime(born, past) <= e.now
      requires trace == past + [e] && View() == Apply(before, e)
      ensures Valid()
    {
      assert trace[..|trace| - 1] == past;
      ApplyKeepsValid(before, e);
    }

    /******* Store *******/

    // Reports whether the statement was executed.
    method UpsertState(st: State) returns (ok: bool)
      modifies this`states
      ensures states == UpsertedState(old(states), st)
      ensures ok == (st.ticketMetaId in old(states) || forall k <- old(states) :: old(states)[k].id != st.id)
      ensures states == if !ok then old(states)
                        else if st.ticketMetaId in old(states)
                        then old(states)[st.ticketMetaId := st.(id := old(states)[st.ticketMetaId].id)]
                        else old(states)[st.ticketMetaId := st]
    {
      ok := true;
      if st.ticketMetaId in states {
        states := states[st.ticketMetaId := st.(id := states[st.ticketMetaId].id)];
      } else if IdTaken(states, st.id) {
        ok := false;
      } else {
        states := states[st.ticketMetaId := st];
      }
    }

    method GetStateByTicketMetaID(id: Uuid) returns (r: Option<State>)
      ensures r == StateAt(View(), id)
    {
      r := if id in states then Some(states[id]) else None;
    }

    method GetDefaultPolicyByPriority(priority: string) returns (r: Option<Policy>)
      requires ValidPolicies(policies)
      ensures r == DefaultPolicy(policies, priority)
    {
      if p :| p in policies && IsDefaultFor(policies, p, priority) {
        r := Some(policies[p]);
      } else {
        r := None;
      }
    }

    // ticket_meta joined to sla_policies, or None when either row is missing.
    method JoinedPolicy(id: Uuid) returns (r: Option<Policy>)
      ensures r == PolicyAt(View(), id)
    {
      r := None;
      var meta := tickets.GetByID(id);
      if meta.Some? && meta.value.slaPolicyId.Some? && meta.value.slaPolicyId.value in policies {
        r := Some(policies[meta.value.slaPolicyId.value]);
      }
    }

    // The rows come back in no particular order.
    method ListBreachedTickets(now: Instant) returns (rows: seq<State>)
      requires ValidWorld(View())
      ensures BreachRows(View(), now, rows) && BreachListing(View(), now, Ids(rows))
    {
      rows := [];
      var todo := set id | id in states && BreachListed(states[id], now);
      while todo != {}
        invariant todo <= states.Keys
        invariant forall id :: id in todo || id in Ids(rows) <==> id in states && BreachListed(states[id], now)
        invariant forall id <- todo :: id !in Ids(rows)
        invariant BreachRows(View(), now, rows)
        decreases todo
      {
        var id := AnyOf(todo);
        todo := todo - {id};
        assert Ids(rows + [states[id]]) == Ids(rows) + [id];
        rows := rows + [states[id]];
      }
    }

    method ListActiveStates() returns (rows: seq<ActiveRow>)
      requires ValidWorld(View())
      ensures ActiveListing(View(), rows)
    {
      rows := [];
      var todo := set id | id in states && ActiveListed(states[id]);
      while todo != {}
        invariant todo <= states.Keys
        invariant forall id :: id in todo ==> ActiveListed(states[id])
        invariant forall id :: ActiveAt(View(), id) ==> id in todo || id in ActiveIds(rows)
        invariant forall id <- todo :: id !in ActiveIds(rows)
        invariant ActiveRows(View(), rows)
        decreases todo
      {
        var id := AnyOf(todo);
        todo := todo - {id};
        var policy := JoinedPolicy(id);
        if policy.Some? {
          var p := policy.value;
          var a := ActiveRow(states[id], p.responseMinutes, p.resolutionMinutes, p.warningThousandths);
          assert ActiveIds(rows + [a]) == ActiveIds(rows) + [id];
          rows := rows + [a];
        }
      }
    }

    /******* Handlers *******/

    // Reports whether the handler returned an error.
    method HandleTicketCreate(now: Instant, zammadId: int, number: string, priority: string,
                              newMetaId: Uuid, newStateId: Uuid, f: CreateFaults) returns (failed: bool)
      requires Valid() && Time() <= now
      modifies this, tickets
      ensures Valid() && Took(TicketCreate(now, zammadId, number, priority, newMetaId, newStateId, f))
      ensures failed ==> states == old(states)
      ensures failed <==>
                CreateErrs(old(View()), TicketCreate(now, zammadId, number, priority, newMetaId, newStateId, f))
    {
      ghost var e := TicketCreate(now, zammadId, number, priority, newMetaId, newStateId, f);
      ghost var before, past := View(), trace;
      failed := CreateRow(now, zammadId, number, priority, newMetaId, newStateId, f);
      CreateStopsOnErrors(before, e);
      trace := trace + [e];
      Extends(before, past, e);
    }

    method CreateRow(now: Instant, zammadId: int, number: string, priority: string,
                     newMetaId: Uuid, newStateId: Uuid, f: CreateFaults) returns (failed: bool)
      requires ValidWorld(View())
      modifies this`states, tickets
      ensures View() == Apply(old(View()), TicketCreate(now, zammadId, number, priority, newMetaId, newStateId, f))
      ensures failed ==> states == old(states)
      ensures failed <==>
                CreateStops(old(View()), TicketCreate(now, zammadId, number, priority, newMetaId, newStateId, f))
    {
      if f.connFails || f.upsertFails { return true; }
      var meta := tickets.Upsert(zammadId, number, None, newMetaId);
      if meta.None? { return true; }
      if f.policyFails { return true; }
      var policy := GetDefaultPolicyByPriority(PriorityOf(priority));
      if policy.None? { return false; }
      if f.assignFails { return true; }
      var withPolicy := tickets.Upsert(zammadId, number, Some(policy.value.id), newMetaId);
      if withPolicy.None? || f.stateFails { return true; }
      var ok := UpsertState(InitState(newStateId, meta.value.id, policy.value, now));
      failed := !ok;
    }

    method HandleTicketUpdate(now: Instant, zammadId: int, zammadState: string, readsFail: bool, writeFails: bool)
      returns (failed: bool)
      requires Valid() && Time() <= now
      modifies this
      ensures Valid() && Took(TicketUpdate(now, zammadId, zammadState, readsFail, writeFails))
      ensures failed ==> View() == old(View())
      ensures failed <==> readsFail || (writeFails && TurnsARow(old(View()), zammadId, zammadState))
    {
      ghost var e := TicketUpdate(now, zammadId, zammadState, readsFail, writeFails);
      ghost var before, past := View(), trace;
      failed := UpdateRow(now, zammadId, zammadState, readsFail, writeFails);
      trace := trace + [e];
      Extends(before, past, e);
    }

    method UpdateRow(now: Instant, zammadId: int, zammadState: string, readsFail: bool, writeFails: bool)
      returns (failed: bool)
      requires ValidWorld(View())
      modifies this`states
      ensures View() == Apply(old(View()), TicketUpdate(now, zammadId, zammadState, readsFail, writeFails))
      ensures failed ==> states == old(states)
      ensures failed <==> readsFail || (writeFails && TurnsARow(old(View()), zammadId, zammadState))
    {
      if readsFail { return true; }
      var meta := tickets.GetByZammadID(zammadId);
      if meta.None? { return false; }
      var row := GetStateByTicketMetaID(meta.value.id);
      if row.None? { return false; }
      var st := row.value;
      var isPause := IsPauseState(zammadState);
      if isPause && !st.paused {
        st := st.(paused := true, pausedAt := Some(now), updatedAt := now);
      } else if !isPause && st.paused {
        if st.pausedAt.Some? {
          var pausedSecs := WholeSeconds(now - st.pausedAt.value);
          st := st.(accumulatedPauseSecs := st.accumulatedPauseSecs + pausedSecs);
          st := st.(responseDueAt := Extend(st.responseDueAt, pausedSecs));
          st := st.(resolutionDueAt := Extend(st.resolutionDueAt, pausedSecs));
        }
        st := st.(paused := false, pausedAt := None, updatedAt := now);
      } else {
        assert states == states[st.ticketMetaId := st];
        return false;
      }
      if writeFails { return true; }
      var ok := UpsertState(st);
      failed := !ok;
    }

    // The new policy's id is the one the database would generate.
    method CreatePolicy(now: Instant, p: Policy) returns (ok: bool)
      requires Valid() && Time() <= now
      modifies this, tickets
      ensures ok == (p.id !in old(policies) && forall q <- old(policies) ::
                       old(policies)[q].priority != p.priority || old(policies)[q].isDefault != p.isDefault)
      ensures policies == if ok then old(policies)[p.id := p] else old(policies)
      ensures tickets.metas == old(tickets.metas) && states == old(states)
      ensures Valid() && Took(Event.EditPolicies(now, policies))
    {
      ok := p.id !in policies && !KeyTaken(policies, p);
      var edited := if ok then policies[p.id := p] else policies;
      NothingLost(tickets.metas, policies, edited);
      EditPolicies(now, edited);
    }

    // Fields that are not given stay as they are; the priority cannot be changed.
    method UpdatePolicy(now: Instant, id: Uuid, edit: PolicyEdit) returns (ok: bool)
      requires Valid() && Time() <= now
      modifies this, tickets
      ensures ok == (id in old(policies) && !KeyTaken(old(policies), Edited(old(policies)[id], edit)))
      ensures policies == if ok then old(policies)[id := Edited(old(policies)[id], edit)] else old(policies)
      ensures ok ==>
        var p, q := old(policies)[id], policies[id];
        && q.id == p.id && q.priority == p.priority
        && q.responseMinutes == (if edit.responseMinutes.Some? then edit.responseMinutes.value else p.responseMinutes)
        && q.resolutionMinutes
           == (if edit.resolutionMinutes.Some? then edit.resolutionMinutes.value else p.resolutionMinutes)
        && q.warningThousandths
           == (if edit.warningThousandths.Some? then edit.warningThousandths.value else p.warningThousandths)
        && q.isDefault == (if edit.isDefault.Some? then edit.isDefault.value else p.isDefault)
        && forall k <- policies ::
             k != id ==> policies[k].priority != q.priority || policies[k].isDefault != q.isDefault
      ensures tickets.metas == old(tickets.metas) && states == old(states)
      ensures Valid() && Took(Event.EditPolicies(now, policies))
    {
      ok := id in policies && !KeyTaken(policies, Edited(policies[id], edit));
      var edited := if ok then policies[id := Edited(policies[id], edit)] else policies;
      NothingLost(tickets.metas, policies, edited);
      EditPolicies(now, edited);
    }

    // ON DELETE SET NULL: the tickets of the policy lose it, and only they.
    method DeletePolicy(now: Instant, id: Uuid) returns (ok: bool)
      requires Valid() && Time() <= now
      modifies this, tickets
      ensures ok == (id in old(policies))
      ensures policies == old(policies) - {id} && states == old(states)
      ensures tickets.metas.Keys == old(tickets.metas).Keys
      ensures forall m <- tickets.metas :: tickets.metas[m] ==
                (if old(tickets.metas)[m].slaPolicyId == Some(id) then old(tickets.metas)[m].(slaPolicyId := None)
                 else old(tickets.metas)[m])
      ensures Valid() && Took(Event.EditPolicies(now, policies))
    {
      ok := id in policies;
      EditPolicies(now, policies - {id});
    }

    // The policy table as an edit leaves it. A lost policy is dropped from its tickets.
    method EditPolicies(now: Instant, edited: map<Uuid, Policy>)
      requires Valid() && Time() <= now && ValidPolicies(edited)
      modifies this, tickets
      ensures policies == edited && states == old(states)
      ensures tickets.metas == map id | id in old(tickets.metas) :: DropLostPolicy(old(tickets.metas)[id], edited)
      ensures Valid() && Took(Event.EditPolicies(now, edited))
    {
      ghost var before, past := View(), trace;
      policies := edited;
      tickets.metas := map id | id in tickets.metas :: DropLostPolicy(tickets.metas[id], edited);
      trace := trace + [Event.EditPolicies(now, edited)];
      Extends(before, past, Event.EditPolicies(now, edited));
    }

    // The metadata row that incident.created and the API write for a ticket of their own.
    method RecordTicket(now: Instant, zammadId: int, number: string, newMetaId: Uuid) returns (r: Option<Meta>)
      requires Valid() && Time() <= now
      modifies this, tickets
      ensures Valid() && Took(Event.RecordTicket(now, zammadId, number, newMetaId))
      ensures var u := Upserted(old(tickets.metas), zammadId, number, None, newMetaId);
              && (r.Some? <==> u.Some?)
              && (u.Some? ==> r.value.id == u.value.1 && u.value.1 in u.value.0 && r.value == u.value.0[u.value.1])
    {
      ghost var before, past := View(), trace;
      r := tickets.Upsert(zammadId, number, None, newMetaId);
      trace := trace + [Event.RecordTicket(now, zammadId, number, newMetaId)];
      Extends(before, past, Event.RecordTicket(now, zammadId, number, newMetaId));
    }

    /******* Poller *******/

    method ProcessBreachedState(row: State, now: Instant, f: RowFaults)
      requires ValidWorld(View())
      modifies this`states, this`alerts
      ensures View() == ProcessBreached(old(View()), row, now, f)
    {
      var st := row;
      if st.firstBreachAlertedAt.Some? {
        st := st.(updatedAt := now);
        if f.writeOk { var _ := UpsertState(st); }
        return;
      }
      if !f.lookupsOk { return; }
      var policy := JoinedPolicy(st.ticketMetaId);
      if policy.None? || !f.alertOk { return; }
      alerts := alerts + [AlertFor(st, tickets.metas[st.ticketMetaId], policy.value, now)];
      st := st.(stateLabel := Breached, firstBreachAlertedAt := Some(now), updatedAt := now);
      if f.writeOk { var _ := UpsertState(st); }
    }

    method CheckWarnings(rows: seq<ActiveRow>, now: Instant, f: PollFaults, budget: nat)
      requires ActiveRows(View(), rows)
      requires !f.breachQueryFails && !f.warnPassSkipped && f.unreachedWarn == {}
      modifies this`states
      ensures View() == WarnFold(old(View()), rows[..if budget < |rows| then budget else |rows|], now, f)
    {
      var i := 0;
      while i < |rows| && i < budget
        invariant 0 <= i <= |rows| && i <= budget
        invariant View() == WarnFold(old(View()), rows[..i], now, f)
      {
        assert rows[..i + 1][..i] == rows[..i];
        var a := rows[i];
        if a.st.stateLabel == OnTrack {
          var shouldWarn := false;
          if a.st.responseDueAt.Some? && a.st.responseMetAt.None? && a.responseMinutes > 0 {
            var warningAt := a.st.responseDueAt.value - WarningWindow(a.responseMinutes, a.warningThousandths);
            if warningAt < now { shouldWarn := true; }
          }
          if !shouldWarn && a.st.resolutionDueAt.Some? && a.resolutionMinutes > 0 {
            var warningAt := a.st.resolutionDueAt.value - WarningWindow(a.resolutionMinutes, a.warningThousandths);
            if warningAt < now { shouldWarn := true; }
          }
          if shouldWarn && a.st.ticketMetaId !in f.warnWriteFails {
            var _ := UpsertState(a.st.(stateLabel := Warning, updatedAt := now));
          }
        }
        i := i + 1;
      }
    }

    // One poll. The context is cancelled after `budget` rows; `activeQueryFails` is the second
    // query's failure. The step taken names the rows left unreached and the order in which the
    // first query returned its rows.
    method Poll(now: Instant, breachQueryFails: bool, activeQueryFails: bool, f: PollFaults, budget: nat)
      returns (ghost step: Event)
      requires Valid() && Time() <= now && Unbroken(f)
      modifies this
      ensures Valid() && Took(step) && step.Poll? && step.now == now
      ensures PollEnds(f, breachQueryFails, activeQueryFails, step.order, budget, step.pollFaults)
      ensures !breachQueryFails && !activeQueryFails && 2 * |old(states)| <= budget ==> step.pollFaults == f
    {
      ghost var before, past := View(), trace;
      ghost var g, order := FirstPass(now, breachQueryFails, activeQueryFails, f, budget);
      step := Event.Poll(now, g, order);
      trace := trace + [step];
      Extends(before, past, step);
    }

    method FirstPass(now: Instant, breachQueryFails: bool, activeQueryFails: bool, f: PollFaults, budget: nat)
      returns (ghost g: PollFaults, ghost order: seq<Uuid>)
      requires ValidWorld(View()) && Unbroken(f)
      modifies this`states, this`alerts
      ensures View() == AfterPoll(old(View()), now, g, order) && BreachListing(old(View()), now, order)
      ensures PollEnds(f, breachQueryFails, activeQueryFails, order, budget, g)
      ensures !breachQueryFails && !activeQueryFails && 2 * |old(states)| <= budget ==> g == f
    {
      ghost var before := View();
      var rows := ListBreachedTickets(now);
      order := Ids(rows);
      DistinctIsBounded(order, states.Keys);
      if breachQueryFails {
        g := f.(breachQueryFails := true);
        NothingReached(before, now, g, order);
        return;
      }
      var k := if budget < |rows| then budget else |rows|;
      BreachLoop(rows, now, f, k);
      assert IdsFrom(order, |order|) == {};
      if k < |rows| || activeQueryFails {
        g := f.(unreached := IdsFrom(order, k), warnPassSkipped := true);
        BreachPassOnly(before, rows, k, now, f, g);
      } else {
        assert rows[..k] == rows;
        g := SecondPass(before, rows, now, f, budget - k);
      }
    }

    method SecondPass(ghost before: World, ghost rows: seq<State>, now: Instant, f: PollFaults, budget: nat)
      returns (ghost g: PollFaults)
      requires ValidWorld(before) && BreachRows(before, now, rows) && BreachListing(before, now, Ids(rows))
               && Unbroken(f)
      requires View() == BreachFold(before, rows, now, f)
      modifies this`states
      ensures View() == AfterPoll(before, now, g, Ids(rows))
      ensures g == f.(unreachedWarn := g.unreachedWarn)
      ensures |before.states| <= budget ==> g == f
    {
      BreachFoldKeepsValid(before, rows, now, f);
      var active := ListActiveStates();
      ghost var m := if budget < |active| then budget else |active|;
      DistinctIsBounded(ActiveIds(active), states.Keys);
      CutListing(View(), active, m);
      CheckWarnings(active, now, f, budget);
      g := f.(unreachedWarn := IdsFrom(ActiveIds(active), m));
      BothPasses(before, rows, active[..m], now, f, g);
    }

    method BreachLoop(rows: seq<State>, now: Instant, f: PollFaults, k: nat)
      requires ValidWorld(View()) && BreachRows(View(), now, rows) && k <= |rows| && Unbroken(f)
      modifies this`states, this`alerts
      ensures View() == BreachFold(old(View()), rows[..k], now, f)
    {
      for i := 0 to k
        invariant View() == BreachFold(old(View()), rows[..i], now, f)
      {
        assert rows[..i + 1][..i] == rows[..i];
        BreachFoldKeepsValid(old(View()), rows[..i], now, f);
        ProcessBreachedState(rows[i], now, FaultsOf(f, rows[i].ticketMetaId));
      }
    }
  }

  // An edit that deletes no policy drops none from a ticket.
  lemma NothingLost(ms: Metas, before: map<Uuid, Policy>, after: map<Uuid, Policy>)
    requires PoliciesExist(ms, before) && before.Keys <= after.Keys
    ensures (map id | id in ms :: DropLostPolicy(ms[id], after)) == ms
  {
    assert forall id <- ms :: DropLostPolicy(ms[id], after) == ms[id];
  }

  lemma BreachFoldKeepsValid(w: World, rows: seq<State>, now: Instant, f: PollFaults)
    requires ValidWorld(w) && BreachRows(w, now, rows) && Unbroken(f)
    ensures ValidWorld(BreachFold(w, rows, now, f))
    ensures BreachFold(w, rows, now, f).states.Keys == w.states.Keys
  {
    BreachFoldIsRowLocal(w, rows, now, f);
  }

  // A poll whose first query fails does nothing.
  lemma {:induction false} NothingReached(w: World, now: Instant, f: PollFaults, order: seq<Uuid>)
    requires f.breachQueryFails
    ensures AfterPoll(w, now, f, order) == w
  {
    NobodyToAlert(w, order, f, now);
    assert AfterPoll(w, now, f, order).states == w.states;
  }

  lemma {:induction false} DistinctIsBounded(ids: seq<Uuid>, s: set<Uuid>)
    requires Distinct(ids) && forall id <- ids :: id in s
    ensures |ids| <= |s|
  {
    if ids != [] {
      var last := ids[|ids| - 1];
      DistinctIsBounded(ids[..|ids| - 1], s - {last});
    }
  }

  // What the theorems about runs say of any worker object a program can get hold of.
  lemma RowsOfAnyWorker(worker: Worker, id: Uuid)
    requires worker.Valid() && id in worker.states
    ensures var st := worker.states[id];
            && (st.stateLabel == Breached <==> st.firstBreachAlertedAt.Some?)
            && (st.paused <==> st.pausedAt.Some?)
            && st.responseMetAt.None? && !CheckBreach(st)
            && st.responseDueAt.Some? && st.resolutionDueAt.Some?
            && (st.stateLabel == Breached ==> AlertCount(worker.alerts, id) >= 1)
  {
    StoredRowsWellFormed(worker.born, worker.trace, id);
    StoredDeadlinesConserved(worker.born, worker.trace, id);
    PagesAccountedFor(worker.born, worker.trace, id);
  }
}
