/**
 Theorems about every run of the worker from an empty schema, whatever the tickets, the order of
 steps and the failing calls. Each reduces to the row machine by row locality.
 */
module WorkerRuns {
  import opened Prelude
  import opened Clock
  import opened Sla
  import opened SlaRow
  import opened SlaRowRuns
  import opened TicketMeta
  import opened WorkerModel

  // What the observer of one ticket knows after a run from the empty schema.
  ghost function Track(es: seq<Event>, id: Uuid): Option<Tracked> {
    RowRun(None, ProjectRun(EmptyWorld(), es, id))
  }

  lemma {:induction false} RunKeepsValid(w: World, from: Instant, es: seq<Event>)
    requires ValidWorld(w) && ValidRun(w, from, es)
    ensures ValidWorld(Run(w, es))
  {
    if es != [] {
      RunKeepsValid(w, from, es[..|es| - 1]);
      ApplyKeepsValid(Run(w, es[..|es| - 1]), es[|es| - 1]);
    }
  }

  lemma {:induction false} ProjectRunFacts(w: World, from: Instant, es: seq<Event>, id: Uuid)
    requires ValidRun(w, from, es)
    ensures Chronological(from, ProjectRun(w, es, id))
    ensures LastTime(from, ProjectRun(w, es, id)) == EndTime(from, es)
  {
    if es != [] {
      ProjectRunFacts(w, from, es[..|es| - 1], id);
    }
  }

  predicate Agrees(st: Option<State>, alerts: nat, r: Option<Tracked>) {
    && st == StateOf(r)
    && alerts == if r.Some? then r.value.epoch.earlierAlerts + r.value.epoch.alerts else 0
  }

  lemma StepAgrees(st: Option<State>, alerts: nat, r: Option<Tracked>, e: RowEvent, st': Option<State>, alerts': nat)
    requires Agrees(st, alerts, r)
    requires st' == NextState(st, e)
    requires alerts' == alerts + (if st.Some? && AlertedBy(st.value, e) then 1 else 0)
    ensures Agrees(st', alerts', RowStep(r, e))
  {
  }

  lemma AgreesOneMore(w: World, e: Event, id: Uuid, r: Option<Tracked>)
    requires ValidWorld(w) && ValidEvent(w, e) && Agrees(StateAt(w, id), AlertCount(w.alerts, id), r)
    ensures var w' := Apply(w, e);
            Agrees(StateAt(w', id), AlertCount(w'.alerts, id), RowStep(r, Project(w, e, id)))
  {
    ApplyProjects(w, e, id);
    StepAgrees(StateAt(w, id), AlertCount(w.alerts, id), r, Project(w, e, id),
               StateAt(Apply(w, e), id), AlertCount(Apply(w, e).alerts, id));
  }

  // Refinement of the whole worker by row machines: rows and alert counts.
  lemma {:induction false} RunProjects(from: Instant, es: seq<Event>, id: Uuid)
    requires ValidRun(EmptyWorld(), from, es)
    ensures var w := Run(EmptyWorld(), es);
            ValidWorld(w) && Agrees(StateAt(w, id), AlertCount(w.alerts, id), Track(es, id))
  {
    RunKeepsValid(EmptyWorld(), from, es);
    if es != [] {
      var front, e := es[..|es| - 1], es[|es| - 1];
      RunProjects(from, front, id);
      AgreesOneMore(Run(EmptyWorld(), front), e, id, Track(front, id));
      TrackStep(es, id);
    }
  }

  lemma TrackStep(es: seq<Event>, id: Uuid)
    requires es != []
    ensures var front := es[..|es| - 1];
            Track(es, id) == RowStep(Track(front, id), Project(Run(EmptyWorld(), front), es[|es| - 1], id))
  {
    var rs := ProjectRun(EmptyWorld(), es, id);
    assert rs[..|rs| - 1] == ProjectRun(EmptyWorld(), es[..|es| - 1], id);
  }

  lemma TrackedInv(from: Instant, es: seq<Event>, id: Uuid)
    requires ValidRun(EmptyWorld(), from, es) && id in Run(EmptyWorld(), es).states
    ensures var r := Track(es, id);
            && r.Some? && r.value.st == Run(EmptyWorld(), es).states[id]
            && RowInv(r.value, EndTime(from, es))
  {
    RunProjects(from, es, id);
    ProjectRunFacts(EmptyWorld(), from, es, id);
    RunKeepsInv(from, ProjectRun(EmptyWorld(), es, id));
  }

  // Deadline conservation in every reachable table.
  lemma StoredDeadlinesConserved(from: Instant, es: seq<Event>, id: Uuid)
    requires ValidRun(EmptyWorld(), from, es) && id in Run(EmptyWorld(), es).states
    ensures Track(es, id).Some? && Conserved(Run(EmptyWorld(), es).states[id], Track(es, id).value.epoch)
  {
    TrackedInv(from, es, id);
    ProjectRunFacts(EmptyWorld(), from, es, id);
    DeadlinesConserved(from, ProjectRun(EmptyWorld(), es, id));
  }

  // Every stored row of every reachable table, without reference to its history.
  lemma StoredRowsWellFormed(from: Instant, es: seq<Event>, id: Uuid)
    requires ValidRun(EmptyWorld(), from, es) && id in Run(EmptyWorld(), es).states
    ensures var st := Run(EmptyWorld(), es).states[id];
            && (st.stateLabel == Breached <==> st.firstBreachAlertedAt.Some?)
            && (st.paused <==> st.pausedAt.Some?)
            && st.responseMetAt.None? && st.stateLabel != Met
            && !CheckBreach(st)
  {
    TrackedInv(from, es, id);
  }

  predicate IsCleanPoll(e: Event) { e.Poll? && e.pollFaults == CLEAN_POLL }

  // The headline: after any run that ends in a clean poll, the stored label of a running,
  // policy-bearing ticket is the label the pure computation gives for its history, unless the
  // poll's clock is exactly the earliest stored deadline.
  lemma StoredLabelRefinesCompute(from: Instant, es: seq<Event>, id: Uuid)
    requires ValidRun(EmptyWorld(), from, es) && es != [] && IsCleanPoll(es[|es| - 1])
    requires id in Run(EmptyWorld(), es).states && !Run(EmptyWorld(), es).states[id].paused
    requires Track(es, id).Some? && Track(es, id).value.epoch.samePolicy
    ensures var st, now := Run(EmptyWorld(), es).states[id], es[|es| - 1].now;
            var pure := ComputeState(InputOf(Track(es, id).value, now)).stateLabel;
            && st.responseDueAt.Some? && st.resolutionDueAt.Some?
            && (st.stateLabel == pure <==> now != Min(st.responseDueAt.value, st.resolutionDueAt.value))
  {
    TrackedInv(from, es, id);
    var front, rs := es[..|es| - 1], ProjectRun(EmptyWorld(), es, id);
    ProjectRunFacts(EmptyWorld(), from, es, id);
    assert rs[..|rs| - 1] == ProjectRun(EmptyWorld(), front, id);
    RunRefinesCompute(from, rs);
  }

  /******* Epochs whose policy nobody touches *******/

  // Neither an edit that changes or deletes this policy nor a ticket.create for this ticket.
  predicate Harmless(e: Event, zammadId: int, policy: Policy) {
    && (e.EditPolicies? ==> policy.id in e.policies && e.policies[policy.id] == policy)
    && (e.TicketCreate? ==> e.zammadId != zammadId)
  }

  // The ticket is in an epoch that started with this policy and has read no other.
  predicate InEpoch(w: World, r: Option<Tracked>, id: Uuid, zammadId: int, start: Instant, policy: Policy) {
    && id in w.metas && w.metas[id].zammadId == zammadId && PolicyAt(w, id) == Some(policy)
    && r.Some? && r.value.epoch.start == start && r.value.epoch.policy == policy && r.value.epoch.samePolicy
  }

  lemma SteadyStep(w: World, e: Event, id: Uuid, policy: Policy)
    requires ValidWorld(w) && ValidEvent(w, e) && id in w.metas && Harmless(e, w.metas[id].zammadId, policy)
    requires PolicyAt(w, id) == Some(policy)
    ensures var w' := Apply(w, e);
            && id in w'.metas && w'.metas[id].zammadId == w.metas[id].zammadId
            && PolicyAt(w', id) == Some(policy)
  {
    var key := w.metas[id].slaPolicyId.value;
    assert w.policies[key].id == key;
    if e.EditPolicies? { assert Apply(w, e).metas[id] == w.metas[id]; }
    if e.TicketCreate? { CreateKeepsMetas(w, e); }
    if e.RecordTicket? && Upserted(w.metas, e.zammadId, e.number, None, e.newMetaId).Some? {
      UpsertedFacts(w.metas, e.zammadId, e.number, None, e.newMetaId);
    }
  }

  lemma QuietStep(w: World, r: Option<Tracked>, e: Event, id: Uuid, zammadId: int, start: Instant, policy: Policy)
    requires ValidWorld(w) && ValidEvent(w, e) && Harmless(e, zammadId, policy)
    requires InEpoch(w, r, id, zammadId, start, policy)
    ensures InEpoch(Apply(w, e), RowStep(r, Project(w, e, id)), id, zammadId, start, policy)
  {
    SteadyStep(w, e, id, policy);
    if e.TicketCreate? { CreateKeepsMetas(w, e); }
  }

  lemma CreateOpensAnEpoch(w: World, r: Option<Tracked>, c: Event, id: Uuid, policy: Policy)
    requires ValidWorld(w) && c.TicketCreate? && Initialises(w, c) == Some((id, policy))
    ensures InEpoch(Apply(w, c), RowStep(r, Project(w, c, id)), id, c.zammadId, c.now, policy)
  {
    CreateKeepsMetas(w, c);
  }

  // es[k] is the ticket.create that starts the ticket's clock, and nothing after it disturbs the policy.
  ghost predicate OpensQuietEpoch(es: seq<Event>, k: nat, id: Uuid, policy: Policy) {
    && k < |es| && es[k].TicketCreate?
    && Initialises(Run(EmptyWorld(), es[..k]), es[k]) == Some((id, policy))
    && forall i :: k < i < |es| ==> Harmless(es[i], es[k].zammadId, policy)
  }

  lemma QuietFront(es: seq<Event>, k: nat, id: Uuid, policy: Policy)
    requires OpensQuietEpoch(es, k, id, policy) && k < |es| - 1
    ensures OpensQuietEpoch(es[..|es| - 1], k, id, policy)
    ensures Harmless(es[|es| - 1], es[k].zammadId, policy)
  {
    assert es[..|es| - 1][..k] == es[..k];
  }

  lemma {:induction false} QuietEpoch(from: Instant, es: seq<Event>, k: nat, id: Uuid, policy: Policy)
    requires ValidRun(EmptyWorld(), from, es) && OpensQuietEpoch(es, k, id, policy)
    ensures InEpoch(Run(EmptyWorld(), es), Track(es, id), id, es[k].zammadId, es[k].now, policy)
  {
    var front, e := es[..|es| - 1], es[|es| - 1];
    TrackStep(es, id);
    RunKeepsValid(EmptyWorld(), from, front);
    if k == |es| - 1 {
      CreateOpensAnEpoch(Run(EmptyWorld(), front), Track(front, id), e, id, policy);
    } else {
      QuietFront(es, k, id, policy);
      QuietEpoch(from, front, k, id, policy);
      QuietStep(Run(EmptyWorld(), front), Track(front, id), e, id, es[k].zammadId, es[k].now, policy);
    }
  }

  // The headline with its hypothesis on the events alone: from the ticket.create that starts the
  // clock, through any pauses, polls and failures, to a clean poll.
  lemma QuietEpochRefinesCompute(from: Instant, es: seq<Event>, k: nat, id: Uuid, policy: Policy)
    requires ValidRun(EmptyWorld(), from, es) && OpensQuietEpoch(es, k, id, policy)
    requires IsCleanPoll(es[|es| - 1])
    ensures id in Run(EmptyWorld(), es).states
    ensures var st, now := Run(EmptyWorld(), es).states[id], es[|es| - 1].now;
            !st.paused ==>
              var pure := ComputeState(ComputeInput(policy.responseMinutes, policy.resolutionMinutes,
                                                    policy.warningThousandths,
                                                    es[k].now, None, st.accumulatedPauseSecs, false, now));
              && st.responseDueAt.Some? && st.resolutionDueAt.Some?
              && (st.stateLabel == pure.stateLabel <==> now != Min(st.responseDueAt.value, st.resolutionDueAt.value))
  {
    QuietEpoch(from, es, k, id, policy);
    RunProjects(from, es, id);
    TrackedInv(from, es, id);
    if !Run(EmptyWorld(), es).states[id].paused {
      StoredLabelRefinesCompute(from, es, id);
    }
  }

  /******* Paging *******/

  // Alerts on record for a ticket, over all its epochs and any number of polls.
  lemma PagesAccountedFor(from: Instant, es: seq<Event>, id: Uuid)
    requires ValidRun(EmptyWorld(), from, es) && id in Run(EmptyWorld(), es).states
    ensures Track(es, id).Some?
    ensures var w, e := Run(EmptyWorld(), es), Track(es, id).value.epoch;
            && AlertCount(w.alerts, id) - e.earlierAlerts
               == e.lostWrites + (if w.states[id].stateLabel == Breached then 1 else 0)
            && (e.lostWrites == 0 ==> AlertCount(w.alerts, id) <= e.earlierAlerts + 1)
  {
    TrackedInv(from, es, id);
    RunProjects(from, es, id);
  }

  // A deadline of a running, policy-bearing ticket that has passed is breached and paged by the
  // next clean poll, however the run got there.
  lemma PassedDeadlineIsPaged(from: Instant, es: seq<Event>, id: Uuid)
    requires ValidRun(EmptyWorld(), from, es) && es != [] && IsCleanPoll(es[|es| - 1])
    requires var w := Run(EmptyWorld(), es[..|es| - 1]);
             id in w.states && !w.states[id].paused && PolicyAt(w, id).Some?
    ensures Track(es, id).Some?
    ensures var w', e := Run(EmptyWorld(), es), Track(es, id).value.epoch;
            && id in w'.states
            && (EarliestDue(e) < es[|es| - 1].now <==> w'.states[id].stateLabel == Breached)
            && (EarliestDue(e) < es[|es| - 1].now ==> AlertCount(w'.alerts, id) > e.earlierAlerts)
  {
    var front := es[..|es| - 1];
    var w := Run(EmptyWorld(), front);
    assert id in Apply(w, es[|es| - 1]).states;
    TrackedInv(from, front, id);
    TrackedInv(from, es, id);
    RunProjects(from, es, id);
    var rs := ProjectRun(EmptyWorld(), es, id);
    assert rs[..|rs| - 1] == ProjectRun(EmptyWorld(), front, id);
  }

  /******* Within one epoch *******/

  ghost predicate StaysInEpoch(w: World, es: seq<Event>, id: Uuid) {
    SameEpoch(ProjectRun(w, es, id))
  }

  lemma {:induction false} RunAppend(w: World, a: seq<Event>, b: seq<Event>)
    ensures Run(w, a + b) == Run(Run(w, a), b)
  {
    if b == [] {
      assert a + b == a;
    } else {
      assert (a + b)[..|a + b| - 1] == a + b[..|b| - 1];
      RunAppend(w, a, b[..|b| - 1]);
    }
  }

  // One valid run after another is a valid run.
  lemma {:induction false} ValidRunAppend(w: World, from: Instant, a: seq<Event>, b: seq<Event>)
    requires ValidRun(w, from, a) && ValidRun(Run(w, a), EndTime(from, a), b)
    ensures ValidRun(w, from, a + b) && EndTime(from, a + b) == EndTime(EndTime(from, a), b)
  {
    if b == [] {
      assert a + b == a;
    } else {
      var front, all := b[..|b| - 1], a + b;
      assert all[..|all| - 1] == a + front && all[|all| - 1] == b[|b| - 1];
      ValidRunAppend(w, from, a, front);
      RunAppend(w, a, front);
    }
  }

  // The tables are those a valid chronological run from the empty schema leaves.
  ghost predicate Reachable(w: World) {
    exists from, es :: ValidRun(EmptyWorld(), from, es) && Run(EmptyWorld(), es) == w
  }

  lemma StaysReachable(from: Instant, past: seq<Event>, es: seq<Event>)
    requires ValidRun(EmptyWorld(), from, past) && ValidRun(Run(EmptyWorld(), past), EndTime(from, past), es)
    ensures ValidRun(EmptyWorld(), from, past + es)
    ensures Run(EmptyWorld(), past + es) == Run(Run(EmptyWorld(), past), es)
    ensures Reachable(Run(EmptyWorld(), past + es))
  {
    ValidRunAppend(EmptyWorld(), from, past, es);
    RunAppend(EmptyWorld(), past, es);
  }

  lemma {:induction false} ProjectRunAppend(w: World, a: seq<Event>, b: seq<Event>, id: Uuid)
    ensures ProjectRun(w, a + b, id) == ProjectRun(w, a, id) + ProjectRun(Run(w, a), b, id)
  {
    if b == [] {
      assert a + b == a;
    } else {
      assert (a + b)[..|a + b| - 1] == a + b[..|b| - 1];
      ProjectRunAppend(w, a, b[..|b| - 1], id);
      RunAppend(w, a, b[..|b| - 1]);
    }
  }

  lemma {:induction false} RowRunAppend(r: Option<Tracked>, a: seq<RowEvent>, b: seq<RowEvent>)
    ensures RowRun(r, a + b) == RowRun(RowRun(r, a), b)
  {
    if b == [] {
      assert a + b == a;
    } else {
      assert (a + b)[..|a + b| - 1] == a + b[..|b| - 1];
      RowRunAppend(r, a, b[..|b| - 1]);
    }
  }

  // From any reachable table, as long as no ticket.create starts the ticket's clock afresh, its
  // label only rises and no deadline ever gains time on the stopped clock.
  lemma LabelsOnlyRise(from: Instant, a: seq<Event>, b: seq<Event>, id: Uuid)
    requires ValidRun(EmptyWorld(), from, a + b) && ValidRun(EmptyWorld(), from, a)
    requires id in Run(EmptyWorld(), a).states && StaysInEpoch(Run(EmptyWorld(), a), b, id)
    ensures var before, after := Track(a, id), Track(a + b, id);
            && before.Some? && after.Some?
            && id in Run(EmptyWorld(), a + b).states
            && after.value.st == Run(EmptyWorld(), a + b).states[id]
            && Advances(before.value, EndTime(from, a), after.value, EndTime(from, a + b))
  {
    TrackedInv(from, a, id);
    TrackAppend(from, a, b, id);
    EpochAdvances(Track(a, id).value, EndTime(from, a), ProjectRun(Run(EmptyWorld(), a), b, id));
    RunProjects(from, a + b, id);
  }

  // What happens after a run is one more run of the ticket's row.
  lemma TrackAppend(from: Instant, a: seq<Event>, b: seq<Event>, id: Uuid)
    requires ValidRun(EmptyWorld(), from, a + b) && ValidRun(EmptyWorld(), from, a)
    ensures var rb := ProjectRun(Run(EmptyWorld(), a), b, id);
            && Track(a + b, id) == RowRun(Track(a, id), rb)
            && Chronological(EndTime(from, a), rb) && LastTime(EndTime(from, a), rb) == EndTime(from, a + b)
  {
    var ra := ProjectRun(EmptyWorld(), a, id);
    var rb := ProjectRun(Run(EmptyWorld(), a), b, id);
    ProjectRunAppend(EmptyWorld(), a, b, id);
    RowRunAppend(None, ra, rb);
    ProjectRunFacts(EmptyWorld(), from, a, id);
    ProjectRunFacts(EmptyWorld(), from, a + b, id);
    SuffixChronological(from, ra, rb);
  }

  // What happens to one ticket is a pause, then no resume and no new epoch, then a resume.
  predicate IsOnePause(rs: seq<RowEvent>) {
    && |rs| >= 2 && StaysPaused(rs[1..|rs| - 1])
    && rs[0] == Updated(rs[0].now, true) && rs[|rs| - 1] == Updated(rs[|rs| - 1].now, false)
  }

  lemma {:induction false} OnePauseOfARow(tr: Tracked, now: Instant, rs: seq<RowEvent>, a: State, aAlerts: nat,
                                          b: Option<State>, bAlerts: nat)
    requires RowInv(tr, now) && Chronological(now, rs) && IsOnePause(rs)
    requires Agrees(Some(a), aAlerts, Some(tr)) && !a.paused && Agrees(b, bAlerts, RowRun(Some(tr), rs))
    ensures b.Some? && AcrossAPause(a, rs[0].now, b.value, rs[|rs| - 1].now) && bAlerts == aAlerts
  {
    var mid := rs[1..|rs| - 1];
    assert rs == [rs[0]] + mid + [rs[|rs| - 1]];
    Ordered(now, rs, 0, |rs| - 1);
    PauseNeitherHidesNorInventsABreach(tr, now, rs[0].now, mid, rs[|rs| - 1].now);
  }

  // From any reachable table, a pause that ends in a resume neither hides nor invents a breach and
  // pages nobody for its ticket, whatever polls, failures and other tickets' steps fall into it.
  lemma PauseOfAReachableTable(from: Instant, a: seq<Event>, b: seq<Event>, id: Uuid)
    requires ValidRun(EmptyWorld(), from, a) && ValidRun(EmptyWorld(), from, a + b)
    requires id in Run(EmptyWorld(), a).states && !Run(EmptyWorld(), a).states[id].paused
    requires IsOnePause(ProjectRun(Run(EmptyWorld(), a), b, id))
    ensures var w, w' := Run(EmptyWorld(), a), Run(EmptyWorld(), a + b);
            && id in w'.states
            && AcrossAPause(w.states[id], b[0].now, w'.states[id], b[|b| - 1].now)
            && AlertCount(w'.alerts, id) == AlertCount(w.alerts, id)
  {
    TrackedInv(from, a, id);
    TrackAppend(from, a, b, id);
    RunProjects(from, a, id);
    RunProjects(from, a + b, id);
    var w, w' := Run(EmptyWorld(), a), Run(EmptyWorld(), a + b);
    OnePauseOfARow(Track(a, id).value, EndTime(from, a), ProjectRun(w, b, id),
                   w.states[id], AlertCount(w.alerts, id), StateAt(w', id), AlertCount(w'.alerts, id));
  }

  lemma {:induction false} Ordered(from: Instant, rs: seq<RowEvent>, i: nat, j: nat)
    requires Chronological(from, rs) && i <= j < |rs|
    ensures rs[i].now <= rs[j].now
    decreases j
  {
    if i < j { Ordered(from, rs, i, j - 1); }
  }

  lemma SuffixChronological(from: Instant, a: seq<RowEvent>, b: seq<RowEvent>)
    requires Chronological(from, a + b)
    ensures Chronological(LastTime(from, a), b)
    ensures LastTime(LastTime(from, a), b) == LastTime(from, a + b)
  {
    var ab := a + b;
    assert forall i :: 0 <= i < |b| ==> ab[|a| + i] == b[i];
    if a == [] {
      assert ab == b;
    } else if b != [] {
      assert ab[|a| - 1] == a[|a| - 1] && ab[|a|] == b[0];
    } else {
      assert ab == a;
    }
  }

  /******* Skipped polls *******/

  // The same rows but for the columns that record when the poller wrote, and the same number of alerts.
  predicate SamePolling(a: Option<State>, aAlerts: nat, b: Option<State>, bAlerts: nat) {
    a.Some? && b.Some? && Forget(a.value) == Forget(b.value) && aAlerts == bAlerts
  }

  // Any number of clean polls in a row leave the rows, and have paged for the tickets, that the last alone would.
  lemma SkippedPollsHarmless(w: World, from: Instant, es: seq<Event>, last: Event, id: Uuid)
    requires ValidWorld(w) && ValidRun(w, from, es) && es != []
    requires forall i :: 0 <= i < |es| ==> IsCleanPoll(es[i])
    requires IsCleanPoll(last) && last.now == es[|es| - 1].now && ValidEvent(w, last)
    requires id in w.states
    ensures SamePolling(StateAt(Run(w, es), id), AlertCount(Run(w, es).alerts, id),
                        StateAt(Apply(w, last), id), AlertCount(Apply(w, last).alerts, id))
    ensures AlertCount(Run(w, es).alerts, id) <= AlertCount(w.alerts, id) + 1
  {
    var history := Epoch(0, Policy(0, "", 0, 0, 0, false), [], None, AlertCount(w.alerts, id), 0, 0, true);
    var tr := Tracked(w.states[id], history);
    var rs := ProjectRun(w, es, id);
    PollsProject(w, from, es, id, tr);
    PollsAreClean(w, es, id);
    ProjectRunFacts(w, from, es, id);
    OnePollProjects(w, last, id, tr);
    RowsPolledAlike(tr, PolicyAt(w, id), from, rs, last.now,
                    StateAt(Run(w, es), id), AlertCount(Run(w, es).alerts, id),
                    StateAt(Apply(w, last), id), AlertCount(Apply(w, last).alerts, id));
  }

  lemma RowsPolledAlike(tr: Tracked, policy: Option<Policy>, from: Instant, rs: seq<RowEvent>, now: Instant,
                        a: Option<State>, aAlerts: nat, b: Option<State>, bAlerts: nat)
    requires rs != [] && Chronological(from, rs) && CleanPolls(rs, policy) && LastTime(from, rs) == now
    requires Agrees(a, aAlerts, RowRun(Some(tr), rs))
    requires Agrees(b, bAlerts, RowStep(Some(tr), Polled(now, policy, NO_FAULTS)))
    ensures SamePolling(a, aAlerts, b, bAlerts)
    ensures aAlerts <= tr.epoch.earlierAlerts + tr.epoch.alerts + 1
  {
    SkippedPollsAreHarmless(tr, policy, from, rs);
    assert rs[|rs| - 1] == Polled(now, policy, NO_FAULTS);
  }

  lemma OnePollProjects(w: World, e: Event, id: Uuid, tr: Tracked)
    requires ValidWorld(w) && IsCleanPoll(e) && ValidEvent(w, e)
    requires Agrees(StateAt(w, id), AlertCount(w.alerts, id), Some(tr))
    ensures Agrees(StateAt(Apply(w, e), id), AlertCount(Apply(w, e).alerts, id),
                   RowStep(Some(tr), Polled(e.now, PolicyAt(w, id), NO_FAULTS)))
  {
    ApplyProjects(w, e, id);
    StepAgrees(StateAt(w, id), AlertCount(w.alerts, id), Some(tr), Project(w, e, id),
               StateAt(Apply(w, e), id), AlertCount(Apply(w, e).alerts, id));
  }

  lemma {:induction false} PollsKeepTables(w: World, es: seq<Event>)
    requires forall i :: 0 <= i < |es| ==> es[i].Poll?
    ensures Run(w, es).metas == w.metas && Run(w, es).policies == w.policies
  {
    if es != [] { PollsKeepTables(w, es[..|es| - 1]); }
  }

  // Clean polls read one policy for a ticket throughout.
  lemma {:induction false} PollsAreClean(w: World, es: seq<Event>, id: Uuid)
    requires forall i :: 0 <= i < |es| ==> IsCleanPoll(es[i])
    ensures CleanPolls(ProjectRun(w, es, id), PolicyAt(w, id))
  {
    if es != [] {
      var front := es[..|es| - 1];
      PollsAreClean(w, front, id);
      PollsKeepTables(w, front);
    }
  }

  lemma {:induction false} PollsProject(w: World, from: Instant, es: seq<Event>, id: Uuid, tr: Tracked)
    requires ValidWorld(w) && ValidRun(w, from, es)
    requires Agrees(StateAt(w, id), AlertCount(w.alerts, id), Some(tr))
    requires forall i :: 0 <= i < |es| ==> IsCleanPoll(es[i])
    ensures Agrees(StateAt(Run(w, es), id), AlertCount(Run(w, es).alerts, id), RowRun(Some(tr), ProjectRun(w, es, id)))
  {
    if es != [] {
      var front, e := es[..|es| - 1], es[|es| - 1];
      PollsProject(w, from, front, id, tr);
      RunKeepsValid(w, from, front);
      var rs := ProjectRun(w, es, id);
      assert rs[..|rs| - 1] == ProjectRun(w, front, id);
      AgreesOneMore(Run(w, front), e, id, RowRun(Some(tr), ProjectRun(w, front, id)));
    }
  }

  lemma {:induction false} NobodyToAlert(w: World, order: seq<Uuid>, f: PollFaults, now: Instant)
    requires forall id :: !AlertsAt(w, id, f, now)
    ensures AlertsInOrder(w, order, f, now) == []
  {
    if order != [] { NobodyToAlert(w, order[..|order| - 1], f, now); }
  }

  // A clean poll repeated at the same instant changes no row and sends no alert.
  lemma RepeatedPollIsSilent(w: World, e: Event, again: Event)
    requires ValidWorld(w) && IsCleanPoll(e) && ValidEvent(w, e)
    requires IsCleanPoll(again) && again.now == e.now && ValidEvent(Apply(w, e), again)
    ensures Apply(Apply(w, e), again) == Apply(w, e)
  {
    var w' := Apply(w, e);
    forall id | id in w'.states
      ensures RowPoll(w'.states[id], PolicyAt(w', id), FaultsOf(CLEAN_POLL, id), e.now) == w'.states[id]
    {
      PollAgainIsSilent(w.states[id], PolicyAt(w, id), e.now);
    }
    NobodyToAlert(w', again.order, CLEAN_POLL, e.now);
  }
}
