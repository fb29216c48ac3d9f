/**
 Theorems about every chronological run of events on one row: the stored deadlines are the
 ones the pauses account for, the stored label refines the pure computation, and breaches are
 paged once.
 */
module SlaRowRuns {
  import opened Prelude
  import opened Clock
  import opened Sla
  import opened SlaRow

  /******* Pauses *******/

  function SumFloors(ps: seq<Pause>): int {
    if ps == [] then 0
    else SumFloors(ps[..|ps| - 1]) + WholeSeconds(ps[|ps| - 1].to - ps[|ps| - 1].from)
  }

  function SumExact(ps: seq<Pause>): int {
    if ps == [] then 0
    else SumExact(ps[..|ps| - 1]) + (ps[|ps| - 1].to - ps[|ps| - 1].from)
  }

  predicate Forward(ps: seq<Pause>) {
    forall i :: 0 <= i < |ps| ==> ps[i].from <= ps[i].to
  }

  lemma SumsAppend(ps: seq<Pause>, p: Pause)
    ensures SumFloors(ps + [p]) == SumFloors(ps) + WholeSeconds(p.to - p.from)
    ensures SumExact(ps + [p]) == SumExact(ps) + (p.to - p.from)
  {
    assert (ps + [p])[..|ps|] == ps;
  }

  // Flooring each pause loses less than a second per pause, and never credits too much.
  lemma {:induction false} FloorDrift(ps: seq<Pause>)
    requires Forward(ps)
    ensures 0 <= Seconds(SumFloors(ps)) <= SumExact(ps)
    ensures ps != [] ==> SumExact(ps) - Seconds(SumFloors(ps)) < Seconds(|ps|)
  {
    if ps != [] {
      var rest := ps[..|ps| - 1];
      FloorDrift(rest);
      if rest != [] { assert Seconds(|ps| - 1) == Seconds(|rest|); }
    }
  }

  /******* The invariant of a row *******/

  // Where the SLA clock stands: it stops while a pause is open.
  function ClockOf(e: Epoch, now: Instant): Instant {
    if e.openPause.Some? then e.openPause.value else now
  }

  function ResponseDue(e: Epoch): Instant {
    e.start + Minutes(e.policy.responseMinutes) + Seconds(SumFloors(e.pauses))
  }

  function ResolutionDue(e: Epoch): Instant {
    e.start + Minutes(e.policy.resolutionMinutes) + Seconds(SumFloors(e.pauses))
  }

  function EarliestDue(e: Epoch): Instant { Min(ResponseDue(e), ResolutionDue(e)) }

  predicate WarnPast(e: Epoch, now: Instant) {
    || (e.policy.responseMinutes > 0
        && ResponseDue(e) - WarningWindow(e.policy.responseMinutes, e.policy.warningThousandths) < now)
    || (e.policy.resolutionMinutes > 0
        && ResolutionDue(e) - WarningWindow(e.policy.resolutionMinutes, e.policy.warningThousandths) < now)
  }

  predicate HistoryInv(e: Epoch, now: Instant) {
    && e.start <= ClockOf(e, now) <= now
    && Forward(e.pauses)
    && SumExact(e.pauses) <= ClockOf(e, now) - e.start
  }

  // The columns that keep the time are what the observer's history accounts for.
  predicate Accounts(tr: Tracked, now: Instant) {
    var st, e := tr.st, tr.epoch;
    && st.accumulatedPauseSecs == SumFloors(e.pauses)
    && st.responseDueAt == Some(ResponseDue(e))
    && st.resolutionDueAt == Some(ResolutionDue(e))
    && st.pausedAt == e.openPause
    && (st.paused <==> st.pausedAt.Some?)
    && st.responseMetAt.None?
    && e.start <= st.updatedAt <= now
  }

  // The columns that keep the breach are what the alerts and the stopped clock account for.
  predicate Labels(tr: Tracked, now: Instant) {
    var st, e := tr.st, tr.epoch;
    && st.stateLabel != Met
    && (st.stateLabel == Breached <==> st.firstBreachAlertedAt.Some?)
    && (st.firstBreachAlertedAt.Some? ==> e.start <= st.firstBreachAlertedAt.value <= st.updatedAt)
    && e.alerts == e.lostWrites + (if st.stateLabel == Breached then 1 else 0)
    && (st.stateLabel == Breached ==> EarliestDue(e) < ClockOf(e, now))
    && (st.stateLabel == Warning && e.samePolicy ==> WarnPast(e, ClockOf(e, now)))
  }

  predicate RowInv(tr: Tracked, now: Instant) {
    HistoryInv(tr.epoch, now) && Accounts(tr, now) && Labels(tr, now)
  }

  // The time left on each deadline by the stopped clock.
  function ResponseLeft(tr: Tracked, now: Instant): int { ResponseDue(tr.epoch) - ClockOf(tr.epoch, now) }

  function ResolutionLeft(tr: Tracked, now: Instant): int { ResolutionDue(tr.epoch) - ClockOf(tr.epoch, now) }

  // One event that does not start a new epoch keeps the invariant and never gives time back.
  predicate Advances(tr: Tracked, now: Instant, tr': Tracked, now': Instant) {
    && RowInv(tr', now')
    && tr'.epoch.start == tr.epoch.start && tr'.epoch.policy == tr.epoch.policy
    && NoLower(tr.st.stateLabel, tr'.st.stateLabel)
    && ResponseLeft(tr', now') <= ResponseLeft(tr, now)
    && ResolutionLeft(tr', now') <= ResolutionLeft(tr, now)
  }

  lemma PauseAdvances(tr: Tracked, now: Instant, e: RowEvent)
    requires RowInv(tr, now) && now <= e.now && e.Updated? && e.isPause
    ensures Advances(tr, now, RowStep(Some(tr), e).value, e.now)
  {
  }

  // Closing the open pause moves the deadlines by its whole seconds and the clock by all of it.
  lemma ClosingAPause(e: Epoch, e': Epoch, now: Instant)
    requires e.openPause.Some? && HistoryInv(e, now)
    requires e' == e.(openPause := None, pauses := e.pauses + [Pause(e.openPause.value, now)])
    ensures var secs := WholeSeconds(now - e.openPause.value);
            && HistoryInv(e', now)
            && SumFloors(e'.pauses) == SumFloors(e.pauses) + secs
            && ResponseDue(e') == ResponseDue(e) + Seconds(secs)
            && ResolutionDue(e') == ResolutionDue(e) + Seconds(secs)
            && 0 <= Seconds(secs) <= now - e.openPause.value
  {
    SumsAppend(e.pauses, Pause(e.openPause.value, now));
  }

  lemma ResumeAccounts(tr: Tracked, now: Instant, e: RowEvent)
    requires HistoryInv(tr.epoch, now) && Accounts(tr, now) && now <= e.now
             && e.Updated? && !e.isPause && tr.epoch.openPause.Some?
    ensures Accounts(RowStep(Some(tr), e).value, e.now)
  {
    ClosingAPause(tr.epoch, Observe(tr.epoch, e, false), e.now);
  }

  // A warning stays due while the time left only shrinks.
  lemma WarnStaysPast(e: Epoch, t: Instant, e': Epoch, u: Instant)
    requires WarnPast(e, t) && e'.policy == e.policy
    requires ResponseDue(e') - u <= ResponseDue(e) - t && ResolutionDue(e') - u <= ResolutionDue(e) - t
    ensures WarnPast(e', u)
  {
  }

  lemma ResumeAdvances(tr: Tracked, now: Instant, e: RowEvent)
    requires RowInv(tr, now) && now <= e.now && e.Updated? && !e.isPause
    ensures Advances(tr, now, RowStep(Some(tr), e).value, e.now)
  {
    if tr.epoch.openPause.Some? {
      var tr' := RowStep(Some(tr), e).value;
      ClosingAPause(tr.epoch, tr'.epoch, e.now);
      ResumeAccounts(tr, now, e);
      ResumeLabels(tr, now, e);
    }
  }

  lemma ResumeLabels(tr: Tracked, now: Instant, e: RowEvent)
    requires HistoryInv(tr.epoch, now) && Labels(tr, now) && now <= e.now && tr.st.updatedAt <= now
    requires e.Updated? && !e.isPause && tr.epoch.openPause.Some?
    ensures Labels(RowStep(Some(tr), e).value, e.now)
  {
    var e' := Observe(tr.epoch, e, false);
    ClosingAPause(tr.epoch, e', e.now);
    if WarnPast(tr.epoch, ClockOf(tr.epoch, now)) {
      WarnStaysPast(tr.epoch, ClockOf(tr.epoch, now), e', e.now);
    }
  }

  lemma PollAdvances(tr: Tracked, now: Instant, e: RowEvent)
    requires RowInv(tr, now) && now <= e.now && e.Polled?
    ensures Advances(tr, now, RowStep(Some(tr), e).value, e.now)
  {
    var breached := BreachPass(tr.st, e.joined, e.faults, e.now);
    var tr' := RowStep(Some(tr), e).value;
    assert tr'.st == WarnPass(breached, e.joined, e.faults, e.now);
    assert ClockOf(tr'.epoch, e.now) == ClockOf(tr.epoch, e.now);
  }

  lemma StepAdvances(tr: Tracked, now: Instant, e: RowEvent)
    requires RowInv(tr, now) && now <= e.now && !e.Initialised?
    ensures Advances(tr, now, RowStep(Some(tr), e).value, e.now)
  {
    match e
    case Updated(_, isPause) => if isPause { PauseAdvances(tr, now, e); } else { ResumeAdvances(tr, now, e); }
    case Polled(_, _, _) => PollAdvances(tr, now, e);
    case Untouched(_) =>
  }

  lemma InitEstablishesInv(r: Option<Tracked>, e: RowEvent)
    requires e.Initialised?
    ensures RowInv(RowStep(r, e).value, e.now)
  {
  }

  lemma {:induction false} RunKeepsInv(from: Instant, es: seq<RowEvent>)
    requires Chronological(from, es)
    ensures var r := RowRun(None, es); r.Some? ==> RowInv(r.value, LastTime(from, es))
  {
    if es != [] {
      var front, e := es[..|es| - 1], es[|es| - 1];
      RunKeepsInv(from, front);
      var r := RowRun(None, front);
      if e.Initialised? {
        InitEstablishesInv(r, e);
      } else if r.Some? {
        StepAdvances(r.value, LastTime(from, front), e);
      }
    }
  }

  predicate SameEpoch(es: seq<RowEvent>) {
    forall i :: 0 <= i < |es| ==> !es[i].Initialised?
  }

  // Between any two observation times of one epoch: labels only rise, no time is given back.
  lemma {:induction false} EpochAdvances(tr: Tracked, now: Instant, es: seq<RowEvent>)
    requires RowInv(tr, now) && Chronological(now, es) && SameEpoch(es)
    ensures var r := RowRun(Some(tr), es); r.Some? && Advances(tr, now, r.value, LastTime(now, es))
  {
    if es != [] {
      var front := es[..|es| - 1];
      EpochAdvances(tr, now, front);
      StepAdvances(RowRun(Some(tr), front).value, LastTime(now, front), es[|es| - 1]);
    }
  }

  // The second pass of a poll may act on a row that handlers have changed since the poll read its
  // clock. The warning it then writes is due at the row's own time too, and only updated_at can be
  // older than it should be: all else the runs keep survives.
  lemma LateWarningIsDue(tr: Tracked, t: Instant, now: Instant, joined: Option<Policy>, f: RowFaults)
    requires RowInv(tr, t) && now <= t
    ensures var st := WarnPass(tr.st, joined, f, now).(updatedAt := tr.st.updatedAt);
            var epoch := tr.epoch.(samePolicy := tr.epoch.samePolicy && joined == Some(tr.epoch.policy));
            Advances(tr, t, Tracked(st, epoch), t)
  {
    var e := tr.epoch.(samePolicy := tr.epoch.samePolicy && joined == Some(tr.epoch.policy));
    if WarnPast(e, now) { WarnStaysPast(e, now, e, t); }
  }

  /******* What a run makes of the deadlines *******/

  // The deadline with every pause credited to the nanosecond.
  function IdealDue(e: Epoch, minutes: int): Instant {
    e.start + Minutes(minutes) + SumExact(e.pauses)
  }

  predicate Drifted(ideal: Instant, stored: Instant, pauses: nat) {
    if pauses == 0 then stored == ideal else 0 <= ideal - stored < Seconds(pauses)
  }

  // Conservation, and the exact size of what flooring can lose.
  predicate Conserved(st: State, e: Epoch) {
    && st.accumulatedPauseSecs == SumFloors(e.pauses)
    && st.responseDueAt == Some(e.start + Minutes(e.policy.responseMinutes) + Seconds(st.accumulatedPauseSecs))
    && st.resolutionDueAt == Some(e.start + Minutes(e.policy.resolutionMinutes) + Seconds(st.accumulatedPauseSecs))
    && st.resolutionDueAt.value - st.responseDueAt.value
       == Minutes(e.policy.resolutionMinutes) - Minutes(e.policy.responseMinutes)
    && Drifted(IdealDue(e, e.policy.responseMinutes), st.responseDueAt.value, |e.pauses|)
    && Drifted(IdealDue(e, e.policy.resolutionMinutes), st.resolutionDueAt.value, |e.pauses|)
  }

  lemma DeadlinesConserved(from: Instant, es: seq<RowEvent>)
    requires Chronological(from, es) && RowRun(None, es).Some?
    ensures var tr := RowRun(None, es).value; Conserved(tr.st, tr.epoch)
  {
    RunKeepsInv(from, es);
    InvConserves(RowRun(None, es).value, LastTime(from, es));
  }

  lemma InvConserves(tr: Tracked, now: Instant)
    requires RowInv(tr, now)
    ensures Conserved(tr.st, tr.epoch)
  {
    FloorDrift(tr.epoch.pauses);
    DriftBound(tr.epoch, tr.epoch.policy.responseMinutes);
    DriftBound(tr.epoch, tr.epoch.policy.resolutionMinutes);
  }

  lemma DriftBound(e: Epoch, minutes: int)
    requires Forward(e.pauses)
    ensures Drifted(IdealDue(e, minutes), e.start + Minutes(minutes) + Seconds(SumFloors(e.pauses)), |e.pauses|)
  {
    FloorDrift(e.pauses);
  }

  // The drift bound cannot be improved: pauses just short of a second are never credited at all.
  lemma {:induction false} ShortPausesAreNeverCredited(ps: seq<Pause>)
    requires forall i :: 0 <= i < |ps| ==> ps[i].to - ps[i].from == 999_999_999
    ensures SumFloors(ps) == 0 && SumExact(ps) == Seconds(|ps|) - |ps|
  {
    if ps != [] {
      ShortPausesAreNeverCredited(ps[..|ps| - 1]);
    }
  }

  // The row invariant that needs no history, and what it says of the unused breach check.
  lemma ReachableRows(from: Instant, es: seq<RowEvent>)
    requires Chronological(from, es) && RowRun(None, es).Some?
    ensures var st := RowRun(None, es).value.st;
            && (st.stateLabel == Breached <==> st.firstBreachAlertedAt.Some?)
            && (st.paused <==> st.pausedAt.Some?)
            && st.responseMetAt.None? && st.stateLabel != Met
            && !CheckBreach(st)
            && (CheckBreach(st.(firstBreachAlertedAt := None)) <==> st.stateLabel == Breached)
  {
    RunKeepsInv(from, es);
  }

  // Alerts sent in an epoch: one for the breach on record, and one for each whose record was lost.
  lemma AlertsAccountedFor(from: Instant, es: seq<RowEvent>)
    requires Chronological(from, es) && RowRun(None, es).Some?
    ensures var Tracked(st, e) := RowRun(None, es).value;
            && e.alerts == e.lostWrites + (if st.stateLabel == Breached then 1 else 0)
            && (e.lostWrites == 0 ==> e.alerts <= 1)
  {
    RunKeepsInv(from, es);
  }

  /******* Refinement of the pure computation *******/

  function InputOf(tr: Tracked, now: Instant): ComputeInput {
    ComputeInput(tr.epoch.policy.responseMinutes, tr.epoch.policy.resolutionMinutes,
                 tr.epoch.policy.warningThousandths, tr.epoch.start,
                 tr.st.responseMetAt, tr.st.accumulatedPauseSecs, tr.st.paused, now)
  }

  // What a clean poll stores, told by the deadlines.
  lemma PolledLabel(tr: Tracked, now: Instant, e: RowEvent)
    requires RowInv(tr, now) && now <= e.now && !tr.st.paused && tr.epoch.samePolicy
    requires e == Polled(e.now, Some(tr.epoch.policy), NO_FAULTS)
    ensures RowStep(Some(tr), e).value.st.stateLabel == (
              if EarliestDue(tr.epoch) < e.now then Breached
              else if WarnPast(tr.epoch, e.now) then Warning
              else OnTrack)
  {
    var breached := BreachPass(tr.st, e.joined, e.faults, e.now);
    assert RowStep(Some(tr), e).value.st == WarnPass(breached, e.joined, e.faults, e.now);
  }

  // The stored label after a clean poll is the pure one, unless the poll hits the earliest
  // deadline to the nanosecond: then the query still waits and the computation already breaches.
  lemma PollRefinesCompute(tr: Tracked, now: Instant, e: RowEvent)
    requires RowInv(tr, now) && now <= e.now && !tr.st.paused && tr.epoch.samePolicy
    requires e == Polled(e.now, Some(tr.epoch.policy), NO_FAULTS)
    ensures var tr' := RowStep(Some(tr), e).value;
            var pure := ComputeState(InputOf(tr', e.now)).stateLabel;
            && (tr'.st.stateLabel == pure <==> e.now != EarliestDue(tr'.epoch))
            && (e.now == EarliestDue(tr'.epoch) ==> pure == Breached && tr'.st.stateLabel != Breached)
  {
    PolledLabel(tr, now, e);
    var tr' := RowStep(Some(tr), e).value;
    PollAdvances(tr, now, e);
    FloorDrift(tr.epoch.pauses);
    LabelByDeadlines(InputOf(tr', e.now));
    if e.now < EarliestDue(tr.epoch) { PositiveMinutesMatter(tr.epoch, e.now); }
  }

  // Past no deadline, a deadline of no positive length cannot be the one that warns.
  lemma PositiveMinutesMatter(e: Epoch, now: Instant)
    requires e.openPause.None? && HistoryInv(e, now) && now < EarliestDue(e)
    ensures e.policy.responseMinutes > 0 && e.policy.resolutionMinutes > 0
  {
    FloorDrift(e.pauses);
  }

  // The same over any run of the row.
  lemma RunRefinesCompute(from: Instant, es: seq<RowEvent>)
    requires Chronological(from, es) && es != [] && RowRun(None, es).Some?
    requires var Tracked(st, epoch) := RowRun(None, es).value; !st.paused && epoch.samePolicy
    requires var e := es[|es| - 1]; e.Polled? && e.joined.Some? && e.faults == NO_FAULTS
    ensures var tr, now := RowRun(None, es).value, es[|es| - 1].now;
            var pure := ComputeState(InputOf(tr, now)).stateLabel;
            && tr.st.responseDueAt.Some? && tr.st.resolutionDueAt.Some?
            && (tr.st.stateLabel == pure
                <==> now != Min(tr.st.responseDueAt.value, tr.st.resolutionDueAt.value))
  {
    var front := es[..|es| - 1];
    RunKeepsInv(from, front);
    RunKeepsInv(from, es);
    PollRefinesCompute(RowRun(None, front).value, LastTime(from, front), es[|es| - 1]);
  }

  /******* Polls *******/

  // A row without the two columns that only record when the poller last wrote.
  function Forget(st: State): State {
    st.(updatedAt := 0, firstBreachAlertedAt := if st.firstBreachAlertedAt.Some? then Some(0) else None)
  }

  lemma PollRespectsForget(a: State, b: State, policy: Option<Policy>, now: Instant)
    requires Forget(a) == Forget(b)
    ensures Alerts(a, policy, NO_FAULTS, now) == Alerts(b, policy, NO_FAULTS, now)
    ensures Forget(RowPoll(a, policy, NO_FAULTS, now)) == Forget(RowPoll(b, policy, NO_FAULTS, now))
  {
  }

  // An earlier poll adds nothing to a later one.
  lemma EarlierPollAbsorbed(st: State, policy: Option<Policy>, t: Instant, u: Instant)
    requires t <= u
    ensures var once := RowPoll(st, policy, NO_FAULTS, t);
            && Forget(RowPoll(once, policy, NO_FAULTS, u)) == Forget(RowPoll(st, policy, NO_FAULTS, u))
            && (Alerts(st, policy, NO_FAULTS, u)
                <==> Alerts(st, policy, NO_FAULTS, t) || Alerts(once, policy, NO_FAULTS, u))
            && !(Alerts(st, policy, NO_FAULTS, t) && Alerts(once, policy, NO_FAULTS, u))
  {
  }

  // A poll writes the row once or not at all, and every write changes it.
  lemma WritesCountChanges(st: State, policy: Option<Policy>, f: RowFaults, now: Instant)
    ensures RowWrites(st, policy, f, now) == if RowPoll(st, policy, f, now) == st then 0 else 1
  {
  }

  // A second poll at the same instant writes nothing and alerts nobody.
  lemma PollAgainIsSilent(st: State, policy: Option<Policy>, now: Instant)
    ensures var once := RowPoll(st, policy, NO_FAULTS, now);
            && RowPoll(once, policy, NO_FAULTS, now) == once
            && RowWrites(once, policy, NO_FAULTS, now) == 0
            && !Alerts(once, policy, NO_FAULTS, now)
  {
  }

  predicate CleanPolls(es: seq<RowEvent>, policy: Option<Policy>) {
    forall i :: 0 <= i < |es| ==> es[i].Polled? && es[i].joined == policy && es[i].faults == NO_FAULTS
  }

  // Skipped polls are harmless: any number of polls leave the row, and have paged for it, as the last alone would.
  lemma {:induction false} SkippedPollsAreHarmless(tr: Tracked, policy: Option<Policy>, from: Instant,
                                                   es: seq<RowEvent>)
    requires es != [] && Chronological(from, es) && CleanPolls(es, policy)
    ensures var many, one := RowRun(Some(tr), es), RowStep(Some(tr), es[|es| - 1]);
            && many.Some? && one.Some?
            && Forget(many.value.st) == Forget(one.value.st)
            && many.value.epoch.alerts == one.value.epoch.alerts <= tr.epoch.alerts + 1
            && many.value.epoch.earlierAlerts == one.value.epoch.earlierAlerts == tr.epoch.earlierAlerts
  {
    var front, e := es[..|es| - 1], es[|es| - 1];
    if front == [] {
      assert RowRun(Some(tr), front) == Some(tr);
    } else {
      var d := front[|front| - 1];
      SkippedPollsAreHarmless(tr, policy, from, front);
      var before, once := RowRun(Some(tr), front).value, RowStep(Some(tr), d).value;
      PollRespectsForget(before.st, once.st, policy, e.now);
      EarlierPollAbsorbed(tr.st, policy, d.now, e.now);
    }
  }

  /******* Pausing and resuming *******/

  // Polls, repeated pauses and steps of other tickets, but no resume and no new epoch.
  predicate StaysPaused(es: seq<RowEvent>) {
    forall i :: 0 <= i < |es| ==> !es[i].Initialised? && (es[i].Updated? ==> es[i].isPause)
  }

  lemma PausedRowIsNotPolled(st: State, policy: Option<Policy>, f: RowFaults, now: Instant)
    requires st.paused
    ensures RowPoll(st, policy, f, now) == st && RowWrites(st, policy, f, now) == 0 && !Alerts(st, policy, f, now)
  {
  }

  // No poll, whatever its faults and however many there are, writes or alerts a paused row, and no
  // repeated pause moves the instant it stopped at.
  lemma {:induction false} PausedRowsAreLeftAlone(tr: Tracked, es: seq<RowEvent>)
    requires tr.st.paused && tr.epoch.openPause.Some? && StaysPaused(es)
    ensures var r := RowRun(Some(tr), es);
            && r.Some? && r.value.st == tr.st
            && r.value.epoch == tr.epoch.(samePolicy := r.value.epoch.samePolicy)
    ensures forall i :: 0 <= i < |es| && es[i].Polled? ==>
              && RowRun(Some(tr), es[..i]).Some?
              && var st := RowRun(Some(tr), es[..i]).value.st;
                 RowWrites(st, es[i].joined, es[i].faults, es[i].now) == 0 && !AlertedBy(st, es[i])
  {
    if es != [] {
      var front, e := es[..|es| - 1], es[|es| - 1];
      assert StaysPaused(front);
      PausedRowsAreLeftAlone(tr, front);
      forall i | 0 <= i < |front| ensures front[..i] == es[..i] {}
      if e.Polled? { PausedRowIsNotPolled(tr.st, e.joined, e.faults, e.now); }
    }
  }

  // Across one pause a deadline loses exactly the fraction of a second that the floor drops, so a
  // passed deadline stays passed, and one still ahead is missed exactly when it was within that fraction.
  predicate AcrossAPause(st: State, pausedAt: Instant, back: State, resumedAt: Instant) {
    var dropped := (resumedAt - pausedAt) - Seconds(WholeSeconds(resumedAt - pausedAt));
    && 0 <= dropped < Seconds(1)
    && MovedAcross(st.responseDueAt, pausedAt, back.responseDueAt, resumedAt, dropped)
    && MovedAcross(st.resolutionDueAt, pausedAt, back.resolutionDueAt, resumedAt, dropped)
    && !back.paused && back.pausedAt.None? && back.stateLabel == st.stateLabel
    && back.firstBreachAlertedAt == st.firstBreachAlertedAt
  }

  predicate MovedAcross(due: Option<Instant>, pausedAt: Instant, due': Option<Instant>, resumedAt: Instant,
                        dropped: int) {
    && due.Some? && due'.Some?
    && due'.value - resumedAt == due.value - pausedAt - dropped
    && (Past(due, pausedAt) ==> Past(due', resumedAt))
    && (Past(due', resumedAt) <==> due.value - pausedAt < dropped)
    && (Seconds(1) <= due.value - pausedAt ==> resumedAt < due'.value)
  }

  lemma OnePause(st: State, pausedAt: Instant, resumedAt: Instant)
    requires !st.paused && pausedAt <= resumedAt && st.responseDueAt.Some? && st.resolutionDueAt.Some?
    ensures AcrossAPause(st, pausedAt, PauseOrResume(PauseOrResume(st, true, pausedAt), false, resumedAt), resumedAt)
  {
  }

  // The same from a pause to the resume that ends it, with any polls, faults and repeated pauses
  // between, none of which pages.
  lemma PauseNeitherHidesNorInventsABreach(tr: Tracked, now: Instant, pausedAt: Instant, mid: seq<RowEvent>,
                                           resumedAt: Instant)
    requires RowInv(tr, now) && !tr.st.paused && pausedAt <= resumedAt && StaysPaused(mid)
    ensures var r := RowRun(Some(tr), [Updated(pausedAt, true)] + mid + [Updated(resumedAt, false)]);
            && r.Some? && AcrossAPause(tr.st, pausedAt, r.value.st, resumedAt)
            && r.value.epoch.alerts == tr.epoch.alerts && r.value.epoch.earlierAlerts == tr.epoch.earlierAlerts
  {
    var pause, resume := Updated(pausedAt, true), Updated(resumedAt, false);
    var es := [pause] + mid + [resume];
    assert es[..|es| - 1] == [pause] + mid;
    RunFromFront(Some(tr), pause, mid);
    PausedRowsAreLeftAlone(RowStep(Some(tr), pause).value, mid);
    OnePause(tr.st, pausedAt, resumedAt);
  }

  // A pause can invent a breach: from ticket.create, paused a nanosecond before its one-minute
  // deadline and resumed half a second later, a row is breached that was not when it was paused.
  lemma PauseCanInventABreach()
    ensures var es := [Initialised(0, 1, 1, Policy(1, "normal", 1, 2, 200, true)),
                       Updated(59_999_999_999, true), Updated(60_499_999_999, false)];
            var before, after := RowRun(None, es[..1]), RowRun(None, es);
            && Chronological(0, es) && before.Some? && after.Some?
            && !BreachListed(before.value.st, 59_999_999_999) && BreachListed(after.value.st, 60_499_999_999)
            && ComputeState(InputOf(before.value, 59_999_999_999)).stateLabel != Breached
  {
    var es := [Initialised(0, 1, 1, Policy(1, "normal", 1, 2, 200, true)),
               Updated(59_999_999_999, true), Updated(60_499_999_999, false)];
    assert es[..2][..1] == es[..1] && es[..1][..0] == [];
    assert RowRun(None, es[..2]) == RowStep(RowRun(None, es[..1]), es[1]);
    assert RowRun(None, es) == RowStep(RowRun(None, es[..2]), es[2]);
    assert RowRun(None, es[..1]) == RowStep(None, es[0]);
  }

  function ClassAfter(paused: bool, e: RowEvent): bool {
    match e
    case Updated(_, isPause) => isPause
    case Initialised(_, _, _, _) => false
    case _ => paused
  }

  // A run without the updates whose pause class repeats the one in force.
  function Compress(paused: bool, es: seq<RowEvent>): seq<RowEvent>
    decreases |es|
  {
    if es == [] then []
    else if es[0].Updated? && es[0].isPause == paused then Compress(paused, es[1..])
    else [es[0]] + Compress(ClassAfter(paused, es[0]), es[1..])
  }

  // No update left repeats the pause class in force, and nothing but updates is gone.
  predicate NoRepeats(paused: bool, es: seq<RowEvent>)
    decreases |es|
  {
    es != [] ==> (es[0].Updated? ==> es[0].isPause != paused) && NoRepeats(ClassAfter(paused, es[0]), es[1..])
  }

  function Others(es: seq<RowEvent>): seq<RowEvent>
    decreases |es|
  {
    if es == [] then [] else (if es[0].Updated? then [] else [es[0]]) + Others(es[1..])
  }

  lemma {:induction false} CompressDropsRepeats(paused: bool, es: seq<RowEvent>)
    ensures NoRepeats(paused, Compress(paused, es)) && Others(Compress(paused, es)) == Others(es)
    decreases |es|
  {
    if es != [] {
      if es[0].Updated? && es[0].isPause == paused {
        CompressDropsRepeats(paused, es[1..]);
      } else {
        CompressDropsRepeats(ClassAfter(paused, es[0]), es[1..]);
        assert Compress(paused, es)[1..] == Compress(ClassAfter(paused, es[0]), es[1..]);
      }
    }
  }

  lemma {:induction false} RunFromFront(r: Option<Tracked>, e: RowEvent, es: seq<RowEvent>)
    ensures RowRun(r, [e] + es) == RowRun(RowStep(r, e), es)
    decreases |es|
  {
    var all := [e] + es;
    if es == [] {
      assert all[..|all| - 1] == [];
    } else {
      assert all[..|all| - 1] == [e] + es[..|es| - 1];
      RunFromFront(r, e, es[..|es| - 1]);
    }
  }

  // Repeated updates never count a pause twice: deleting them from any run, whatever else happens
  // in it, leaves the very same row and history.
  lemma {:induction false} RepeatedUpdatesChangeNothing(r: Option<Tracked>, paused: bool, es: seq<RowEvent>)
    requires r.Some? ==> r.value.st.paused == r.value.epoch.openPause.Some? == paused
    ensures RowRun(r, es) == RowRun(r, Compress(paused, es))
    decreases |es|
  {
    if es != [] {
      var e, rest := es[0], es[1..];
      assert es == [e] + rest;
      RunFromFront(r, e, rest);
      if e.Updated? && e.isPause == paused {
        RepeatedUpdatesChangeNothing(r, paused, rest);
      } else {
        RepeatedUpdatesChangeNothing(RowStep(r, e), ClassAfter(paused, e), rest);
        RunFromFront(r, e, Compress(ClassAfter(paused, e), rest));
      }
    }
  }

  // A row keeps its primary key through every rewrite.
  lemma {:induction false} RowIdNeverChanges(tr: Tracked, es: seq<RowEvent>)
    ensures RowRun(Some(tr), es).Some? && RowRun(Some(tr), es).value.st.id == tr.st.id
  {
    if es != [] { RowIdNeverChanges(tr, es[..|es| - 1]); }
  }
}
