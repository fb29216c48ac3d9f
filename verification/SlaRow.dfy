/**
 What the worker does to one row of sla_states, as functions of the row
 (internal/worker/resolve.go, internal/worker/slapoller.go), and the history a
 run leaves behind for that row.
 */
module SlaRow {
  import opened Prelude
  import opened Clock
  import opened Sla

  /******* ticket.create and ticket.update *******/

  // The row ticket.create writes once it has found the default policy.
  function InitState(id: Uuid, ticketMetaId: Uuid, policy: Policy, now: Instant): State {
    State(id, ticketMetaId,
          Some(now + Minutes(policy.responseMinutes)), Some(now + Minutes(policy.resolutionMinutes)),
          None, None, OnTrack, false, None, 0, now)
  }

  predicate IsPauseState(zammadState: string) {
    zammadState == "pending reminder" || zammadState == "pending close"
  }

  function Extend(due: Option<Instant>, secs: int): Option<Instant> {
    if due.Some? then Some(due.value + Seconds(secs)) else None
  }

  function PausedSecs(st: State, now: Instant): int {
    if st.pausedAt.Some? then WholeSeconds(now - st.pausedAt.value) else 0
  }

  // ticket.update writes the row only when its pause class differs from the row's.
  predicate ChangesClass(st: State, isPause: bool) { isPause != st.paused }

  function PauseOrResume(st: State, isPause: bool, now: Instant): State {
    if isPause && !st.paused then
      st.(paused := true, pausedAt := Some(now), updatedAt := now)
    else if !isPause && st.paused then
      var secs := PausedSecs(st, now);
      st.(accumulatedPauseSecs := st.accumulatedPauseSecs + secs,
          responseDueAt := Extend(st.responseDueAt, secs),
          resolutionDueAt := Extend(st.resolutionDueAt, secs),
          paused := false, pausedAt := None, updatedAt := now)
    else
      st
  }

  /******* The poller *******/

  predicate Past(due: Option<Instant>, now: Instant) { due.Some? && due.value < now }

  // The predicate of the first query.
  predicate BreachListed(st: State, now: Instant) {
    && st.firstBreachAlertedAt.None?
    && !st.paused
    && ((Past(st.responseDueAt, now) && st.responseMetAt.None?) || Past(st.resolutionDueAt, now))
  }

  // The predicate of the second query, apart from its joins.
  predicate ActiveListed(st: State) {
    st.stateLabel == OnTrack && !st.paused && st.firstBreachAlertedAt.None?
  }

  predicate ShouldWarn(st: State, responseMinutes: int, resolutionMinutes: int, thousandths: int, now: Instant) {
    || (st.responseDueAt.Some? && st.responseMetAt.None? && responseMinutes > 0
        && st.responseDueAt.value - WarningWindow(responseMinutes, thousandths) < now)
    || (st.resolutionDueAt.Some? && resolutionMinutes > 0
        && st.resolutionDueAt.value - WarningWindow(resolutionMinutes, thousandths) < now)
  }

  function MarkBreached(st: State, now: Instant): State {
    st.(stateLabel := Breached, firstBreachAlertedAt := Some(now), updatedAt := now)
  }

  function MarkWarning(st: State, now: Instant): State {
    st.(stateLabel := Warning, updatedAt := now)
  }

  // How one poll went for one row: whether each pass got to it, and which of its calls succeeded.
  datatype RowFaults = RowFaults(
    reached: bool, lookupsOk: bool, alertOk: bool, writeOk: bool,
    reachedWarn: bool, warnWriteOk: bool)

  const NO_FAULTS := RowFaults(true, true, true, true, true, true)

  predicate Alerts(st: State, policy: Option<Policy>, f: RowFaults, now: Instant) {
    f.reached && BreachListed(st, now) && policy.Some? && f.lookupsOk && f.alertOk
  }

  function BreachPass(st: State, policy: Option<Policy>, f: RowFaults, now: Instant): State {
    if Alerts(st, policy, f, now) && f.writeOk then MarkBreached(st, now) else st
  }

  predicate Warns(st: State, policy: Option<Policy>, f: RowFaults, now: Instant) {
    && f.reachedWarn && ActiveListed(st) && policy.Some? && f.warnWriteOk
    && ShouldWarn(st, policy.value.responseMinutes, policy.value.resolutionMinutes,
                  policy.value.warningThousandths, now)
  }

  function WarnPass(st: State, policy: Option<Policy>, f: RowFaults, now: Instant): State {
    if Warns(st, policy, f, now) then MarkWarning(st, now) else st
  }

  function RowPoll(st: State, policy: Option<Policy>, f: RowFaults, now: Instant): State {
    WarnPass(BreachPass(st, policy, f, now), policy, f, now)
  }

  // How many times one poll writes the row.
  function RowWrites(st: State, policy: Option<Policy>, f: RowFaults, now: Instant): nat {
    (if Alerts(st, policy, f, now) && f.writeOk then 1 else 0)
    + (if Warns(BreachPass(st, policy, f, now), policy, f, now) then 1 else 0)
  }

  /******* History of a row *******/

  // One completed pause.
  datatype Pause = Pause(from: Instant, to: Instant)

  /**
   What an observer of the events, who never looks at the row, knows about the time since
   ticket.create last wrote the row. `alerts` counts the breach alerts sent, `lostWrites` those
   whose following state write failed, and `earlierAlerts` the alerts of former epochs.
   `samePolicy` says that every poll so far read the policy the epoch started with.
   */
  datatype Epoch = Epoch(
    start: Instant,
    policy: Policy,
    pauses: seq<Pause>,
    openPause: Option<Instant>,
    alerts: nat,
    lostWrites: nat,
    earlierAlerts: nat,
    samePolicy: bool)

  datatype Tracked = Tracked(st: State, epoch: Epoch)

  // What one step of the worker means for one ticket.
  datatype RowEvent =
    | Initialised(now: Instant, stateId: Uuid, ticketMetaId: Uuid, policy: Policy)
    | Updated(now: Instant, isPause: bool)
    | Polled(now: Instant, joined: Option<Policy>, faults: RowFaults)
    | Untouched(now: Instant)

  // INSERT ... ON CONFLICT (ticket_meta_id) DO UPDATE leaves the id column alone.
  function KeepId(before: Option<State>, st: State): State {
    if before.Some? then st.(id := before.value.id) else st
  }

  function StateOf(r: Option<Tracked>): Option<State> {
    if r.Some? then Some(r.value.st) else None
  }

  function NextState(before: Option<State>, e: RowEvent): Option<State> {
    match e
    case Initialised(now, id, meta, policy) => Some(KeepId(before, InitState(id, meta, policy, now)))
    case Updated(now, isPause) => if before.Some? then Some(PauseOrResume(before.value, isPause, now)) else None
    case Polled(now, joined, f) => if before.Some? then Some(RowPoll(before.value, joined, f, now)) else None
    case Untouched(_) => before
  }

  function Observe(epoch: Epoch, e: RowEvent, alerted: bool): Epoch {
    match e
    case Initialised(now, _, _, policy) =>
      Epoch(now, policy, [], None, 0, 0, epoch.earlierAlerts + epoch.alerts, true)
    case Updated(now, isPause) =>
      if isPause then
        if epoch.openPause.None? then epoch.(openPause := Some(now)) else epoch
      else
        if epoch.openPause.Some?
        then epoch.(openPause := None, pauses := epoch.pauses + [Pause(epoch.openPause.value, now)])
        else epoch
    case Polled(_, joined, f) =>
      epoch.(alerts := epoch.alerts + (if alerted then 1 else 0),
             lostWrites := epoch.lostWrites + (if alerted && !f.writeOk then 1 else 0),
             samePolicy := epoch.samePolicy && joined == Some(epoch.policy))
    case Untouched(_) => epoch
  }

  predicate AlertedBy(st: State, e: RowEvent) {
    e.Polled? && Alerts(st, e.joined, e.faults, e.now)
  }

  function RowStep(r: Option<Tracked>, e: RowEvent): (r': Option<Tracked>)
    ensures StateOf(r') == NextState(StateOf(r), e)
  {
    match r
    case Some(Tracked(st, epoch)) =>
      Some(Tracked(NextState(Some(st), e).value, Observe(epoch, e, AlertedBy(st, e))))
    case None =>
      if e.Initialised? then
        Some(Tracked(InitState(e.stateId, e.ticketMetaId, e.policy, e.now),
                     Epoch(e.now, e.policy, [], None, 0, 0, 0, true)))
      else
        None
  }

  function RowRun(r: Option<Tracked>, es: seq<RowEvent>): Option<Tracked> {
    if es == [] then r else RowStep(RowRun(r, es[..|es| - 1]), es[|es| - 1])
  }

  // The clock never runs backwards from one event to the next.
  predicate Chronological(from: Instant, es: seq<RowEvent>) {
    && (es != [] ==> from <= es[0].now)
    && forall i :: 0 < i < |es| ==> es[i - 1].now <= es[i].now
  }

  function LastTime(from: Instant, es: seq<RowEvent>): Instant {
    if es == [] then from else es[|es| - 1].now
  }
}
