/**
 The SLA domain: policies, stored rows and the pure clock computation
 (internal/sla/sla.go, internal/sla/service.go).
 */
module Sla {
  import opened Prelude
  import opened Clock

  datatype StateLabel = OnTrack | Warning | Breached | Met

  // The threshold is in thousandths: its column is NUMERIC(4,3).
  datatype Policy = Policy(
    id: Uuid,
    priority: string,
    responseMinutes: int,
    resolutionMinutes: int,
    warningThousandths: int,
    isDefault: bool)

  // One row of sla_states.
  datatype State = State(
    id: Uuid,
    ticketMetaId: Uuid,
    responseDueAt: Option<Instant>,
    resolutionDueAt: Option<Instant>,
    responseMetAt: Option<Instant>,
    firstBreachAlertedAt: Option<Instant>,
    stateLabel: StateLabel,
    paused: bool,
    pausedAt: Option<Instant>,
    accumulatedPauseSecs: int,
    updatedAt: Instant)

  datatype ComputeInput = ComputeInput(
    responseMinutes: int,
    resolutionMinutes: int,
    warningThousandths: int,
    ticketCreatedAt: Instant,
    responseMetAt: Option<Instant>,
    accumulatedPause: int,
    paused: bool,
    now: Instant)

  datatype ComputeResult = ComputeResult(
    stateLabel: StateLabel,
    responseDueAt: Instant,
    resolutionDueAt: Instant,
    responseSecondsRemaining: int,
    resolutionSecondsRemaining: int,
    paused: bool)

  // The order in which a running clock takes the labels; Met stands outside it.
  predicate NoLower(before: StateLabel, after: StateLabel) {
    || before == after
    || (before == OnTrack && (after == Warning || after == Breached))
    || (before == Warning && after == Breached)
  }

  // warning_threshold * total time, exact: a minute is 60_000_000 thousandth-nanoseconds.
  function WarningWindow(minutes: int, thousandths: int): int {
    minutes * thousandths * 60_000_000
  }

  function EffectiveElapsed(created: Instant, pauseSecs: int, now: Instant): int {
    Max(0, now - created - Seconds(pauseSecs))
  }

  function RemainingSeconds(due: Instant, created: Instant, pauseSecs: int, now: Instant): int {
    var remaining := (due - created) - EffectiveElapsed(created, pauseSecs, now);
    if remaining < 0 then 0 else WholeSeconds(remaining)
  }

  // The label a running clock shows, in the order the source tests it: met, breached, warning.
  function RunningLabel(inp: ComputeInput): StateLabel {
    var elapsed := EffectiveElapsed(inp.ticketCreatedAt, inp.accumulatedPause, inp.now);
    var responseTotal := Minutes(inp.responseMinutes);
    var resolutionTotal := Minutes(inp.resolutionMinutes);
    var responseRemaining := responseTotal - elapsed;
    var resolutionRemaining := resolutionTotal - elapsed;
    var responseMet := inp.responseMetAt.Some?;
    if responseMet && resolutionRemaining > 0
       && inp.responseMetAt.value - inp.ticketCreatedAt - Seconds(inp.accumulatedPause) <= responseTotal then Met
    else if (!responseMet && responseRemaining <= 0) || resolutionRemaining <= 0 then Breached
    else if !responseMet && responseRemaining < WarningWindow(inp.responseMinutes, inp.warningThousandths) then Warning
    else if resolutionRemaining < WarningWindow(inp.resolutionMinutes, inp.warningThousandths) then Warning
    else OnTrack
  }

  function ComputeState(inp: ComputeInput): ComputeResult {
    var responseDue := inp.ticketCreatedAt + Minutes(inp.responseMinutes);
    var resolutionDue := inp.ticketCreatedAt + Minutes(inp.resolutionMinutes);
    if inp.paused then
      ComputeResult(
        OnTrack, responseDue, resolutionDue,
        RemainingSeconds(responseDue, inp.ticketCreatedAt, inp.accumulatedPause, inp.now),
        RemainingSeconds(resolutionDue, inp.ticketCreatedAt, inp.accumulatedPause, inp.now),
        true)
    else
      var elapsed := EffectiveElapsed(inp.ticketCreatedAt, inp.accumulatedPause, inp.now);
      ComputeResult(
        RunningLabel(inp), responseDue, resolutionDue,
        Max(0, WholeSeconds(Minutes(inp.responseMinutes) - elapsed)),
        Max(0, WholeSeconds(Minutes(inp.resolutionMinutes) - elapsed)),
        false)
  }

  predicate CheckBreach(st: State) {
    st.stateLabel == Breached && st.firstBreachAlertedAt.None?
  }

  /******* The law of the computation, in the units of its columns *******/

  // What is reported, paused or not: the deadlines without pauses, and the whole seconds left until
  // the deadlines with the accumulated pause added, or zero once they have passed. A clock that stands
  // before the pause-shifted start has all of its time left.
  lemma ReportedSeconds(inp: ComputeInput)
    ensures var r, start := ComputeState(inp), inp.ticketCreatedAt + 1_000_000_000 * inp.accumulatedPause;
            var spent := if inp.now < start then 0 else inp.now - start;
            var responseLeft := 60_000_000_000 * inp.responseMinutes - spent;
            var resolutionLeft := 60_000_000_000 * inp.resolutionMinutes - spent;
            && (if responseLeft < 0 then r.responseSecondsRemaining == 0
                else 1_000_000_000 * r.responseSecondsRemaining <= responseLeft
                     < 1_000_000_000 * (r.responseSecondsRemaining + 1))
            && (if resolutionLeft < 0 then r.resolutionSecondsRemaining == 0
                else 1_000_000_000 * r.resolutionSecondsRemaining <= resolutionLeft
                     < 1_000_000_000 * (r.resolutionSecondsRemaining + 1))
            && r.responseDueAt == inp.ticketCreatedAt + 60_000_000_000 * inp.responseMinutes
            && r.resolutionDueAt == inp.ticketCreatedAt + 60_000_000_000 * inp.resolutionMinutes
            && r.paused == inp.paused
  {
  }

  // The window is the threshold's share of the total time.
  lemma WindowIsAShare(minutes: int, thousandths: int)
    ensures 1000 * WarningWindow(minutes, thousandths) == thousandths * (60_000_000_000 * minutes)
  {
  }

  // The label of an unanswered running clock: breached when no time is left for one of the two, warning
  // when less than the threshold's share of its total is left of one.
  lemma LabelLaw(inp: ComputeInput)
    requires !inp.paused && inp.responseMetAt.None?
    ensures var start := inp.ticketCreatedAt + 1_000_000_000 * inp.accumulatedPause;
            var spent := if inp.now < start then 0 else inp.now - start;
            var response, resolution := 60_000_000_000 * inp.responseMinutes, 60_000_000_000 * inp.resolutionMinutes;
            ComputeState(inp).stateLabel == (
              if response - spent <= 0 || resolution - spent <= 0 then Breached
              else if 1000 * (response - spent) < inp.warningThousandths * response
                   || 1000 * (resolution - spent) < inp.warningThousandths * resolution then Warning
              else OnTrack)
  {
    WindowIsAShare(inp.responseMinutes, inp.warningThousandths);
    WindowIsAShare(inp.resolutionMinutes, inp.warningThousandths);
  }

  /******* Algebra of the pure computation *******/

  // A later clock or a smaller pause total never lowers the label, for every policy whatsoever.
  lemma LabelMonotone(inp: ComputeInput, later: Instant, lessPause: int)
    requires !inp.paused && inp.responseMetAt.None?
    requires inp.now <= later && lessPause <= inp.accumulatedPause
    ensures var worse := inp.(now := later, accumulatedPause := lessPause);
            && NoLower(ComputeState(inp).stateLabel, ComputeState(worse).stateLabel)
            && ComputeState(worse).responseSecondsRemaining <= ComputeState(inp).responseSecondsRemaining
            && ComputeState(worse).resolutionSecondsRemaining <= ComputeState(inp).resolutionSecondsRemaining
  {
    var worse := inp.(now := later, accumulatedPause := lessPause);
    var before := EffectiveElapsed(inp.ticketCreatedAt, inp.accumulatedPause, inp.now);
    var after := EffectiveElapsed(inp.ticketCreatedAt, lessPause, later);
    assert before <= after;
    WholeSecondsMonotone(Minutes(inp.responseMinutes) - after, Minutes(inp.responseMinutes) - before);
    WholeSecondsMonotone(Minutes(inp.resolutionMinutes) - after, Minutes(inp.resolutionMinutes) - before);
  }

  lemma WholeSecondsMonotone(a: int, b: int)
    requires a <= b
    ensures WholeSeconds(a) <= WholeSeconds(b)
  {
  }

  // A pause of k whole seconds that is credited in full is invisible, running or paused.
  lemma CreditedPauseIsInvisible(inp: ComputeInput, k: int)
    requires inp.responseMetAt.None?
    ensures ComputeState(inp.(now := inp.now + Seconds(k), accumulatedPause := inp.accumulatedPause + k))
         == ComputeState(inp)
  {
    var moved := inp.(now := inp.now + Seconds(k), accumulatedPause := inp.accumulatedPause + k);
    assert Seconds(inp.accumulatedPause + k) == Seconds(inp.accumulatedPause) + Seconds(k);
    assert EffectiveElapsed(moved.ticketCreatedAt, moved.accumulatedPause, moved.now)
        == EffectiveElapsed(inp.ticketCreatedAt, inp.accumulatedPause, inp.now);
  }

  // The paused branch does not freeze anything: it reports what the running branch would report.
  lemma PausedBranchReportsRunningSeconds(inp: ComputeInput)
    ensures var p := ComputeState(inp.(paused := true));
            var r := ComputeState(inp.(paused := false));
            && p.responseSecondsRemaining == r.responseSecondsRemaining >= 0
            && p.resolutionSecondsRemaining == r.resolutionSecondsRemaining >= 0
            && p.responseDueAt == r.responseDueAt && p.resolutionDueAt == r.resolutionDueAt
            && p.stateLabel == OnTrack
  {
  }

  // The label of an unanswered running clock, told by the two deadlines instead of elapsed time.
  lemma LabelByDeadlines(inp: ComputeInput)
    requires !inp.paused && inp.responseMetAt.None?
    requires inp.ticketCreatedAt + Seconds(inp.accumulatedPause) <= inp.now
    ensures var responseDue := inp.ticketCreatedAt + Minutes(inp.responseMinutes) + Seconds(inp.accumulatedPause);
            var resolutionDue := inp.ticketCreatedAt + Minutes(inp.resolutionMinutes) + Seconds(inp.accumulatedPause);
            var warnAt := Min(responseDue - WarningWindow(inp.responseMinutes, inp.warningThousandths),
                              resolutionDue - WarningWindow(inp.resolutionMinutes, inp.warningThousandths));
            ComputeState(inp).stateLabel == (
              if Min(responseDue, resolutionDue) <= inp.now then Breached
              else if warnAt < inp.now then Warning
              else OnTrack)
  {
  }

  // When a response is on record: Met exactly while it beat its deadline and the resolution
  // deadline is still ahead. A late response leaves the label to the resolution deadline.
  lemma LabelOnceAnswered(inp: ComputeInput)
    requires !inp.paused && inp.responseMetAt.Some?
    requires inp.ticketCreatedAt + Seconds(inp.accumulatedPause) <= inp.now
    ensures var responseDue := inp.ticketCreatedAt + Minutes(inp.responseMinutes) + Seconds(inp.accumulatedPause);
            var resolutionDue := inp.ticketCreatedAt + Minutes(inp.resolutionMinutes) + Seconds(inp.accumulatedPause);
            var warnAt := resolutionDue - WarningWindow(inp.resolutionMinutes, inp.warningThousandths);
            ComputeState(inp).stateLabel == (
              if resolutionDue <= inp.now then Breached
              else if inp.responseMetAt.value <= responseDue then Met
              else if warnAt < inp.now then Warning
              else OnTrack)
  {
  }

  // Met is not final: with time alone it lapses into Breached at the resolution deadline.
  lemma MetLapses(inp: ComputeInput, later: Instant)
    requires !inp.paused && ComputeState(inp).stateLabel == Met && inp.now <= later
    requires inp.ticketCreatedAt + Seconds(inp.accumulatedPause) <= inp.now
    ensures var resolutionDue := inp.ticketCreatedAt + Minutes(inp.resolutionMinutes) + Seconds(inp.accumulatedPause);
            ComputeState(inp.(now := later)).stateLabel == (if later < resolutionDue then Met else Breached)
  {
    LabelOnceAnswered(inp);
    LabelOnceAnswered(inp.(now := later));
  }
}
