/**
 The two passes of a poll, row by listed row (internal/worker/slapoller.go). A pass works on the
 rows as its query returned them and writes each back in full.
 */
module PollPasses {
  import opened Prelude
  import opened Clock
  import opened Sla
  import opened SlaRow
  import opened WorkerModel

  // A row of the second query: the state with the policy parameters joined to it.
  datatype ActiveRow = ActiveRow(st: State, responseMinutes: int, resolutionMinutes: int, warningThousandths: int)

  function ProcessBreached(w: World, st: State, now: Instant, f: RowFaults): World {
    var policy := PolicyAt(w, st.ticketMetaId);
    if st.firstBreachAlertedAt.Some? then
      if f.writeOk then w.(states := UpsertedState(w.states, st.(updatedAt := now))) else w
    else if !f.lookupsOk || policy.None? || !f.alertOk then
      w
    else
      w.(alerts := w.alerts + [AlertFor(st, w.metas[st.ticketMetaId], policy.value, now)],
         states := if f.writeOk then UpsertedState(w.states, MarkBreached(st, now)) else w.states)
  }

  function ProcessActive(w: World, a: ActiveRow, now: Instant, f: RowFaults): World {
    if a.st.stateLabel == OnTrack
       && ShouldWarn(a.st, a.responseMinutes, a.resolutionMinutes, a.warningThousandths, now)
       && f.warnWriteOk
    then w.(states := UpsertedState(w.states, MarkWarning(a.st, now)))
    else w
  }

  function BreachFold(w: World, rows: seq<State>, now: Instant, f: PollFaults): World {
    if rows == [] then w
    else
      var st := rows[|rows| - 1];
      ProcessBreached(BreachFold(w, rows[..|rows| - 1], now, f), st, now, FaultsOf(f, st.ticketMetaId))
  }

  function WarnFold(w: World, rows: seq<ActiveRow>, now: Instant, f: PollFaults): World {
    if rows == [] then w
    else
      var a := rows[|rows| - 1];
      ProcessActive(WarnFold(w, rows[..|rows| - 1], now, f), a, now, FaultsOf(f, a.st.ticketMetaId))
  }

  function Ids(rows: seq<State>): (ids: seq<Uuid>)
    ensures |ids| == |rows| && forall i :: 0 <= i < |rows| ==> ids[i] == rows[i].ticketMetaId
  {
    seq(|rows|, i requires 0 <= i < |rows| => rows[i].ticketMetaId)
  }

  function ActiveIds(rows: seq<ActiveRow>): (ids: seq<Uuid>)
    ensures |ids| == |rows| && forall i :: 0 <= i < |rows| ==> ids[i] == rows[i].st.ticketMetaId
  {
    seq(|rows|, i requires 0 <= i < |rows| => rows[i].st.ticketMetaId)
  }

  // Some of the rows the breach query returns, as they stand, each once.
  predicate BreachRows(w: World, now: Instant, rows: seq<State>) {
    && Distinct(Ids(rows))
    && forall i :: 0 <= i < |rows| ==>
         StateAt(w, rows[i].ticketMetaId) == Some(rows[i]) && BreachListed(rows[i], now)
  }

  predicate ActiveAt(w: World, id: Uuid) {
    id in w.states && ActiveListed(w.states[id]) && PolicyAt(w, id).Some?
  }

  predicate JoinedRow(w: World, a: ActiveRow) {
    && ActiveAt(w, a.st.ticketMetaId)
    && a.st == w.states[a.st.ticketMetaId]
    && var p := PolicyAt(w, a.st.ticketMetaId).value;
       a.responseMinutes == p.responseMinutes && a.resolutionMinutes == p.resolutionMinutes
       && a.warningThousandths == p.warningThousandths
  }

  // Some of the rows the active query returns, as they stand, each once.
  predicate ActiveRows(w: World, rows: seq<ActiveRow>) {
    && Distinct(ActiveIds(rows))
    && forall i :: 0 <= i < |rows| ==> JoinedRow(w, rows[i])
  }

  /******* Row locality of the loops *******/

  // One step of the first loop on a row no earlier step has touched.
  lemma ProcessBreachedIsLocal(w: World, st: State, now: Instant, f: RowFaults)
    requires StateAt(w, st.ticketMetaId) == Some(st) && BreachListed(st, now) && f.reached
    ensures var w', id, policy := ProcessBreached(w, st, now, f), st.ticketMetaId, PolicyAt(w, st.ticketMetaId);
            && w'.metas == w.metas && w'.policies == w.policies
            && w'.states == w.states[id := BreachPass(st, policy, f, now)]
            && w'.alerts == w.alerts + (if Alerts(st, policy, f, now) then
                [AlertFor(st, w.metas[id], policy.value, now)] else [])
  {
    assert w.states == w.states[st.ticketMetaId := st];
  }

  function AfterBreach(w: World, rows: seq<State>, id: Uuid, now: Instant, f: PollFaults): State
    requires id in w.states
  {
    if id in Ids(rows) then BreachPass(w.states[id], PolicyAt(w, id), FaultsOf(f, id), now) else w.states[id]
  }

  function AfterWarn(w: World, rows: seq<ActiveRow>, id: Uuid, now: Instant, f: PollFaults): State
    requires id in w.states
  {
    if id in ActiveIds(rows) then WarnPass(w.states[id], PolicyAt(w, id), FaultsOf(f, id), now) else w.states[id]
  }

  // Whatever the order of its rows, the first loop leaves every listed row as the row function
  // leaves it, every other row alone, and sends its alerts in listing order.
  lemma {:induction false} BreachFoldIsRowLocal(w: World, rows: seq<State>, now: Instant, f: PollFaults)
    requires BreachRows(w, now, rows) && !f.breachQueryFails && f.unreached == {}
    ensures BreachFolded(w, rows, now, f, BreachFold(w, rows, now, f))
  {
    if rows != [] {
      var front, st := rows[..|rows| - 1], rows[|rows| - 1];
      FrontOfListing(w, now, rows);
      BreachFoldIsRowLocal(w, front, now, f);
      BreachFoldStep(w, front, st, now, f, BreachFold(w, front, now, f));
      assert rows == front + [st];
    }
  }

  predicate BreachFolded(w: World, rows: seq<State>, now: Instant, f: PollFaults, w': World) {
    && w'.metas == w.metas && w'.policies == w.policies && w'.states.Keys == w.states.Keys
    && (forall id <- w.states :: w'.states[id] == AfterBreach(w, rows, id, now, f))
    && w'.alerts == w.alerts + AlertsInOrder(w, Ids(rows), f, now)
  }

  lemma FrontOfListing(w: World, now: Instant, rows: seq<State>)
    requires BreachRows(w, now, rows) && rows != []
    ensures var front := rows[..|rows| - 1];
            BreachRows(w, now, front) && Ids(rows) == Ids(front) + [rows[|rows| - 1].ticketMetaId]
            && rows[|rows| - 1].ticketMetaId !in Ids(front)
  {
  }

  lemma BreachFoldStep(w: World, front: seq<State>, st: State, now: Instant, f: PollFaults, v: World)
    requires BreachFolded(w, front, now, f, v) && !f.breachQueryFails && f.unreached == {}
    requires StateAt(w, st.ticketMetaId) == Some(st) && BreachListed(st, now) && st.ticketMetaId !in Ids(front)
    ensures BreachFolded(w, front + [st], now, f, ProcessBreached(v, st, now, FaultsOf(f, st.ticketMetaId)))
  {
    var id := st.ticketMetaId;
    assert PolicyAt(v, id) == PolicyAt(w, id) && StateAt(v, id) == Some(st);
    ProcessBreachedIsLocal(v, st, now, FaultsOf(f, id));
    assert Ids(front + [st]) == Ids(front) + [id];
    assert (Ids(front) + [id])[..|front|] == Ids(front);
  }

  lemma {:induction false} WarnFoldIsRowLocal(w: World, rows: seq<ActiveRow>, now: Instant, f: PollFaults)
    requires ActiveRows(w, rows) && !f.breachQueryFails && !f.warnPassSkipped && f.unreachedWarn == {}
    ensures var w' := WarnFold(w, rows, now, f);
            && w'.metas == w.metas && w'.policies == w.policies && w'.alerts == w.alerts
            && w'.states.Keys == w.states.Keys
            && (forall id :: id in w.states ==>
                 w'.states[id] == AfterWarn(w, rows, id, now, f))
  {
    if rows != [] {
      var front, a := rows[..|rows| - 1], rows[|rows| - 1];
      var id := a.st.ticketMetaId;
      assert ActiveIds(rows) == ActiveIds(front) + [id];
      assert id !in ActiveIds(front);
      WarnFoldIsRowLocal(w, front, now, f);
      var v := WarnFold(w, front, now, f);
      assert PolicyAt(v, id) == PolicyAt(w, id) && StateAt(v, id) == Some(a.st);
    }
  }

  /******* A whole poll *******/

  predicate Unbroken(f: PollFaults) {
    !f.breachQueryFails && !f.warnPassSkipped && f.unreached == {} && f.unreachedWarn == {}
  }

  ghost predicate ActiveListing(w: World, rows: seq<ActiveRow>) {
    ActiveRows(w, rows) && forall id :: id in ActiveIds(rows) <==> ActiveAt(w, id)
  }

  function IdsFrom(ids: seq<Uuid>, k: nat): set<Uuid>
    requires k <= |ids|
  {
    set i | k <= i < |ids| :: ids[i]
  }

  // The alerts of a cut-short pass are those of the rows before the cut.
  lemma {:induction false} AlertsBeforeTheCut(w: World, order: seq<Uuid>, k: nat, n: nat, f: PollFaults,
                                              g: PollFaults, now: Instant)
    requires Distinct(order) && k <= n <= |order|
    requires Unbroken(f) && g == f.(unreached := IdsFrom(order, k), warnPassSkipped := g.warnPassSkipped,
                                 unreachedWarn := g.unreachedWarn)
    ensures AlertsInOrder(w, order[..n], g, now) == AlertsInOrder(w, order[..k], f, now)
    decreases n
  {
    if n > 0 {
      assert order[..n][..n - 1] == order[..n - 1];
      if k < n {
        AlertsBeforeTheCut(w, order, k, n - 1, f, g, now);
        assert order[n - 1] in g.unreached;
      } else {
        SameAlerts(w, order[..k], f, g, now);
      }
    }
  }

  lemma {:induction false} SameAlerts(w: World, order: seq<Uuid>, f: PollFaults, g: PollFaults, now: Instant)
    requires forall id <- order :: AlertsAt(w, id, f, now) == AlertsAt(w, id, g, now)
    ensures AlertsInOrder(w, order, f, now) == AlertsInOrder(w, order, g, now)
  {
    if order != [] { SameAlerts(w, order[..|order| - 1], f, g, now); }
  }

  // In a listing without repetition an id is before the cut or after it, not both.
  lemma Position(ids: seq<Uuid>, id: Uuid, k: nat)
    requires Distinct(ids) && id in ids && k <= |ids|
    ensures id in ids[..k] <==> id !in IdsFrom(ids, k)
  {
  }

  lemma RowOfACutPass(w: World, rows: seq<State>, k: nat, now: Instant, f: PollFaults, g: PollFaults, id: Uuid)
    requires BreachListing(w, now, Ids(rows)) && k <= |rows| && Unbroken(f) && id in w.states
    requires g == f.(unreached := IdsFrom(Ids(rows), k), warnPassSkipped := true)
    ensures AfterBreach(w, rows[..k], id, now, f) == RowPoll(w.states[id], PolicyAt(w, id), FaultsOf(g, id), now)
  {
    assert Ids(rows[..k]) == Ids(rows)[..k];
    if id in Ids(rows) { Position(Ids(rows), id, k); }
  }

  // A poll whose second query never succeeds, because it fails or because the context was
  // cancelled after k rows of the first loop.
  lemma BreachPassOnly(w: World, rows: seq<State>, k: nat, now: Instant, f: PollFaults, g: PollFaults)
    requires BreachRows(w, now, rows) && BreachListing(w, now, Ids(rows)) && k <= |rows| && Unbroken(f)
    requires g == f.(unreached := IdsFrom(Ids(rows), k), warnPassSkipped := true)
    ensures BreachFold(w, rows[..k], now, f) == AfterPoll(w, now, g, Ids(rows))
  {
    var part := rows[..k];
    assert Ids(part) == Ids(rows)[..k] && Ids(rows)[..|rows|] == Ids(rows);
    BreachFoldIsRowLocal(w, part, now, f);
    AlertsBeforeTheCut(w, Ids(rows), k, |rows|, f, g, now);
    forall id | id in w.states
      ensures AfterBreach(w, part, id, now, f) == RowPoll(w.states[id], PolicyAt(w, id), FaultsOf(g, id), now)
    {
      RowOfACutPass(w, rows, k, now, f, g, id);
    }
    assert BreachFold(w, part, now, f).states == AfterPoll(w, now, g, Ids(rows)).states;
  }

  // The rows of the second query that the loop got to; it missed the rest.
  predicate Covers(v: World, part: seq<ActiveRow>, missed: set<Uuid>) {
    && ActiveRows(v, part)
    && forall id <- v.states :: ActiveAt(v, id) ==> (id in ActiveIds(part) <==> id !in missed)
  }

  lemma CutListing(v: World, active: seq<ActiveRow>, m: nat)
    requires ActiveListing(v, active) && m <= |active|
    ensures Covers(v, active[..m], IdsFrom(ActiveIds(active), m))
  {
    var ids := ActiveIds(active);
    assert ActiveIds(active[..m]) == ids[..m];
    forall id | ActiveAt(v, id) ensures id in ids[..m] <==> id !in IdsFrom(ids, m) { Position(ids, id, m); }
  }

  lemma RowOfBothPasses(w: World, v: World, rows: seq<State>, part: seq<ActiveRow>, now: Instant,
                        f: PollFaults, g: PollFaults, id: Uuid)
    requires BreachListing(w, now, Ids(rows)) && Unbroken(f) && id in w.states && id in v.states
    requires v.states[id] == AfterBreach(w, rows, id, now, f) && PolicyAt(v, id) == PolicyAt(w, id)
    requires Covers(v, part, g.unreachedWarn) && g == f.(unreachedWarn := g.unreachedWarn)
    ensures AfterWarn(v, part, id, now, f) == RowPoll(w.states[id], PolicyAt(w, id), FaultsOf(g, id), now)
  {
    assert v.states[id] == BreachPass(w.states[id], PolicyAt(w, id), FaultsOf(g, id), now);
    assert id in ActiveIds(part) ==> ActiveAt(v, id);
  }

  // A poll that gets through its first loop and all but the missed rows of its second.
  lemma BothPasses(w: World, rows: seq<State>, part: seq<ActiveRow>, now: Instant, f: PollFaults, g: PollFaults)
    requires BreachRows(w, now, rows) && BreachListing(w, now, Ids(rows)) && Unbroken(f)
    requires Covers(BreachFold(w, rows, now, f), part, g.unreachedWarn) && g == f.(unreachedWarn := g.unreachedWarn)
    ensures WarnFold(BreachFold(w, rows, now, f), part, now, f) == AfterPoll(w, now, g, Ids(rows))
  {
    var v := BreachFold(w, rows, now, f);
    BreachFoldIsRowLocal(w, rows, now, f);
    WarnFoldIsRowLocal(v, part, now, f);
    SameAlerts(w, Ids(rows), f, g, now);
    RowsOfBothPasses(w, v, rows, part, now, f, g);
    assert WarnFold(v, part, now, f).states == AfterPoll(w, now, g, Ids(rows)).states;
  }

  lemma RowsOfBothPasses(w: World, v: World, rows: seq<State>, part: seq<ActiveRow>, now: Instant,
                         f: PollFaults, g: PollFaults)
    requires BreachListing(w, now, Ids(rows)) && Unbroken(f)
    requires v.metas == w.metas && v.policies == w.policies && v.states.Keys == w.states.Keys
    requires forall id <- w.states :: v.states[id] == AfterBreach(w, rows, id, now, f)
    requires Covers(v, part, g.unreachedWarn) && g == f.(unreachedWarn := g.unreachedWarn)
    ensures forall id <- w.states ::
              AfterWarn(v, part, id, now, f) == RowPoll(w.states[id], PolicyAt(w, id), FaultsOf(g, id), now)
  {
    forall id | id in w.states
      ensures AfterWarn(v, part, id, now, f) == RowPoll(w.states[id], PolicyAt(w, id), FaultsOf(g, id), now)
    {
      RowOfBothPasses(w, v, rows, part, now, f, g, id);
    }
  }
}
