/**
 The SLA worker of one tenant as a state machine over its tables: every handler call and every
 poll is one step. Each step, seen from one ticket, is one event of the row machine.
 */
module WorkerModel {
  import opened Prelude
  import opened Clock
  import opened Sla
  import opened SlaRow
  import opened TicketMeta

  datatype SlaType = ResponseBreach | ResolutionBreach

  // One breach alert accepted by NightOwl.
  datatype Alert = Alert(
    ticketMetaId: Uuid, zammadId: int, zammadNumber: string, slaType: SlaType, priority: string, at: Instant)

  datatype World = World(
    metas: Metas,
    policies: map<Uuid, Policy>,
    states: map<Uuid, State>,
    alerts: seq<Alert>)

  function EmptyWorld(): World { World(map[], map[], map[], []) }

  /******* Steps *******/

  // Which calls of one ticket.create fail.
  datatype CreateFaults = CreateFaults(
    connFails: bool, upsertFails: bool, policyFails: bool, assignFails: bool, stateFails: bool)

  // Which calls of one poll fail, by ticket, and which listed rows a cancelled context leaves unreached.
  datatype PollFaults = PollFaults(
    breachQueryFails: bool, unreached: set<Uuid>,
    lookupFails: set<Uuid>, alertFails: set<Uuid>, writeFails: set<Uuid>,
    warnPassSkipped: bool, unreachedWarn: set<Uuid>, warnWriteFails: set<Uuid>)

  const CLEAN_POLL := PollFaults(false, {}, {}, {}, {}, false, {}, {})

  function FaultsOf(f: PollFaults, id: Uuid): RowFaults {
    RowFaults(
      !f.breachQueryFails && id !in f.unreached, id !in f.lookupFails, id !in f.alertFails, id !in f.writeFails,
      !f.breachQueryFails && !f.warnPassSkipped && id !in f.unreachedWarn, id !in f.warnWriteFails)
  }

  // `order` is the order in which the breach query happens to return its rows.
  datatype Event =
    | TicketCreate(now: Instant, zammadId: int, number: string, priority: string,
                   newMetaId: Uuid, newStateId: Uuid, createFaults: CreateFaults)
    | TicketUpdate(now: Instant, zammadId: int, zammadState: string, readsFail: bool, writeFails: bool)
    | Poll(now: Instant, pollFaults: PollFaults, order: seq<Uuid>)
    | EditPolicies(now: Instant, policies: map<Uuid, Policy>)
    // incident.created and the API record tickets of their own, without a policy.
    | RecordTicket(now: Instant, zammadId: int, number: string, newMetaId: Uuid)

  ghost predicate ValidPolicies(ps: map<Uuid, Policy>) {
    && (forall p <- ps :: ps[p].id == p)
    && (forall p, q :: p in ps && q in ps && ps[p].isDefault == ps[q].isDefault && ps[p].priority == ps[q].priority
          ==> p == q)
  }

  // Both keys of sla_states, id and ticket_meta_id, are unique.
  ghost predicate ValidStates(states: map<Uuid, State>) {
    && (forall id <- states :: states[id].ticketMetaId == id)
    && (forall i, j :: i in states && j in states && states[i].id == states[j].id ==> i == j)
  }

  ghost predicate ValidWorld(w: World) {
    && ValidMetas(w.metas)
    && ValidPolicies(w.policies)
    && (forall id <- w.metas :: w.metas[id].slaPolicyId.Some? ==> w.metas[id].slaPolicyId.value in w.policies)
    && ValidStates(w.states)
    && (forall id <- w.states :: id in w.metas)
  }

  function PriorityOf(priority: string): string { if priority == "" then "normal" else priority }

  predicate IsDefaultFor(ps: map<Uuid, Policy>, p: Uuid, priority: string) {
    p in ps && ps[p].isDefault && ps[p].priority == priority
  }

  ghost function DefaultPolicy(ps: map<Uuid, Policy>, priority: string): (r: Option<Policy>)
    ensures r.Some? ==> exists p :: IsDefaultFor(ps, p, priority) && r.value == ps[p]
    ensures r.None? ==> forall p :: !IsDefaultFor(ps, p, priority)
  {
    if exists p :: IsDefaultFor(ps, p, priority) then
      var p :| IsDefaultFor(ps, p, priority);
      Some(ps[p])
    else
      None
  }

  function StateAt(w: World, id: Uuid): Option<State> {
    if id in w.states then Some(w.states[id]) else None
  }

  // The policy a query reaches by joining ticket_meta and sla_policies.
  function PolicyAt(w: World, id: Uuid): Option<Policy> {
    if id in w.metas && w.metas[id].slaPolicyId.Some? && w.metas[id].slaPolicyId.value in w.policies
    then Some(w.policies[w.metas[id].slaPolicyId.value])
    else None
  }

  predicate IdTaken(states: map<Uuid, State>, id: Uuid) {
    exists k :: k in states && states[k].id == id
  }

  // An insert that would give two rows one primary key is refused; a rewrite keeps the key it finds.
  predicate Refused(states: map<Uuid, State>, ticketMetaId: Uuid, id: Uuid) {
    ticketMetaId !in states && IdTaken(states, id)
  }

  function UpsertedState(states: map<Uuid, State>, st: State): map<Uuid, State> {
    if st.ticketMetaId in states then states[st.ticketMetaId := st.(id := states[st.ticketMetaId].id)]
    else if IdTaken(states, st.id) then states
    else states[st.ticketMetaId := st]
  }

  lemma UpsertKeepsKeys(states: map<Uuid, State>, st: State)
    requires ValidStates(states)
    ensures ValidStates(UpsertedState(states, st))
  {
  }

  // Rewriting a row that is there keeps every key.
  lemma RewriteKeepsKeys(states: map<Uuid, State>, st: State)
    requires st.ticketMetaId in states
    ensures var after := UpsertedState(states, st);
            && after.Keys == states.Keys && (forall id <- states :: after[id].id == states[id].id)
            && (forall x :: IdTaken(after, x) <==> IdTaken(states, x))
  {
    var after := UpsertedState(states, st);
    forall x ensures IdTaken(after, x) <==> IdTaken(states, x) {
      forall k | k in states ensures after[k].id == x <==> states[k].id == x {}
    }
  }

  // The first two statements of ticket.create: the metadata row and, when found, its policy.
  datatype CreateResult = CreateResult(metas: Metas, init: Option<(Uuid, Policy)>)

  ghost function CreateMeta(w: World, e: Event): CreateResult
    requires e.TicketCreate?
  {
    var f := e.createFaults;
    if f.connFails || f.upsertFails then CreateResult(w.metas, None)
    else match Upserted(w.metas, e.zammadId, e.number, None, e.newMetaId)
      case None => CreateResult(w.metas, None)
      case Some((m1, id)) =>
        if f.policyFails then CreateResult(m1, None)
        else match DefaultPolicy(w.policies, PriorityOf(e.priority))
          case None => CreateResult(m1, None)
          case Some(policy) =>
            if f.assignFails then CreateResult(m1, None)
            else match Upserted(m1, e.zammadId, e.number, Some(policy.id), e.newMetaId)
              case None => CreateResult(m1, None)
              case Some((m2, _)) => CreateResult(m2, Some((id, policy)))
  }

  // The ticket and policy for which ticket.create writes a fresh SLA row.
  ghost function Initialises(w: World, e: Event): Option<(Uuid, Policy)>
    requires e.TicketCreate?
  {
    var init := CreateMeta(w, e).init;
    if e.createFaults.stateFails || init.None? || Refused(w.states, init.value.0, e.newStateId) then None else init
  }

  function SlaTypeOf(st: State, now: Instant): SlaType {
    if Past(st.responseDueAt, now) && st.responseMetAt.None? then ResponseBreach else ResolutionBreach
  }

  predicate AlertsAt(w: World, id: Uuid, f: PollFaults, now: Instant) {
    id in w.states && Alerts(w.states[id], PolicyAt(w, id), FaultsOf(f, id), now)
  }

  // The alert for a row as the poller read it.
  function AlertFor(st: State, meta: Meta, policy: Policy, now: Instant): Alert {
    Alert(st.ticketMetaId, meta.zammadId, meta.zammadNumber, SlaTypeOf(st, now), policy.priority, now)
  }

  // The alerts one poll sends, in listing order.
  function AlertsInOrder(w: World, order: seq<Uuid>, f: PollFaults, now: Instant): seq<Alert> {
    if order == [] then []
    else
      var id := order[|order| - 1];
      AlertsInOrder(w, order[..|order| - 1], f, now)
      + (if AlertsAt(w, id, f, now) then [AlertFor(w.states[id], w.metas[id], PolicyAt(w, id).value, now)] else [])
  }

  // A poll, row by row: no row's fate depends on another row or on the listing order.
  function AfterPoll(w: World, now: Instant, f: PollFaults, order: seq<Uuid>): World {
    w.(states := map id | id in w.states :: RowPoll(w.states[id], PolicyAt(w, id), FaultsOf(f, id), now),
       alerts := w.alerts + AlertsInOrder(w, order, f, now))
  }

  ghost function Apply(w: World, e: Event): World {
    match e
    case TicketCreate(now, _, _, _, _, stateId, _) =>
      var init := Initialises(w, e);
      w.(metas := CreateMeta(w, e).metas,
         states := if init.Some? then UpsertedState(w.states, InitState(stateId, init.value.0, init.value.1, now))
                   else w.states)
    case TicketUpdate(now, zammadId, zammadState, readsFail, writeFails) =>
      var id := Find(w.metas, zammadId);
      if id.None? || id.value !in w.states || readsFail || writeFails then w
      else w.(states := w.states[id.value := PauseOrResume(w.states[id.value], IsPauseState(zammadState), now)])
    case Poll(now, f, order) => AfterPoll(w, now, f, order)
    case EditPolicies(_, policies) =>
      w.(policies := policies, metas := map id | id in w.metas :: DropLostPolicy(w.metas[id], policies))
    case RecordTicket(_, zammadId, number, newMetaId) =>
      var u := Upserted(w.metas, zammadId, number, None, newMetaId);
      if u.Some? then w.(metas := u.value.0) else w
  }

  // ON DELETE SET NULL.
  function DropLostPolicy(m: Meta, policies: map<Uuid, Policy>): Meta {
    if m.slaPolicyId.Some? && m.slaPolicyId.value !in policies then m.(slaPolicyId := None) else m
  }

  predicate Distinct(ids: seq<Uuid>) {
    forall i, j :: 0 <= i < j < |ids| ==> ids[i] != ids[j]
  }

  // A result of the breach query: each matching row once, in any order.
  ghost predicate BreachListing(w: World, now: Instant, order: seq<Uuid>) {
    && Distinct(order)
    && (forall id :: id in order <==> id in w.states && BreachListed(w.states[id], now))
  }

  ghost predicate ValidEvent(w: World, e: Event) {
    match e
    case Poll(now, f, order) => BreachListing(w, now, order)
    case EditPolicies(_, policies) => ValidPolicies(policies)
    case _ => true
  }

  ghost function Run(w: World, es: seq<Event>): World {
    if es == [] then w else Apply(Run(w, es[..|es| - 1]), es[|es| - 1])
  }

  // Every step is possible where it is taken, and the clock never runs backwards.
  ghost predicate ValidRun(w: World, from: Instant, es: seq<Event>) {
    es != [] ==>
      var front, e := es[..|es| - 1], es[|es| - 1];
      && ValidRun(w, from, front)
      && ValidEvent(Run(w, front), e)
      && EndTime(from, front) <= e.now
  }

  function EndTime(from: Instant, es: seq<Event>): Instant {
    if es == [] then from else es[|es| - 1].now
  }

  /******* One ticket's view of a step *******/

  ghost function Project(w: World, e: Event, id: Uuid): RowEvent {
    match e
    case TicketCreate(now, _, _, _, _, stateId, _) =>
      var init := Initialises(w, e);
      if init.Some? && init.value.0 == id then Initialised(now, stateId, id, init.value.1) else Untouched(now)
    case TicketUpdate(now, zammadId, zammadState, readsFail, writeFails) =>
      if Find(w.metas, zammadId) == Some(id) && !readsFail && !writeFails
      then Updated(now, IsPauseState(zammadState)) else Untouched(now)
    case Poll(now, f, _) => Polled(now, PolicyAt(w, id), FaultsOf(f, id))
    case EditPolicies(now, _) => Untouched(now)
    case RecordTicket(now, _, _, _) => Untouched(now)
  }

  ghost function ProjectRun(w: World, es: seq<Event>, id: Uuid): (rs: seq<RowEvent>)
    ensures |rs| == |es| && forall i :: 0 <= i < |es| ==> rs[i].now == es[i].now
  {
    if es == [] then []
    else ProjectRun(w, es[..|es| - 1], id) + [Project(Run(w, es[..|es| - 1]), es[|es| - 1], id)]
  }

  function AlertCount(alerts: seq<Alert>, id: Uuid): nat {
    if alerts == [] then 0
    else AlertCount(alerts[..|alerts| - 1], id) + (if alerts[|alerts| - 1].ticketMetaId == id then 1 else 0)
  }

  lemma {:induction false} AlertCountAppend(a: seq<Alert>, b: seq<Alert>, id: Uuid)
    ensures AlertCount(a + b, id) == AlertCount(a, id) + AlertCount(b, id)
  {
    if b == [] {
      assert a + b == a;
    } else {
      assert (a + b)[..|a + b| - 1] == a + b[..|b| - 1];
      AlertCountAppend(a, b[..|b| - 1], id);
    }
  }

  lemma {:induction false} AlertsInOrderCount(w: World, order: seq<Uuid>, f: PollFaults, now: Instant, id: Uuid)
    requires ValidWorld(w) && Distinct(order)
    ensures AlertCount(AlertsInOrder(w, order, f, now), id)
         == (if id in order && AlertsAt(w, id, f, now) then 1 else 0)
  {
    if order != [] {
      var front, last := order[..|order| - 1], order[|order| - 1];
      AlertsInOrderCount(w, front, f, now, id);
      var sent := if AlertsAt(w, last, f, now) then
                  [AlertFor(w.states[last], w.metas[last], PolicyAt(w, last).value, now)] else [];
      AlertCountAppend(AlertsInOrder(w, front, f, now), sent, id);
      assert order == front + [last];
      assert AlertCount(sent, id) == if last == id && AlertsAt(w, last, f, now) then 1 else 0;
    }
  }

  // What a tolerated upsert may do to the metadata: one ticket's row, never a zammad_id.
  ghost predicate OnlyTouches(before: Metas, after: Metas, zammadId: int, policies: map<Uuid, Policy>) {
    && ValidMetas(after)
    && before.Keys <= after.Keys
    && (forall id <- before :: after[id].zammadId == before[id].zammadId)
    && (forall id <- before :: before[id].zammadId != zammadId ==> after[id] == before[id])
    && (forall id <- after :: after[id].slaPolicyId.Some? ==> after[id].slaPolicyId.value in policies)
  }

  ghost predicate PoliciesExist(ms: Metas, policies: map<Uuid, Policy>) {
    forall id <- ms :: ms[id].slaPolicyId.Some? ==> ms[id].slaPolicyId.value in policies
  }

  lemma UpsertOnlyTouches(ms: Metas, zammadId: int, number: string, policy: Option<Uuid>, newId: Uuid,
                          policies: map<Uuid, Policy>)
    requires ValidMetas(ms) && PoliciesExist(ms, policies) && Upserted(ms, zammadId, number, policy, newId).Some?
    requires policy.Some? ==> policy.value in policies
    ensures OnlyTouches(ms, Upserted(ms, zammadId, number, policy, newId).value.0, zammadId, policies)
  {
    UpsertedFacts(ms, zammadId, number, policy, newId);
  }

  // The two upserts of a ticket.create that gets through them.
  ghost function SecondUpsert(w: World, e: Event, policy: Policy): Option<(Metas, Uuid)>
    requires e.TicketCreate?
  {
    var u := Upserted(w.metas, e.zammadId, e.number, None, e.newMetaId);
    if u.None? then None else Upserted(u.value.0, e.zammadId, e.number, Some(policy.id), e.newMetaId)
  }

  lemma BothUpserts(w: World, e: Event, policy: Policy)
    requires ValidWorld(w) && e.TicketCreate? && policy.id in w.policies
    ensures var u, v := Upserted(w.metas, e.zammadId, e.number, None, e.newMetaId), SecondUpsert(w, e, policy);
            && (u.Some? ==> OnlyTouches(w.metas, u.value.0, e.zammadId, w.policies))
            && (v.Some? ==>
                  && OnlyTouches(w.metas, v.value.0, e.zammadId, w.policies)
                  && u.value.1 in v.value.0 && v.value.0[u.value.1].zammadId == e.zammadId
                  && v.value.0[u.value.1].slaPolicyId == Some(policy.id))
  {
    var u := Upserted(w.metas, e.zammadId, e.number, None, e.newMetaId);
    if u.Some? {
      UpsertOnlyTouches(w.metas, e.zammadId, e.number, None, e.newMetaId, w.policies);
      UpsertedFacts(w.metas, e.zammadId, e.number, None, e.newMetaId);
      if SecondUpsert(w, e, policy).Some? {
        UpsertOnlyTouches(u.value.0, e.zammadId, e.number, Some(policy.id), e.newMetaId, w.policies);
        UpsertedFacts(u.value.0, e.zammadId, e.number, Some(policy.id), e.newMetaId);
      }
    }
  }

  lemma CreateKeepsMetas(w: World, e: Event)
    requires ValidWorld(w) && e.TicketCreate?
    ensures OnlyTouches(w.metas, CreateMeta(w, e).metas, e.zammadId, w.policies)
    ensures CreateMeta(w, e).init.Some? ==>
              var (id, policy) := CreateMeta(w, e).init.value;
              var ms := CreateMeta(w, e).metas;
              && id in ms && ms[id].zammadId == e.zammadId && ms[id].slaPolicyId == Some(policy.id)
              && policy.id in w.policies && w.policies[policy.id] == policy
  {
    var policy := DefaultPolicy(w.policies, PriorityOf(e.priority));
    if policy.Some? {
      BothUpserts(w, e, policy.value);
    } else if Upserted(w.metas, e.zammadId, e.number, None, e.newMetaId).Some? {
      UpsertOnlyTouches(w.metas, e.zammadId, e.number, None, e.newMetaId, w.policies);
    }
  }

  lemma PolicyEditKeepsValid(w: World, policies: map<Uuid, Policy>)
    requires ValidWorld(w) && ValidPolicies(policies)
    ensures ValidWorld(w.(policies := policies,
                         metas := map id | id in w.metas :: DropLostPolicy(w.metas[id], policies)))
  {
  }

  lemma RecordKeepsValid(w: World, zammadId: int, number: string, newMetaId: Uuid)
    requires ValidWorld(w) && Upserted(w.metas, zammadId, number, None, newMetaId).Some?
    ensures ValidWorld(w.(metas := Upserted(w.metas, zammadId, number, None, newMetaId).value.0))
  {
    UpsertedFacts(w.metas, zammadId, number, None, newMetaId);
  }

  lemma CreateKeepsStates(w: World, e: Event)
    requires ValidWorld(w) && e.TicketCreate?
    ensures ValidStates(Apply(w, e).states)
    ensures forall id <- Apply(w, e).states :: id in Apply(w, e).metas
  {
    CreateKeepsMetas(w, e);
    var init := Initialises(w, e);
    if init.Some? { UpsertKeepsKeys(w.states, InitState(e.newStateId, init.value.0, init.value.1, e.now)); }
  }

  lemma PollKeepsStates(w: World, now: Instant, f: PollFaults, order: seq<Uuid>)
    requires ValidStates(w.states)
    ensures ValidStates(AfterPoll(w, now, f, order).states)
  {
    var after := AfterPoll(w, now, f, order).states;
    forall id | id in w.states
      ensures after[id].id == w.states[id].id && after[id].ticketMetaId == w.states[id].ticketMetaId
    {
    }
  }

  lemma UpdateKeepsStates(w: World, e: Event)
    requires ValidWorld(w) && e.TicketUpdate?
    ensures ValidWorld(Apply(w, e))
  {
  }

  // One step keeps every unique key and foreign key of the three tables.
  lemma ApplyKeepsValid(w: World, e: Event)
    requires ValidWorld(w) && ValidEvent(w, e)
    ensures ValidWorld(Apply(w, e))
  {
    match e
    case TicketCreate(_, _, _, _, _, _, _) =>
      CreateKeepsMetas(w, e);
      CreateKeepsStates(w, e);
    case TicketUpdate(_, _, _, _, _) => UpdateKeepsStates(w, e);
    case Poll(now, f, order) => PollKeepsStates(w, now, f, order);
    case EditPolicies(_, policies) => PolicyEditKeepsValid(w, policies);
    case RecordTicket(_, zammadId, number, newMetaId) =>
      if Upserted(w.metas, zammadId, number, None, newMetaId).Some? {
        RecordKeepsValid(w, zammadId, number, newMetaId);
      }
  }

  // Row locality: what one step does to a ticket's row and to its alerts depends on that ticket alone.
  lemma ApplyProjects(w: World, e: Event, id: Uuid)
    requires ValidWorld(w) && ValidEvent(w, e)
    ensures StateAt(Apply(w, e), id) == NextState(StateAt(w, id), Project(w, e, id))
    ensures AlertCount(Apply(w, e).alerts, id) == AlertCount(w.alerts, id)
         + (if id in w.states && AlertedBy(w.states[id], Project(w, e, id)) then 1 else 0)
  {
    if e.Poll? {
      AlertCountAppend(w.alerts, AlertsInOrder(w, e.order, e.pollFaults, e.now), id);
      AlertsInOrderCount(w, e.order, e.pollFaults, e.now, id);
    }
  }

  // Two answers of the breach query in different orders: the same rows, the same tickets paged.
  lemma ListingOrderIsIrrelevant(w: World, now: Instant, f: PollFaults, a: seq<Uuid>, b: seq<Uuid>, id: Uuid)
    requires ValidWorld(w) && BreachListing(w, now, a) && BreachListing(w, now, b)
    ensures AfterPoll(w, now, f, a).states == AfterPoll(w, now, f, b).states
    ensures AlertCount(AfterPoll(w, now, f, a).alerts, id) == AlertCount(AfterPoll(w, now, f, b).alerts, id)
  {
    AlertCountAppend(w.alerts, AlertsInOrder(w, a, f, now), id);
    AlertCountAppend(w.alerts, AlertsInOrder(w, b, f, now), id);
    AlertsInOrderCount(w, a, f, now, id);
    AlertsInOrderCount(w, b, f, now, id);
  }

  // The deadline an alert names has passed, and it names the resolution deadline only while the
  // response deadline still holds.
  predicate Truthful(w: World, now: Instant, a: Alert) {
    && a.ticketMetaId in w.states && a.ticketMetaId in w.metas && a.at == now
    && var st := w.states[a.ticketMetaId];
       var responsePassed := st.responseDueAt.Some? && st.responseDueAt.value < now && st.responseMetAt.None?;
       && !st.paused && st.firstBreachAlertedAt.None?
       && (a.slaType == ResponseBreach <==> responsePassed)
       && (a.slaType == ResolutionBreach ==> st.resolutionDueAt.Some? && st.resolutionDueAt.value < now)
       && w.metas[a.ticketMetaId].slaPolicyId.Some? && w.metas[a.ticketMetaId].slaPolicyId.value in w.policies
       && a.priority == w.policies[w.metas[a.ticketMetaId].slaPolicyId.value].priority
       && a.zammadId == w.metas[a.ticketMetaId].zammadId && a.zammadNumber == w.metas[a.ticketMetaId].zammadNumber
  }

  lemma {:induction false} AlertsAreTruthful(w: World, order: seq<Uuid>, f: PollFaults, now: Instant)
    requires ValidWorld(w)
    ensures forall a <- AlertsInOrder(w, order, f, now) :: Truthful(w, now, a)
  {
    if order != [] {
      var front, last := order[..|order| - 1], order[|order| - 1];
      AlertsAreTruthful(w, front, f, now);
      if AlertsAt(w, last, f, now) {
        assert Truthful(w, now, AlertFor(w.states[last], w.metas[last], PolicyAt(w, last).value, now));
      }
    }
  }
}
