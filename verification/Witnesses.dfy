/**
 Short runs of the worker, from the empty schema, that reach what the theorems say can go wrong.
 */
module Witnesses {
  import opened Prelude
  import opened Clock
  import opened Sla
  import opened SlaRow
  import opened TicketMeta
  import opened WorkerModel
  import opened WorkerRuns
  import opened PollPasses
  import opened Interleaving

  // One minute to respond, two to resolve, warning for the last fifth.
  const POLICY := Policy(1, "normal", 1, 2, 200, true)

  function Create(now: Instant): Event {
    TicketCreate(now, 7, "7", "normal", 1, 1, CreateFaults(false, false, false, false, false))
  }

  function Update(now: Instant, zammadState: string): Event { TicketUpdate(now, 7, zammadState, false, false) }

  // A tenant with one policy and one ticket, whose clock starts at zero.
  function Opening(): seq<Event> { [EditPolicies(0, map[1 := POLICY]), Create(0)] }

  function Opened(): World {
    World(map[1 := Meta(1, 7, "7", Some(1))], map[1 := POLICY], map[1 := InitState(1, 1, POLICY, 0)], [])
  }

  lemma RunOfTwo(w: World, a: Event, b: Event)
    ensures Run(w, [a, b]) == Apply(Apply(w, a), b) && Run(w, [a]) == Apply(w, a)
  {
    assert [a, b][..1] == [a] && [a][..0] == [];
    assert Run(w, [a]) == Apply(w, a);
  }

  lemma Normal(w: World)
    requires w.policies == map[1 := POLICY]
    ensures DefaultPolicy(w.policies, PriorityOf("normal")) == Some(POLICY)
  {
    assert IsDefaultFor(w.policies, 1, "normal");
  }

  lemma FirstUpsert()
    ensures Upserted(map[], 7, "7", None, 1) == Some((map[1 := Meta(1, 7, "7", None)], 1))
  {
  }

  lemma LaterUpsert(policy: Option<Uuid>, given: Option<Uuid>)
    ensures Upserted(map[1 := Meta(1, 7, "7", policy)], 7, "7", given, 1)
         == Some((map[1 := Meta(1, 7, "7", if given.Some? then given else policy)], 1))
  {
    var ms := map[1 := Meta(1, 7, "7", policy)];
    assert 1 in ms && ms[1].zammadId == 7;
    assert Find(ms, 7) == Some(1) && !NumberTaken(ms, 7, "7");
    var policyId := if given.Some? then given else policy;
    assert ms[1 := ms[1].(zammadNumber := "7", slaPolicyId := policyId)] == map[1 := Meta(1, 7, "7", policyId)];
  }

  lemma CreateOpens(w: World)
    requires w == EmptyWorld().(policies := map[1 := POLICY])
    ensures Apply(w, Create(0)) == Opened()
  {
    Normal(w);
    FirstUpsert();
    LaterUpsert(None, Some(1));
    assert Apply(w, Create(0)).states == Opened().states;
  }

  lemma OpenedIsValid()
    ensures ValidWorld(Opened())
  {
  }

  lemma OpeningOpens()
    ensures Run(EmptyWorld(), Opening()) == Opened() && ValidRun(EmptyWorld(), 0, Opening()) && ValidWorld(Opened())
    ensures EndTime(0, Opening()) == 0
  {
    var edit := EditPolicies(0, map[1 := POLICY]);
    var w := EmptyWorld().(policies := map[1 := POLICY]);
    RunOfTwo(EmptyWorld(), edit, Create(0));
    assert Apply(EmptyWorld(), edit) == w;
    CreateOpens(w);
    OpenedIsValid();
    assert Opening()[..1] == [edit] && [edit][..0] == [];
  }

  lemma OpenedIsReachable()
    ensures Reachable(Opened()) && ValidWorld(Opened())
  {
    OpeningOpens();
  }

  lemma AfterOpening(e: Event)
    requires ValidEvent(Opened(), e) && 0 <= e.now
    ensures Run(EmptyWorld(), Opening() + [e]) == Apply(Opened(), e) && ValidRun(EmptyWorld(), 0, Opening() + [e])
  {
    OpeningOpens();
    assert (Opening() + [e])[..2] == Opening();
  }

  // A poll whose clock is the deadline to the nanosecond leaves a label the computation is ahead of.
  lemma PollAtTheDeadline()
    ensures var poll := Poll(Minutes(1), CLEAN_POLL, []);
            var es := Opening() + [poll];
            var w := Run(EmptyWorld(), es);
            && ValidRun(EmptyWorld(), 0, es) && 1 in w.states && w.states[1].stateLabel == Warning
            && ComputeState(ComputeInput(1, 2, 200, 0, None, 0, false, Minutes(1))).stateLabel == Breached
  {
    var poll := Poll(Minutes(1), CLEAN_POLL, []);
    assert BreachListing(Opened(), Minutes(1), []);
    AfterOpening(poll);
    assert PolicyAt(Opened(), 1) == Some(POLICY);
  }

  // The poll that finds the first ticket breached, and its turn at the row it has read.
  const LATE := 60_000_000_001

  function Turn(): Action { BreachRow(Opened().states[1]) }

  lemma TurnIsReal()
    ensures BreachRows(Opened(), LATE, [Opened().states[1]]) && BreachListing(Opened(), LATE, [1])
    ensures RowWrite(Opened(), Turn(), LATE, CLEAN_POLL)
         == (Some(MarkBreached(Opened().states[1], LATE)), [Alert(1, 7, "7", ResponseBreach, "normal", LATE)])
    ensures Find(Opened().metas, 7) == Some(1)
  {
    LaterUpsert(Some(1), None);
    assert PolicyAt(Opened(), 1) == Some(POLICY);
    assert Opened().metas[1].zammadId == 7;
    FindIs(Opened().metas, 1);
  }

  // A pause that arrives between the poll's read and its write does not survive the write.
  lemma PauseIsLost()
    ensures Reachable(Opened())
    ensures var pause := Handle(Update(LATE, "pending close"));
            var racing, atomic := Exec(Opened(), [pause, Turn()], LATE, CLEAN_POLL),
                Exec(Opened(), [Turn(), pause], LATE, CLEAN_POLL);
            && StateAt(racing, 1).Some? && !StateAt(racing, 1).value.paused
            && StateAt(atomic, 1).Some? && StateAt(atomic, 1).value.paused
  {
    OpenedIsReachable();
    TurnIsReal();
    LostPause(Opened(), Turn(), Update(LATE, "pending close"), LATE, CLEAN_POLL);
  }

  // A ticket created anew there carries the label and the deadlines of its former epoch.
  lemma RestartIsLost()
    ensures Reachable(Opened())
    ensures var again := Handle(Create(LATE));
            var racing, atomic := Exec(Opened(), [again, Turn()], LATE, CLEAN_POLL),
                Exec(Opened(), [Turn(), again], LATE, CLEAN_POLL);
            && StateAt(racing, 1).Some? && StateAt(racing, 1).value.stateLabel == Breached
            && StateAt(racing, 1).value.responseDueAt == Some(Minutes(1))
            && StateAt(atomic, 1).Some? && StateAt(atomic, 1).value.stateLabel == OnTrack
  {
    OpenedIsReachable();
    TurnIsReal();
    RestartsAt(LATE);
    LostRestart(Opened(), Turn(), Create(LATE), LATE, CLEAN_POLL);
  }

  lemma RestartsAt(now: Instant)
    ensures Initialises(Opened(), Create(now)) == Some((1, POLICY))
    ensures RowWrite(Apply(Opened(), Create(now)), Turn(), LATE, CLEAN_POLL).0.Some?
  {
    Normal(Opened());
    LaterUpsert(Some(1), None);
    LaterUpsert(Some(1), Some(1));
    assert CreateMeta(Opened(), Create(now)) == CreateResult(Opened().metas, Some((1, POLICY)));
    assert PolicyAt(Apply(Opened(), Create(now)), 1) == Some(POLICY);
  }

  // The table a pause leaves when the poll marks the row between its read and its write.
  function Split(): World {
    WriteUpdate(Written(Opened(), RowWrite(Opened(), Turn(), LATE, CLEAN_POLL)),
                Update(LATE, "pending close"), Opened().states[1])
  }

  // ... and so one breach is paged twice although no call has failed.
  lemma BreachIsPagedTwice()
    ensures Reachable(Opened())
    ensures Split() == WriteUpdate(Do(Opened(), Turn(), LATE, CLEAN_POLL),
                                   Update(LATE, "pending close"), Opened().states[1])
    ensures var later := [Update(LATE + Seconds(1), "open"), Poll(LATE + Seconds(2), CLEAN_POLL, [1])];
            && ValidRun(Split(), LATE, later)
            && AlertCount(Split().alerts, 1) == 1 && AlertCount(Run(Split(), later).alerts, 1) == 2
  {
    OpenedIsReachable();
    RowActionWrites(Opened(), Turn(), LATE, CLEAN_POLL);
    PagedAgain();
  }

  lemma PagedAgain()
    ensures var later := [Update(LATE + Seconds(1), "open"), Poll(LATE + Seconds(2), CLEAN_POLL, [1])];
            && ValidRun(Split(), LATE, later)
            && AlertCount(Split().alerts, 1) == 1 && AlertCount(Run(Split(), later).alerts, 1) == 2
  {
    var resume, poll := Update(LATE + Seconds(1), "open"), Poll(LATE + Seconds(2), CLEAN_POLL, [1]);
    RunOfTwo(Split(), resume, poll);
    SplitResumed();
    assert [resume, poll][..1] == [resume] && [resume][..0] == [];
    OneAlert(Apply(Split(), resume), poll);
  }

  // After the resume the ticket stands as if it had never been paged.
  lemma SplitResumed()
    ensures AlertCount(Split().alerts, 1) == 1
    ensures var w, now := Apply(Split(), Update(LATE + Seconds(1), "open")), LATE + Seconds(2);
            && w.alerts == Split().alerts && 1 in w.metas && 1 in w.states && w.states[1].ticketMetaId == 1
            && BreachListing(w, now, [1]) && AlertsAt(w, 1, CLEAN_POLL, now)
  {
    TurnIsReal();
    var w := Apply(Split(), Update(LATE + Seconds(1), "open"));
    assert Split().states[1] == PauseOrResume(Opened().states[1], true, LATE);
    assert w.states[1] == PauseOrResume(Split().states[1], false, LATE + Seconds(1));
    assert PolicyAt(w, 1) == Some(POLICY);
  }

  lemma OneAlert(w: World, poll: Event)
    requires poll.Poll? && poll.order == [1] && AlertsAt(w, 1, poll.pollFaults, poll.now) && 1 in w.metas
    requires w.states[1].ticketMetaId == 1
    ensures AlertCount(Apply(w, poll).alerts, 1) == AlertCount(w.alerts, 1) + 1
  {
    var sent := [AlertFor(w.states[1], w.metas[1], PolicyAt(w, 1).value, poll.now)];
    assert [1][..0] == [];
    assert AlertsInOrder(w, poll.order, poll.pollFaults, poll.now) == [] + sent;
    assert sent[..0] == [] && AlertCount([], 1) == 0;
    AlertCountAppend(w.alerts, sent, 1);
  }
}
