# TicketOwl worker: a verified model

TicketOwl keeps one SLA row per ticket. `ticket.create` starts its clock, `ticket.update` pauses and
resumes it, and a poller moves its label from on track to warning to breached and pages on-call once
per breach. The same clock is written down twice in the repository: `sla.ComputeState` subtracts
accumulated pause from the time since creation, while the worker stores absolute deadlines, pushes
them forward on each resume and compares them with the current time in a query. This project models
the worker and proves that the second clock refines the first over every run, together with what
the runs keep, what they page and what can go wrong when poller and handlers overlap. Around that
core it models the stream cursor that feeds the handlers, the incident lifecycle, title rendering,
the merged comment thread and the metadata join.

Verify everything with `dafny verify dfyconfig.toml` (Dafny 4.11).

## How the model is built

- `Prelude`, `Clock`, `Sla`: instants and durations are whole nanoseconds; the warning threshold is in
  thousandths, like its NUMERIC(4,3) column; `ComputeState` and its algebra.
- `SlaRow`, `SlaRowRuns`: what each handler and each poll does to one row, as functions; an `Epoch`
  is the history an observer of the events keeps without looking at the row (start, policy, pauses,
  alerts sent, alerts whose state write was lost). The theorems about runs of one row live here.
- `TicketMeta`, `WorkerModel`, `WorkerRuns`: the tables of one tenant as a state machine. Each step
  carries the outcome of every call that can fail, ticket by ticket. Row locality projects a run of
  the whole worker onto one run per row, which lifts the row theorems to every reachable table.
- `StepLaws`: what each step does to the tables, in columns and constants of the source alone, so that no
  theorem rests on a definition that nothing else fixes.
- `PollPasses`, `SlaWorker`: the poller's two loops, and a class whose methods change the tables in
  place. Every method is proved to take exactly the step of the state machine, and every object
  carries the run that led to it, so the theorems apply to any worker object.
- `Interleaving`: handlers running between a pass's query and its writes, and a pass running between
  a handler's read and its write. `Witnesses`: short runs that reach what can go wrong.
- `EventStream`, `AutoTicket` with `TitleSafety`, `Incidents`, `TicketViews`: the other components.

A repeated `ticket.create` rewrites the row and begins a new epoch; the run theorems are per epoch.

Results that a reader of the code may not expect:

- The stored label after a clean poll equals the computed one for every policy, with no condition on
  minutes or threshold, unless the poll's clock is exactly the earliest deadline: the query waits for
  `due < now`, the computation breaches at `remaining <= 0`.
- Each pause drops a fraction of a second. After n pauses the deadline is early by less than n
  seconds, and pauses shorter than a second are never credited. A resume can therefore breach a
  deadline that was less than the dropped fraction ahead.
- The paused branch of `ComputeState` does not freeze the remaining seconds.
- `met` is not final in `ComputeState`: it turns into `breached` at the resolution deadline.
- A pause or a new epoch that reaches a row between the poller's read and its write is lost, and so
  is a breach that the poller records between the read and the write of an update: the ticket is
  then paged twice for one breach without any failing call.
- Messages that arrive between two reads from `$` are never processed.

## Where the code and its documentation disagree

The model follows the code. `docs/08-sla.md` describes a poller that fetches tickets from Zammad,
honours the configured pause statuses and stores what `ComputeState` returns; the code does none of
these and pauses on `pending reminder` and `pending close` only. The same document lists `met` among
the stored states; no step of the worker ever stores it. `docs/05-nightowl-integration.md` says
automatic tickets get an SLA policy and that tickets already closed are left alone on resolve; the
code assigns no policy and closes unconditionally.

## Model

| member | source | states |
|---|---|---|
| `Sla.ReportedSeconds` | internal/sla/service.go:14-48 | paused or not, the whole seconds left until each pause-shifted deadline, zero once it has passed, and the two deadlines without pauses |
| `Sla.LabelLaw` | internal/sla/service.go:57-95 | an unanswered ticket is breached when no time is left for one deadline, and warning when less than the threshold's share of its total minutes is left for one |
| `Sla.LabelMonotone` | internal/sla/service.go:34-95 | a later clock or a smaller pause total never lowers the label nor raises the remaining seconds, for any policy |
| `Sla.CreditedPauseIsInvisible` | internal/sla/service.go:34-48 | clock and accumulated pause growing by the same whole seconds leave the whole result unchanged, running or paused |
| `Sla.PausedBranchReportsRunningSeconds` | internal/sla/service.go:24-32 | the paused branch reports exactly the seconds and deadlines the running branch would, so it freezes nothing |
| `Sla.LabelByDeadlines` | internal/sla/service.go:57-95 | the elapsed-time label of an unanswered ticket is the one that comparing the clock with two pause-shifted deadlines gives |
| `Sla.LabelOnceAnswered` | internal/sla/service.go:50-95 | with a response on record the label is met exactly while it was in time and the resolution deadline lies ahead |
| `Sla.MetLapses` | internal/sla/service.go:57-76 | met turns into breached at the resolution deadline by the passing of time alone |
| `SlaRowRuns.StepAdvances` | internal/worker/resolve.go:289-322 | one event within an epoch keeps the row invariant, never lowers the label and never gives a deadline time back |
| `SlaRowRuns.RunKeepsInv` | internal/worker/resolve.go:217-231 | every chronological run of one row, with any failures and restarts, keeps the row equal to what its history accounts for |
| `SlaRowRuns.EpochAdvances` | internal/worker/resolve.go:289-322 | between any two observation times of one epoch labels only rise and time left on the stopped clock never grows |
| `SlaRowRuns.FloorDrift` | internal/worker/resolve.go:300-305 | summed whole-second floors never exceed the exact total of n pauses and fall short by less than n seconds |
| `SlaRowRuns.DeadlinesConserved` | internal/worker/resolve.go:298-313 | due dates are start plus policy plus accumulated pause, their gap is constant, and they are early by less than a second per pause |
| `SlaRowRuns.ShortPausesAreNeverCredited` | internal/worker/resolve.go:301-302 | the drift bound is tight: n pauses a nanosecond short of a second are credited as nothing |
| `SlaRowRuns.ReachableRows` | internal/sla/service.go:227-229 | breached iff first alert recorded, paused iff pause time recorded, never met, so the breach check is false on every reachable row, and would hold of exactly the breached ones without their alert time |
| `SlaRowRuns.AlertsAccountedFor` | internal/worker/slapoller.go:211-235 | alerts of an epoch are one for the recorded breach plus one per alert whose state write failed |
| `SlaRowRuns.PollRefinesCompute` | internal/worker/slapoller.go:85-167 | after a clean poll stored and computed label agree iff the clock is not the earliest deadline, and how they differ there |
| `SlaRowRuns.RunRefinesCompute` | internal/worker/slapoller.go:85-236 | the same at the end of any run of the row |
| `SlaRowRuns.EarlierPollAbsorbed` | internal/worker/slapoller.go:100-108 | an earlier poll changes neither what a later one leaves nor whether the two together alert |
| `SlaRowRuns.SkippedPollsAreHarmless` | internal/worker/slapoller.go:85-167 | any number of clean polls leave the row and the alert count that the last alone would |
| `SlaRowRuns.PollAgainIsSilent` | internal/worker/store.go:43-50 | a second poll at the same instant writes nothing and alerts nobody |
| `SlaRowRuns.PausedRowsAreLeftAlone` | internal/worker/store.go:44-45 | over any run without a resume, no poll, whatever its faults, writes the paused row or alerts for it, and no repeated pause moves the instant it stopped at |
| `SlaRowRuns.PauseNeitherHidesNorInventsABreach` | internal/worker/resolve.go:289-322 | from a pause to its resume, whatever falls between, a deadline loses exactly the dropped fraction: a passed one stays passed, and one ahead is missed iff it was less than that fraction ahead |
| `SlaRowRuns.PauseCanInventABreach` | internal/worker/resolve.go:301-313 | a run from ticket.create whose row is not breached when paused and is when resumed half a second later |
| `SlaRowRuns.LateWarningIsDue` | internal/worker/slapoller.go:120-166 | a second pass whose clock is older than the row's last event writes a warning that is due at the row's time too, and all run invariants but the age of updated_at survive |
| `SlaRowRuns.RepeatedUpdatesChangeNothing` | internal/worker/resolve.go:285-322 | deleting from any run every update that repeats the pause class in force leaves the same row and history |
| `SlaRowRuns.CompressDropsRepeats` | internal/worker/resolve.go:285-322 | that deletion leaves no repeated class and drops nothing but updates |
| `SlaRowRuns.WritesCountChanges` | internal/worker/slapoller.go:169-236 | a poll writes a row at most once, and not at all iff it leaves it as it was |
| `SlaRowRuns.RowIdNeverChanges` | internal/sla/store.go:164-187 | rewriting a row keeps its primary key |
| `TicketMeta.UpsertedFacts` | internal/ticket/store.go:33-44 | an upsert touches one row, keeps every zammad_id and the unique keys, and keeps a policy it is not given |
| `TicketMeta.UpsertRefused` | internal/ticket/store.go:33-44 | an upsert fails iff another ticket has the number or a new row would take an id in use |
| `TicketMeta.TicketStore.Upsert` | internal/ticket/store.go:33-44 | the method leaves the table the upsert specification gives, or unchanged when a unique key is violated |
| `TicketMeta.TicketStore.GetByZammadID` | internal/ticket/store.go:25-30 | finds the one row of a Zammad ticket or reports there is none |
| `WorkerModel.CreateKeepsMetas` | internal/worker/resolve.go:189-215 | ticket.create changes at most its own ticket's metadata, and initialises SLA only with the policy then assigned to the ticket |
| `WorkerModel.ApplyKeepsValid` | internal/worker/resolve.go:180-328 | every step keeps the unique keys (ids, zammad_id, zammad_number, ticket_meta_id, priority with is_default) and foreign keys of ticket_meta, sla_policies and sla_states |
| `WorkerModel.ApplyProjects` | internal/worker/slapoller.go:100-166 | row locality: each step changes a ticket's row and alert count as one event of that row's machine, whatever the other rows hold |
| `WorkerModel.AlertsInOrderCount` | internal/worker/slapoller.go:100-105 | a poll alerts for a ticket at most once, and exactly when its row is listed and its calls succeed |
| `WorkerModel.ListingOrderIsIrrelevant` | internal/worker/store.go:39-50 | two listing orders leave the same rows and page the same tickets |
| `WorkerModel.AlertsAreTruthful` | internal/worker/slapoller.go:185-216 | every alert names its ticket, its policy's priority and a deadline that has passed, and resolution only while the response deadline holds |
| `WorkerRuns.RunProjects` | internal/worker/worker.go:57-79 | in every reachable table a ticket's row and alert count are those of its row machine's run |
| `WorkerRuns.StoredDeadlinesConserved` | internal/worker/resolve.go:217-231 | deadline conservation and drift bound for every row of every reachable table |
| `WorkerRuns.StoredRowsWellFormed` | internal/worker/slapoller.go:225-228 | the row invariant for every row of every reachable table |
| `WorkerRuns.StoredLabelRefinesCompute` | internal/worker/slapoller.go:85-236 | after any run ending in a clean poll the stored label of a running ticket whose polls all read one policy is the computed one iff the clock is not its earliest stored deadline |
| `WorkerRuns.QuietEpoch` | internal/worker/resolve.go:189-231 | as long as the ticket's own policy is neither changed nor deleted and the ticket is not created again, every poll reads the policy its epoch started with |
| `WorkerRuns.QuietEpochRefinesCompute` | internal/worker/slapoller.go:85-236 | refinement with hypotheses on the events alone, from ticket.create through any pauses, polls, failures and edits of other policies |
| `WorkerRuns.PagesAccountedFor` | internal/worker/slapoller.go:211-235 | alerts on record for a ticket's epoch equal lost writes plus one if breached, so at most one without lost writes |
| `WorkerRuns.PassedDeadlineIsPaged` | internal/worker/store.go:43-50 | a clean poll leaves a running, policy-bearing row breached iff a deadline has passed, and then it has been paged |
| `WorkerRuns.LabelsOnlyRise` | internal/worker/resolve.go:289-322 | between any two reachable tables of one epoch labels only rise and no time is given back |
| `WorkerRuns.PauseOfAReachableTable` | internal/worker/resolve.go:289-322 | the pause theorem from any reachable table, over any run of the worker that pauses and resumes the ticket once |
| `WorkerRuns.SkippedPollsHarmless` | internal/worker/slapoller.go:63-78 | clean polls in a row leave every row and page every ticket as the last alone would |
| `WorkerRuns.RepeatedPollIsSilent` | internal/worker/slapoller.go:85-109 | a clean poll repeated at once changes no table and sends no alert |
| `StepLaws.UpdateLaw` | internal/worker/resolve.go:285-322 | after a ticket.update the row is paused iff the new state is pending reminder or pending close; the pause time, the whole seconds credited on resume to the total and both deadlines, and that nothing else changes |
| `StepLaws.UpdateWithoutEffect` | internal/worker/resolve.go:264-283 | failing calls, or a ticket without a row, leave everything |
| `StepLaws.CreateStartsTheClock` | internal/worker/resolve.go:198-231 | an epoch starts with the default policy of the ticket's priority, or of normal if it has none, assigned to the ticket and setting both deadlines of a fresh row |
| `StepLaws.CreateFindsTheDefault` | internal/worker/resolve.go:189-231 | where such a policy exists and no call fails or key clashes, the epoch starts with it |
| `StepLaws.CreateWithoutEffect` | internal/worker/resolve.go:183-217 | without it or with a failing call the SLA rows stay, and what of the metadata stays |
| `StepLaws.CreateStopsOnErrors` | internal/worker/resolve.go:183-234 | the statements at which the handler stops are exactly the failing calls and key clashes before or after a default policy is found |
| `StepLaws.PollLaw` | internal/worker/slapoller.go:85-236 | one poll for one row in columns and failing calls: when it is paged, marked breached with which columns, warned by the threshold's share, or left |
| `StepLaws.PollSkipsRowsWithoutPolicy` | internal/worker/slapoller.go:190-192 | a row without a policy is neither paged nor warned |
| `StepLaws.AlertedRowIsOnlyTouched` | internal/worker/slapoller.go:170-180 | a row alerted already would only have updated_at changed |
| `StepLaws.StoredLabelLaw` | internal/worker/slapoller.go:85-236 | after any run ending in a clean poll the stored label of a running ticket whose polls all read one policy, from the time left until its stored deadlines and the policy's minutes and threshold |
| `PollPasses.BreachFoldIsRowLocal` | internal/worker/slapoller.go:100-105 | the first loop leaves every listed row as the row function does, every other row alone, and alerts in listing order |
| `PollPasses.WarnFoldIsRowLocal` | internal/worker/slapoller.go:120-166 | the same for the second loop, which alerts nobody |
| `PollPasses.BreachPassOnly` | internal/worker/slapoller.go:100-105 | a poll cut short after k rows is the step whose remaining rows are unreached |
| `PollPasses.BothPasses` | internal/worker/slapoller.go:85-109 | two loops over separately queried snapshots are one row-by-row step, in which the rows the second loop did not get to or see are unreached |
| `SlaWorker.Worker.HandleTicketCreate` | internal/worker/resolve.go:180-252 | takes exactly the create step on the tables, and returns an error iff a call fails or a key clashes before or after a default policy is found |
| `SlaWorker.Worker.HandleTicketUpdate` | internal/worker/resolve.go:255-328 | takes exactly the update step, and returns an error iff a read fails or the write of a row whose pause class changes does, leaving the tables alone |
| `SlaWorker.Worker.CreatePolicy` | internal/sla/store.go:66-74 | adds the policy unless its key or its priority and is_default are taken, and touches no ticket |
| `SlaWorker.Worker.UpdatePolicy` | internal/sla/store.go:77-91 | changes exactly the given fields of one policy unless that breaks a key, and touches no ticket and no running deadline |
| `SlaWorker.Worker.DeletePolicy` | internal/sla/store.go:94-103 | removes the policy and clears it on exactly the tickets that had it |
| `SlaWorker.Worker.RecordTicket` | internal/ticket/service.go:155-161 | takes the step of a metadata row written without a policy and returns the row, or none when a unique key is violated |
| `SlaWorker.Worker.UpsertState` | internal/sla/store.go:164-187 | replaces the ticket's row in full but for its primary key, and refuses an insert whose primary key is taken |
| `SlaWorker.Worker.ListBreachedTickets` | internal/worker/store.go:28-69 | returns each row that matches the breach predicate once, and no other |
| `SlaWorker.Worker.ListActiveStates` | internal/worker/store.go:73-114 | returns each on-track running row with its joined policy once, and no other |
| `SlaWorker.Worker.ProcessBreachedState` | internal/worker/slapoller.go:169-236 | does to the tables what processing one listed row is specified to do, for every failing call |
| `SlaWorker.Worker.CheckWarnings` | internal/worker/slapoller.go:113-167 | its loop is the fold of the warning step over the rows reached |
| `SlaWorker.Worker.Poll` | internal/worker/slapoller.go:85-109 | takes exactly one poll step, whose faults are those of the single calls and what a failing query or a cancelled context leaves out |
| `SlaWorker.RowsOfAnyWorker` | internal/worker/slapoller.go:225-228 | the row invariant holds of any valid worker object, and a breached row has been alerted |
| `Interleaving.Commutes` | internal/worker/slapoller.go:169-236 | processing a row and a handler for another ticket commute on all tables and the alert log |
| `Interleaving.PassReduces` | internal/worker/worker.go:63-71 | a pass interleaved with handlers for other tickets ends as the undisturbed pass followed by those handlers |
| `Interleaving.InterleavedBreachPassIsAtomic` | internal/worker/slapoller.go:93-105 | over a real listing that undisturbed pass is the poll step of the state machine |
| `Interleaving.InterleavedWarnPassIsAtomic` | internal/worker/slapoller.go:113-167 | the warning pass, over the tables it finds, is a possible poll step that reaches no breached row, then the handlers |
| `Interleaving.InterleavedPollIsAtomic` | internal/worker/slapoller.go:85-109 | a whole poll, handlers for other tickets running in both passes, ends as a valid chronological run of one poll step and those handlers |
| `Interleaving.InterleavedPollStaysReachable` | internal/worker/worker.go:57-79 | from any reachable table it ends in a table that a run without interleaving reaches, so every run theorem holds of it |
| `Interleaving.MissedWereHandled` | internal/worker/slapoller.go:113-118 | a row that the second query misses and would have returned undisturbed belongs to a ticket handled during the first pass |
| `Interleaving.SplitUpdateIsAtomic` | internal/worker/resolve.go:276-318 | a ticket.update that reads its row before and writes it after a pass over other tickets ends as one that runs after them |
| `Interleaving.LostPause` | internal/worker/store.go:153-170 | an update between read and write of its row commutes with the write iff it does not pause or nothing is written; otherwise the pause is lost |
| `Interleaving.LostRestart` | internal/worker/resolve.go:217-231 | a ticket.create between read and write of its row commutes on the SLA rows iff the pass then writes nothing; otherwise the former epoch's deadlines and label replace the new row |
| `Interleaving.LostBreach` | internal/worker/resolve.go:276-318 | a pass between the read and the write of an update of its row loses its mark iff it makes one and the update pauses the ticket, though the page is sent |
| `Witnesses.PollAtTheDeadline` | internal/worker/store.go:43-50 | a run from the empty schema whose clean poll, exactly at the deadline, stores warning where the computation says breached |
| `Witnesses.PauseIsLost` | internal/worker/slapoller.go:100-105 | in a table reachable from the empty schema a pause between the poll's read and write does not survive |
| `Witnesses.RestartIsLost` | internal/worker/resolve.go:217-231 | in a table reachable from the empty schema a ticket created anew there keeps the breached label and the deadline of its former epoch |
| `Witnesses.BreachIsPagedTwice` | internal/worker/resolve.go:276-318 | from a table reachable from the empty schema a breach marked between the read and write of a pausing update is paged again after the resume, with no call failing |
| `EventStream.EventProcessor.Run` | internal/worker/eventprocessor.go:45-83 | the messages processed are one contiguous slice of the stream in ID order, whatever they hold and whatever fails, and each handler gets in order exactly the events of its source in the slice that decode |
| `EventStream.EventProcessor.ReadOnce` | internal/worker/eventprocessor.go:56-81 | one read processes the next stretch of the stream and moves the cursor to its end; a failing one changes nothing |
| `EventStream.EventProcessor.ProcessMessage` | internal/worker/eventprocessor.go:85-118 | a zammad message that decodes reaches the Zammad handler, a nightowl one the NightOwl handler, any other none |
| `EventStream.HandlersGetTheirEvents` | internal/worker/eventprocessor.go:94-117 | over any messages each handler gets the decodable events of its source, once and in order, and there are no other calls |
| `EventStream.ReadAdvances` | internal/worker/eventprocessor.go:56-81 | a successful read by ID hands over exactly the next stretch of the stream |
| `EventStream.SliceOnlyGrows` | internal/worker/eventprocessor.go:76-81 | later reads keep the slice's start and never take back its end |
| `EventStream.EveryMessageIsReached` | internal/worker/eventprocessor.go:50-82 | n successful reads process n more messages or all there are |
| `EventStream.WaitsForADelivery` | internal/worker/eventprocessor.go:48-74 | nothing is read iff no read has succeeded with a message arriving while it lasted |
| `EventStream.FirstDeliveryFixesTheStart` | internal/worker/eventprocessor.go:48-60 | the slice starts where the stream ended when the first such read was issued |
| `EventStream.NeverProcessed` | internal/worker/eventprocessor.go:48-60 | a message already in the stream when that read was issued is processed by no later read either |
| `EventStream.ProcessedIff` | internal/worker/eventprocessor.go:48-82 | given enough successful reads a message is processed iff it was not in the stream when the first delivering read was issued |
| `EventStream.MessageLostBeforeTheFirstBatch` | internal/worker/eventprocessor.go:48-66 | a message that arrives between two reads from `$`, the later being the first to deliver, is lost whatever is read afterwards |
| `EventStream.AMessageIsLost` | internal/worker/eventprocessor.go:48-66 | two reads and two messages of which only the second is processed |
| `AutoTicket.FindMatchingRules` | internal/worker/autoticket.go:65-73 | collects the matching rules in table order |
| `AutoTicket.Matching` | internal/worker/autoticket.go:65-73 | a rule is collected iff it is in the table and matches |
| `AutoTicket.MatchLaw` | internal/worker/autoticket.go:36-61 | a rule matches iff it is enabled, its group is empty, the service's name or its prefix up to a trailing dash, and the incident is at least as grave as its minimum, whatever the letter case |
| `AutoTicket.RankLaw` | internal/worker/autoticket.go:22-29 | low, medium, high and critical rank in this order in any spelling, anything else below them |
| `AutoTicket.GraverIncidentsMatchMore` | internal/worker/autoticket.go:51-58 | a graver incident matches a supersequence of the rules, in the same order |
| `AutoTicket.SubservicesMatchMore` | internal/worker/autoticket.go:36-49 | an incident on a service named below another keeps, of the rules matched, exactly those for a family of services or for all, in the same order when all rules are such |
| `AutoTicket.RenderTitle` | internal/worker/autoticket.go:77-84 | for a template of placeholders and brace-free text the title is the template with every placeholder replaced where it stands, unless a value holds a later placeholder or ends in the start of one; with brace-free values none is left |
| `AutoTicket.RenderIsSubstitution` | internal/worker/autoticket.go:77-84 | the four passes equal one left-to-right simultaneous substitution unless a value holds a later pass's placeholder or ends in the start of one |
| `AutoTicket.TitleLaw` | internal/worker/autoticket.go:79-82 | each of the four placeholders, as the source spells it, is replaced by the slug, summary, service or severity |
| `AutoTicket.NoPlaceholderSurvives` | internal/worker/autoticket.go:77-84 | with four brace-free values the title holds no brace, hence no placeholder |
| `TitleSafety.RendersAlikeIffSafe` | internal/worker/autoticket.go:77-84 | when the other three values hold no brace, the four passes equal the simultaneous substitution on every template iff the slug holds no later placeholder, does not end in the first two or more characters of one, and does not end in a brace that a second copy of the slug completes to one |
| `AutoTicket.ValueSubstitutedTwice` | internal/worker/autoticket.go:79-80 | a slug that ends in all or the start of a later placeholder is substituted again by a template that completes it, where the simultaneous reading keeps it |
| `Incidents.IncidentHandler.HandleIncidentCreated` | internal/worker/resolve.go:331-432 | leaves the desk as one attempt per matching rule in order does, an error in one round moving on to the next |
| `Incidents.IncidentHandler.HandleIncidentResolved` | internal/worker/resolve.go:435-500 | closes exactly the linked tickets whose update succeeds, and says when it errs |
| `Incidents.IncidentHandler.CreateIncidentLink` | internal/link/store.go:58-70 | appends the link unless the pair is already linked or the ticket has no metadata row, and keeps the foreign key |
| `Incidents.IncidentHandler.ListIncidentLinksByIncidentID` | internal/link/store.go:87-105 | returns exactly the links of the incident, each as often as the table holds it, in order of creation |
| `Incidents.OpenLaw` | internal/worker/resolve.go:390-420 | one round with new ids: the Zammad ticket with its rendered title, the metadata row and the link, up to the call that fails |
| `Incidents.ResolveLaw` | internal/worker/resolve.go:468-491 | resolving sets state id 4 on exactly the tickets the incident's links lead to, but for failed updates |
| `Incidents.LinksKeepOrder` | internal/link/store.go:88-90 | the listed links stand in the order in which the table holds them |
| `Incidents.OneTicketPerRule` | internal/worker/resolve.go:387-429 | with nothing failing exactly one ticket, metadata row and link per matching rule are added, links in rule order, and nothing else changes |
| `Incidents.NewTicketsAreAsMany` | internal/worker/resolve.go:387-412 | fresh ids make that as many tickets and rows as rules |
| `Incidents.ResolvingClosesWhatWasOpened` | internal/worker/resolve.go:447-497 | resolving closes exactly the tickets the incident opened or was linked to, and no others |
| `Incidents.ResolvingAgain` | internal/worker/resolve.go:470-497 | resolving again closes only what failed before; after a clean resolve it changes nothing |
| `TicketViews.SortByTime` | internal/comment/service.go:67-70 | a time-ordered permutation of the entries |
| `TicketViews.ListThread` | internal/comment/service.go:37-73 | fails exactly when a needed call fails, and otherwise is a time-ordered permutation of all article and note entries with every note internal |
| `TicketViews.EntriesShow` | internal/comment/service.go:125-151 | an entry shows an article as Zammad has it, and a note under its author's name and internal |
| `TicketViews.TicketService.Get` | internal/ticket/service.go:32-45 | the fetched ticket with the id and policy of the metadata row of the requested id, or with neither |
| `TicketViews.TicketService.List` | internal/ticket/service.go:84-109 | keeps Zammad's order and shows for each ticket the id and policy of its metadata row, or none, as Get does; no metadata when its query fails |

## Left out

- Column precision: TIMESTAMPTZ keeps microseconds, 32-bit columns and 64-bit durations wrap; the model keeps exact unbounded integers.
- Floating point: `Seconds()` and the threshold product are exact here.
- The database, Redis, Zammad, NightOwl and BookOwl themselves: tables are maps with their unique keys and predicates for one tenant, calls succeed or fail as the step says, Zammad ids are fresh, and a read of the stream returns at most 100 messages after the cursor.
- A failing statement that nevertheless took effect, such as an alert accepted by NightOwl whose answer is lost: a call either happens or fails.
- `IncidentHandler` orders links by creation as a sequence; `created_at` ties are not modelled.
- The statements inside one ticket.create, incident.created or incident.resolved are not interleaved with a pass; only the read and the write of ticket.update are, since it alone writes back a row it has read.
- `Interleaving.InterleavedPollIsAtomic`: for handlers whose clocks are not older than the poll's, on tickets it does not list; a row that a handler of the first pass put into the second listing is the subject of `SlaRowRuns.LateWarningIsDue` instead.
- On-call assignment, `escalate_to_secondary`, log lines and metrics: best effort, without state of their own.
- `ApplyPolicy`, the demo seed rows, the configured pause statuses and `pauseStates`: no step of the running worker uses them.
- HTTP handlers, authentication, webhook signatures, JSON decoding, the admin and customer endpoints, post-mortems and suggestions, the web front end: they hold no SLA, ticket or link state of their own beyond the tables modelled here.
- Unicode: lower-casing of severities covers ASCII letters only.
- `TicketViews.SortByTime`: the library's in-place sort is modelled on a sequence, and says nothing about entries with equal times, as the library does.
- `EventStream.EventProcessor.Run`: the endless loop is modelled over the reads it makes before its context is cancelled; waiting and back-off have no effect on the cursor.
- `AutoTicket.RenderIsSubstitution`: one direction, for values that may all hold braces; `TitleSafety.RendersAlikeIffSafe` is exact when only the slug does. With braces in several values two replacements can undo each other (a slug that spells two placeholders, one of whose values spells the slug again).
