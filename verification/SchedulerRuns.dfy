/** Whole runs of several scheduler engines over one store. Which engine steps
    next, which call it serves and at what time are arbitrary; leases may
    expire and be reclaimed between any two steps. */
module SchedulerRuns {
  import opened Wrappers
  import opened Cron
  import opened RunStore
  import opened Fencing
  import opened SchedulerState
  import opened SchedulerSweep
  import opened SchedulerReclaims
  import opened SchedulerSteady
  import opened Scheduler

  /** Every entry into an engine: callers, timers, events and the continuations of its `await`s. */
  datatype Call =
    | Starting(recoveries: Recoveries)
    | Creating(s: ScheduleId, schedule: Schedule)
    | Updating(s: ScheduleId, patch: Patch)
    | Deleting(s: ScheduleId)
    | Triggering(s: ScheduleId, healthy: bool, allowed: bool)
    | CronTimer(s: ScheduleId, processDownCatchUp: bool, healthy: bool, allowed: bool)
    | StreamNews(x: ExecutionId, stream: StreamEvent)
    | WorkflowNews(x: ExecutionId, runId: Option<RunId>, workflow: WorkflowEvent)
    | LaunchReturned(id: RunId, x: ExecutionId, isWorkflow: bool)
    | LaunchThrew(id: RunId)
    | RetryTimer(id: RunId)
    | TimeoutTimer(id: RunId)
    | Cancelling(id: RunId)
    | Resolving(id: RunId, dispatch: Dispatch, status: Status, sameText: bool)
    | LeaseTimer(recoveries: Recoveries)
    | Detaching
    | Disposing

  /** What the protocol's schemas and `parseCron` guarantee of a call. */
  ghost predicate WellTyped(call: Call) {
    match call
    case Starting(recoveries) => Genuine(recoveries)
    case LeaseTimer(recoveries) => Genuine(recoveries)
    case Creating(_, schedule) => schedule.trigger.CronTrigger? ==> WellFormed(schedule.trigger.cron)
    case Updating(_, patch) => patch.trigger.Some? && patch.trigger.value.CronTrigger? ==>
        WellFormed(patch.trigger.value.cron)
    case Resolving(_, _, status, _) => status in {Success, Failed, Cancelled, Skipped, Timeout}
    case _ => true
  }

  /** The calls that go through the listing of unfinished runs. */
  predicate Sweeps(call: Call) {
    call.Starting? || call.LeaseTimer?
  }

  // ---------------------------------------------------------------------
  // The clock of a schedule whose occurrences are owed one by one
  // ---------------------------------------------------------------------

  predicate Owed(schedules: Schedules, s: ScheduleId) {
    && s in schedules && Live(schedules[s], false) && schedules[s].trigger.CronTrigger?
    && (schedules[s].enabled ==> schedules[s].nextRunAt.Some?)
  }

  /** The calls that set a schedule's clock anew. */
  predicate Interrupts(call: Call, s: ScheduleId) {
    match call
    case Updating(t, _) => t == s
    case Deleting(t) => t == s
    case CronTimer(t, processDownCatchUp, _, _) => t == s && processDownCatchUp
    case _ => false
  }

  function SwitchedOff(schedule: Schedule): Schedule {
    schedule.(enabled := false, nextRunAt := None)
  }

  /** What one call does to the clock of `s`: the due occurrence is accepted and the
      cursor moves to the next one, or the cursor stays; either may switch it off. */
  ghost predicate ClockTurn(s: ScheduleId, call: Call, fired: Option<Firing>, now: int,
                            schedules: Schedules, schedules': Schedules, rows: Rows, rows': Rows)
    requires Owed(schedules, s)
  {
    var schedule := schedules[s];
    && s in schedules'
    && if call.CronTimer? && call.s == s && fired.Some? then
         var next := NextFire(schedule.trigger.cron, schedule.trigger.offset, fired.value.at);
         && schedule.enabled && schedule.nextRunAt == Some(fired.value.at) && fired.value.at <= now + EARLY_MS
         && next.Some? && schedules'[s] in {schedule.(nextRunAt := next), SwitchedOff(schedule)}
         && RowOfFiring(s, fired.value, rows, rows')
       else schedules'[s] in {schedule, SwitchedOff(schedule)} && (!schedule.enabled ==> schedules'[s] == schedule)
  }

  /** A policy denial leaves no row, any other outcome a new one. */
  predicate RowOfFiring(s: ScheduleId, f: Firing, rows: Rows, rows': Rows) {
    && !f.admission.Unavailable? && f.id !in rows
    && (!f.admission.Denied? ==> f.id in rows' && rows'[f.id].schedule == s)
  }

  ghost predicate ClockTurns(call: Call, fired: Option<Firing>, now: int,
                             schedules: Schedules, schedules': Schedules, rows: Rows, rows': Rows)
  {
    forall s | Owed(schedules, s) && !Interrupts(call, s) ::
        ClockTurn(s, call, fired, now, schedules, schedules', rows, rows')
  }

  lemma SameSchedules(call: Call, now: int, schedules: Schedules, rows: Rows, rows': Rows)
    ensures ClockTurns(call, None, now, schedules, schedules, rows, rows')
  {
  }

  lemma TriggerTurnsClock(t: ScheduleId, healthy: bool, allowed: bool, id: RunId, r: Admission, k: nat, now: int,
                          c: Core, c': Core)
    requires if t !in c.schedules || !c.schedules[t].enabled then c' == c
             else TriggerOutcome(t, id, r, k, None, now, c, c')
    ensures ClockTurns(Triggering(t, healthy, allowed), None, now, c.schedules, c'.schedules, c.rows, c'.rows)
  {
    hide Drained, RemovedFrom, Stays, Active, Saturated;
  }

  function FiredBy(schedules: Schedules, t: ScheduleId, id: RunId, r: CronOutcome): Option<Firing> {
    if r.Fired? && t in schedules
        && schedules[t].nextRunAt.Some? then Some(Firing(schedules[t].nextRunAt.value, id, r.admission))
    else None
  }

  lemma CronTurnsClock(t: ScheduleId, id: RunId, down: bool, healthy: bool, allowed: bool, running: bool,
                       dispatchOnly: bool, r: CronOutcome, k: nat, now: int, c: Core, c': Core)
    requires CronRoundOutcome(t, id, down, running, dispatchOnly, r, k, now, c, c') && id !in c.rows
    ensures ClockTurns(CronTimer(t, down, healthy, allowed), FiredBy(c.schedules, t, id, r), now, c.schedules,
                       c'.schedules, c.rows, c'.rows)
  {
    hide NextFire, Accepted;
    var call, fired := CronTimer(t, down, healthy, allowed), FiredBy(c.schedules, t, id, r);
    if r.Fired? {
      var next := Successor(c.schedules[t], down, now).value;
      AcceptedClock(t, id, r.admission, k, next, now, c, c');
      if !r.admission.Denied? { FiringHasRow(t, id, r.admission, k, next, now, c, c'); }
      AcceptedCursor(t, id, r.admission, k, next, now, c, c');
    }
    forall s | Owed(c.schedules, s) && !Interrupts(call, s)
      ensures ClockTurn(s, call, fired, now, c.schedules, c'.schedules, c.rows, c'.rows)
    {
    }
  }

  lemma AcceptedClock(t: ScheduleId, id: RunId, r: Admission, k: nat, next: int, now: int, c: Core, c': Core)
    requires t in c.schedules && c.schedules[t].enabled && Accepted(t, id, r, k, next, now, c, c')
    ensures t in c'.schedules
            && c'.schedules[t] in {c.schedules[t].(nextRunAt := Some(next)), SwitchedOff(c.schedules[t])}
    ensures forall s | s in c.schedules && s != t :: s in c'.schedules && c'.schedules[s] == c.schedules[s]
  {
    hide Drained, RemovedFrom, Stays, Active, Saturated;
  }

  // ---------------------------------------------------------------------
  // What a call may disturb
  // ---------------------------------------------------------------------

  predicate TearsDown(call: Call) {
    call.Detaching? || call.Disposing?
  }

  predicate AllowsOverlap(call: Call, s: ScheduleId) {
    match call
    case Creating(t, schedule) => t == s && schedule.overlap.Allow?
    case Updating(t, patch) => t == s && Allows(patch)
    case _ => false
  }

  /** The schedules a call may disturb: it allows them overlapping runs, fails one of
      their runs on a controller's word, tears their runs down, or claims one that
      this engine does not hold. */
  ghost predicate Disturbs(s: ScheduleId, call: Call, now: int, c: Core) {
    match call
    case Starting(_) => Orphaned(c, s, now)
    case LeaseTimer(_) => Orphaned(c, s, now)
    case Resolving(id, _, status, _) => s in FailedBy(c.rows, id, status)
    case Detaching => s in SchedulesOf(c.runtimes, Undispatched(c.runtimes))
    case Disposing => s in SchedulesOf(c.runtimes, c.runtimes.Keys)
    case _ => AllowsOverlap(call, s)
  }

  /** Outside teardown no run is lost, and a schedule that is not disturbed stays steady. */
  ghost predicate StepIsSteady(call: Call, now: int, c: Core, c': Core) {
    && (!TearsDown(call) ==> HoldsOn(c, c'))
    && (forall s | !Disturbs(s, call, now, c) :: SteadyAt(s, c, c'))
  }

  /** The calls after which a schedule may overlap. */
  predicate MayOverlap(call: Call, s: ScheduleId) {
    AllowsOverlap(call, s) || Sweeps(call)
  }

  /** The calls that may end a run failed before its last attempt. */
  predicate MayExcuse(call: Call) {
    Sweeps(call) || TearsDown(call) || call.Resolving?
  }

  /** How the exempted schedules and runs may grow. */
  ghost predicate Exempts(call: Call, now: int, c: Core, c': Core) {
    && c.overlapped <= c'.overlapped
    && (forall s | s in c'.overlapped && s !in c.overlapped ::
          AllowsOverlap(call, s) || (Sweeps(call) && Orphaned(c, s, now)))
    && (Sweeps(call) ==> CrowdsOnly(call.recoveries, c, c'))
    && (!MayExcuse(call) ==> c'.excused == c.excused)
    && (!TearsDown(call) && LeasesHeld(c) ==> c'.starved == c.starved)
  }

  lemma SteadyStep(call: Call, now: int, but: set<ScheduleId>, c: Core, c': Core)
    requires SteadyBut(but, c, c') && forall s | s in but :: Disturbs(s, call, now, c)
    ensures StepIsSteady(call, now, c, c')
  {
    hide HoldsOn, SteadyAt, Disturbs;
  }

  lemma SteadySweep(call: Call, now: int, c: Core, c': Core)
    requires Sweeps(call) && SweptSteadily(call.recoveries, now, c, c')
    ensures StepIsSteady(call, now, c, c') && CrowdsOnly(call.recoveries, c, c')
  {
    hide HoldsOn, SteadyAt, Orphaned;
  }

  lemma TeardownStep(call: Call, now: int, gone: set<RunId>, c: Core, c': Core)
    requires InvOf(c, {}) && TearsDown(call)
    requires gone == if call.Detaching? then Undispatched(c.runtimes) else c.runtimes.Keys
    requires c' == c || AllRetired(gone, c, c')
    ensures StepIsSteady(call, now, c, c')
  {
    hide SteadyAt, AllRetired, InvOf;
    NothingIsSteady({}, c);
    forall s | !Disturbs(s, call, now, c) ensures SteadyAt(s, c, c') {
      if c' != c { RetiredElsewhere(s, gone, c, c'); }
    }
  }

  lemma StepExempts(call: Call, now: int, c: Core, c': Core)
    requires StepIsSteady(call, now, c, c') && c.overlapped <= c'.overlapped
    requires !Sweeps(call) && !TearsDown(call) && !call.Resolving? ==> c'.excused == c.excused
    requires TearsDown(call) || call.Resolving? ==> c'.overlapped == c.overlapped
    requires Sweeps(call) ==> CrowdsOnly(call.recoveries, c, c')
    ensures Exempts(call, now, c, c')
  {
    hide HoldsOn, NoneLost, InOrder, ForeignKept, Orphaned, CrowdsOnly;
    if !TearsDown(call) && LeasesHeld(c) { HeldStarvesNone(c, c'); }
    forall s | s in c'.overlapped && s !in c.overlapped
      ensures AllowsOverlap(call, s) || (Sweeps(call) && Orphaned(c, s, now))
    {
      assert !SetsKept(s, c, c');
      assert !SteadyAt(s, c, c');
    }
  }

  // ---------------------------------------------------------------------
  // One step of one engine
  // ---------------------------------------------------------------------

  /** Seen as one step, a call keeps its engine's guarantee exactly if none of its steps
      claims a run that has finished since it was listed. */
  method Perform(e: SchedulerEngine, call: Call, now: int) returns (ghost trail: seq<Step>, ghost fired: Option<Firing>)
    requires e.Valid() && WellTyped(call)
    modifies e, e.store
    ensures e.Valid()
    ensures Trailed(e.me, now, true, old(e.store.rows), old(e.emitted), trail, e.store.rows, e.emitted)
    ensures !Sweeps(call) || old(e.dispatchOnly) || Calm(old(e.View())) ==> NoReclaim(trail)
    ensures Guarantee(e.me, now, old(e.store.rows), old(e.emitted), e.store.rows, e.emitted) <==> NoReclaim(trail)
    ensures RowsKept(e.me, now, old(e.store.rows), e.store.rows)
    ensures ClockTurns(call, fired, now, old(e.store.schedules), e.store.schedules, old(e.store.rows), e.store.rows)
    ensures StepIsSteady(call, now, old(e.View()), e.View()) && Exempts(call, now, old(e.View()), e.View())
  {
    hide StepIsSteady, Exempts, InvOf, BusyBut, Guarantee, RowsKept, WellTyped, Trailed, NoReclaim, Calm, ClockTurns;
    ghost var rows, notes := e.store.rows, e.emitted;
    fired := None;
    if Sweeps(call) {
      SameSchedules(call, now, e.store.schedules, rows, rows);
      trail := SweepStep(e, call, now);
      SameSchedules(call, now, e.store.schedules, rows, e.store.rows);
    } else {
      fired := PlainStep(e, call, now);
      GuaranteeKeepsRows(e.me, now, rows, notes, e.store.rows, e.emitted);
      trail := OneStep(e.me, now, true, rows, notes, e.store.rows, e.emitted);
    }
  }

  lemma GuaranteeKeepsRows(me: OwnerId, now: int, rows: Rows, notes: seq<Note>, rows': Rows, notes': seq<Note>)
    requires Guarantee(me, now, rows, notes, rows', notes')
    ensures RowsKept(me, now, rows, rows')
  {
  }

  method PlainStep(e: SchedulerEngine, call: Call, now: int) returns (ghost fired: Option<Firing>)
    requires e.Valid() && WellTyped(call) && !Sweeps(call)
    modifies e, e.store
    ensures e.Valid()
    ensures Guarantee(e.me, now, old(e.store.rows), old(e.emitted), e.store.rows, e.emitted)
    ensures ClockTurns(call, fired, now, old(e.store.schedules), e.store.schedules, old(e.store.rows), e.store.rows)
    ensures StepIsSteady(call, now, old(e.View()), e.View()) && Exempts(call, now, old(e.View()), e.View())
  {
    hide Exempts, StepIsSteady, InvOf, BusyBut, Guarantee, Announced, ClockTurns, Interrupts, WellFormed;
    ghost var c := e.View();
    if call.Creating? || call.Updating? || call.Deleting? || call.Triggering? || call.CronTimer? {
      fired := ScheduleStep(e, call, now);
    } else {
      fired := None;
      ghost var rows := e.store.rows;
      RunStep(e, call, now);
      SameSchedules(call, now, e.store.schedules, rows, e.store.rows);
    }
    StepExempts(call, now, c, e.View());
  }

  /** The calls that concern a schedule. */
  method ScheduleStep(e: SchedulerEngine, call: Call, now: int) returns (ghost fired: Option<Firing>)
    requires e.Valid() && WellTyped(call)
    requires call.Creating? || call.Updating? || call.Deleting? || call.Triggering? || call.CronTimer?
    modifies e, e.store`rows, e.store`schedules, e.store`overlapped
    ensures e.Valid()
    ensures Guarantee(e.me, now, old(e.store.rows), old(e.emitted), e.store.rows, e.emitted)
    ensures ClockTurns(call, fired, now, old(e.store.schedules), e.store.schedules, old(e.store.rows), e.store.rows)
    ensures old(e.store.overlapped) <= e.store.overlapped
    ensures StepIsSteady(call, now, old(e.View()), e.View())
  {
    hide StepIsSteady, SteadyBut, Disturbs, InvOf, BusyBut, Guarantee, Announced, WellFormed, NextFire,
         TriggerOutcome, CronRoundOutcome, RunsCancelled, ClockTurns;
    GuaranteeOfNothing(e.me, now, e.store.rows, e.emitted);
    ghost var c := e.View();
    fired := None;
    NothingIsSteady(Disturbed(call, c.rows), c);
    match call {
      case Creating(s, schedule) =>
        if s !in e.store.schedules { var ok := e.Create(s, schedule, now); }
        SameOrOneSet(call, now, c, e.View(), s);
      case Updating(s, patch) =>
        var ok := e.Update(s, patch, now);
        SameOrOneSet(call, now, c, e.View(), s);
      case Deleting(s) =>
        var deleted := e.Delete(s, now);
        SameOrOneSet(call, now, c, e.View(), s);
      case Triggering(s, healthy, allowed) =>
        var id := e.FreshRunId();
        var r, k := e.Trigger(s, id, healthy, allowed, now);
        TriggerTurnsClock(s, healthy, allowed, id, r, k, now, c, e.View());
      case CronTimer(s, down, healthy, allowed) =>
        var id := e.FreshRunId();
        ghost var running, dispatchOnly := e.started && !e.disposed, e.dispatchOnly;
        var r, k := e.CronRound(s, down, id, healthy, allowed, now);
        CronTurnsClock(s, id, down, healthy, allowed, running, dispatchOnly, r, k, now, c, e.View());
        fired := FiredBy(c.schedules, s, id, r);
    }
    NamedIsSteady(call, now, c, e.View());
  }

  /** The schedules a call names as those it may disturb. */
  function Disturbed(call: Call, rows: Rows): set<ScheduleId> {
    match call
    case Creating(s, schedule) => if schedule.overlap.Allow? then {s} else {}
    case Updating(s, patch) => if Allows(patch) then {s} else {}
    case Resolving(id, _, status, _) => FailedBy(rows, id, status)
    case _ => {}
  }

  lemma NamedIsSteady(call: Call, now: int, c: Core, c': Core)
    requires !Sweeps(call) && !TearsDown(call) && SteadyBut(Disturbed(call, c.rows), c, c')
    ensures StepIsSteady(call, now, c, c')
  {
    hide SteadyBut, StepIsSteady;
    SteadyStep(call, now, Disturbed(call, c.rows), c, c');
  }

  lemma SameOrOneSet(call: Call, now: int, c: Core, c': Core, t: ScheduleId)
    requires forall s | s in c.schedules && s != t :: s in c'.schedules && c'.schedules[s] == c.schedules[s]
    requires t in c.schedules ==> c'.schedules == c.schedules || Interrupts(call, t)
    ensures ClockTurns(call, None, now, c.schedules, c'.schedules, c.rows, c'.rows)
  {
  }

  /** The calls that concern a run or the engine. */
  method RunStep(e: SchedulerEngine, call: Call, now: int)
    requires e.Valid() && WellTyped(call) && !Sweeps(call)
    requires !(call.Creating? || call.Updating? || call.Deleting? || call.Triggering? || call.CronTimer?)
    modifies e, e.store`rows, e.store`excused
    ensures e.Valid()
    ensures StepIsSteady(call, now, old(e.View()), e.View())
    ensures !TearsDown(call) && !call.Resolving? ==> e.store.excused == old(e.store.excused)
    ensures Guarantee(e.me, now, old(e.store.rows), old(e.emitted), e.store.rows, e.emitted)
  {
    hide StepIsSteady, SteadyBut, Disturbs, InvOf, BusyBut, Guarantee, Announced, Concluded, LaunchOutcome,
         Settled, ResolvedTo, AllRetired;
    GuaranteeOfNothing(e.me, now, e.store.rows, e.emitted);
    ghost var c := e.View();
    NothingIsSteady(Disturbed(call, c.rows), c);
    match call {
      case StreamNews(x, event) => ghost var k := e.OnStreamEvent(x, event, now);
      case WorkflowNews(x, runId, event) => ghost var k := e.OnWorkflowEvent(x, runId, event, now);
      case LaunchReturned(id, x, isWorkflow) =>
        if id in e.begun { e.ResumeLaunch(id, x, isWorkflow, now); }
      case LaunchThrew(id) =>
        if id in e.begun { ghost var k := e.OnLaunchThrew(id, now); }
      case RetryTimer(id) => ghost var k := e.OnRetryTimer(id, now);
      case TimeoutTimer(id) => ghost var k := e.EndByCaller(id, Timeout, now);
      case Cancelling(id) => ghost var k := e.EndByCaller(id, Cancelled, now);
      case Resolving(id, dispatch, status, sameText) => var r, k := e.Resolve(id, dispatch, status, sameText, now);
      case Detaching =>
        e.DetachDispatchClock(now);
        TeardownStep(call, now, Undispatched(c.runtimes), c, e.View());
      case Disposing =>
        e.Dispose(now);
        TeardownStep(call, now, c.runtimes.Keys, c, e.View());
      case _ =>
    }
    if !TearsDown(call) { NamedIsSteady(call, now, c, e.View()); }
  }

  /** The calls that go through the listing of unfinished runs. */
  method SweepStep(e: SchedulerEngine, call: Call, now: int) returns (ghost trail: seq<Step>)
    requires e.Valid() && WellTyped(call) && Sweeps(call)
    modifies e, e.store`rows, e.store`overlapped, e.store`excused
    ensures e.Valid()
    ensures Trailed(e.me, now, true, old(e.store.rows), old(e.emitted), trail, e.store.rows, e.emitted)
    ensures old(e.dispatchOnly) || Calm(old(e.View())) ==> NoReclaim(trail)
    ensures Guarantee(e.me, now, old(e.store.rows), old(e.emitted), e.store.rows, e.emitted) <==> NoReclaim(trail)
    ensures RowsKept(e.me, now, old(e.store.rows), e.store.rows)
    ensures StepIsSteady(call, now, old(e.View()), e.View()) && Exempts(call, now, old(e.View()), e.View())
  {
    hide StepIsSteady, Exempts, SweptSteadily, InvOf, BusyBut, Guarantee, RowsKept, Trailed, NoReclaim, Calm,
         ClaimsFrom, Swept, ReclaimCount, Again, ExposedRun, LeasesRenewed, LeasesHeld;
    ghost var c, rows, notes, dispatchOnly := e.View(), e.store.rows, e.emitted, e.dispatchOnly;
    if call.Starting? {
      ghost var w;
      w, trail := e.Start(call.recoveries, now);
    } else {
      ghost var w, mid;
      w, trail, mid := LeaseStep(e, call.recoveries, now);
    }
    TrailedQuietly(e.me, now, dispatchOnly, rows, notes, trail, e.store.rows, e.emitted);
    SteadySweep(call, now, c, e.View());
    StepExempts(call, now, c, e.View());
  }

  lemma TrailedQuietly(me: OwnerId, now: int, silent: bool, rows: Rows, notes: seq<Note>, trail: seq<Step>, rows': Rows,
                       notes': seq<Note>)
    requires Trailed(me, now, silent, rows, notes, trail, rows', notes')
    ensures Trailed(me, now, true, rows, notes, trail, rows', notes')
  {
  }

  /** The lease timer renews what the engine holds and then reconciles. With its leases
      held, the finished runs it claims again are exactly the exposed ones. */
  method LeaseStep(e: SchedulerEngine, recoveries: Recoveries, now: int)
    returns (ghost w: Sweep, ghost trail: seq<Step>, ghost mid: Core)
    requires e.Valid() && Genuine(recoveries)
    modifies e, e.store`rows, e.store`overlapped, e.store`excused
    ensures e.Valid()
    ensures if e.disposed then e.View() == old(e.View())
            else && LeasesRenewed({}, old(e.View()), mid) && LeasesHeld(mid)
                 && Swept(recoveries, old(e.dispatchOnly), now, e.store.createdAt, mid, e.View(), w)
                 && forall id :: ReclaimCount(trail, id)
                                 == if ExposedRun(Pass(w.listed, recoveries, old(e.dispatchOnly), now), mid, id) then 1
                                     else 0
    ensures Trailed(e.me, now, old(e.dispatchOnly), old(e.store.rows), old(e.emitted), trail, e.store.rows, e.emitted)
    ensures old(e.dispatchOnly) || Calm(old(e.View())) ==> NoReclaim(trail)
    ensures Guarantee(e.me, now, old(e.store.rows), old(e.emitted), e.store.rows, e.emitted) <==> NoReclaim(trail)
    ensures RowsKept(e.me, now, old(e.store.rows), e.store.rows)
    ensures old(e.store.overlapped) <= e.store.overlapped
    ensures SweptSteadily(recoveries, now, old(e.View()), e.View())
  {
    hide SteadyBut, SweptSteadily, InvOf, BusyBut, Guarantee, Announced, RowsKept, Trailed, NoReclaim, Calm,
         ClaimsFrom, Swept, ReclaimCount, Again, ExposedRun, LeasesRenewed, LeasesHeld, AnnouncedPerEnd;
    ghost var c, notes := e.View(), e.emitted;
    e.RenewRunLeases(now);
    mid := e.View();
    ghost var first := OneStep(e.me, now, e.dispatchOnly, c.rows, notes, mid.rows, notes);
    if !e.disposed && Calm(c) { CalmOnceRenewed(c, mid); }
    ghost var rest;
    w, rest := e.ReconcileOrphanedRuns(recoveries, now);
    if e.disposed { NothingOrphaned(recoveries, now, c); } else { RenewedThenSwept(recoveries, now, c, mid, e.View()); }
    trail := first + rest;
    TrailsJoin(e.me, now, e.dispatchOnly, c.rows, notes, first, mid.rows, notes, rest, e.store.rows, e.emitted);
    TracesJoin(c.rows, first, rest);
    NoReclaimCounts(first);
    forall id ensures ReclaimCount(trail, id) == ReclaimCount(rest, id) {
      assert ReclaimCount(first, id) == 0;
    }
    LawfulThenTrail(e.me, now, e.dispatchOnly, c.rows, notes, mid.rows, notes, rest, e.store.rows, e.emitted);
  }

  // ---------------------------------------------------------------------
  // Interference
  // ---------------------------------------------------------------------

  /** A step of another engine keeps everything this engine relies on: at worst
      some of its runs are now fenced off. */
  lemma InterferenceKeepsValid(c: Core, c': Core, other: OwnerId, now: int)
    requires ValidCore(c) && other != c.me
    requires c' == c.(rows := c'.rows, schedules := c'.schedules, overlapped := c'.overlapped, excused := c'.excused)
    requires RowsKept(other, now, c.rows, c'.rows)
    requires StoreInv(c'.rows, c'.schedules, c'.overlapped, c'.excused) && c.overlapped <= c'.overlapped
    ensures ValidCore(c')
  {
    BusyIsLocal(c, c', {});
    InterferenceKeepsHeld(c, c', other, now);
    hide QueueExact, Fifo, AttemptsBounded, Held, StoreInv, RowsKept, BusyBut;
  }

  lemma InterferenceKeepsHeld(c: Core, c': Core, other: OwnerId, now: int)
    requires Held(c.runtimes, c.rows, c.me) && LeftQueue(c.rows, c.begun) && other != c.me
    requires RowsKept(other, now, c.rows, c'.rows)
    ensures Held(c.runtimes, c'.rows, c.me) && LeftQueue(c'.rows, c.begun)
  {
    forall id | id in c.runtimes
      ensures id in c'.rows && !Terminal(c.runtimes[id].status)
      ensures Fences(c'.rows[id], Some(c.me), c.runtimes[id].ownerEpoch) ==> Mirrors(c'.rows[id], c.runtimes[id], c.me)
      ensures !c.runtimes[id].phase.Queued? ==> c'.rows[id].phase != Some(Queued)
    {
      assert RowStep(other, now, c.rows[id], c'.rows[id]);
    }
    forall id | id in c.begun ensures id in c'.rows && c'.rows[id].phase != Some(Queued) {
      assert RowStep(other, now, c.rows[id], c'.rows[id]);
    }
  }

  // ---------------------------------------------------------------------
  // All engines together
  // ---------------------------------------------------------------------

  /** Engines over one store, each with its own owner id, each valid. */
  ghost predicate Fleet(engines: seq<SchedulerEngine>, store: RunTable)
    reads store, engines
  {
    && (forall i | 0 <= i < |engines| :: engines[i].store == store && engines[i].Valid())
    && (forall i, j | 0 <= i < j < |engines| :: engines[i] != engines[j] && engines[i].me != engines[j].me)
  }

  ghost function Logs(engines: seq<SchedulerEngine>): (logs: seq<seq<Note>>)
    reads engines
    ensures |logs| == |engines| && forall i | 0 <= i < |engines| :: logs[i] == engines[i].emitted
  {
    if engines == [] then [] else Logs(engines[..|engines| - 1]) + [engines[|engines| - 1].emitted]
  }

  /** How often the end of a run was announced, in all the logs together. */
  function AnnouncedIn(logs: seq<seq<Note>>, id: RunId): nat {
    if logs == [] then 0 else AnnouncedIn(logs[..|logs| - 1], id) + FinishedCount(logs[|logs| - 1], id)
  }

  lemma {:induction false} OneLogGrows(logs: seq<seq<Note>>, i: nat, more: seq<Note>, id: RunId)
    requires i < |logs|
    ensures AnnouncedIn(logs[i := logs[i] + more], id) == AnnouncedIn(logs, id) + FinishedCount(more, id)
  {
    var n := |logs| - 1;
    var logs' := logs[i := logs[i] + more];
    if i == n {
      assert logs'[..n] == logs[..n];
      FinishedCountAdds(logs[n], more, id);
    } else {
      assert logs'[..n] == logs[..n][i := logs[..n][i] + more];
      OneLogGrows(logs[..n], i, more, id);
    }
  }

  datatype Turn = Turn(engine: nat, call: Call, now: int)

  /** Any sequence of turns, whatever the interleaving: every engine stays valid, the
      run is a trace of steps that are lawful or claims of a finished run, and every
      announcement is in it. */
  method Drive(engines: seq<SchedulerEngine>, store: RunTable, turns: seq<Turn>) returns (ghost steps: seq<Step>)
    requires Fleet(engines, store)
    requires forall t | t in turns :: t.engine < |engines| && WellTyped(t.call)
    modifies store, engines
    ensures Fleet(engines, store)
    ensures Trace(old(store.rows), steps) && RowsAfter(old(store.rows), steps) == store.rows
    ensures forall id ::
              AnnouncedIn(Logs(engines), id) == old(AnnouncedIn(Logs(engines), id)) + Announcements(steps, id)
    ensures (forall t | t in turns :: !Sweeps(t.call)) ==> NoReclaim(steps)
    ensures forall s | s in store.overlapped && s !in old(store.overlapped) ::
              exists t | t in turns :: MayOverlap(t.call, s)
    ensures (forall t | t in turns :: !MayExcuse(t.call)) ==> store.excused == old(store.excused)
  {
    hide Exempts, ExemptsAfter, MayOverlap, MayExcuse, Fleet, AnnouncedIn, WellTyped, Trace, RowsAfter,
         Announcements, NoReclaim;
    steps := [];
    ghost var logs, rows := Logs(engines), store.rows;
    ghost var overlapped, excused := store.overlapped, store.excused;
    NothingExempt(overlapped, excused);
    assert turns[..0] == [];
    EmptyTrace(rows);
    for i := 0 to |turns|
      invariant Fleet(engines, store)
      invariant Trace(rows, steps) && RowsAfter(rows, steps) == store.rows
      invariant forall id :: AnnouncedIn(Logs(engines), id) == AnnouncedIn(logs, id) + Announcements(steps, id)
      invariant (forall t | t in turns[..i] :: !Sweeps(t.call)) ==> NoReclaim(steps)
      invariant ExemptsAfter(turns[..i], overlapped, excused, store.overlapped, store.excused)
    {
      assert turns[i] in turns && turns[..i + 1] == turns[..i] + [turns[i]];
      ghost var c := engines[turns[i].engine].View();
      OneStore(engines, store, turns[i].engine);
      ghost var more, fired := OneTurn(engines, store, turns[i]);
      ExemptsOnce(turns[..i], turns[i], overlapped, excused, c, engines[turns[i].engine].View());
      TracesJoin(rows, steps, more);
      NoReclaimJoins(steps, more);
      steps := steps + more;
    }
    assert turns[..|turns|] == turns;
    ExemptsTell(turns, overlapped, excused, store.overlapped, store.excused);
  }

  lemma OneStore(engines: seq<SchedulerEngine>, store: RunTable, i: nat)
    requires Fleet(engines, store) && i < |engines|
    ensures engines[i].store == store
  {
  }

  /** What the turns so far may have exempted. */
  ghost predicate ExemptsAfter(turns: seq<Turn>, overlapped: set<ScheduleId>, excused: set<RunId>,
                               overlapped': set<ScheduleId>, excused': set<RunId>)
  {
    && (forall s | s in overlapped' && s !in overlapped :: exists t | t in turns :: MayOverlap(t.call, s))
    && ((forall t | t in turns :: !MayExcuse(t.call)) ==> excused' == excused)
  }

  lemma NothingExempt(overlapped: set<ScheduleId>, excused: set<RunId>)
    ensures ExemptsAfter([], overlapped, excused, overlapped, excused)
  {
  }

  lemma ExemptsTell(turns: seq<Turn>, overlapped: set<ScheduleId>, excused: set<RunId>, overlapped': set<ScheduleId>,
                    excused': set<RunId>)
    requires ExemptsAfter(turns, overlapped, excused, overlapped', excused')
    ensures forall s | s in overlapped' && s !in overlapped :: exists t | t in turns :: MayOverlap(t.call, s)
    ensures (forall t | t in turns :: !MayExcuse(t.call)) ==> excused' == excused
  {
    hide MayOverlap, MayExcuse;
  }

  lemma ExemptsOnce(turns: seq<Turn>, turn: Turn, overlapped: set<ScheduleId>, excused: set<RunId>, c: Core, c': Core)
    requires ExemptsAfter(turns, overlapped, excused, c.overlapped, c.excused)
    requires Exempts(turn.call, turn.now, c, c')
    ensures ExemptsAfter(turns + [turn], overlapped, excused, c'.overlapped, c'.excused)
  {
    assert turn in turns + [turn] && forall t | t in turns :: t in turns + [turn];
    hide Orphaned, CrowdsOnly, LeasesHeld, MayExcuse;
    forall s | s in c'.overlapped && s !in overlapped ensures exists t | t in turns + [turn] :: MayOverlap(t.call, s) {
      if s in c.overlapped {
        var t :| t in turns && MayOverlap(t.call, s);
        assert t in turns + [turn];
      } else {
        assert MayOverlap(turn.call, s);
      }
    }
  }

  lemma EmptyTrace(rows: Rows)
    ensures Trace(rows, []) && RowsAfter(rows, []) == rows && NoReclaim([])
    ensures forall id :: Announcements([], id) == 0
  {
  }

  lemma NoReclaimJoins(t0: seq<Step>, t1: seq<Step>)
    ensures NoReclaim(t0) && NoReclaim(t1) ==> NoReclaim(t0 + t1)
  {
  }

  /** One engine takes its turn; the others see only what it did to the store. */
  method TakeTurn(engines: seq<SchedulerEngine>, store: RunTable, turn: Turn)
    returns (ghost trail: seq<Step>, ghost fired: Option<Firing>)
    requires Fleet(engines, store) && turn.engine < |engines| && WellTyped(turn.call)
    modifies store, engines[turn.engine]
    ensures Fleet(engines, store)
    ensures var e := engines[turn.engine];
            && Trailed(e.me, turn.now, true, old(store.rows), old(e.emitted), trail, store.rows, e.emitted)
            && RowsKept(e.me, turn.now, old(store.rows), store.rows)
    ensures !Sweeps(turn.call) ==> NoReclaim(trail)
    ensures ClockTurns(turn.call, fired, turn.now, old(store.schedules), store.schedules, old(store.rows), store.rows)
    ensures var e := engines[turn.engine];
            StepIsSteady(turn.call, turn.now, old(e.View()), e.View())
            && Exempts(turn.call, turn.now, old(e.View()), e.View())
  {
    hide StepIsSteady, Exempts, InvOf, BusyBut, Guarantee, RowsKept, Trailed, NoReclaim, ClockTurns, Calm,
         WellTyped, Interrupts;
    var e := engines[turn.engine];
    trail, fired := Perform(e, turn.call, turn.now);
    ExemptsMore(turn.call, turn.now, old(e.View()), e.View());
    StoreStaysSound(e.View());
    forall j | 0 <= j < |engines| && j != turn.engine ensures engines[j].Valid() {
      assert engines[j] != e && engines[j].me != e.me;
      InterferenceKeepsValid(old(engines[j].View()), engines[j].View(), e.me, turn.now);
    }
  }

  /** The same turn, as part of a whole run. */
  method OneTurn(engines: seq<SchedulerEngine>, store: RunTable, turn: Turn)
    returns (ghost trail: seq<Step>, ghost fired: Option<Firing>)
    requires Fleet(engines, store) && turn.engine < |engines| && WellTyped(turn.call)
    modifies store, engines
    ensures Fleet(engines, store)
    ensures Trace(old(store.rows), trail) && RowsAfter(old(store.rows), trail) == store.rows
    ensures forall id ::
              AnnouncedIn(Logs(engines), id) == old(AnnouncedIn(Logs(engines), id)) + Announcements(trail, id)
    ensures !Sweeps(turn.call) ==> NoReclaim(trail)
    ensures RowsKept(engines[turn.engine].me, turn.now, old(store.rows), store.rows)
    ensures ClockTurns(turn.call, fired, turn.now, old(store.schedules), store.schedules, old(store.rows), store.rows)
    ensures var e := engines[turn.engine]; Exempts(turn.call, turn.now, old(e.View()), e.View())
  {
    hide Exempts, InvOf, BusyBut, RowsKept, Trace, Loud, RowsAfter, NoReclaim, ClockTurns, WellTyped, AnnouncedIn,
         NotesOf, Announcements;
    ghost var logs := Logs(engines);
    trail, fired := TakeTurn(engines, store, turn);
    assert forall j | 0 <= j < |engines| && j != turn.engine :: engines[j] != engines[turn.engine];
    assert Logs(engines) == logs[turn.engine := logs[turn.engine] + NotesOf(trail)];
    forall id ensures AnnouncedIn(Logs(engines), id) == AnnouncedIn(logs, id) + Announcements(trail, id) {
      OneLogGrows(logs, turn.engine, NotesOf(trail), id);
      NotesAreAnnouncements(trail, id);
    }
  }

  lemma ExemptsMore(call: Call, now: int, c: Core, c': Core)
    requires Exempts(call, now, c, c')
    ensures c.overlapped <= c'.overlapped
  {
  }

  lemma StoreStaysSound(c: Core)
    requires InvOf(c, {})
    ensures StoreInv(c.rows, c.schedules, c.overlapped, c.excused)
  {
  }

  // ---------------------------------------------------------------------
  // What a whole run promises
  // ---------------------------------------------------------------------

  /** Over any run of any number of engines: a finished run's row stays as it is exactly
      if no sweep claims the run again, and its end is announced live at most once more
      than it is claimed again, by no one if it was finished before. Only the calls
      that go through the listing ever claim a run again. */
  method RunsFinishOnce(engines: seq<SchedulerEngine>, store: RunTable, turns: seq<Turn>)
    returns (ghost steps: seq<Step>)
    requires Fleet(engines, store)
    requires forall t | t in turns :: t.engine < |engines| && WellTyped(t.call)
    modifies store, engines
    ensures Fleet(engines, store)
    ensures Trace(old(store.rows), steps) && RowsAfter(old(store.rows), steps) == store.rows
    ensures forall id | TerminalAt(old(store.rows), id) ::
              id in store.rows && (store.rows[id] == old(store.rows)[id] <==> ReclaimCount(steps, id) == 0)
    ensures forall id ::
              AnnouncedIn(Logs(engines), id) - old(AnnouncedIn(Logs(engines), id))
              <= ReclaimCount(steps, id) + AsInt(TerminalAt(store.rows, id)) - AsInt(TerminalAt(old(store.rows), id))
    ensures (forall t | t in turns :: !Sweeps(t.call)) ==> forall id :: ReclaimCount(steps, id) == 0
  {
    hide Fleet, AnnouncedIn, WellTyped, Trace, RowsAfter, TerminalAt, AsInt, NoReclaim, ReclaimCount;
    ghost var rows := store.rows;
    steps := Drive(engines, store, turns);
    NoReclaimCounts(steps);
    forall id
      ensures TerminalAt(rows, id) ==> id in rows && id in store.rows
                                       && (store.rows[id] == rows[id] <==> ReclaimCount(steps, id) == 0)
      ensures Announcements(steps, id) <= ReclaimCount(steps, id)
              + AsInt(TerminalAt(store.rows, id)) - AsInt(TerminalAt(rows, id))
    {
      if TerminalAt(rows, id) { TerminalStays(rows, steps, store.rows, id); }
      AnnouncedAsOftenAsEnded(rows, steps, id);
    }
  }

  lemma TerminalStays(rows: Rows, steps: seq<Step>, rows': Rows, id: RunId)
    requires Trace(rows, steps) && RowsAfter(rows, steps) == rows' && TerminalAt(rows, id)
    ensures id in rows && id in rows' && (rows'[id] == rows[id] <==> ReclaimCount(steps, id) == 0)
  {
    TerminalIsFinalIff(rows, steps, id);
  }

  // ---------------------------------------------------------------------
  // The clock over a whole run
  // ---------------------------------------------------------------------

  /** What a run of turns made of the clock of `s`: its occurrences from the stored
      cursor on were accepted one after the other, none twice and none left out. */
  ghost predicate Chained(s: ScheduleId, schedule: Schedule, schedules: Schedules, fired: seq<Firing>,
                          next: int) {
    && schedule.trigger.CronTrigger? && schedule.nextRunAt.Some?
    && Consecutive(schedule.trigger.cron, schedule.trigger.offset, fired, next)
    && (if fired == [] then next == schedule.nextRunAt.value else fired[0].at == schedule.nextRunAt.value)
    && s in schedules && schedules[s] in {schedule.(nextRunAt := Some(next)), SwitchedOff(schedule)}
  }

  /** Every occurrence but a denied one has a run of its own. */
  ghost predicate RunsOfItsOwn(s: ScheduleId, fired: seq<Firing>, rows: Rows, rows': Rows) {
    && (forall i | 0 <= i < |fired| :: RowOfFiring(s, fired[i], rows, rows'))
    && (forall i, j | 0 <= i < j < |fired| && !fired[i].admission.Denied? :: fired[i].id != fired[j].id)
  }

  /** Whatever the engines do in between, the accepted cron rounds of an enabled dispatch
      schedule form one chain from its stored cursor to its present one, until it is
      switched off; only an update, a deletion or a catch-up after downtime breaks it. */
  method CronChain(engines: seq<SchedulerEngine>, store: RunTable, turns: seq<Turn>, s: ScheduleId)
    returns (ghost fired: seq<Firing>, ghost next: int)
    requires Fleet(engines, store)
    requires forall t | t in turns :: t.engine < |engines| && WellTyped(t.call) && !Interrupts(t.call, s)
    requires Owed(store.schedules, s) && store.schedules[s].enabled
    modifies store, engines
    ensures Fleet(engines, store)
    ensures Chained(s, old(store.schedules)[s], store.schedules, fired, next)
    ensures RunsOfItsOwn(s, fired, old(store.rows), store.rows)
  {
    hide Fleet, WellTyped, Trace, RowsAfter, NoReclaim, RowsKept, AnnouncedIn, Announcements, ClockTurns, Chained,
         RunsOfItsOwn, Interrupts;
    ghost var schedule, rows := store.schedules[s], store.rows;
    fired, next := [], schedule.nextRunAt.value;
    NothingChained(s, schedule, store.schedules, rows);
    for i := 0 to |turns|
      invariant Fleet(engines, store)
      invariant Chained(s, schedule, store.schedules, fired, next)
      invariant RunsOfItsOwn(s, fired, rows, store.rows) && rows.Keys <= store.rows.Keys
    {
      assert turns[i] in turns;
      ghost var schedules1, rows1 := store.schedules, store.rows;
      ghost var more, f := OneTurn(engines, store, turns[i]);
      fired, next := ChainGoesOn(s, schedule, schedules1, store.schedules, fired, next, turns[i].call, f, turns[i].now,
                                 rows, rows1, store.rows, engines[turns[i].engine].me);
    }
  }

  lemma NothingChained(s: ScheduleId, schedule: Schedule, schedules: Schedules, rows: Rows)
    requires s in schedules && schedules[s] == schedule && schedule.trigger.CronTrigger? && schedule.nextRunAt.Some?
    ensures Chained(s, schedule, schedules, [], schedule.nextRunAt.value) && RunsOfItsOwn(s, [], rows, rows)
  {
  }

  lemma ChainGoesOn(s: ScheduleId, schedule: Schedule, schedules: Schedules, schedules': Schedules,
                    fired: seq<Firing>, next: int, call: Call, f: Option<Firing>, now: int, rows: Rows, rows1: Rows,
                        rows': Rows, me: OwnerId)
    returns (fired': seq<Firing>, next': int)
    requires Chained(s, schedule, schedules, fired, next) && RunsOfItsOwn(s, fired, rows, rows1)
             && Live(schedule, false)
    requires ClockTurns(call, f, now, schedules, schedules', rows1, rows') && !Interrupts(call, s)
    requires RowsKept(me, now, rows1, rows') && rows.Keys <= rows1.Keys
    ensures Chained(s, schedule, schedules', fired', next') && RunsOfItsOwn(s, fired', rows, rows')
            && rows.Keys <= rows'.Keys
  {
    assert rows1.Keys <= rows'.Keys;
    assert Owed(schedules, s) && ClockTurn(s, call, f, now, schedules, schedules', rows1, rows');
    RowsOfFiringsStay(s, fired, rows, rows1, rows', me, now);
    hide NextFire, RowsKept, Consecutive;
    if call.CronTimer? && call.s == s && f.Some? {
      fired' := fired + [f.value];
      next' := NextFire(schedule.trigger.cron, schedule.trigger.offset, f.value.at).value;
      ConsecutiveExtends(schedule.trigger.cron, schedule.trigger.offset, fired, f.value, next');
    } else {
      fired', next' := fired, next;
    }
  }

  lemma RowsOfFiringsStay(s: ScheduleId, fired: seq<Firing>, rows: Rows, rows1: Rows, rows': Rows, me: OwnerId,
                          now: int)
    requires RunsOfItsOwn(s, fired, rows, rows1) && RowsKept(me, now, rows1, rows')
    ensures RunsOfItsOwn(s, fired, rows, rows')
  {
    forall i | 0 <= i < |fired| ensures RowOfFiring(s, fired[i], rows, rows') {
      assert RowOfFiring(s, fired[i], rows, rows1);
      if !fired[i].admission.Denied? { assert RowStep(me, now, rows1[fired[i].id], rows'[fired[i].id]); }
    }
  }
}
