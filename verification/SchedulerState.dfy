/** The values the scheduler engine keeps, and the invariants over them. */
module SchedulerState {
  import opened Wrappers
  import opened Cron
  import opened RunStore
  import opened Fencing

  type ExecutionId = int

  datatype Runtime = Runtime(
    scheduleId: ScheduleId, status: Status, phase: Phase, attempt: nat, maxAttempts: nat, ownerEpoch: nat,
    sessionId: Option<ExecutionId>, workflowId: Option<ExecutionId>, dispatch: Option<Dispatch>)

  type Runtimes = map<RunId, Runtime>
  type Queues = map<ScheduleId, seq<RunId>>
  type Schedules = map<ScheduleId, Schedule>

  function QueueOf(queues: Queues, s: ScheduleId): seq<RunId> {
    if s in queues then queues[s] else []
  }

  predicate IsActive(rt: Runtime) {
    !rt.phase.Queued? && !Terminal(rt.status)
  }

  /** `hasActive`. */
  predicate Active(rts: Runtimes, s: ScheduleId) {
    exists id | id in rts :: rts[id].scheduleId == s && IsActive(rts[id])
  }

  /** JavaScript's `queue.filter((other) => other !== id)`. */
  function Without(q: seq<RunId>, id: RunId): seq<RunId> {
    if q == [] then []
    else if q[0] == id then Without(q[1..], id)
    else [q[0]] + Without(q[1..], id)
  }

  /** `removeFromQueue`: an emptied queue leaves the table. */
  function RemovedFrom(queues: Queues, s: ScheduleId, id: RunId): Queues {
    if s !in queues then queues
    else
      var next := Without(queues[s], id);
      if next != [] then queues[s := next] else queues - {s}
  }

  /** Run `id` waits for its schedule `s`; `popped` is a run taken off its queue
      whose launch is under way. */
  predicate Waits(rts: Runtimes, s: ScheduleId, id: RunId, popped: set<RunId>) {
    id in rts && rts[id].scheduleId == s && rts[id].phase.Queued? && id !in popped
  }

  /** A schedule's queue holds exactly its queued runs; no empty queue is kept. */
  ghost predicate QueueExact(rts: Runtimes, queues: Queues, popped: set<RunId>) {
    && (forall s | s in queues :: queues[s] != [])
    && (forall s, id :: id in QueueOf(queues, s) <==> Waits(rts, s, id, popped))
  }

  /** Admitted one after another, hence without duplicates. */
  ghost predicate Increasing(q: seq<RunId>, ticket: map<RunId, nat>, nextTicket: nat) {
    && (forall i | 0 <= i < |q| :: q[i] in ticket && ticket[q[i]] < nextTicket)
    && (forall i, j | 0 <= i < j < |q| :: ticket[q[i]] < ticket[q[j]])
  }

  /** Every queue is in order of admission. */
  ghost predicate Fifo(queues: Queues, ticket: map<RunId, nat>, nextTicket: nat) {
    forall s :: Increasing(QueueOf(queues, s), ticket, nextTicket)
  }

  /** Schedules that never allowed overlap have at most one active run. */
  ghost predicate OnePerSchedule(rts: Runtimes, overlapped: set<ScheduleId>) {
    forall a, b | a in rts && b in rts && a != b && IsActive(rts[a]) && IsActive(rts[b]) ::
      rts[a].scheduleId == rts[b].scheduleId ==> rts[a].scheduleId in overlapped
  }

  ghost predicate AttemptsBounded(rts: Runtimes, begun: set<RunId>) {
    forall id | id in rts ::
      && 1 <= rts[id].maxAttempts && rts[id].attempt <= rts[id].maxAttempts
      && (rts[id].phase.RetryWait? ==> rts[id].attempt < rts[id].maxAttempts)
      && (rts[id].phase.Queued? ==> rts[id].attempt == 0 && id !in begun)
  }

  /** The durable row of a live run: owned by this engine and mirroring its state. */
  predicate Mirrors(row: Row, rt: Runtime, me: OwnerId) {
    && row.owner == Some(me) && row.epoch == rt.ownerEpoch
    && row.schedule == rt.scheduleId && row.status == rt.status && row.phase == Some(rt.phase)
    && row.attempt == rt.attempt && row.maxAttempts == rt.maxAttempts && row.dispatch == rt.dispatch
  }

  /** Every live run has its row; unless another owner took the row, it mirrors the run. */
  ghost predicate Held(rts: Runtimes, rows: Rows, me: OwnerId) {
    forall id | id in rts ::
      && id in rows && !Terminal(rts[id].status)
      && (Fences(rows[id], Some(me), rts[id].ownerEpoch) ==> Mirrors(rows[id], rts[id], me))
      && (!rts[id].phase.Queued? ==> rows[id].phase != Some(Queued))
  }

  /** No row of a run whose attempt has begun is back in its queue. */
  ghost predicate LeftQueue(rows: Rows, begun: set<RunId>) {
    forall id | id in begun :: id in rows && rows[id].phase != Some(Queued)
  }

  /** Executions are only attributed to runs whose first attempt has begun. */
  ghost predicate MappedIn(executions: map<ExecutionId, RunId>, begun: set<RunId>) {
    forall x | x in executions :: executions[x] in begun
  }

  const LEASE_MS := 5_000

  /** Whether session and workflow executors were supplied. */
  datatype Caps = Caps(hasEngine: bool, hasWorkflows: bool)

  /** All of the engine's state that its invariant speaks of, and the shared store. */
  datatype Core = Core(
    me: OwnerId, caps: Caps, runtimes: Runtimes, queues: Queues,
    sessionToRun: map<ExecutionId, RunId>, workflowToRun: map<ExecutionId, RunId>,
    rows: Rows, schedules: Schedules, overlapped: set<ScheduleId>, excused: set<RunId>,
    ticket: map<RunId, nat>, nextTicket: nat, begun: set<RunId>, starved: set<ScheduleId>)

  /** What all engines together keep true of the shared store. */
  ghost predicate StoreInv(rows: Rows, schedules: Schedules, overlapped: set<ScheduleId>,
                           excused: set<RunId>) {
    RowsBounded(rows) && FailedFully(rows, excused) && Policies(schedules, overlapped)
  }

  /** Attempts stay within their bound in every row, a waiting retry below it. */
  predicate RowBounded(row: Row) {
    && 1 <= row.maxAttempts && row.attempt <= row.maxAttempts
    && (row.phase == Some(RetryWait) && !Terminal(row.status) ==> row.attempt < row.maxAttempts)
    && (row.phase == Some(Queued) ==> row.attempt == 0)
  }

  ghost predicate RowsBounded(rows: Rows) {
    forall id | id in rows :: RowBounded(rows[id])
  }

  /** A run ends failed only when all its attempts were used, unless excused. */
  ghost predicate FailedFully(rows: Rows, excused: set<RunId>) {
    forall id | id in rows && id !in excused && rows[id].status.Failed? :: rows[id].attempt == rows[id].maxAttempts
  }

  ghost predicate Policies(schedules: Schedules, overlapped: set<ScheduleId>) {
    forall s | s in schedules ::
      && (schedules[s].overlap.Allow? ==> s in overlapped)
      && (schedules[s].trigger.CronTrigger? ==> WellFormed(schedules[s].trigger.cron))
  }

  ghost predicate Bookkeeping(c: Core) {
    && LeftQueue(c.rows, c.begun)
    && MappedIn(c.sessionToRun, c.begun) && MappedIn(c.workflowToRun, c.begun)
    && StoreInv(c.rows, c.schedules, c.overlapped, c.excused)
  }

  /** A waiting run implies an active one, on every schedule but `but` and those
      that lost a run to another owner or to teardown. */
  ghost predicate BusyBut(c: Core, but: set<ScheduleId>) {
    forall s | QueueOf(c.queues, s) != [] && s !in but && s !in c.starved :: Active(c.runtimes, s)
  }

  /** The invariant, while `popped` may be on its way from its queue to its launch. */
  ghost predicate InvOf(c: Core, popped: set<RunId>) {
    && QueueExact(c.runtimes, c.queues, popped)
    && Fifo(c.queues, c.ticket, c.nextTicket)
    && OnePerSchedule(c.runtimes, c.overlapped)
    && AttemptsBounded(c.runtimes, c.begun)
    && Held(c.runtimes, c.rows, c.me)
    && Bookkeeping(c)
  }

  /** The invariant between calls, whatever happened to the leases. */
  ghost predicate ValidCore(c: Core) {
    InvOf(c, {}) && BusyBut(c, {})
  }

  /** The engine still owns the row of its live run. */
  predicate Owned(c: Core, id: RunId) {
    id in c.runtimes && id in c.rows && Fences(c.rows[id], Some(c.me), c.runtimes[id].ownerEpoch)
  }

  /** `runtimeRecord`. */
  function Record(me: OwnerId, rt: Runtime, now: int): Row {
    Row(rt.scheduleId, rt.status, Some(rt.phase), rt.attempt, rt.maxAttempts, rt.dispatch,
        Some(me), rt.ownerEpoch, now + LEASE_MS)
  }

  function Detached(executions: map<ExecutionId, RunId>, x: Option<ExecutionId>): map<ExecutionId, RunId> {
    if x.Some? then executions - {x.value} else executions
  }

  /** A live run moved on to `rt`, in memory and in its row. */
  function Moved(c: Core, id: RunId, rt: Runtime, now: int): Core {
    c.(runtimes := c.runtimes[id := rt], rows := c.rows[id := Record(c.me, rt, now)])
  }

  /** A run that left the engine's memory. */
  function Forgotten(c: Core, id: RunId): Core
    requires id in c.runtimes
  {
    var rt := c.runtimes[id];
    c.(runtimes := c.runtimes - {id},
       queues := RemovedFrom(c.queues, rt.scheduleId, id),
       sessionToRun := Detached(c.sessionToRun, rt.sessionId),
       workflowToRun := Detached(c.workflowToRun, rt.workflowId))
  }

  /** A live run ended with a terminal status. */
  function Ended(c: Core, id: RunId, status: Status): Core
    requires id in c.runtimes
  {
    Forgotten(c, id).(rows := c.rows[id := FinishedRow(c.runtimes[id], status)])
  }

  /** A live run given up because another owner took its row. */
  function Dropped(c: Core, id: RunId): Core
    requires id in c.runtimes
  {
    Forgotten(c, id).(starved := c.starved + {c.runtimes[id].scheduleId})
  }

  /** `finishRun` before the drain: the store's fence decides which it is. */
  function Finished(c: Core, id: RunId, status: Status): Core
    requires id in c.runtimes
  {
    if Owned(c, id) then Ended(c, id, status) else Dropped(c, id)
  }

  /** The row `finishRun` leaves behind. */
  function FinishedRow(rt: Runtime, status: Status): Row {
    Row(rt.scheduleId, status, Some(rt.phase), rt.attempt, rt.maxAttempts, rt.dispatch, None, rt.ownerEpoch + 1, 0)
  }

  /** The first `k` runs have left the queue of `s`, and no other queue changed. */
  ghost predicate QueueAdvanced(s: ScheduleId, k: nat, queues: Queues, queues': Queues) {
    var q := QueueOf(queues, s);
    && k <= |q|
    && QueueOf(queues', s) == q[k..]
    && (forall t | t != s :: QueueOf(queues', t) == QueueOf(queues, t))
  }

  /** Nothing but the runs in `left` changed. */
  ghost predicate OthersKept(left: seq<RunId>, rts: Runtimes, rows: Rows, rts': Runtimes, rows': Rows) {
    && rts'.Keys <= rts.Keys && rows'.Keys == rows.Keys
    && (forall id | id in rts && id !in left :: id in rts' && rts'[id] == rts[id])
    && (forall id | id in rows && id !in left :: rows'[id] == rows[id])
  }

  /** Whether the schedule's current target can be started for this run. */
  predicate Startable(caps: Caps, rt: Runtime, schedule: Schedule) {
    if rt.dispatch.Some? then schedule.target.DispatchTarget? && rt.dispatch.value == schedule.target.dispatch
    else if schedule.target.WorkflowTarget? then caps.hasWorkflows && schedule.target.hasPlan
    else caps.hasEngine
  }

  /** The runtime `launchAttempt` launches. */
  function BegunRuntime(rt: Runtime, schedule: Schedule): Runtime {
    rt.(phase := Launching, status := Pending, attempt := rt.attempt + 1,
        maxAttempts := if rt.attempt == 0 then 1 + schedule.maxRetries else rt.maxAttempts,
        sessionId := None, workflowId := None)
  }

  /** A launch leaves the run live: its schedule is still there and enabled, and
      the attempt can start or is not the last. */
  predicate Stays(c: Core, rt: Runtime) {
    rt.scheduleId in c.schedules &&
    var schedule := c.schedules[rt.scheduleId];
    var begun := BegunRuntime(rt, schedule);
    schedule.enabled && (Startable(c.caps, begun, schedule) || begun.attempt < begun.maxAttempts)
  }

  predicate EndedRow(rt: Runtime, row: Row) {
    row.status in {Cancelled, Failed} && row.owner == None && row.schedule == rt.scheduleId
        && row.dispatch == rt.dispatch
  }

  /** What its launch made of run `id`: dropped, live, or ended. */
  predicate LaunchedAs(c: Core, id: RunId, c': Core)
    requires id in c.runtimes && id in c.rows
  {
    if !Owned(c, id) then id !in c'.runtimes && id in c'.rows && c'.rows[id] == c.rows[id]
    else if Stays(c, c.runtimes[id]) then
      id in c'.runtimes && IsActive(c'.runtimes[id]) && c'.runtimes[id].scheduleId == c.runtimes[id].scheduleId
    else id !in c'.runtimes && id in c'.rows && EndedRow(c.runtimes[id], c'.rows[id])
  }

  predicate EndsOnLaunch(c: Core, id: RunId) {
    Owned(c, id) && !Stays(c, c.runtimes[id])
  }

  /** The runs in `left` were launched one after the other: all but the last ended at
      once, and so did the last only if there was no run behind it. */
  ghost predicate ServedInOrder(left: seq<RunId>, exhausted: bool, c: Core, c': Core) {
    && (forall i | 0 <= i < |left| :: left[i] in c.runtimes && left[i] in c.rows && LaunchedAs(c, left[i], c'))
    && (forall i | 0 <= i < |left| - 1 :: EndsOnLaunch(c, left[i]))
    && (left != [] && EndsOnLaunch(c, left[|left| - 1]) ==> exhausted)
  }

  /** What draining the queue of `s` does: its first `k` runs leave, in order, until
      one stays or is found lost. An active schedule is left alone. */
  ghost predicate Drained(s: ScheduleId, k: nat, c: Core, c': Core) {
    var q := QueueOf(c.queues, s);
    && QueueAdvanced(s, k, c.queues, c'.queues)
    && OthersKept(q[..k], c.runtimes, c.rows, c'.runtimes, c'.rows)
    && ServedInOrder(q[..k], k == |q|, c, c')
    && (Active(c.runtimes, s) ==> k == 0)
    && (q != [] && !Active(c.runtimes, s) ==> k > 0)
  }

  // ---------------------------------------------------------------------
  // Keeping the invariants
  // ---------------------------------------------------------------------

  lemma {:induction false} WithoutKeepsOthers(q: seq<RunId>, id: RunId)
    ensures forall x :: x in Without(q, id) <==> x in q && x != id
    ensures |Without(q, id)| <= |q|
  {
    if q != [] {
      WithoutKeepsOthers(q[1..], id);
      assert q == [q[0]] + q[1..];
    }
  }

  lemma {:induction false} WithoutKeepsOrder(q: seq<RunId>, id: RunId, ticket: map<RunId, nat>, nextTicket: nat)
    requires Increasing(q, ticket, nextTicket)
    ensures Increasing(Without(q, id), ticket, nextTicket)
  {
    if q != [] {
      var t := q[1..];
      TailKeepsOrder(q, ticket, nextTicket);
      WithoutKeepsOrder(t, id, ticket, nextTicket);
      var w := Without(t, id);
      forall i | 0 <= i < |w| ensures w[i] in ticket && ticket[q[0]] < ticket[w[i]] {
        WithoutKeepsOthers(t, id);
        var x := w[i];
        assert x in Without(t, id);
        assert x in t;
      }
    }
  }

  lemma TailKeepsOrder(q: seq<RunId>, ticket: map<RunId, nat>, nextTicket: nat)
    requires Increasing(q, ticket, nextTicket) && q != []
    ensures Increasing(q[1..], ticket, nextTicket)
    ensures forall x | x in q[1..] :: x in ticket && ticket[q[0]] < ticket[x]
  {
    var t := q[1..];
    assert forall i | 0 <= i < |t| :: t[i] == q[i + 1];
  }

  lemma RemovedQueues(queues: Queues, s: ScheduleId, id: RunId)
    ensures forall t :: QueueOf(RemovedFrom(queues, s, id), t)
                        == if t == s then Without(QueueOf(queues, s), id) else QueueOf(queues, t)
  {
  }

  lemma RemovalKeepsOrder(queues: Queues, s: ScheduleId, id: RunId, ticket: map<RunId, nat>, nextTicket: nat)
    requires Fifo(queues, ticket, nextTicket)
    ensures Fifo(RemovedFrom(queues, s, id), ticket, nextTicket)
  {
    RemovedQueues(queues, s, id);
    WithoutKeepsOrder(QueueOf(queues, s), id, ticket, nextTicket);
    hide RemovedFrom, QueueOf, Without, Increasing;
  }

  lemma RemovalKeepsQueues(rts: Runtimes, queues: Queues, popped: set<RunId>, id: RunId)
    requires QueueExact(rts, queues, popped)
    requires id in rts
    ensures QueueExact(rts - {id}, RemovedFrom(queues, rts[id].scheduleId, id), popped - {id})
    ensures |QueueOf(RemovedFrom(queues, rts[id].scheduleId, id), rts[id].scheduleId)| <= |QueueOf(queues,
            rts[id].scheduleId)|
  {
    var s := rts[id].scheduleId;
    var queues' := RemovedFrom(queues, s, id);
    RemovedQueues(queues, s, id);
    WithoutKeepsOthers(QueueOf(queues, s), id);
    assert forall t | t in queues' :: queues'[t] != [];
    hide RemovedFrom, QueueOf, Without;
    forall t, x ensures x in QueueOf(queues', t) <==> Waits(rts - {id}, t, x, popped - {id}) {
      assert x in QueueOf(queues, t) <==> Waits(rts, t, x, popped);
      assert id in QueueOf(queues, t) <==> Waits(rts, t, id, popped);
    }
  }

  lemma {:induction false} WithoutIsIdentity(q: seq<RunId>, id: RunId)
    requires id !in q
    ensures Without(q, id) == q
  {
    if q != [] {
      WithoutIsIdentity(q[1..], id);
    }
  }

  /** The state as it looks without run `id`. */
  function Except(c: Core, id: RunId): Core {
    c.(runtimes := c.runtimes - {id}, rows := c.rows - {id})
  }

  /** Taking the first queued run and then draining behind it is one drain. */
  lemma DrainedBehindHead(s: ScheduleId, head: RunId, k: nat, c: Core, queues1: Queues, c': Core)
    requires QueueOf(c.queues, s) != [] && QueueOf(c.queues, s)[0] == head
    requires QueueOf(queues1, s) == QueueOf(c.queues, s)[1..] && head !in QueueOf(queues1, s)
    requires forall t | t != s :: QueueOf(queues1, t) == QueueOf(c.queues, t)
    requires EndsOnLaunch(c, head) && !IsActive(c.runtimes[head]) && !Active(c.runtimes, s)
    requires head !in c'.runtimes && head in c'.rows && EndedRow(c.runtimes[head], c'.rows[head])
    requires Drained(s, k, Except(c, head).(queues := queues1), Except(c', head))
    ensures Drained(s, k + 1, c, c')
  {
    var q, q1 := QueueOf(c.queues, s), QueueOf(queues1, s);
    StillIdle(s, head, c.runtimes);
    assert q == [head] + q1;
    assert q[..k + 1] == [head] + q1[..k];
    assert q[k + 1..] == q1[k..];
    ServedBehindHead(head, q1[..k], k == |q1|, c, queues1, c');
    OthersKeptBehindHead(head, q1[..k], c.runtimes, c.rows, c'.runtimes, c'.rows);
  }

  /** Run `x` looks the same from `c` to `c'` and from `d` to `d'`. */
  predicate ServedAlike(x: RunId, c: Core, c': Core, d: Core, d': Core) {
    && x in c.runtimes && x in c.rows && x in d.runtimes && x in d.rows
    && (EndsOnLaunch(c, x) <==> EndsOnLaunch(d, x)) && (LaunchedAs(c, x, c') <==> LaunchedAs(d, x, d'))
  }

  lemma ServedReads(left: seq<RunId>, exhausted: bool, c: Core, c': Core, d: Core, d': Core)
    requires ServedInOrder(left, exhausted, c, c')
    requires forall x | x in left && x in c.runtimes && x in c.rows :: ServedAlike(x, c, c', d, d')
    ensures ServedInOrder(left, exhausted, d, d')
  {
    hide EndsOnLaunch, LaunchedAs;
    forall i | 0 <= i < |left| ensures ServedAlike(left[i], c, c', d, d') {
      assert left[i] in left;
    }
  }

  lemma ServedBehindHead(head: RunId, left: seq<RunId>, exhausted: bool, c: Core, queues1: Queues, c': Core)
    requires ServedInOrder(left, exhausted, Except(c, head).(queues := queues1), Except(c', head)) && head !in left
    requires EndsOnLaunch(c, head) && head !in c'.runtimes && head in c'.rows
             && EndedRow(c.runtimes[head], c'.rows[head])
    requires left == [] ==> exhausted
    ensures ServedInOrder([head] + left, exhausted, c, c')
  {
    var all, c1 := [head] + left, Except(c, head).(queues := queues1);
    forall x | x in left && x in c1.runtimes && x in c1.rows ensures ServedAlike(x, c1, Except(c', head), c, c') {
      assert Stays(c, c.runtimes[x]) == Stays(c1, c1.runtimes[x]);
    }
    ServedReads(left, exhausted, c1, Except(c', head), c, c');
    hide Stays;
    forall i | 0 <= i < |all| ensures all[i] in c.runtimes && all[i] in c.rows && LaunchedAs(c, all[i], c') {
      if i > 0 { assert all[i] == left[i - 1]; }
    }
    forall i | 0 <= i < |all| - 1 ensures EndsOnLaunch(c, all[i]) {
      if i > 0 { assert all[i] == left[i - 1]; }
    }
  }

  lemma OthersKeptBehindHead(head: RunId, left: seq<RunId>, rts: Runtimes, rows: Rows, rts': Runtimes, rows': Rows)
    requires OthersKept(left, rts - {head}, rows - {head}, rts', rows' - {head})
    requires head in rows && head in rows'
    ensures OthersKept([head] + left, rts, rows, rts', rows')
  {
    assert rows'.Keys == (rows' - {head}).Keys + {head};
    assert rows.Keys == (rows - {head}).Keys + {head};
  }

  lemma StillIdle(s: ScheduleId, id: RunId, rts: Runtimes)
    requires !Active(rts, s)
    ensures !Active(rts - {id}, s)
  {
  }

  lemma HeldAt(id: RunId, rts: Runtimes, rows: Rows, me: OwnerId)
    requires Held(rts, rows, me) && id in rts
    ensures id in rows && !Terminal(rts[id].status)
    ensures Fences(rows[id], Some(me), rts[id].ownerEpoch) ==> Mirrors(rows[id], rts[id], me)
    ensures !rts[id].phase.Queued? ==> rows[id].phase != Some(Queued)
  {
  }

  lemma DroppedKeepsInv(c: Core, id: RunId, popped: set<RunId>, rest: set<RunId>)
    requires InvOf(c, popped) && id in c.runtimes && rest == popped - {id}
    ensures InvOf(Dropped(c, id), rest)
  {
    RemovalKeepsQueues(c.runtimes, c.queues, popped, id);
    RemovalKeepsOrder(c.queues, c.runtimes[id].scheduleId, id, c.ticket, c.nextTicket);
    hide QueueExact, Fifo, RemovedFrom, StoreInv;
  }

  lemma EndedKeepsInv(c: Core, id: RunId, status: Status, popped: set<RunId>, rest: set<RunId>)
    requires InvOf(c, popped) && Owned(c, id)
    requires Terminal(status)
    requires status.Failed? && id !in c.excused ==> c.runtimes[id].attempt == c.runtimes[id].maxAttempts
    requires rest == popped - {id}
    ensures InvOf(Ended(c, id, status), rest)
  {
    RemovalKeepsQueues(c.runtimes, c.queues, popped, id);
    RemovalKeepsOrder(c.queues, c.runtimes[id].scheduleId, id, c.ticket, c.nextTicket);
    hide QueueExact, Fifo, RemovedFrom;
  }

  lemma FinishedKeepsInv(c: Core, id: RunId, status: Status, popped: set<RunId>, rest: set<RunId>)
    requires InvOf(c, popped) && id in c.runtimes
    requires Terminal(status)
    requires status.Failed? && id !in c.excused ==> c.runtimes[id].attempt == c.runtimes[id].maxAttempts
    requires rest == popped - {id}
    ensures InvOf(Finished(c, id, status), rest)
  {
    if Owned(c, id) {
      EndedKeepsInv(c, id, status, popped, rest);
    } else {
      DroppedKeepsInv(c, id, popped, rest);
    }
    hide InvOf, Ended, Dropped;
  }

  /** Ending a live run is a legal step, and it is announced only if it is durable. */
  lemma FinishedIsLegal(c: Core, id: RunId, status: Status, now: int, silent: bool, notes: seq<Note>, notes': seq<Note>)
    requires id in c.runtimes && id in c.rows && !Terminal(c.runtimes[id].status) && Terminal(status)
    requires Owned(c, id) ==> Mirrors(c.rows[id], c.runtimes[id], c.me)
    requires notes' == if Owned(c, id) && !silent then notes + [RunFinished(id, status)] else notes
    ensures Told(c.me, now, silent, c.rows, notes, Finished(c, id, status).rows, notes')
  {
    assert notes' != notes ==> notes'[..|notes|] == notes;
  }

  /** A step from `was` to `rt` that keeps a run live. */
  predicate MayMove(was: Runtime, rt: Runtime) {
    && rt.scheduleId == was.scheduleId && rt.ownerEpoch == was.ownerEpoch && rt.dispatch == was.dispatch
    && IsActive(rt)
    && 1 <= rt.maxAttempts && rt.attempt <= rt.maxAttempts && (rt.phase.RetryWait? ==> rt.attempt < rt.maxAttempts)
  }

  lemma MovedKeepsInv(c: Core, id: RunId, rt: Runtime, now: int, popped: set<RunId>, rest: set<RunId>)
    requires InvOf(c, popped) && Owned(c, id)
    requires c.runtimes[id].phase.Queued? ==> id in popped
    requires MayMove(c.runtimes[id], rt)
    requires IsActive(c.runtimes[id]) || !Active(c.runtimes, rt.scheduleId) || rt.scheduleId in c.overlapped
    requires rest == popped - {id}
    ensures InvOf(Moved(c, id, rt, now), rest) && Owned(Moved(c, id, rt, now), id)
  {
    MovedKeepsOne(c.runtimes, c.overlapped, id, rt);
    MovedKeepsQueues(c.runtimes, c.queues, popped, id, rt);
    hide QueueExact, Fifo, OnePerSchedule;
  }

  lemma MovedKeepsOne(rts: Runtimes, overlapped: set<ScheduleId>, id: RunId, rt: Runtime)
    requires OnePerSchedule(rts, overlapped) && id in rts && MayMove(rts[id], rt)
    requires IsActive(rts[id]) || !Active(rts, rt.scheduleId) || rt.scheduleId in overlapped
    ensures OnePerSchedule(rts[id := rt], overlapped)
  {
  }

  lemma MovedKeepsQueues(rts: Runtimes, queues: Queues, popped: set<RunId>, id: RunId, rt: Runtime)
    requires QueueExact(rts, queues, popped) && id in rts && MayMove(rts[id], rt)
    requires (rts[id].phase.Queued? ==> id in popped)
    ensures QueueExact(rts[id := rt], queues, popped - {id})
  {
  }

  lemma BegunKeepsInv(c: Core, id: RunId)
    requires InvOf(c, {}) && id in c.runtimes && IsActive(c.runtimes[id])
    ensures InvOf(c.(begun := c.begun + {id}), {})
  {
    hide QueueExact, Fifo, OnePerSchedule, StoreInv;
  }

  lemma MovedIsLegal(c: Core, id: RunId, rt: Runtime, now: int, notes: seq<Note>, notes': seq<Note>)
    requires id in c.runtimes && id in c.rows && Mirrors(c.rows[id], c.runtimes[id], c.me)
    requires !Terminal(c.runtimes[id].status) && MayMove(c.runtimes[id], rt)
    requires notes' == notes || notes' == notes + [RunStarted(id)]
    ensures Told(c.me, now, false, c.rows, notes, Moved(c, id, rt, now).rows, notes')
  {
    assert notes' != notes ==> notes'[..|notes|] == notes;
  }

  // ---------------------------------------------------------------------
  // Launching and draining
  // ---------------------------------------------------------------------

  /** The lease of a live run's row renewed. */
  function Renewed(c: Core, id: RunId, now: int): Core
    requires id in c.rows
  {
    c.(rows := c.rows[id := c.rows[id].(lease := now + LEASE_MS)])
  }

  lemma RenewedKeepsInv(c: Core, id: RunId, now: int, popped: set<RunId>, notes: seq<Note>)
    requires InvOf(c, popped) && Owned(c, id)
    ensures InvOf(Renewed(c, id, now), popped) && Owned(Renewed(c, id, now), id)
    ensures Told(c.me, now, false, c.rows, notes, Renewed(c, id, now).rows, notes)
  {
    HeldAt(id, c.runtimes, c.rows, c.me);
    var c' := Renewed(c, id, now);
    assert Held(c'.runtimes, c'.rows, c'.me);
    assert StoreInv(c'.rows, c'.schedules, c'.overlapped, c'.excused);
  }

  /** A run found lost is given up: nothing is written or announced. */
  lemma DroppedKeepsValid(c: Core, id: RunId, popped: set<RunId>, but: set<ScheduleId>)
    requires InvOf(c, popped) && id in c.runtimes && popped <= {id}
    requires BusyBut(c, but + {c.runtimes[id].scheduleId})
    ensures InvOf(Dropped(c, id), {}) && BusyBut(Dropped(c, id), but)
  {
    DroppedKeepsInv(c, id, popped, {});
    var s, c' := c.runtimes[id].scheduleId, Dropped(c, id);
    RemovedQueues(c.queues, s, id);
    hide InvOf, RemovedFrom;
    forall t | QueueOf(c'.queues, t) != [] && t !in but && t !in c'.starved ensures Active(c'.runtimes, t) {
      assert Active(c.runtimes, t);
      var other :| other in c.runtimes && c.runtimes[other].scheduleId == t && IsActive(c.runtimes[other]);
      assert c'.runtimes[other] == c.runtimes[other];
    }
  }

  /** What no launch, failure or end of a run touches. */
  predicate SameConfig(c: Core, c': Core) {
    && c'.me == c.me && c'.caps == c.caps && c'.schedules == c.schedules
    && c'.ticket == c.ticket && c'.nextTicket == c.nextTicket
    && c'.excused == c.excused && c'.overlapped == c.overlapped && c.starved <= c'.starved
    && c.begun <= c'.begun <= c.begun + c'.runtimes.Keys
  }

  ghost predicate DrainedCore(s: ScheduleId, k: nat, c: Core, c': Core) {
    SameConfig(c, c') && Drained(s, k, c, c')
  }

  /** Run `id` went on to another attempt or state; nothing else changed. */
  predicate MovedOn(id: RunId, c: Core, c': Core)
    requires id in c.runtimes
  {
    && SameConfig(c, c') && id in c'.runtimes && id in c'.rows
    && c'.runtimes == c.runtimes[id := c'.runtimes[id]]
    && c'.rows == c.rows[id := c'.rows[id]]
    && c'.queues == c.queues
    && MayMove(c.runtimes[id], c'.runtimes[id]) && c'.rows[id].schedule == c'.runtimes[id].scheduleId
  }

  /** `id` ended with `status` and its schedule's queue was drained. */
  ghost predicate EndedAndDrained(id: RunId, status: Status, k: nat, c: Core, c': Core)
    requires id in c.runtimes
  {
    && DrainedCore(c.runtimes[id].scheduleId, k, Ended(c, id, status), c')
    && id !in c'.runtimes && id in c'.rows && c'.rows[id] == FinishedRow(c.runtimes[id], status)
  }

  /** `launchAttempt` starts one more attempt, or ends the run: cancelled when its
      schedule is gone or disabled, failed when its last attempt cannot start. A
      run that another owner took is dropped. */
  ghost predicate LaunchOutcome(id: RunId, k: nat, c: Core, c': Core)
    requires id in c.runtimes
  {
    if !Owned(c, id) then
      k == 0 && c' == Dropped(c, id)
    else if Stays(c, c.runtimes[id]) then
      k == 0 && id in c'.runtimes && MovedOn(id, c, c') && c'.runtimes[id].attempt == c.runtimes[id].attempt + 1
    else
      && id !in c'.runtimes && id in c'.rows && EndedRow(c.runtimes[id], c'.rows[id])
      && (c'.rows[id].status.Failed? ==> c'.rows[id].attempt == c'.rows[id].maxAttempts == c.runtimes[id].attempt + 1)
      && SameConfig(c, c')
      && Drained(c.runtimes[id].scheduleId, k, Except(c, id), Except(c', id))
  }

  /** The head of a queue taken off it. */
  function Popped(queues: Queues, s: ScheduleId): Queues
    requires s in queues && queues[s] != []
  {
    if |queues[s]| == 1 then queues - {s} else queues[s := queues[s][1..]]
  }

  lemma PoppedQueues(queues: Queues, s: ScheduleId)
    requires s in queues && queues[s] != []
    ensures forall t :: QueueOf(Popped(queues, s), t) == if t == s then QueueOf(queues, s)[1..] else QueueOf(queues, t)
    ensures (forall t | t in queues :: queues[t] != []) ==>
              forall t | t in Popped(queues, s) :: Popped(queues, s)[t] != []
  {
  }

  lemma PoppedKeepsInv(c: Core, s: ScheduleId)
    requires InvOf(c, {}) && s in c.queues && c.queues[s] != []
    ensures var id := c.queues[s][0];
            && id in c.runtimes && c.runtimes[id].scheduleId == s && c.runtimes[id].phase.Queued?
            && c.runtimes[id].attempt == 0
            && InvOf(c.(queues := Popped(c.queues, s)), {id})
  {
    var id := c.queues[s][0];
    assert id in QueueOf(c.queues, s);
    PoppedQueues(c.queues, s);
    PoppedKeepsOrder(c.queues, s, c.ticket, c.nextTicket);
    PoppedKeepsQueues(c.runtimes, c.queues, s, c.ticket, c.nextTicket);
    hide Fifo, OnePerSchedule, Bookkeeping, Popped;
  }

  lemma PoppedKeepsOrder(queues: Queues, s: ScheduleId, ticket: map<RunId, nat>, nextTicket: nat)
    requires Fifo(queues, ticket, nextTicket) && s in queues && queues[s] != []
    ensures Fifo(Popped(queues, s), ticket, nextTicket)
    ensures QueueOf(queues, s)[0] !in QueueOf(queues, s)[1..]
  {
    PoppedQueues(queues, s);
    TailKeepsOrder(QueueOf(queues, s), ticket, nextTicket);
    hide Increasing;
  }

  lemma PoppedKeepsQueues(rts: Runtimes, queues: Queues, s: ScheduleId, ticket: map<RunId, nat>, nextTicket: nat)
    requires QueueExact(rts, queues, {}) && Fifo(queues, ticket, nextTicket) && s in queues && queues[s] != []
    ensures QueueExact(rts, Popped(queues, s), {queues[s][0]})
  {
    PoppedQueues(queues, s);
    PoppedKeepsOrder(queues, s, ticket, nextTicket);
    var q, id, queues' := QueueOf(queues, s), queues[s][0], Popped(queues, s);
    assert q == [id] + q[1..];
    hide Fifo, QueueOf, Popped;
    forall t, x ensures x in QueueOf(queues', t) <==> Waits(rts, t, x, {id}) {
      assert x in QueueOf(queues, t) <==> Waits(rts, t, x, {});
      assert id in QueueOf(queues, s) <==> Waits(rts, s, id, {});
    }
  }

  lemma PoppedKeepsBusy(c: Core, s: ScheduleId, but: set<ScheduleId>)
    requires BusyBut(c, but + {s}) && s in c.queues && c.queues[s] != []
    ensures BusyBut(c.(queues := Popped(c.queues, s)), but + {s})
  {
    PoppedQueues(c.queues, s);
  }

  lemma MovedOnStaysBusy(id: RunId, c: Core, c': Core, but: set<ScheduleId>)
    requires id in c.runtimes && MovedOn(id, c, c')
    requires BusyBut(c, but + {c.runtimes[id].scheduleId})
    ensures BusyBut(c', but + {c.runtimes[id].scheduleId})
  {
    var s := c.runtimes[id].scheduleId;
    forall t | QueueOf(c'.queues, t) != [] && t !in c'.starved && t !in but + {s} ensures Active(c'.runtimes, t) {
      assert Active(c.runtimes, t);
      var other :| other in c.runtimes && c.runtimes[other].scheduleId == t && IsActive(c.runtimes[other]);
      assert other != id && c'.runtimes[other] == c.runtimes[other];
    }
  }

  /** An idle schedule's run that became active makes its schedule busy. */
  lemma MovedOnIsBusy(id: RunId, c: Core, c': Core, but: set<ScheduleId>)
    requires id in c.runtimes && MovedOn(id, c, c')
    requires BusyBut(c, but + {c.runtimes[id].scheduleId})
    ensures BusyBut(c', but)
  {
    var s := c.runtimes[id].scheduleId;
    forall t | QueueOf(c'.queues, t) != [] && t !in but && t !in c'.starved ensures Active(c'.runtimes, t) {
      if t == s {
        assert c'.runtimes[id].scheduleId == t && IsActive(c'.runtimes[id]);
      } else {
        assert Active(c.runtimes, t);
        var other :| other in c.runtimes && c.runtimes[other].scheduleId == t && IsActive(c.runtimes[other]);
        assert other != id && c'.runtimes[other] == c.runtimes[other];
      }
    }
  }

  lemma EndedStaysBusyElsewhere(c: Core, id: RunId, status: Status, but: set<ScheduleId>)
    requires id in c.runtimes && BusyBut(c, but + {c.runtimes[id].scheduleId})
    ensures BusyBut(Ended(c, id, status), but + {c.runtimes[id].scheduleId})
  {
    var s, c' := c.runtimes[id].scheduleId, Ended(c, id, status);
    RemovedQueues(c.queues, s, id);
    forall t | QueueOf(c'.queues, t) != [] && t !in c'.starved && t !in but + {s} ensures Active(c'.runtimes, t) {
      assert Active(c.runtimes, t);
      var other :| other in c.runtimes && c.runtimes[other].scheduleId == t && IsActive(c.runtimes[other]);
      assert c'.runtimes[other] == c.runtimes[other];
    }
  }

  function AttemptBegun(c: Core, id: RunId, schedule: Schedule, now: int): Core
    requires id in c.runtimes
  {
    Moved(c, id, BegunRuntime(c.runtimes[id], schedule), now)
  }

  predicate MayLaunch(c: Core, id: RunId, popped: set<RunId>) {
    && id in c.runtimes && popped <= {id}
    && (c.runtimes[id].phase.Queued? ==> id in popped)
    && (IsActive(c.runtimes[id]) || !Active(c.runtimes, c.runtimes[id].scheduleId))
    && (c.runtimes[id].attempt == 0 || c.runtimes[id].attempt < c.runtimes[id].maxAttempts)
  }

  lemma AttemptBegunKeepsInv(c: Core, id: RunId, schedule: Schedule, now: int, popped: set<RunId>, notes: seq<Note>)
    requires InvOf(c, popped) && MayLaunch(c, id, popped) && Owned(c, id)
    ensures var c' := AttemptBegun(c, id, schedule, now);
            && InvOf(c', {}) && Owned(c', id)
            && Told(c.me, now, false, c.rows, notes, c'.rows, notes)
            && MovedOn(id, c, c')
            && c'.runtimes[id].attempt == c.runtimes[id].attempt + 1
            && c'.runtimes[id].scheduleId == c.runtimes[id].scheduleId
  {
    hide InvOf, Guarantee, Told;
    HeldIn(c, popped, id);
    var rt := BegunRuntime(c.runtimes[id], schedule);
    MovedKeepsInv(c, id, rt, now, popped, {});
    MovedIsLegal(c, id, rt, now, notes, notes);
  }

  lemma StartsAndStays(c: Core, id: RunId, schedule: Schedule)
    requires id in c.runtimes && c.runtimes[id].scheduleId in c.schedules
    requires schedule == c.schedules[c.runtimes[id].scheduleId] && schedule.enabled
    requires Startable(c.caps, BegunRuntime(c.runtimes[id], schedule), schedule)
    ensures Stays(c, c.runtimes[id])
  {
  }

  lemma BegunMovesOn(id: RunId, c: Core, c1: Core)
    requires id in c.runtimes && MovedOn(id, c, c1)
    ensures MovedOn(id, c, c1.(begun := c1.begun + {id}))
  {
  }

  lemma MovedOnTwice(id: RunId, c: Core, c1: Core, c2: Core)
    requires id in c.runtimes && MovedOn(id, c, c1) && id in c1.runtimes && MovedOn(id, c1, c2)
    ensures MovedOn(id, c, c2)
  {
  }

  /** A launch that ended the run, seen from before the launch began. */
  lemma LaunchEnded(id: RunId, status: Status, k: nat, c: Core, c1: Core, c': Core)
    requires EndsOnLaunch(c, id) && id in c1.runtimes && c1.runtimes[id].scheduleId == c.runtimes[id].scheduleId
    requires c1.runtimes[id].dispatch == c.runtimes[id].dispatch
    requires c1.runtimes - {id} == c.runtimes - {id} && c1.rows - {id} == c.rows - {id} && c1.queues == c.queues
    requires SameConfig(c, c1) && c1.begun == c.begun && id !in QueueOf(c.queues, c.runtimes[id].scheduleId)
    requires EndedAndDrained(id, status, k, c1, c') && status in {Cancelled, Failed}
    requires status.Failed? ==> c1.runtimes[id].attempt == c1.runtimes[id].maxAttempts == c.runtimes[id].attempt + 1
    ensures LaunchOutcome(id, k, c, c')
  {
    var s := c.runtimes[id].scheduleId;
    WithoutIsIdentity(QueueOf(c1.queues, s), id);
    RemovedQueues(c1.queues, s, id);
    hide RemovedFrom, QueueOf, Drained, Stays, Owned;
    var e := Ended(c1, id, status);
    assert QueueOf(e.queues, s) == QueueOf(c.queues, s);
    assert forall t | t != s :: QueueOf(e.queues, t) == QueueOf(c.queues, t);
    assert e.rows - {id} == c.rows - {id} && e.runtimes == c.runtimes - {id};
    DrainedWithout(id, s, k, e, Except(c, id), c');
  }

  lemma DrainedWithout(id: RunId, s: ScheduleId, k: nat, e: Core, c1: Core, c': Core)
    requires forall t :: QueueOf(e.queues, t) == QueueOf(c1.queues, t)
    requires id !in QueueOf(e.queues, s) && id !in e.runtimes && id in e.rows
    requires c1.runtimes == e.runtimes && c1.rows == e.rows - {id}
    requires c1.me == e.me && c1.caps == e.caps && c1.schedules == e.schedules
    requires Drained(s, k, e, c') && id !in c'.runtimes
    ensures Drained(s, k, c1, Except(c', id))
  {
    var left := QueueOf(e.queues, s)[..k];
    assert id !in left;
    OthersKeptWithout(id, left, e.runtimes, e.rows, c'.runtimes, c'.rows);
    assert c'.runtimes - {id} == c'.runtimes;
    hide OthersKept;
    forall x | x in left && x in e.runtimes && x in e.rows ensures ServedAlike(x, e, c', c1, Except(c', id)) {
      assert Stays(e, e.runtimes[x]) == Stays(c1, e.runtimes[x]);
      hide Stays, QueueAdvanced, ServedInOrder;
    }
    ServedReads(left, k == |QueueOf(e.queues, s)|, e, c', c1, Except(c', id));
    hide ServedInOrder, ServedAlike, Stays;
  }

  lemma OthersKeptWithout(id: RunId, left: seq<RunId>, rts: Runtimes, rows: Rows, rts': Runtimes, rows': Rows)
    requires OthersKept(left, rts, rows, rts', rows') && id !in left && id in rows
    ensures OthersKept(left, rts, rows - {id}, rts', rows' - {id})
  {
    assert (rows' - {id}).Keys == rows'.Keys - {id};
    assert (rows - {id}).Keys == rows.Keys - {id};
  }

  lemma LaunchLost(id: RunId, c: Core)
    requires id in c.runtimes && !Owned(c, id)
    ensures LaunchOutcome(id, 0, c, Dropped(c, id))
  {
  }

  lemma NotQueued(c: Core, id: RunId, popped: set<RunId>)
    requires InvOf(c, popped) && id in c.runtimes
    requires c.runtimes[id].phase.Queued? ==> id in popped
    ensures forall s :: id !in QueueOf(c.queues, s)
  {
  }

  lemma HeldIn(c: Core, popped: set<RunId>, id: RunId)
    requires InvOf(c, popped) && id in c.runtimes
    ensures id in c.rows && !Terminal(c.runtimes[id].status)
    ensures Owned(c, id) ==> Mirrors(c.rows[id], c.runtimes[id], c.me)
    ensures !c.runtimes[id].phase.Queued? ==> c.rows[id].phase != Some(Queued)
    ensures 1 <= c.runtimes[id].maxAttempts && c.runtimes[id].attempt <= c.runtimes[id].maxAttempts
    ensures c.runtimes[id].phase.RetryWait? ==> c.runtimes[id].attempt < c.runtimes[id].maxAttempts
    ensures c.runtimes[id].phase.Queued? ==> c.runtimes[id].attempt == 0 && id !in c.begun
  {
    HeldAt(id, c.runtimes, c.rows, c.me);
  }

  lemma BusyIsLocal(c: Core, c': Core, but: set<ScheduleId>)
    requires c'.runtimes == c.runtimes && c'.queues == c.queues && c'.starved == c.starved && BusyBut(c, but)
    ensures BusyBut(c', but)
  {
  }

  lemma BusyWeakens(c: Core, but: set<ScheduleId>, s: ScheduleId)
    requires BusyBut(c, but)
    ensures BusyBut(c, but + {s})
  {
  }

  lemma QueueShrinks(c: Core, id: RunId, popped: set<RunId>)
    requires InvOf(c, popped) && id in c.runtimes
    ensures var s := c.runtimes[id].scheduleId;
            |QueueOf(RemovedFrom(c.queues, s, id), s)| <= |QueueOf(c.queues, s)|
  {
    RemovalKeepsQueues(c.runtimes, c.queues, popped, id);
  }

  lemma EndedRowStays(id: RunId, s: ScheduleId, k: nat, c: Core, c': Core)
    requires InvOf(c, {}) && DrainedCore(s, k, c, c')
    requires id in c.rows && id !in c.runtimes
    ensures id !in c'.runtimes && id in c'.rows && c'.rows[id] == c.rows[id]
  {
    assert id !in QueueOf(c.queues, s) by {
      hide Fifo, OnePerSchedule, AttemptsBounded, Held, Bookkeeping;
    }
    assert id !in QueueOf(c.queues, s)[..k];
    hide QueueExact, Fifo, OnePerSchedule, AttemptsBounded, Held, Bookkeeping;
  }

  lemma NothingToDrain(c: Core, s: ScheduleId, but: set<ScheduleId>)
    requires BusyBut(c, but + {s}) && (Active(c.runtimes, s) || s !in c.queues)
    ensures BusyBut(c, but) && DrainedCore(s, 0, c, c)
  {
    assert QueueOf(c.queues, s)[..0] == [] && QueueOf(c.queues, s)[0..] == QueueOf(c.queues, s);
  }

  lemma HeadDrained(s: ScheduleId, id: RunId, k: nat, c: Core, c1: Core, c': Core)
    requires InvOf(c, {}) && s in c.queues && c.queues[s] != [] && c.queues[s][0] == id && !Active(c.runtimes, s)
    requires c1 == c.(queues := Popped(c.queues, s)) && id in c.runtimes && c.runtimes[id].scheduleId == s
    requires c.runtimes[id].phase.Queued?
    requires LaunchOutcome(id, k, c1, c')
    ensures DrainedCore(s, if EndsOnLaunch(c, id) then k + 1 else 1, c, c')
  {
    PoppedKeepsInv(c, s);
    HeldIn(c, {}, id);
    NotQueued(c1, id, {id});
    PoppedQueues(c.queues, s);
    assert Owned(c1, id) == Owned(c, id) && Stays(c1, c1.runtimes[id]) == Stays(c, c.runtimes[id]);
    hide InvOf, Popped, Stays;
    if !Owned(c, id) {
      HeadLost(s, id, c, c1);
    } else if Stays(c, c.runtimes[id]) {
      HeadLaunched(s, id, c, c1, c');
    } else {
      hide Drained;
      assert Except(c1, id) == Except(c, id).(queues := c1.queues);
      DrainedBehindHead(s, id, k, c, c1.queues, c');
    }
  }

  lemma HeadLaunched(s: ScheduleId, id: RunId, c: Core, c1: Core, c': Core)
    requires QueueOf(c.queues, s) != [] && QueueOf(c.queues, s)[0] == id && !Active(c.runtimes, s)
    requires c1 == c.(queues := c1.queues) && Owned(c, id) && Stays(c, c.runtimes[id])
    requires forall t :: QueueOf(c1.queues, t) == if t == s then QueueOf(c.queues, s)[1..] else QueueOf(c.queues, t)
    requires MovedOn(id, c1, c')
    ensures DrainedCore(s, 1, c, c')
  {
    hide Stays;
    assert QueueOf(c.queues, s)[..1] == [id];
  }

  lemma HeadLost(s: ScheduleId, id: RunId, c: Core, c1: Core)
    requires QueueOf(c.queues, s) != [] && QueueOf(c.queues, s)[0] == id && !Active(c.runtimes, s)
    requires c1 == c.(queues := c1.queues) && id in c.runtimes && c.runtimes[id].scheduleId == s
    requires id in c.rows && !Owned(c, id)
    requires forall t :: QueueOf(c1.queues, t) == if t == s then QueueOf(c.queues, s)[1..] else QueueOf(c.queues, t)
    requires id !in QueueOf(c1.queues, s)
    ensures DrainedCore(s, 1, c, Dropped(c1, id))
  {
    assert QueueOf(c.queues, s)[..1] == [id];
    RemovedQueues(c1.queues, s, id);
    WithoutIsIdentity(QueueOf(c1.queues, s), id);
  }

  lemma DetachedKeepsInv(c: Core, sessionId: Option<ExecutionId>, workflowId: Option<ExecutionId>, popped: set<RunId>)
    requires InvOf(c, popped)
    ensures InvOf(c.(sessionToRun := Detached(c.sessionToRun, sessionId),
                     workflowToRun := Detached(c.workflowToRun, workflowId)), popped)
  {
  }

  lemma QueuesAreNotEmpty(c: Core, s: ScheduleId)
    requires InvOf(c, {}) && s in c.queues
    ensures c.queues[s] != []
  {
  }

  /** A begun attempt that could not start, seen from before the launch. */
  lemma StartFailed(id: RunId, schedule: Schedule, now: int, k: nat, c: Core, c1: Core, c': Core)
    requires Owned(c, id) && c1 == Renewed(c, id, now)
    requires c.runtimes[id].scheduleId in c.schedules && schedule == c.schedules[c.runtimes[id].scheduleId]
             && schedule.enabled
    requires !Startable(c.caps, BegunRuntime(c.runtimes[id], schedule), schedule)
    requires id !in QueueOf(c.queues, c.runtimes[id].scheduleId)
    requires MayMove(c.runtimes[id], BegunRuntime(c.runtimes[id], schedule))
    requires FailOutcome(id, k, AttemptBegun(c1, id, schedule, now), c')
    ensures LaunchOutcome(id, k, c, c')
  {
    var c2 := AttemptBegun(c1, id, schedule, now);
    hide Startable, FailOutcome, LaunchOutcome;
    if c2.runtimes[id].attempt < c2.runtimes[id].maxAttempts {
      StartRetried(id, schedule, now, k, c, c');
    } else {
      LastStartFailed(id, schedule, now, k, c, c');
    }
  }

  lemma StartRetried(id: RunId, schedule: Schedule, now: int, k: nat, c: Core, c': Core)
    requires Owned(c, id) && c.runtimes[id].scheduleId in c.schedules
             && schedule == c.schedules[c.runtimes[id].scheduleId]
    requires schedule.enabled && MayMove(c.runtimes[id], BegunRuntime(c.runtimes[id], schedule))
    requires BegunRuntime(c.runtimes[id], schedule).attempt < BegunRuntime(c.runtimes[id], schedule).maxAttempts
    requires FailOutcome(id, k, AttemptBegun(Renewed(c, id, now), id, schedule, now), c')
    ensures LaunchOutcome(id, k, c, c')
  {
    hide Startable, Drained;
    assert Stays(c, c.runtimes[id]);
    assert c'.rows == c.rows[id := c'.rows[id]];
  }

  lemma LastStartFailed(id: RunId, schedule: Schedule, now: int, k: nat, c: Core, c': Core)
    requires Owned(c, id) && c.runtimes[id].scheduleId in c.schedules
             && schedule == c.schedules[c.runtimes[id].scheduleId]
    requires !Startable(c.caps, BegunRuntime(c.runtimes[id], schedule), schedule)
    requires id !in QueueOf(c.queues, c.runtimes[id].scheduleId)
    requires MayMove(c.runtimes[id], BegunRuntime(c.runtimes[id], schedule))
    requires BegunRuntime(c.runtimes[id], schedule).attempt == BegunRuntime(c.runtimes[id], schedule).maxAttempts
    requires FailOutcome(id, k, AttemptBegun(Renewed(c, id, now), id, schedule, now), c')
    ensures LaunchOutcome(id, k, c, c')
  {
    var c2 := AttemptBegun(Renewed(c, id, now), id, schedule, now);
    hide Startable, LaunchOutcome, EndedAndDrained, QueueOf;
    assert EndsOnLaunch(c, id);
    assert c2.rows - {id} == c.rows - {id} && c2.runtimes - {id} == c.runtimes - {id};
    LaunchEnded(id, Failed, k, c, c2, c');
  }

  lemma Started(id: RunId, c: Core, c1: Core, c': Core)
    requires Owned(c, id) && Stays(c, c.runtimes[id]) && id in c1.runtimes && MovedOn(id, c1, c')
    requires exists now :: c1 == Renewed(c, id, now)
    requires c'.runtimes[id].attempt == c.runtimes[id].attempt + 1
    ensures LaunchOutcome(id, 0, c, c')
  {
    hide Stays;
    assert c'.rows == c.rows[id := c'.rows[id]];
  }

  /** An ending, seen from before ownership was checked. */
  lemma EndingsAgree(id: RunId, status: Status, k: nat, c: Core, c1: Core, c': Core)
    requires id in c.runtimes && id in c.rows && id in c1.runtimes && c1.runtimes[id] == c.runtimes[id]
    requires c1.runtimes == c.runtimes && c1.queues == c.queues && SameConfig(c, c1)
    requires id in c1.rows && c1.rows == c.rows[id := c1.rows[id]] && c1.begun == c.begun
    requires EndedAndDrained(id, status, k, c1, c')
    ensures EndedAndDrained(id, status, k, c, c')
  {
    var e, e1 := Ended(c, id, status), Ended(c1, id, status);
    assert e1.rows == e.rows;
    DrainedReads(c.runtimes[id].scheduleId, k, e, e1, c');
    hide Drained, RemovedFrom;
  }

  /** What a drain depends on. */
  lemma DrainedReads(s: ScheduleId, k: nat, c: Core, c1: Core, c': Core)
    requires c1.me == c.me && c1.caps == c.caps && c1.schedules == c.schedules
    requires c1.runtimes == c.runtimes && c1.rows == c.rows && c1.queues == c.queues
    ensures Drained(s, k, c1, c') <==> Drained(s, k, c, c')
  {
    var left := QueueOf(c.queues, s)[..if k <= |QueueOf(c.queues, s)| then k else 0];
    forall x | x in left && x in c.runtimes && x in c.rows
      ensures ServedAlike(x, c, c', c1, c') && ServedAlike(x, c1, c', c, c')
    {
      assert Stays(c, c.runtimes[x]) == Stays(c1, c.runtimes[x]);
    }
    hide Stays, QueueAdvanced, OthersKept, ServedInOrder, ServedAlike;
    var exhausted := k == |QueueOf(c.queues, s)|;
    if ServedInOrder(left, exhausted, c, c') { ServedReads(left, exhausted, c, c', c1, c'); }
    if ServedInOrder(left, exhausted, c1, c') { ServedReads(left, exhausted, c1, c', c, c'); }
  }

  lemma FailureWaits(id: RunId, c: Core, c1: Core, rt: Runtime, now: int)
    requires id in c.runtimes && id in c.rows && c1.runtimes == c.runtimes && c1.queues == c.queues && SameConfig(c, c1)
    requires c1.begun == c.begun
    requires id in c1.rows && c1.rows == c.rows[id := c1.rows[id]] && MayMove(c.runtimes[id], rt)
    ensures MovedOn(id, c, Moved(c1, id, rt, now))
  {
    assert c.rows[id := c1.rows[id]][id := Record(c.me, rt, now)] == c.rows[id := Record(c.me, rt, now)];
  }

  // ---------------------------------------------------------------------
  // Admission
  // ---------------------------------------------------------------------

  function CursorMoved(schedules: Schedules, s: ScheduleId, nextRunAt: Option<int>): Schedules
    requires s in schedules
  {
    if nextRunAt.None? then schedules else schedules[s := schedules[s].(nextRunAt := nextRunAt)]
  }

  /** `createRuntime`, its row and its cron cursor. */
  function Admitted(c: Core, id: RunId, rt: Runtime, nextRunAt: Option<int>, now: int): Core
    requires rt.scheduleId in c.schedules
  {
    c.(runtimes := c.runtimes[id := rt], rows := c.rows[id := Record(c.me, rt, now)],
       schedules := CursorMoved(c.schedules, rt.scheduleId, nextRunAt))
  }

  predicate Fresh(rt: Runtime) {
    && rt.status.Pending? && rt.attempt == 0 && 1 <= rt.maxAttempts && rt.ownerEpoch == 0
    && (rt.phase.Queued? || rt.phase.Launching?)
  }

  lemma AdmittedKeepsInv(c: Core, id: RunId, rt: Runtime, nextRunAt: Option<int>, now: int, notes: seq<Note>)
    requires InvOf(c, {}) && id !in c.rows && rt.scheduleId in c.schedules && Fresh(rt)
    requires rt.phase.Launching? ==> !Active(c.runtimes, rt.scheduleId) || c.schedules[rt.scheduleId].overlap == Allow
    ensures var c' := Admitted(c, id, rt, nextRunAt, now);
            && InvOf(c', if rt.phase.Queued? then {id} else {})
            && Guarantee(c.me, now, c.rows, notes, c'.rows, notes)
  {
    var c' := Admitted(c, id, rt, nextRunAt, now);
    assert id !in c.runtimes by { if id in c.runtimes { HeldIn(c, {}, id); } }
    AdmittedKeepsQueues(c.runtimes, c.queues, id, rt);
    AdmittedKeepsOne(c.runtimes, c.overlapped, id, rt);
    AdmittedIsLegal(c, id, rt, nextRunAt, now, notes);
    hide QueueExact, Fifo, OnePerSchedule, Guarantee;
  }

  lemma AdmittedIsLegal(c: Core, id: RunId, rt: Runtime, nextRunAt: Option<int>, now: int, notes: seq<Note>)
    requires id !in c.rows && rt.scheduleId in c.schedules && Fresh(rt)
    ensures Guarantee(c.me, now, c.rows, notes, Admitted(c, id, rt, nextRunAt, now).rows, notes)
  {
  }

  lemma AdmittedKeepsOne(rts: Runtimes, overlapped: set<ScheduleId>, id: RunId, rt: Runtime)
    requires OnePerSchedule(rts, overlapped) && id !in rts
    requires IsActive(rt) ==> !Active(rts, rt.scheduleId) || rt.scheduleId in overlapped
    ensures OnePerSchedule(rts[id := rt], overlapped)
  {
  }

  lemma AdmittedKeepsQueues(rts: Runtimes, queues: Queues, id: RunId, rt: Runtime)
    requires QueueExact(rts, queues, {}) && id !in rts
    ensures QueueExact(rts[id := rt], queues, if rt.phase.Queued? then {id} else {})
  {
    var popped := if rt.phase.Queued? then {id} else {};
    forall t, x ensures x in QueueOf(queues, t) <==> Waits(rts[id := rt], t, x, popped) {
      assert x in QueueOf(queues, t) <==> Waits(rts, t, x, {});
    }
  }

  lemma AdmittedStaysBusy(c: Core, id: RunId, rt: Runtime, nextRunAt: Option<int>, now: int)
    requires id !in c.runtimes && rt.scheduleId in c.schedules && BusyBut(c, {})
    ensures BusyBut(Admitted(c, id, rt, nextRunAt, now), {})
  {
    var c' := Admitted(c, id, rt, nextRunAt, now);
    forall t | QueueOf(c.queues, t) != [] && t !in c'.starved ensures Active(c'.runtimes, t) {
      assert Active(c.runtimes, t);
      var other :| other in c.runtimes && c.runtimes[other].scheduleId == t && IsActive(c.runtimes[other]);
      assert c'.runtimes[other] == c.runtimes[other];
    }
  }

  /** The queued run joins the end of its schedule's queue. */
  function Pushed(c: Core, id: RunId): Core
    requires id in c.runtimes
  {
    var s := c.runtimes[id].scheduleId;
    c.(queues := c.queues[s := QueueOf(c.queues, s) + [id]],
       ticket := c.ticket[id := c.nextTicket], nextTicket := c.nextTicket + 1)
  }

  lemma PushedKeepsInv(c: Core, id: RunId)
    requires InvOf(c, {id}) && id in c.runtimes && c.runtimes[id].phase.Queued?
    ensures InvOf(Pushed(c, id), {})
  {
    var c' := Pushed(c, id);
    var s := c.runtimes[id].scheduleId;
    var q := QueueOf(c.queues, s);
    assert id !in q by { assert id in q <==> Waits(c.runtimes, s, id, {id}); }
    assert forall t :: QueueOf(c'.queues, t) == if t == s then q + [id] else QueueOf(c.queues, t);
    forall t, x ensures x in QueueOf(c'.queues, t) <==> Waits(c.runtimes, t, x, {}) {
      assert x in QueueOf(c.queues, t) <==> Waits(c.runtimes, t, x, {id});
    }
    assert QueueExact(c'.runtimes, c'.queues, {});
    PushedKeepsOrder(c, id);
    hide QueueExact, Fifo, OnePerSchedule;
  }

  lemma PushedKeepsOrder(c: Core, id: RunId)
    requires InvOf(c, {id}) && id in c.runtimes
    ensures Fifo(Pushed(c, id).queues, Pushed(c, id).ticket, Pushed(c, id).nextTicket)
  {
    var c', s := Pushed(c, id), c.runtimes[id].scheduleId;
    forall t ensures Increasing(QueueOf(c'.queues, t), c'.ticket, c'.nextTicket) {
      var q := QueueOf(c.queues, t);
      assert QueueOf(c'.queues, t) == if t == s then q + [id] else q;
      assert Increasing(q, c.ticket, c.nextTicket);
      assert id !in q by { assert id in q <==> Waits(c.runtimes, t, id, {id}); }
      NewestLast(q, id, c.ticket, c.nextTicket);
    }
  }

  lemma NewestLast(q: seq<RunId>, id: RunId, ticket: map<RunId, nat>, nextTicket: nat)
    requires Increasing(q, ticket, nextTicket) && id !in q
    ensures Increasing(q, ticket[id := nextTicket], nextTicket + 1)
    ensures Increasing(q + [id], ticket[id := nextTicket], nextTicket + 1)
  {
    forall i | 0 <= i < |q| ensures ticket[id := nextTicket][q[i]] == ticket[q[i]] {
      assert q[i] in q;
    }
  }

  // ---------------------------------------------------------------------
  // Schedules and executions
  // ---------------------------------------------------------------------

  /** A skipped trigger leaves one finished row and nothing else. */
  lemma SkippedKeepsInv(c: Core, id: RunId, row: Row, nextRunAt: Option<int>, now: int, notes: seq<Note>,
                        notes': seq<Note>)
    requires ValidCore(c) && id !in c.rows && RowBounded(row) && row.status.Skipped? && row.owner == None
             && row.schedule in c.schedules
    requires notes' == notes || notes' == notes + [RunFinished(id, Skipped)]
    ensures var c' := c.(rows := c.rows[id := row], schedules := CursorMoved(c.schedules, row.schedule, nextRunAt));
            && ValidCore(c')
            && Guarantee(c.me, now, c.rows, notes, c'.rows, notes')
  {
    assert notes' != notes ==> notes'[..|notes|] == notes;
  }

  lemma ScheduleKeepsValid(c: Core, s: ScheduleId, schedule: Schedule)
    requires ValidCore(c)
    requires schedule.trigger.CronTrigger? ==> WellFormed(schedule.trigger.cron)
    ensures ValidCore(WithSchedule(c, s, schedule))
  {
  }

  lemma ScheduleGone(c: Core, s: ScheduleId)
    requires ValidCore(c)
    ensures ValidCore(c.(schedules := c.schedules - {s}))
  {
  }

  /** Taking a whole queue at once, before ending its runs. */
  lemma QueueTaken(c: Core, s: ScheduleId)
    requires InvOf(c, {})
    ensures InvOf(c.(queues := c.queues - {s}), Elements(QueueOf(c.queues, s)))
    ensures QueueOf(c.queues - {s}, s) == []
  {
    var popped, queues' := Elements(QueueOf(c.queues, s)), c.queues - {s};
    assert forall t :: QueueOf(queues', t) == if t == s then [] else QueueOf(c.queues, t);
    forall t, x ensures x in QueueOf(queues', t) <==> Waits(c.runtimes, t, x, popped) {
      assert x in QueueOf(c.queues, t) <==> Waits(c.runtimes, t, x, {});
      assert x in QueueOf(c.queues, s) <==> Waits(c.runtimes, s, x, {});
    }
  }

  function Elements(q: seq<RunId>): set<RunId> {
    set x | x in q
  }

  lemma ExecutionKeepsInv(c: Core, x: ExecutionId, id: RunId, workflow: bool)
    requires InvOf(c, {}) && id in c.begun
    ensures InvOf(if workflow then c.(workflowToRun := c.workflowToRun[x := id])
            else c.(sessionToRun := c.sessionToRun[x := id]), {})
  {
  }

  /** The runs waiting for `s` were cancelled; nothing else changed. */
  ghost predicate QueueCancelled(s: ScheduleId, c: Core, c': Core) {
    var q := Elements(QueueOf(c.queues, s));
    && SameConfig(c, c') && c'.begun == c.begun
    && c'.runtimes == c.runtimes - q
    && (forall t :: QueueOf(c'.queues, t) == if t == s then [] else QueueOf(c.queues, t))
    && c'.rows.Keys == c.rows.Keys
    && (forall id | id in c.rows :: c'.rows[id] == if id in q
       && Owned(c, id) then FinishedRow(c.runtimes[id], Cancelled) else c.rows[id])
  }

  lemma QueueCancelledIsValid(s: ScheduleId, c: Core, c': Core)
    requires BusyBut(c, {}) && InvOf(c, {}) && InvOf(c', {}) && QueueCancelled(s, c, c')
    ensures ValidCore(c')
  {
    var q := QueueOf(c.queues, s);
    forall t | QueueOf(c'.queues, t) != [] && t !in c'.starved ensures Active(c'.runtimes, t) {
      assert Active(c.runtimes, t);
      var other :| other in c.runtimes && c.runtimes[other].scheduleId == t && IsActive(c.runtimes[other]);
      assert other !in q by { assert other in q <==> Waits(c.runtimes, s, other, {}); }
      assert c'.runtimes[other] == c.runtimes[other];
    }
  }

  lemma NoDuplicates(c: Core, popped: set<RunId>, s: ScheduleId, i: nat)
    requires InvOf(c, popped) && i < |QueueOf(c.queues, s)|
    ensures Elements(QueueOf(c.queues, s)[i..]) - {QueueOf(c.queues, s)[i]} == Elements(QueueOf(c.queues, s)[i + 1..])
  {
    var q := QueueOf(c.queues, s);
    assert Increasing(q, c.ticket, c.nextTicket);
    assert q[i..] == [q[i]] + q[i + 1..];
    forall j | i < j < |q| ensures q[j] != q[i] {
      assert c.ticket[q[i]] < c.ticket[q[j]];
    }
  }

  function RunsOf(rts: Runtimes, s: ScheduleId): set<RunId> {
    set id | id in rts && rts[id].scheduleId == s
  }

  /** All runs of `s` in `gone` were cancelled; nothing else changed. */
  ghost predicate RunsCancelled(s: ScheduleId, gone: set<RunId>, c: Core, c': Core) {
    && SameConfig(c, c') && c'.begun == c.begun
    && c'.runtimes == c.runtimes - gone
    && (forall t | t != s :: QueueOf(c'.queues, t) == QueueOf(c.queues, t))
    && c'.rows.Keys == c.rows.Keys
    && (forall id | id in c.rows :: c'.rows[id] == if id in gone
       && Owned(c, id) then FinishedRow(c.runtimes[id], Cancelled) else c.rows[id])
  }

  lemma OneMoreCancelled(s: ScheduleId, gone: set<RunId>, id: RunId, c: Core, c1: Core)
    requires RunsCancelled(s, gone, c, c1) && id in c1.runtimes && id in c.rows
    requires c1.runtimes[id].scheduleId == s
    ensures RunsCancelled(s, gone + {id}, c, Finished(c1, id, Cancelled))
  {
    var c' := Finished(c1, id, Cancelled);
    RemovedQueues(c1.queues, s, id);
    assert c'.runtimes == c.runtimes - (gone + {id});
  }

  lemma NonEmptyHasElements(q: seq<RunId>)
    requires q != []
    ensures Elements(q) != {}
  {
    assert q[0] in Elements(q);
  }

  lemma AllCancelledIsValid(s: ScheduleId, c: Core, c': Core)
    requires BusyBut(c, {}) && InvOf(c', {})
    requires RunsCancelled(s, RunsOf(c.runtimes, s), c, c')
    ensures QueueOf(c'.queues, s) == [] && s !in c'.queues && ValidCore(c')
  {
    forall x ensures x !in QueueOf(c'.queues, s) {
      assert x in QueueOf(c'.queues, s) <==> Waits(c'.runtimes, s, x, {});
    }
    assert Elements(QueueOf(c'.queues, s)) == {};
    if QueueOf(c'.queues, s) != [] { NonEmptyHasElements(QueueOf(c'.queues, s)); }
    forall t | QueueOf(c'.queues, t) != [] && t !in c'.starved ensures Active(c'.runtimes, t) {
      assert Active(c.runtimes, t);
      var other :| other in c.runtimes && c.runtimes[other].scheduleId == t && IsActive(c.runtimes[other]);
      assert c'.runtimes[other] == c.runtimes[other];
    }
  }

  lemma GuaranteeOfNothing(me: OwnerId, now: int, rows: Rows, notes: seq<Note>)
    ensures Told(me, now, false, rows, notes, rows, notes)
  {
  }

  ghost predicate CancelProgress(s: ScheduleId, ids: seq<RunId>, c: Core, c': Core) {
    && RunsCancelled(s, Elements(ids), c, c')
    && (forall t :: QueueOf(c'.queues, t) == if t == s then [] else QueueOf(c.queues, t))
  }

  lemma QueueMemberWaits(c: Core, s: ScheduleId, i: nat)
    requires InvOf(c, {}) && i < |QueueOf(c.queues, s)|
    ensures var id := QueueOf(c.queues, s)[i];
            id in c.runtimes && id in c.rows && c.runtimes[id].scheduleId == s && c.runtimes[id].phase.Queued?
  {
    var id := QueueOf(c.queues, s)[i];
    assert id in QueueOf(c.queues, s) <==> Waits(c.runtimes, s, id, {});
  }

  lemma CancelStart(s: ScheduleId, c: Core)
    requires InvOf(c, {})
    ensures var c1 := c.(queues := c.queues - {s});
            CancelProgress(s, [], c, c1) && InvOf(c1, Elements(QueueOf(c.queues, s)))
  {
    QueueTaken(c, s);
    assert c.runtimes - Elements([]) == c.runtimes;
  }

  lemma StillWaiting(s: ScheduleId, i: nat, c: Core, c1: Core)
    requires InvOf(c, {}) && i < |QueueOf(c.queues, s)|
    requires CancelProgress(s, QueueOf(c.queues, s)[..i], c, c1)
    ensures var id := QueueOf(c.queues, s)[i];
            && id in c.runtimes && id in c.rows && c.runtimes[id].scheduleId == s && c.runtimes[id].phase.Queued?
            && id in c1.runtimes && c1.runtimes[id] == c.runtimes[id]
  {
    var q := QueueOf(c.queues, s);
    QueueMemberWaits(c, s, i);
    assert Increasing(q, c.ticket, c.nextTicket);
    forall j | 0 <= j < i ensures q[j] != q[i] {
      assert c.ticket[q[j]] < c.ticket[q[i]];
    }
    assert q[i] !in q[..i];
  }

  lemma CancelStep(s: ScheduleId, ids: seq<RunId>, i: nat, c: Core, c1: Core, c': Core)
    requires i < |ids| && CancelProgress(s, ids[..i], c, c1)
    requires ids[i] in c.runtimes && ids[i] in c.rows && c.runtimes[ids[i]].scheduleId == s
             && c.runtimes[ids[i]].phase.Queued?
    requires c' == if ids[i] in c1.runtimes && c1.runtimes[ids[i]].phase.Queued? then Finished(c1, ids[i], Cancelled)
             else c1
    ensures CancelProgress(s, ids[..i + 1], c, c')
  {
    assert ids[..i + 1] == ids[..i] + [ids[i]];
    assert Elements(ids[..i + 1]) == Elements(ids[..i]) + {ids[i]};
    if ids[i] in c1.runtimes {
      OneMoreCancelled(s, Elements(ids[..i]), ids[i], c, c1);
      RemovedQueues(c1.queues, s, ids[i]);
    }
  }

  lemma CancelDone(s: ScheduleId, c: Core, c': Core)
    requires ValidCore(c) && InvOf(c', {}) && CancelProgress(s, QueueOf(c.queues, s), c, c')
    ensures QueueCancelled(s, c, c') && ValidCore(c')
  {
    QueueCancelledIsValid(s, c, c');
  }

  // ---------------------------------------------------------------------
  // Triggers
  // ---------------------------------------------------------------------

  const MAX_DISPATCH_BACKLOG := 32

  datatype Admission = Denied | Unavailable | SkippedRun | QueuedRun | LaunchedRun

  function NewRuntime(s: ScheduleId, schedule: Schedule, phase: Phase): Runtime {
    Runtime(s, Pending, phase, 0, 1 + schedule.maxRetries, 0, None, None,
            if schedule.target.DispatchTarget? then Some(schedule.target.dispatch) else None)
  }

  /** The row `persistSkipped` leaves. */
  function SkippedRow(s: ScheduleId, schedule: Schedule): Row {
    Row(s, Skipped, None, 0, 1 + schedule.maxRetries,
        if schedule.target.DispatchTarget? then Some(schedule.target.dispatch) else None, None, 0, 0)
  }

  predicate Expired(schedule: Schedule, now: int) {
    && schedule.target.DispatchTarget? && schedule.target.dispatch.expiresAt.Some?
    && schedule.target.dispatch.expiresAt.value <= now
  }

  /** Unfinished rows of a schedule, whoever owns them. */
  function Backlog(rows: Rows, s: ScheduleId): set<RunId> {
    set id | id in rows && rows[id].schedule == s && !Terminal(rows[id].status)
  }

  predicate Saturated(schedule: Schedule, rows: Rows, s: ScheduleId) {
    schedule.target.DispatchTarget? && |Backlog(rows, s)| >= MAX_DISPATCH_BACKLOG
  }

  /** What becomes of one accepted or refused trigger of schedule `s`. */
  ghost predicate TriggerOutcome(s: ScheduleId, id: RunId, r: Admission, k: nat, nextRunAt: Option<int>, now: int,
                                 c: Core, c': Core)
    requires s in c.schedules
  {
    var schedule := c.schedules[s];
    match r
    case Denied =>
      c' == c ||
      (&& Expired(schedule, now) && c'.schedules == c.schedules[s := schedule.(enabled := false, nextRunAt := None)]
       && QueueCancelled(s, c.(schedules := c'.schedules), c'))
    case Unavailable => c' == c
    case SkippedRun =>
      && ((Active(c.runtimes, s) && schedule.overlap.Skip?) || Saturated(schedule, c.rows, s))
      && c' == c.(rows := c.rows[id := SkippedRow(s, schedule)], schedules := CursorMoved(c.schedules, s, nextRunAt))
    case QueuedRun =>
      && Active(c.runtimes, s) && schedule.overlap.Queue? && !Saturated(schedule, c.rows, s)
      && c' == Pushed(Admitted(c, id, NewRuntime(s, schedule, Queued), nextRunAt, now), id)
    case LaunchedRun =>
      && (Active(c.runtimes, s) ==> schedule.overlap.Allow?) && !Saturated(schedule, c.rows, s)
      && LaunchOutcome(id, k, Admitted(c, id, NewRuntime(s, schedule, Launching), nextRunAt, now), c')
  }

  // ---------------------------------------------------------------------
  // Schedule changes and teardown
  // ---------------------------------------------------------------------

  datatype Policy = Policy(overlap: Overlap, maxRetries: nat)
  datatype Patch = Patch(enabled: Option<bool>, trigger: Option<Trigger>, target: Option<Target>,
                         policy: Option<Policy>)

  /** The schedule `update` persists; its cron cursor is computed afresh. */
  function Patched(was: Schedule, patch: Patch, now: int): Schedule {
    var enabled := patch.enabled.GetOr(was.enabled);
    var trigger := patch.trigger.GetOr(was.trigger);
    var policy := patch.policy.GetOr(Policy(was.overlap, was.maxRetries));
    Schedule(enabled, trigger, patch.target.GetOr(was.target), policy.overlap, policy.maxRetries,
             if enabled && trigger.CronTrigger? then NextFire(trigger.cron, trigger.offset, now) else None)
  }

  function WithSchedule(c: Core, s: ScheduleId, schedule: Schedule): Core {
    c.(schedules := c.schedules[s := schedule],
       overlapped := if schedule.overlap.Allow? then c.overlapped + {s} else c.overlapped)
  }

  /** A run that a later owner can take over as it is. */
  predicate Durable(rt: Runtime) {
    rt.dispatch.Some? || rt.workflowId.Some? || rt.phase.RetryWait?
  }

  predicate FailsOnTeardown(rt: Runtime) {
    !Durable(rt) && !rt.phase.Queued?
  }

  /** The row `retireRuntime` leaves: released unfinished, or finished. */
  function RetiredRow(rt: Runtime, row: Row): Row {
    if Durable(rt) then Released(row)
    else FinishedRow(rt, if rt.phase.Queued? then Cancelled else Failed)
  }

  lemma CronIsWellFormed(c: Core, s: ScheduleId)
    requires ValidCore(c) && s in c.schedules
    ensures c.schedules[s].trigger.CronTrigger? ==> WellFormed(c.schedules[s].trigger.cron)
  {
  }

  lemma NewIsNotHeld(c: Core, id: RunId)
    requires ValidCore(c) && id !in c.rows
    ensures id !in c.runtimes
  {
    if id in c.runtimes { HeldIn(c, {}, id); }
  }

  lemma PushedStaysBusy(c: Core, c1: Core, id: RunId, rt: Runtime, nextRunAt: Option<int>, now: int)
    requires ValidCore(c) && id !in c.runtimes && rt.scheduleId in c.schedules && Active(c.runtimes, rt.scheduleId)
    requires c1 == Admitted(c, id, rt, nextRunAt, now) && rt.phase.Queued?
    ensures BusyBut(Pushed(c1, id), {})
  {
    var c', s := Pushed(c1, id), rt.scheduleId;
    forall t | QueueOf(c'.queues, t) != [] && t !in c'.starved ensures Active(c'.runtimes, t) {
      assert t != s ==> QueueOf(c'.queues, t) == QueueOf(c.queues, t);
      assert Active(c.runtimes, t);
      var other :| other in c.runtimes && c.runtimes[other].scheduleId == t && IsActive(c.runtimes[other]);
      assert c'.runtimes[other] == c.runtimes[other];
    }
  }

  lemma NothingCancelled(s: ScheduleId, c: Core)
    ensures RunsCancelled(s, RunsOf(c.runtimes, s) - RunsOf(c.runtimes, s), c, c)
  {
    assert c.runtimes - (RunsOf(c.runtimes, s) - RunsOf(c.runtimes, s)) == c.runtimes;
  }

  lemma StillListed(s: ScheduleId, gone: set<RunId>, id: RunId, c: Core, c1: Core)
    requires RunsCancelled(s, gone, c, c1) && InvOf(c, {}) && id in RunsOf(c.runtimes, s) && id !in gone
    ensures id in c.rows && id in c1.runtimes && c1.runtimes[id] == c.runtimes[id] && c1.runtimes[id].scheduleId == s
  {
    HeldIn(c, {}, id);
  }

  lemma SchedulesDoNotMatter(s: ScheduleId, gone: set<RunId>, c: Core, c1: Core, c': Core)
    requires RunsCancelled(s, gone, c, c1) && c' == c1.(schedules := c'.schedules)
    ensures RunsCancelled(s, gone, c.(schedules := c'.schedules), c')
  {
  }

  lemma DisabledByUpdate(s: ScheduleId, now: int, c: Core, c': Core)
    requires s in c.schedules && Expired(c.schedules[s], now)
    requires c.schedules[s].overlap.Allow? ==> c.overlapped + {s} == c.overlapped
    requires QueueCancelled(s, WithSchedule(c, s, Patched(c.schedules[s], Patch(Some(false), None, None, None), now)),
                            c')
    ensures TriggerOutcome(s, 0, Denied, 0, None, now, c, c')
  {
    var schedule := c.schedules[s].(enabled := false, nextRunAt := None);
    assert Patched(c.schedules[s], Patch(Some(false), None, None, None), now) == schedule;
    assert c.(schedules := c'.schedules) == WithSchedule(c, s, schedule);
  }

  // ---------------------------------------------------------------------
  // Verdicts on live runs
  // ---------------------------------------------------------------------

  /** What an event, a timer or a caller decides about a live run. */
  datatype Verdict = Ends(status: Status) | Fails

  ghost predicate FailOutcome(id: RunId, k: nat, c: Core, c': Core)
    requires id in c.runtimes
  {
    if c.runtimes[id].attempt < c.runtimes[id].maxAttempts then
      && k == 0 && MovedOn(id, c, c')
      && c'.runtimes[id] == c.runtimes[id].(status := Pending, phase := RetryWait, sessionId := None,
                                            workflowId := None)
    else EndedAndDrained(id, Failed, k, c, c')
  }

  ghost predicate Concluded(id: RunId, verdict: Verdict, k: nat, c: Core, c': Core)
    requires id in c.runtimes
  {
    if !Owned(c, id) then k == 0 && c' == Dropped(c, id)
    else match verdict
      case Ends(status) => EndedAndDrained(id, status, k, c, c')
      case Fails => FailOutcome(id, k, c, c')
  }

  /** A verdict seen from before the lease was renewed. */
  lemma ConcludedFromRenewed(id: RunId, verdict: Verdict, k: nat, c: Core, now: int, c': Core)
    requires Owned(c, id) && Concluded(id, verdict, k, Renewed(c, id, now), c')
    ensures Concluded(id, verdict, k, c, c')
  {
    hide EndedAndDrained, FailOutcome;
    match verdict {
      case Ends(status) => EndingsAgree(id, status, k, c, Renewed(c, id, now), c');
      case Fails => FailedFromRenewed(id, k, c, now, c');
    }
  }

  lemma FailedFromRenewed(id: RunId, k: nat, c: Core, now: int, c': Core)
    requires Owned(c, id) && FailOutcome(id, k, Renewed(c, id, now), c')
    ensures FailOutcome(id, k, c, c')
  {
    hide EndedAndDrained;
    if c.runtimes[id].attempt >= c.runtimes[id].maxAttempts {
      EndingsAgree(id, Failed, k, c, Renewed(c, id, now), c');
    } else {
      assert c'.rows == c.rows[id := c'.rows[id]];
    }
  }

  /** A begun run is never waiting in a queue. */
  lemma BegunIsActive(c: Core, id: RunId)
    requires InvOf(c, {}) && id in c.runtimes && id in c.begun
    ensures IsActive(c.runtimes[id])
  {
    HeldIn(c, {}, id);
  }

  lemma MappedIsBegun(c: Core, x: ExecutionId)
    requires InvOf(c, {})
    ensures x in c.sessionToRun ==> c.sessionToRun[x] in c.begun
    ensures x in c.workflowToRun ==> c.workflowToRun[x] in c.begun
  {
  }

  /** Execution `x` is attributed to run `id`. */
  function Attributed(c: Core, x: ExecutionId, id: RunId, workflow: bool): Core
    requires id in c.runtimes
  {
    if workflow then
      c.(runtimes := c.runtimes[id := c.runtimes[id].(workflowId := Some(x))],
         workflowToRun := c.workflowToRun[x := id], begun := c.begun + {id})
    else
      c.(runtimes := c.runtimes[id := c.runtimes[id].(sessionId := Some(x))],
         sessionToRun := c.sessionToRun[x := id], begun := c.begun + {id})
  }

  lemma AttributedKeepsInv(c: Core, x: ExecutionId, id: RunId, workflow: bool)
    requires InvOf(c, {}) && id in c.runtimes && IsActive(c.runtimes[id])
    ensures InvOf(Attributed(c, x, id, workflow), {})
    ensures Owned(Attributed(c, x, id, workflow), id) <==> Owned(c, id)
  {
    var rt := if workflow then c.runtimes[id].(workflowId := Some(x)) else c.runtimes[id].(sessionId := Some(x));
    var c1 := c.(runtimes := c.runtimes[id := rt]);
    RelabelKeepsQueues(c.runtimes, c.queues, id, rt);
    BegunKeepsInv(c1, id);
    ExecutionKeepsInv(c1.(begun := c1.begun + {id}), x, id, workflow);
    hide QueueExact, Fifo, StoreInv;
  }

  lemma AttributedStaysBusy(c: Core, x: ExecutionId, id: RunId, workflow: bool)
    requires id in c.runtimes
    ensures BusyBut(c, {}) ==> BusyBut(Attributed(c, x, id, workflow), {})
  {
    if BusyBut(c, {}) {
      var rt := if workflow then c.runtimes[id].(workflowId := Some(x)) else c.runtimes[id].(sessionId := Some(x));
      RelabelStaysBusy(c, id, rt);
      BusyIsLocal(c.(runtimes := c.runtimes[id := rt]), Attributed(c, x, id, workflow), {});
      hide BusyBut;
    }
  }

  lemma RelabelKeepsQueues(rts: Runtimes, queues: Queues, id: RunId, rt: Runtime)
    requires QueueExact(rts, queues, {}) && id in rts && rt.scheduleId == rts[id].scheduleId
    requires rt.phase.Queued? <==> rts[id].phase.Queued?
    ensures QueueExact(rts[id := rt], queues, {})
  {
    forall t, x ensures x in QueueOf(queues, t) <==> Waits(rts[id := rt], t, x, {}) {
      assert x in QueueOf(queues, t) <==> Waits(rts, t, x, {});
    }
  }

  lemma RelabelStaysBusy(c: Core, id: RunId, rt: Runtime)
    requires BusyBut(c, {}) && id in c.runtimes && rt.scheduleId == c.runtimes[id].scheduleId
    requires IsActive(c.runtimes[id]) ==> IsActive(rt)
    ensures BusyBut(c.(runtimes := c.runtimes[id := rt]), {})
  {
    var c' := c.(runtimes := c.runtimes[id := rt]);
    forall t | QueueOf(c'.queues, t) != [] && t !in c'.starved ensures Active(c'.runtimes, t) {
      assert Active(c.runtimes, t);
      var other :| other in c.runtimes && c.runtimes[other].scheduleId == t && IsActive(c.runtimes[other]);
      assert other in c'.runtimes && c'.runtimes[other].scheduleId == t && IsActive(c'.runtimes[other]);
    }
  }

  /** The run counts as running; its row follows only if it is still owned. */
  function Executed(c: Core, id: RunId, now: int): Core
    requires id in c.runtimes
  {
    var rt := c.runtimes[id].(phase := Executing, status := Running);
    if Owned(c, id) then Moved(c, id, rt, now) else c.(runtimes := c.runtimes[id := rt])
  }

  lemma ExecutedKeepsInv(c: Core, id: RunId, now: int, notes: seq<Note>, notes': seq<Note>)
    requires InvOf(c, {}) && id in c.runtimes && IsActive(c.runtimes[id])
    requires notes' == notes || notes' == notes + [RunStarted(id)]
    ensures InvOf(Executed(c, id, now), {})
    ensures Told(c.me, now, false, c.rows, notes, Executed(c, id, now).rows, notes')
    ensures Owned(c, id) ==> MovedOn(id, c, Executed(c, id, now))
  {
    hide InvOf, Guarantee, Told;
    HeldIn(c, {}, id);
    var rt := c.runtimes[id].(phase := Executing, status := Running);
    if Owned(c, id) {
      MovedKeepsInv(c, id, rt, now, {}, {});
      MovedIsLegal(c, id, rt, now, notes, notes');
    } else {
      UnwrittenKeepsInv(c, id, rt);
      OnlyStarted(c.me, now, c.rows, notes, notes', id);
    }
  }

  lemma ExecutedStaysBusy(c: Core, id: RunId, now: int)
    requires BusyBut(c, {}) && id in c.runtimes && IsActive(c.runtimes[id])
    ensures BusyBut(Executed(c, id, now), {})
  {
    var rt := c.runtimes[id].(phase := Executing, status := Running);
    RelabelStaysBusy(c, id, rt);
    BusyIsLocal(c.(runtimes := c.runtimes[id := rt]), Executed(c, id, now), {});
  }

  lemma UnwrittenKeepsInv(c: Core, id: RunId, rt: Runtime)
    requires InvOf(c, {}) && id in c.runtimes && !Owned(c, id) && IsActive(c.runtimes[id])
             && MayMove(c.runtimes[id], rt)
    ensures InvOf(c.(runtimes := c.runtimes[id := rt]), {})
  {
    RelabelKeepsQueues(c.runtimes, c.queues, id, rt);
    hide QueueExact, Fifo, StoreInv;
  }

  lemma OnlyStarted(me: OwnerId, now: int, rows: Rows, notes: seq<Note>, notes': seq<Note>, id: RunId)
    requires notes' == notes || notes' == notes + [RunStarted(id)]
    ensures Told(me, now, false, rows, notes, rows, notes')
  {
    assert notes' != notes ==> notes'[..|notes|] == notes;
  }

  // ---------------------------------------------------------------------
  // Teardown
  // ---------------------------------------------------------------------

  /** `retireRuntime`: the run leaves memory; its row is released unfinished or finished. */
  function Retired(c: Core, id: RunId): Core
    requires id in c.runtimes
  {
    Dropped(c, id).(rows := if Owned(c, id) then c.rows[id := RetiredRow(c.runtimes[id], c.rows[id])] else c.rows,
                    excused := if Owned(c, id) && FailsOnTeardown(c.runtimes[id]) then c.excused + {id} else c.excused)
  }

  lemma RetiredKeepsValid(c: Core, id: RunId, now: int, notes: seq<Note>)
    requires ValidCore(c) && id in c.runtimes
    ensures ValidCore(Retired(c, id))
    ensures Guarantee(c.me, now, c.rows, notes, Retired(c, id).rows, notes)
  {
    HeldIn(c, {}, id);
    BusyWeakens(c, {}, c.runtimes[id].scheduleId);
    DroppedKeepsValid(c, id, {}, {});
    RetiredKeepsStore(c, id);
    BusyIsLocal(Dropped(c, id), Retired(c, id), {});
    hide QueueExact, Fifo, OnePerSchedule, AttemptsBounded, BusyBut, StoreInv, RemovedFrom;
  }

  lemma RetiredKeepsStore(c: Core, id: RunId)
    requires InvOf(c, {}) && id in c.runtimes
    ensures StoreInv(Retired(c, id).rows, c.schedules, c.overlapped, Retired(c, id).excused)
  {
    HeldIn(c, {}, id);
    hide QueueExact, Fifo, OnePerSchedule, RemovedFrom;
  }

  function Undispatched(rts: Runtimes): set<RunId> {
    set id | id in rts && rts[id].dispatch.None?
  }

  function SchedulesOf(rts: Runtimes, runs: set<RunId>): set<ScheduleId> {
    set id | id in runs && id in rts :: rts[id].scheduleId
  }

  /** Runs that teardown ends although they may have attempts left. */
  function FailedOnTeardown(c: Core, gone: set<RunId>): set<RunId> {
    set id | id in gone && Owned(c, id) && FailsOnTeardown(c.runtimes[id])
  }

  /** All runs in `gone` were retired; nothing else changed. */
  ghost predicate AllRetired(gone: set<RunId>, c: Core, c': Core) {
    && c'.me == c.me && c'.schedules == c.schedules && c'.ticket == c.ticket
    && c'.overlapped == c.overlapped && c'.excused == c.excused + FailedOnTeardown(c, gone)
    && c'.starved == c.starved + SchedulesOf(c.runtimes, gone)
    && c'.runtimes == c.runtimes - gone
    && c'.rows.Keys == c.rows.Keys
    && (forall id | id in c.rows ::
          c'.rows[id] == if id in gone && Owned(c, id) then RetiredRow(c.runtimes[id], c.rows[id]) else c.rows[id])
  }

  lemma NothingRetired(c: Core)
    ensures AllRetired({}, c, c)
  {
    assert c.runtimes - {} == c.runtimes;
  }

  lemma OneMoreRetired(gone: set<RunId>, id: RunId, c: Core, c1: Core)
    requires AllRetired(gone, c, c1) && id in c1.runtimes && id in c.rows
    ensures AllRetired(gone + {id}, c, Retired(c1, id))
  {
    hide RemovedFrom, RetiredRow;
    assert Owned(c1, id) == Owned(c, id) && c1.runtimes[id] == c.runtimes[id];
    assert SchedulesOf(c.runtimes, gone + {id}) == SchedulesOf(c.runtimes, gone) + {c.runtimes[id].scheduleId};
    assert FailedOnTeardown(c, gone + {id}) == FailedOnTeardown(c, gone)
           + (if Owned(c, id) && FailsOnTeardown(c.runtimes[id]) then {id} else {});
    hide SchedulesOf, FailedOnTeardown, Owned;
    assert c1.runtimes - {id} == c.runtimes - (gone + {id});
  }

  // ---------------------------------------------------------------------
  // Events
  // ---------------------------------------------------------------------

  /** What the scheduler distinguishes among a session's events. */
  datatype StreamEvent = Message | ResultOk | ResultFailed | StreamError

  /** The effect of `assertRunOwner` alone. */
  function Rechecked(c: Core, id: RunId, now: int): Core
    requires id in c.runtimes
  {
    if Owned(c, id) then Renewed(c, id, now) else Dropped(c, id)
  }

  datatype WorkflowEvent = WorkflowCompleted | WorkflowFailed | WorkflowTimeout | WorkflowCancelled | WorkflowOther

  function VerdictOf(event: WorkflowEvent): Option<Verdict> {
    match event
    case WorkflowCompleted => Some(Ends(Success))
    case WorkflowFailed => Some(Fails)
    case WorkflowTimeout => Some(Ends(Timeout))
    case WorkflowCancelled => Some(Ends(Cancelled))
    case WorkflowOther => None
  }

  /** The run an event of workflow `x` belongs to: by its mapping, or else by the
      run id in its metadata while that run's launch has not returned yet. */
  function RunOfWorkflow(rts: Runtimes, workflowToRun: map<ExecutionId, RunId>, x: ExecutionId,
                         runId: Option<RunId>): Option<RunId> {
    if x in workflowToRun && workflowToRun[x] in rts then Some(workflowToRun[x])
    else if runId.Some? && runId.value in rts && rts[runId.value].phase.Launching?
        && rts[runId.value].workflowId.None? then runId
    else None
  }

  /** The first event of a workflow attributes it to its run. */
  function Correlated(c: Core, x: ExecutionId, id: RunId): Core
    requires id in c.runtimes
  {
    if c.runtimes[id].workflowId.None? then Attributed(c, x, id, true) else c
  }

  /** A workflow event took its effect on run `id`. */
  ghost predicate Settled(id: RunId, x: ExecutionId, event: WorkflowEvent, k: nat, c: Core, c': Core)
    requires id in c.runtimes
  {
    if VerdictOf(event).None? then c' == Correlated(c, x, id)
    else Concluded(id, VerdictOf(event).value, k, Correlated(c, x, id), c')
  }

  datatype Resolution = NotFound | Mismatch | Conflict | AlreadyResolved | NotReady | NotHandedOff | Resolved

  /** What `resolve` answers from the stored row alone. */
  function StoredAnswer(rows: Rows, id: RunId, dispatch: Dispatch, status: Status, sameText: bool): Option<Resolution> {
    if id !in rows then Some(NotFound)
    else if rows[id].dispatch != Some(dispatch) then Some(Mismatch)
    else if Terminal(rows[id].status) then
      Some(if rows[id].status == status && sameText then AlreadyResolved else Conflict)
    else None
  }

  /** What `resolve` answers for an unfinished run. */
  function LiveAnswer(c: Core, id: RunId, status: Status): Resolution {
    if !Owned(c, id) then NotReady
    else if c.runtimes[id].phase.Queued? && !status.Cancelled? && !status.Skipped? then NotHandedOff
    else Resolved
  }

  /** A controller's verdict may fail a run before its last attempt. */
  function Excused(c: Core, id: RunId, status: Status): Core {
    c.(excused := if status.Failed? then c.excused + {id} else c.excused)
  }

  ghost predicate ResolvedTo(r: Resolution, id: RunId, status: Status, now: int, k: nat, c: Core, c': Core) {
    if r.Resolved? then
      id in c.runtimes && Concluded(id, Ends(status), k, Excused(c, id, status), c')
    else if id in c.runtimes then c' == Rechecked(c, id, now)
    else c' == c
  }

  lemma NotResolved(r: Resolution, id: RunId, status: Status, now: int, k: nat, c: Core, c': Core)
    requires !r.Resolved? && c' == if id in c.runtimes then Rechecked(c, id, now) else c
    ensures ResolvedTo(r, id, status, now, k, c, c')
  {
  }

  lemma ResolvedFromRenewed(id: RunId, status: Status, now: int, k: nat, c: Core, c': Core)
    requires Owned(c, id) && Concluded(id, Ends(status), k, Excused(Renewed(c, id, now), id, status), c')
    ensures ResolvedTo(Resolved, id, status, now, k, c, c')
  {
    ConcludedFromRenewed(id, Ends(status), k, Excused(c, id, status), now, c');
    hide Concluded;
  }

  lemma RecheckTells(c: Core, id: RunId, now: int)
    requires id in c.runtimes
    ensures id in Rechecked(c, id, now).runtimes <==> Owned(c, id)
  {
  }

  lemma TargetIsActive(c: Core, x: ExecutionId, runId: Option<RunId>)
    requires InvOf(c, {}) && RunOfWorkflow(c.runtimes, c.workflowToRun, x, runId).Some?
    ensures IsActive(c.runtimes[RunOfWorkflow(c.runtimes, c.workflowToRun, x, runId).value])
  {
    MappedIsBegun(c, x);
    var id := RunOfWorkflow(c.runtimes, c.workflowToRun, x, runId).value;
    HeldIn(c, {}, id);
  }

  lemma ExcusedKeepsValid(c: Core, id: RunId)
    requires ValidCore(c)
    ensures ValidCore(c.(excused := c.excused + {id}))
  {
    BusyIsLocal(c, c.(excused := c.excused + {id}), {});
    hide QueueExact, Fifo, OnePerSchedule, AttemptsBounded, Held, BusyBut;
  }

  /** Some leases were renewed and some lost runs dropped; nothing else changed. */
  ghost predicate LeasesRenewed(todo: set<RunId>, c: Core, c': Core) {
    && SameConfig(c, c') && c'.begun == c.begun
    && c'.runtimes.Keys <= c.runtimes.Keys && c'.rows.Keys == c.rows.Keys
    && (forall id | id in c.runtimes ::
          if id in todo || Owned(c, id) then id in c'.runtimes && c'.runtimes[id] == c.runtimes[id]
              else id !in c'.runtimes)
    && (forall id | id in c.rows ::
          && c'.rows[id] == c.rows[id].(lease := c'.rows[id].lease)
          && (id in todo || !Owned(c, id) ==> c'.rows[id] == c.rows[id]))
  }

  /** Every live run's row is still this engine's. */
  ghost predicate LeasesHeld(c: Core) {
    forall id | id in c.runtimes :: Owned(c, id)
  }

  lemma NothingRenewed(c: Core)
    ensures LeasesRenewed(c.runtimes.Keys, c, c)
  {
    hide Owned;
  }

  lemma AllRenewed(c: Core, c': Core)
    requires LeasesRenewed({}, c, c') && InvOf(c, {})
    ensures c'.runtimes.Keys == (set id | id in c.runtimes && Owned(c, id)) && LeasesHeld(c')
  {
    assert forall id | id in c.runtimes :: id in c.rows;
    hide InvOf;
    forall id | id in c'.runtimes ensures Owned(c', id) {
      assert c'.rows[id] == c.rows[id].(lease := c'.rows[id].lease);
    }
    hide Owned, Mirrors;
  }

  lemma OneMoreRenewed(todo: set<RunId>, id: RunId, now: int, c: Core, c1: Core)
    requires LeasesRenewed(todo, c, c1) && c1.me == c.me && id in todo && id in c.runtimes && id in c.rows
    ensures id in c1.runtimes
    ensures LeasesRenewed(todo - {id}, c, Rechecked(c1, id, now))
  {
    assert Owned(c1, id) <==> Owned(c, id);
    hide RemovedFrom;
  }

  /** With every run retired, clearing the tables changes nothing that matters. */
  lemma ClearedKeepsValid(c: Core, c1: Core)
    requires ValidCore(c1) && AllRetired(c.runtimes.Keys, c, c1)
    ensures var c' := c1.(runtimes := map[], queues := map[], sessionToRun := map[], workflowToRun := map[]);
            ValidCore(c') && AllRetired(c.runtimes.Keys, c, c')
  {
    assert c.runtimes - c.runtimes.Keys == map[];
  }

  // ---------------------------------------------------------------------
  // The clock
  // ---------------------------------------------------------------------

  /** A timer may fire this early. */
  const EARLY_MS := 1000

  datatype CronOutcome = Idle | Early | NoSuccessor | Aborted | Fired(admission: Admission)

  /** Whether the schedule's occurrences are owed one by one. */
  predicate Live(schedule: Schedule, processDownCatchUp: bool) {
    schedule.target.DispatchTarget? && !processDownCatchUp
  }

  /** The occurrence after the one that fires. */
  ghost function Successor(schedule: Schedule, processDownCatchUp: bool, now: int): Option<int>
    requires schedule.trigger.CronTrigger?
  {
    NextFire(schedule.trigger.cron, schedule.trigger.offset,
             if Live(schedule, processDownCatchUp) && schedule.nextRunAt.Some? then schedule.nextRunAt.value else now)
  }

  predicate Armed(c: Core, s: ScheduleId, running: bool, dispatchOnly: bool) {
    && running && s in c.schedules && c.schedules[s].enabled && c.schedules[s].trigger.CronTrigger?
    && (dispatchOnly ==> c.schedules[s].target.DispatchTarget?)
  }

  /** One occurrence turned into exactly one outcome: a row skipped, queued or
      launched, or a policy denial. The cursor moves with it, unless the schedule
      was disabled by the denial. */
  ghost predicate Accepted(s: ScheduleId, id: RunId, r: Admission, k: nat, next: int, now: int, c: Core, c': Core)
    requires s in c.schedules
  {
    && !r.Unavailable?
    && ((r.Denied? && c' == c.(schedules := CursorMoved(c.schedules, s, Some(next))))
        || ((r.Denied? ==> Expired(c.schedules[s], now)) && TriggerOutcome(s, id, r, k, Some(next), now, c, c')))
    && s in c'.schedules
    && (c'.schedules[s] == c.schedules[s].(nextRunAt := Some(next)) || !c'.schedules[s].enabled)
  }

  ghost predicate CronRoundOutcome(s: ScheduleId, id: RunId, processDownCatchUp: bool, running: bool,
                                   dispatchOnly: bool, r: CronOutcome, k: nat, now: int, c: Core, c': Core)
  {
    if !Armed(c, s, running, dispatchOnly) then r.Idle? && c' == c
    else
      var schedule := c.schedules[s];
      if schedule.nextRunAt.Some? && schedule.nextRunAt.value - now > EARLY_MS then r.Early? && c' == c
      else
        var next := Successor(schedule, processDownCatchUp, now);
        if next.None? then r.NoSuccessor? && c' == c
        else (r.Aborted? && c' == c) || (r.Fired? && Accepted(s, id, r.admission, k, next.value, now, c, c'))
  }

  lemma UnavailableIsNothing(s: ScheduleId, id: RunId, k: nat, next: int, now: int, c: Core, c': Core)
    requires s in c.schedules && TriggerOutcome(s, id, Unavailable, k, Some(next), now, c, c')
    ensures c' == c
  {
  }

  lemma FiredOutcome(s: ScheduleId, id: RunId, r: Admission, k: nat, next: int, now: int, c: Core, c1: Core, c': Core)
    requires s in c.schedules && c.schedules[s].enabled && !r.Unavailable?
    requires TriggerOutcome(s, id, r, k, Some(next), now, c, c1)
    requires c' == if r.Denied? && s in c1.schedules && c1.schedules[s].enabled
                   then c1.(schedules := CursorMoved(c1.schedules, s, Some(next))) else c1
    ensures Accepted(s, id, r, k, next, now, c, c')
  {
    hide QueueCancelled, Drained, RemovedFrom;
  }

  lemma OnlyScheduleChanged(me: OwnerId, now: int, rows: Rows, notes: seq<Note>, notes': seq<Note>, s: ScheduleId)
    requires notes' == notes || notes' == notes + [ScheduleChanged(s)]
    ensures Guarantee(me, now, rows, notes, rows, notes')
  {
    assert notes' != notes ==> notes'[..|notes|] == notes;
  }

  lemma OverlapKnown(c: Core, s: ScheduleId)
    requires ValidCore(c) && s in c.schedules
    ensures c.schedules[s].overlap.Allow? ==> c.overlapped + {s} == c.overlapped
  {
  }

  datatype Firing = Firing(at: int, id: RunId, admission: Admission)

  /** How the loop of `onCronFire` ends: caught up with now, not accepted by the
      store, without a next occurrence, or with the schedule gone or disabled. */
  datatype CronEnd =
    | CaughtUp(cursor: int) | NotAccepted(cursor: int) | Unfollowed(cursor: int) | SwitchedOff(cursor: int)

  function FollowedBy(fired: seq<Firing>, i: nat, next: int): int {
    if i + 1 < |fired| then fired[i + 1].at else next
  }

  /** Each firing is followed by the next occurrence of the cron expression. */
  ghost predicate Consecutive(cron: ParsedCron, offset: int, fired: seq<Firing>, next: int) {
    forall i | 0 <= i < |fired| :: NextFire(cron, offset, fired[i].at) == Some(FollowedBy(fired, i, next))
  }

  /** Round by round, the occurrence under the cursor was accepted and the cursor moved
      to the next one. */
  ghost predicate Rounds(s: ScheduleId, now: int, fired: seq<Firing>, next: int, states: seq<Core>, ks: seq<nat>) {
    && |states| == |fired| + 1 && |ks| == |fired|
    && forall i | 0 <= i < |fired| ::
         && s in states[i].schedules && states[i].schedules[s].nextRunAt == Some(fired[i].at)
         && Accepted(s, fired[i].id, fired[i].admission, ks[i], FollowedBy(fired, i, next), now, states[i],
                     states[i + 1])
  }

  ghost predicate CronProgress(schedule: Schedule, fired: seq<Firing>, cursor: int, now: int) {
    && schedule.trigger.CronTrigger? && schedule.nextRunAt.Some?
    && Consecutive(schedule.trigger.cron, schedule.trigger.offset, fired, cursor)
    && (if fired == [] then cursor == schedule.nextRunAt.value
        else fired[0].at == schedule.nextRunAt.value && cursor <= now)
    && (forall i | 0 <= i < |fired| :: fired[i].at <= now + EARLY_MS && !fired[i].admission.Unavailable?)
  }

  /** What the loop has done when it ends. */
  ghost predicate CronDone(schedule: Schedule, fired: seq<Firing>, end: CronEnd, now: int) {
    && schedule.trigger.CronTrigger? && schedule.nextRunAt.Some?
    && (fired != [] ==> fired[0].at == schedule.nextRunAt.value)
    && (forall i | 0 <= i < |fired| :: fired[i].at <= now + EARLY_MS && !fired[i].admission.Unavailable?)
    && (match end
        case CaughtUp(next) =>
          && (if fired == [] then next == schedule.nextRunAt.value && next > now + EARLY_MS else next > now)
          && Consecutive(schedule.trigger.cron, schedule.trigger.offset, fired, next)
        case NotAccepted(at) =>
          && (fired == [] ==> at == schedule.nextRunAt.value)
          && Consecutive(schedule.trigger.cron, schedule.trigger.offset, fired, at)
        case Unfollowed(at) =>
          && (fired == [] ==> at == schedule.nextRunAt.value)
          && Consecutive(schedule.trigger.cron, schedule.trigger.offset, fired, at)
          && NextFire(schedule.trigger.cron, schedule.trigger.offset, at).None?
        case SwitchedOff(next) =>
          fired != [] && Consecutive(schedule.trigger.cron, schedule.trigger.offset, fired, next))
  }

  lemma FiredMovesOn(schedule: Schedule, fired: seq<Firing>, id: RunId, r: Admission, cursor: int, next: int, now: int)
    requires CronProgress(schedule, fired, cursor, now) && cursor <= now + EARLY_MS && !r.Unavailable?
    requires NextFire(schedule.trigger.cron, schedule.trigger.offset, cursor) == Some(next)
    ensures var fired' := fired + [Firing(cursor, id, r)];
            && Consecutive(schedule.trigger.cron, schedule.trigger.offset, fired', next)
            && (next <= now ==> CronProgress(schedule, fired', next, now))
            && fired'[0].at == schedule.nextRunAt.value
            && (forall i | 0 <= i < |fired'| :: fired'[i].at <= now + EARLY_MS && !fired'[i].admission.Unavailable?)
    ensures next > cursor
  {
    NextFireIsLeast(schedule.trigger.cron, schedule.trigger.offset, cursor);
    ConsecutiveExtends(schedule.trigger.cron, schedule.trigger.offset, fired, Firing(cursor, id, r), next);
    hide NextFire, Consecutive;
  }

  lemma ConsecutiveExtends(cron: ParsedCron, offset: int, fired: seq<Firing>, f: Firing, next: int)
    requires Consecutive(cron, offset, fired, f.at) && NextFire(cron, offset, f.at) == Some(next)
    ensures Consecutive(cron, offset, fired + [f], next)
  {
    var fired' := fired + [f];
    forall i | 0 <= i < |fired'| ensures NextFire(cron, offset, fired'[i].at) == Some(FollowedBy(fired', i, next)) {
      if i < |fired| {
        assert fired'[i] == fired[i] && FollowedBy(fired', i, next) == FollowedBy(fired, i, f.at);
      }
    }
  }

  lemma NothingFired(s: ScheduleId, now: int, cron: ParsedCron, offset: int, cursor: int, c: Core)
    ensures Rounds(s, now, [], cursor, [c], []) && Consecutive(cron, offset, [], cursor)
  {
  }

  /** What a round tells about the cursor of a live schedule. */
  lemma CronRoundTells(s: ScheduleId, id: RunId, dispatchOnly: bool, r: CronOutcome, k: nat, now: int,
                       schedule: Schedule, cursor: int, c: Core, c': Core) returns (next: int)
    requires CronRoundOutcome(s, id, false, true, dispatchOnly, r, k, now, c, c')
    requires Armed(c, s, true, dispatchOnly) && Live(schedule, false)
    requires c.schedules[s] == schedule.(nextRunAt := Some(cursor))
    ensures !r.Idle?
    ensures !r.Fired? ==> c' == c
    ensures r.Early? <==> cursor > now + EARLY_MS
    ensures r.NoSuccessor? ==> NextFire(schedule.trigger.cron, schedule.trigger.offset, cursor).None?
    ensures r.Fired? ==>
              && NextFire(schedule.trigger.cron, schedule.trigger.offset, cursor) == Some(next)
              && Accepted(s, id, r.admission, k, next, now, c, c') && !r.admission.Unavailable?
              && s in c'.schedules
              && (c'.schedules[s] == schedule.(nextRunAt := Some(next)) || !c'.schedules[s].enabled)
  {
    next := Successor(c.schedules[s], false, now).GetOr(0);
    hide NextFire;
    if r.Fired? { AcceptedCursor(s, id, r.admission, k, next, now, c, c'); }
    hide Accepted;
  }

  lemma RoundsExtend(s: ScheduleId, now: int, fired: seq<Firing>, states: seq<Core>, ks: seq<nat>,
                     f: Firing, k: nat, next: int, c': Core)
    requires Rounds(s, now, fired, f.at, states, ks) && s in states[|fired|].schedules
    requires states[|fired|].schedules[s].nextRunAt == Some(f.at)
    requires Accepted(s, f.id, f.admission, k, next, now, states[|fired|], c')
    ensures Rounds(s, now, fired + [f], next, states + [c'], ks + [k])
  {
    hide Accepted;
    var fired' := fired + [f];
    assert forall i | 0 <= i < |fired| :: FollowedBy(fired', i, next) == FollowedBy(fired, i, f.at);
  }

  /** An accepted occurrence that is not denied leaves its run's row behind. */
  lemma FiringHasRow(s: ScheduleId, id: RunId, r: Admission, k: nat, next: int, now: int, c: Core, c': Core)
    requires s in c.schedules && Accepted(s, id, r, k, next, now, c, c') && !r.Denied?
    ensures id in c'.rows && c'.rows[id].schedule == s
  {
    hide Drained, RemovedFrom, Stays;
  }

  lemma AcceptedCursor(s: ScheduleId, id: RunId, r: Admission, k: nat, next: int, now: int, c: Core, c': Core)
    requires s in c.schedules && Accepted(s, id, r, k, next, now, c, c')
    ensures !r.Unavailable? && s in c'.schedules
    ensures c'.schedules[s] == c.schedules[s].(nextRunAt := Some(next)) || !c'.schedules[s].enabled
  {
  }
}
