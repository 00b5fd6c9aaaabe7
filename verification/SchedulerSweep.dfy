/** The values behind `reconcileOrphanedRuns`: what becomes of one listed row and
    of a whole listing, and which runs are claimed again after they finished. */
module SchedulerSweep {
  import opened Wrappers
  import opened RunStore
  import opened Fencing
  import opened SchedulerState

  /** What the workflow engine knows of an orphaned run's workflow. */
  datatype Recovery =
    | NoWorkflow | LiveWorkflow(x: ExecutionId) | EndedWorkflow(status: Status) | FailedWorkflow(x: ExecutionId)

  type Recoveries = map<RunId, Recovery>

  /** A workflow that ended otherwise than failed did so with one of these. */
  ghost predicate Genuine(recoveries: Recoveries) {
    forall id | id in recoveries && recoveries[id].EndedWorkflow? ::
        recoveries[id].status in {Success, Timeout, Cancelled}
  }

  function RecoveryOf(recoveries: Recoveries, id: RunId): Recovery {
    if id in recoveries then recoveries[id] else NoWorkflow
  }

  // ---------------------------------------------------------------------
  // One listed row
  // ---------------------------------------------------------------------

  function ClaimedEpoch(row: Row, me: OwnerId): nat {
    if row.owner == Some(me) then row.epoch else row.epoch + 1
  }

  /** `baseRuntime`: all but the epoch is taken from the listed row. */
  function AdoptedRuntime(listed: Row, epoch: nat, phase: Phase, status: Status): Runtime {
    Runtime(listed.schedule, status, phase, listed.attempt, listed.maxAttempts, epoch, None, None, listed.dispatch)
  }

  /** A listed run claimed and adopted. */
  function Adopted(c: Core, id: RunId, listed: Row, phase: Phase, status: Status, now: int): Core
    requires id in c.rows
  {
    var rt := AdoptedRuntime(listed, ClaimedEpoch(c.rows[id], c.me), phase, status);
    c.(runtimes := c.runtimes[id := rt], rows := c.rows[id := Record(c.me, rt, now)],
       overlapped := if !phase.Queued? && Active(c.runtimes, rt.scheduleId) then c.overlapped + {rt.scheduleId}
                     else c.overlapped)
  }

  /** The row of a listed run that is finished without being adopted. */
  function FinishedOrphan(listed: Row, epoch: nat, status: Status): Row {
    listed.(status := status, phase := Some(Executing), owner := None, epoch := epoch + 1, lease := 0)
  }

  function OrphanEnded(c: Core, id: RunId, listed: Row, status: Status): Core
    requires id in c.rows
  {
    c.(rows := c.rows[id := FinishedOrphan(listed, ClaimedEpoch(c.rows[id], c.me), status)],
       excused := if status.Failed? then c.excused + {id} else c.excused)
  }

  /** A run whose non-durable execution was lost with its process. */
  function LostStatus(listed: Row): Status {
    if listed.status.Running? then Failed else Cancelled
  }

  /** Neither the claim nor the loop around it looks at the current status. */
  predicate Claims(c: Core, id: RunId, now: int) {
    id in c.rows && id !in c.runtimes && Claimable(c.rows[id], c.me, now)
  }

  predicate Taken(c: Core, id: RunId, listed: Row, dispatchOnly: bool, now: int) {
    Claims(c, id, now) && (dispatchOnly ==> listed.dispatch.Some?)
  }

  /** What is known of a listed run that is not in memory when its turn comes: its row
      is as it was listed, or has been finished and released since. */
  predicate Lists(c: Core, id: RunId, listed: Row) {
    && id in c.rows && !Terminal(listed.status) && RowBounded(listed)
    && c.rows[id].schedule == listed.schedule && c.rows[id].dispatch == listed.dispatch
    && (if Terminal(c.rows[id].status) then c.rows[id].owner == None
       && (listed.phase == Some(Queued) ==> id !in c.begun)
        else c.rows[id] == listed)
  }

  predicate MayAdopt(listed: Row, phase: Phase, status: Status) {
    && !Terminal(status)
    && (phase.Queued? || phase.RetryWait? ==> listed.phase == Some(phase))
  }

  lemma AdoptedKeepsInv(c: Core, id: RunId, listed: Row, phase: Phase, status: Status, now: int)
    requires InvOf(c, {}) && Claims(c, id, now) && Lists(c, id, listed) && MayAdopt(listed, phase, status)
    ensures var c' := Adopted(c, id, listed, phase, status, now);
            InvOf(c', if phase.Queued? then {id} else {}) && Owned(c', id)
  {
    var c' := Adopted(c, id, listed, phase, status, now);
    AdmittedKeepsQueues(c.runtimes, c.queues, id, c'.runtimes[id]);
    AdmittedKeepsOne(c.runtimes, c'.overlapped, id, c'.runtimes[id]);
    hide QueueExact, Fifo, OnePerSchedule;
  }

  lemma OrphanEndedKeepsInv(c: Core, id: RunId, listed: Row, status: Status, now: int)
    requires InvOf(c, {}) && Claims(c, id, now) && Lists(c, id, listed) && Terminal(status)
    ensures InvOf(OrphanEnded(c, id, listed, status), {})
  {
    hide QueueExact, Fifo, OnePerSchedule, AttemptsBounded;
  }

  /** The steps of one claim: the first one is a claim of a finished run exactly if
      the run has finished since it was listed. */
  ghost predicate ClaimTrail(c: Core, id: RunId, listed: Row, trail: seq<Step>)
    requires id in c.rows
  {
    && trail != []
    && trail[0].again == (if Terminal(c.rows[id].status) then Some(Claim(id, listed)) else None)
    && (forall i | 0 < i < |trail| :: trail[i].again.None?)
  }

  lemma AdoptedRow(c: Core, id: RunId, listed: Row, phase: Phase, status: Status, now: int)
    requires id in c.rows && !Terminal(status)
    ensures Adopted(c, id, listed, phase, status, now).rows
            == c.rows[id := Recovered(listed, c.rows[id], c.me, now + LEASE_MS, status, phase)]
  {
  }

  lemma AdoptedTrail(c: Core, id: RunId, listed: Row, phase: Phase, status: Status, now: int, silent: bool,
                     notes: seq<Note>, notes': seq<Note>)
    returns (trail: seq<Step>)
    requires Claims(c, id, now) && Lists(c, id, listed) && MayAdopt(listed, phase, status)
    requires notes' == notes || notes' == notes + [RunStarted(id)]
    ensures Trailed(c.me, now, silent, c.rows, notes, trail, Adopted(c, id, listed, phase, status, now).rows, notes')
    ensures ClaimTrail(c, id, listed, trail)
  {
    var more := notes'[|notes|..];
    assert notes' == notes + more;
    assert more == [] || (more == [RunStarted(id)] && more[..0] == []);
    assert forall x :: FinishedCount(more, x) == 0;
    hide Trailed, FinishedCount, Adopted, Recovered, Claimable;
    AdoptedRow(c, id, listed, phase, status, now);
    trail := RecoveredTrail(c.me, now, silent, c.rows, notes, id, listed, now + LEASE_MS, status, phase, more);
  }

  lemma OrphanEndedRow(c: Core, id: RunId, listed: Row, status: Status)
    requires id in c.rows && Terminal(status)
    ensures OrphanEnded(c, id, listed, status).rows
            == c.rows[id := Recovered(listed, c.rows[id], c.me, 0, status, Executing)]
  {
  }

  lemma OrphanEndedTrail(c: Core, id: RunId, listed: Row, status: Status, now: int, silent: bool,
                         notes: seq<Note>, notes': seq<Note>)
    returns (trail: seq<Step>)
    requires Claims(c, id, now) && Lists(c, id, listed) && Terminal(status)
    requires notes' == if silent then notes else notes + [RunFinished(id, status)]
    ensures Trailed(c.me, now, silent, c.rows, notes, trail, OrphanEnded(c, id, listed, status).rows, notes')
    ensures ClaimTrail(c, id, listed, trail)
  {
    var more := if silent then [] else [RunFinished(id, status)];
    assert notes' == notes + more;
    forall x ensures FinishedCount(more, x) == if x == id && !silent then 1 else 0 { OneNote(id, status, x); }
    hide Trailed, FinishedCount, OrphanEnded, Recovered, Claimable;
    OrphanEndedRow(c, id, listed, status);
    trail := RecoveredTrail(c.me, now, silent, c.rows, notes, id, listed, 0, status, Executing, more);
  }

  lemma ClaimTrailExtends(c: Core, id: RunId, listed: Row, t0: seq<Step>, t1: seq<Step>)
    requires id in c.rows && ClaimTrail(c, id, listed, t0) && NoReclaim(t1)
    ensures ClaimTrail(c, id, listed, t0 + t1)
  {
    forall i | 0 < i < |t0 + t1| ensures (t0 + t1)[i].again.None? {
      if i >= |t0| { assert (t0 + t1)[i] == t1[i - |t0|]; }
    }
  }

  /** What `reconcileOrphanedRuns` makes of one listed row. */
  ghost predicate Reconciled(id: RunId, listed: Row, recovery: Recovery, dispatchOnly: bool, now: int, k: nat, c: Core,
                             c': Core)
  {
    if !Taken(c, id, listed, dispatchOnly, now) then c' == c
    else if listed.dispatch.Some? then
      if listed.phase == Some(Queued) then c' == Pushed(Adopted(c, id, listed, Queued, Pending, now), id)
      else c' == Adopted(c, id, listed, Executing, Running, now)
    else if listed.phase == Some(RetryWait) then c' == Adopted(c, id, listed, RetryWait, Pending, now)
    else match recovery
      case NoWorkflow => c' == OrphanEnded(c, id, listed, LostStatus(listed))
      case EndedWorkflow(status) => c' == OrphanEnded(c, id, listed, status)
      case LiveWorkflow(x) => c' == Attributed(Adopted(c, id, listed, Executing, Running, now), x, id, true)
      case FailedWorkflow(x) =>
        Concluded(id, Fails, k, Attributed(Adopted(c, id, listed, Executing, Running, now), x, id, true), c')
  }

  // ---------------------------------------------------------------------
  // What taking one row leaves of the others
  // ---------------------------------------------------------------------

  /** What became of run `x` while other rows were taken: it stayed as it was, or it
      waited and was taken off its queue: launched, dropped, or ended. */
  predicate Bystander(c: Core, c': Core, x: RunId) {
    && x in c.rows && x in c'.rows
    && (x !in c'.runtimes && x in c'.begun ==> x in c.begun)
    && (if x !in c.runtimes then x !in c'.runtimes && c'.rows[x] == c.rows[x]
        else if x in c'.runtimes then
          (c'.runtimes[x] == c.runtimes[x] && c'.rows[x] == c.rows[x]) || IsActive(c'.runtimes[x])
        else
          && c.runtimes[x].phase.Queued?
          && (if EndsOnLaunch(c, x) then EndedRow(c.runtimes[x], c'.rows[x])
              else !Owned(c, x) && c'.rows[x] == c.rows[x]))
  }

  /** What no row taken changes. */
  predicate SameBase(c: Core, c': Core) {
    c'.me == c.me && c'.caps == c.caps && c'.schedules == c.schedules
  }

  lemma BystanderComposes(c: Core, c1: Core, c2: Core, x: RunId)
    requires Bystander(c, c1, x) && Bystander(c1, c2, x) && SameBase(c, c1)
    requires x in c1.runtimes && c1.runtimes[x].phase.Queued? ==> x !in c1.begun
    ensures Bystander(c, c2, x)
  {
    assert x in c.runtimes ==> Stays(c, c.runtimes[x]) == Stays(c1, c.runtimes[x]);
    hide Stays, EndedRow;
  }

  lemma NotMoved(c: Core, c': Core, id: RunId, x: RunId)
    requires x != id && x in c.rows && x in c'.rows && c'.rows[x] == c.rows[x]
    requires c'.runtimes - {id} == c.runtimes - {id} && c'.begun <= c.begun + {id} + c'.runtimes.Keys
    ensures Bystander(c, c', x)
  {
    assert x in c.runtimes <==> x in c.runtimes - {id};
    assert x in c'.runtimes <==> x in c'.runtimes - {id};
    hide EndsOnLaunch, EndedRow, IsActive;
  }

  lemma AdoptedSpares(c: Core, id: RunId, listed: Row, phase: Phase, status: Status, now: int, x: RunId)
    requires id in c.rows && x in c.rows && x != id
    ensures var c1 := Adopted(c, id, listed, phase, status, now);
            && Bystander(c, c1, x) && SameBase(c, c1)
            && Bystander(c, Pushed(c1, id), x) && SameBase(c, Pushed(c1, id))
            && c1.rows[x] == c.rows[x] && Pushed(c1, id).rows[x] == c.rows[x]
    ensures forall y ::
              var c1 := Attributed(Adopted(c, id, listed, phase, status, now), y, id, true);
              Bystander(c, c1, x) && SameBase(c, c1) && c1.rows[x] == c.rows[x]
  {
    var c1 := Adopted(c, id, listed, phase, status, now);
    assert c1.runtimes - {id} == c.runtimes - {id};
    NotMoved(c, c1, id, x);
    NotMoved(c, Pushed(c1, id), id, x);
    forall y
      ensures Bystander(c, Attributed(c1, y, id, true), x) && SameBase(c, Attributed(c1, y, id, true))
      ensures Attributed(c1, y, id, true).rows[x] == c.rows[x]
    {
      assert Attributed(c1, y, id, true).runtimes - {id} == c.runtimes - {id};
      NotMoved(c, Attributed(c1, y, id, true), id, x);
    }
  }

  /** A failed attempt that ends its run serves the queue behind it. */
  lemma FailureSpares(id: RunId, k: nat, c: Core, c': Core, x: RunId)
    requires InvOf(c, {}) && Owned(c, id) && IsActive(c.runtimes[id]) && x in c.rows && x != id
    requires Concluded(id, Fails, k, c, c')
    ensures Bystander(c, c', x) && SameBase(c, c')
  {
    if c.runtimes[id].attempt < c.runtimes[id].maxAttempts {
      hide InvOf;
      assert c'.runtimes - {id} == c.runtimes - {id};
      NotMoved(c, c', id, x);
    } else {
      EndingSpares(id, k, c, c', x);
    }
  }

  lemma EndingSpares(id: RunId, k: nat, c: Core, c': Core, x: RunId)
    requires InvOf(c, {}) && id in c.runtimes && id in c.rows && IsActive(c.runtimes[id]) && x in c.rows && x != id
    requires EndedAndDrained(id, Failed, k, c, c')
    ensures Bystander(c, c', x) && SameBase(c, c')
  {
    var s, e := c.runtimes[id].scheduleId, Ended(c, id, Failed);
    var q := QueueOf(c.queues, s);
    NotQueued(c, id, {});
    RemovedQueues(c.queues, s, id);
    WithoutIsIdentity(q, id);
    assert QueueOf(e.queues, s) == q;
    assert x in q ==> x in c.runtimes && c.runtimes[x].phase.Queued? by {
      assert x in q <==> Waits(c.runtimes, s, x, {});
    }
    assert e.rows[x] == c.rows[x] && (x in e.runtimes <==> x in c.runtimes);
    assert x in c.runtimes ==> e.runtimes[x] == c.runtimes[x] && Stays(e, e.runtimes[x]) == Stays(c, c.runtimes[x]);
    assert Owned(e, x) == Owned(c, x);
    hide InvOf, Forgotten, RemovedFrom, Stays, QueueOf, QueueAdvanced, Owned;
    if x in q[..k] {
      var i :| 0 <= i < k && q[..k][i] == x;
      assert LaunchedAs(e, q[..k][i], c');
    }
  }

  lemma ReconciledSpares(id: RunId, listed: Row, recovery: Recovery, dispatchOnly: bool, now: int, k: nat, c: Core,
                         c': Core, x: RunId)
    requires InvOf(c, {}) && (id !in c.runtimes ==> Lists(c, id, listed))
    requires Reconciled(id, listed, recovery, dispatchOnly, now, k, c, c') && x in c.rows && x != id
    ensures Bystander(c, c', x) && SameBase(c, c')
    ensures dispatchOnly ==> c'.rows[x] == c.rows[x]
  {
    hide InvOf, Concluded, Adopted, Pushed, Attributed, OrphanEnded, Bystander, Lists, Claimable;
    if !Taken(c, id, listed, dispatchOnly, now) {
      NotMoved(c, c, id, x);
    } else if listed.dispatch.Some? {
      AdoptedSpares(c, id, listed, if listed.phase == Some(Queued) then Queued else Executing,
                    if listed.phase == Some(Queued) then Pending else Running, now, x);
    } else if listed.phase == Some(RetryWait) {
      AdoptedSpares(c, id, listed, RetryWait, Pending, now, x);
    } else {
      AdoptedSpares(c, id, listed, Executing, Running, now, x);
      match recovery {
        case NoWorkflow => OrphanEndedSpares(c, id, listed, LostStatus(listed), x);
        case EndedWorkflow(status) => OrphanEndedSpares(c, id, listed, status, x);
        case LiveWorkflow(y) =>
        case FailedWorkflow(y) => AdoptedFailureSpares(c, id, listed, y, now, k, c', x);
      }
    }
  }

  lemma OrphanEndedSpares(c: Core, id: RunId, listed: Row, status: Status, x: RunId)
    requires id in c.rows && x in c.rows && x != id
    ensures Bystander(c, OrphanEnded(c, id, listed, status), x) && SameBase(c, OrphanEnded(c, id, listed, status))
  {
    NotMoved(c, OrphanEnded(c, id, listed, status), id, x);
  }

  lemma AdoptedFailureSpares(c: Core, id: RunId, listed: Row, y: ExecutionId, now: int, k: nat, c': Core, x: RunId)
    requires InvOf(c, {}) && Claims(c, id, now) && Lists(c, id, listed) && x in c.rows && x != id
    requires Concluded(id, Fails, k, Attributed(Adopted(c, id, listed, Executing, Running, now), y, id, true), c')
    ensures Bystander(c, c', x) && SameBase(c, c')
  {
    var c1 := Adopted(c, id, listed, Executing, Running, now);
    var c2 := Attributed(c1, y, id, true);
    AdoptedKeepsInv(c, id, listed, Executing, Running, now);
    AttributedKeepsInv(c1, y, id, true);
    AdoptedSpares(c, id, listed, Executing, Running, now, x);
    assert x in c2.rows && IsActive(c2.runtimes[id]) && SameBase(c, c2);
    FailureSpares(id, k, c2, c', x);
    if x in c2.runtimes { HeldIn(c2, {}, x); }
    hide InvOf, Concluded, Adopted, Attributed, Bystander, Lists, Claims;
    BystanderComposes(c, c2, c', x);
  }

  // ---------------------------------------------------------------------
  // The whole listing
  // ---------------------------------------------------------------------

  /** One pass over the listing, then over the queues: every state it went through. */
  datatype Sweep = Sweep(listed: seq<RunId>, served: seq<ScheduleId>, states: seq<Core>, ks: seq<nat>)

  /** The `i`-th run was taken: from its row as it was when the listing was made. */
  ghost predicate RowSwept(recoveries: Recoveries, dispatchOnly: bool, now: int, w: Sweep, i: nat) {
    && i < |w.listed| && i + 1 < |w.states| && i < |w.ks|
    && w.listed[i] in w.states[0].rows && !Terminal(w.states[0].rows[w.listed[i]].status)
    && InvOf(w.states[i], {})
    && Reconciled(w.listed[i], w.states[0].rows[w.listed[i]], RecoveryOf(recoveries, w.listed[i]), dispatchOnly, now,
                  w.ks[i], w.states[i], w.states[i + 1])
  }

  ghost predicate QueueServed(w: Sweep, i: nat) {
    var at := |w.listed| + i;
    && i < |w.served| && at + 1 < |w.states| && at < |w.ks|
    && DrainedCore(w.served[i], w.ks[at], w.states[at], w.states[at + 1])
  }

  ghost predicate SweepProgress(recoveries: Recoveries, dispatchOnly: bool, now: int, c: Core, c': Core, w: Sweep) {
    && |w.ks| == |w.listed| + |w.served| && |w.states| == |w.ks| + 1
    && w.states[0] == c && w.states[|w.ks|] == c'
    && (forall i | 0 <= i < |w.listed| :: RowSwept(recoveries, dispatchOnly, now, w, i))
    && (forall i | 0 <= i < |w.served| :: QueueServed(w, i))
    && (forall i, j | 0 <= i < j < |w.listed| :: w.listed[i] != w.listed[j])
    && (forall i, j | 0 <= i < j < |w.served| :: w.served[i] != w.served[j])
  }

  /** What `reconcileOrphanedRuns` does: it lists the unfinished runs once, takes each
      of them in that order, and then serves every queue there is, each once. */
  ghost predicate Swept(recoveries: Recoveries, dispatchOnly: bool, now: int, createdAt: RunId -> int, c: Core,
                        c': Core, w: Sweep)
  {
    && SweepProgress(recoveries, dispatchOnly, now, c, c', w)
    && Listing(c.rows, createdAt, w.listed)
    && Elements(w.served) == w.states[|w.listed|].queues.Keys
  }

  /** The `i`-th listed run is claimed although it has finished since the listing. */
  ghost predicate ClaimedAgain(dispatchOnly: bool, now: int, w: Sweep, i: nat) {
    && i < |w.listed| && i < |w.states| && w.listed[i] in w.states[0].rows
    && Taken(w.states[i], w.listed[i], w.states[0].rows[w.listed[i]], dispatchOnly, now)
    && TerminalAt(w.states[i].rows, w.listed[i])
  }

  /** Run `id` is one of those. */
  ghost predicate Again(dispatchOnly: bool, now: int, w: Sweep, id: RunId) {
    exists i | 0 <= i < |w.listed| :: w.listed[i] == id && ClaimedAgain(dispatchOnly, now, w, i)
  }

  lemma SweepStarts(recoveries: Recoveries, dispatchOnly: bool, now: int, c: Core, n: seq<Note>)
    ensures SweepProgress(recoveries, dispatchOnly, now, c, c, Sweep([], [], [c], []))
    ensures SweepTrail(dispatchOnly, now, c, n, Sweep([], [], [c], []), [], c.rows, n)
  {
    NothingTrailed(c.me, now, dispatchOnly, c.rows, n);
  }

  lemma SweepRow(recoveries: Recoveries, dispatchOnly: bool, now: int, c: Core, c1: Core, c': Core, w: Sweep, id: RunId,
                 k: nat)
    requires SweepProgress(recoveries, dispatchOnly, now, c, c1, w) && w.served == [] && id !in w.listed
    requires id in c.rows && !Terminal(c.rows[id].status) && InvOf(c1, {})
    requires Reconciled(id, c.rows[id], RecoveryOf(recoveries, id), dispatchOnly, now, k, c1, c')
    ensures SweepProgress(recoveries, dispatchOnly, now, c, c', Sweep(w.listed + [id], [], w.states + [c'], w.ks + [k]))
  {
    hide Reconciled, InvOf, Taken;
    var w' := Sweep(w.listed + [id], [], w.states + [c'], w.ks + [k]);
    forall i | 0 <= i < |w'.listed| ensures RowSwept(recoveries, dispatchOnly, now, w', i) {
      if i < |w.listed| { assert RowSwept(recoveries, dispatchOnly, now, w, i); }
    }
    hide RowSwept;
  }

  /** The new row's claim is the only one that counts anew. */
  lemma AgainByRow(recoveries: Recoveries, dispatchOnly: bool, now: int, c: Core, c1: Core, c': Core, w: Sweep,
                   id: RunId, k: nat, x: RunId)
    requires SweepProgress(recoveries, dispatchOnly, now, c, c1, w) && w.served == [] && id !in w.listed && id in c.rows
    ensures Again(dispatchOnly, now, Sweep(w.listed + [id], [], w.states + [c'], w.ks + [k]), x) <==>
            Again(dispatchOnly, now, w, x)
                || (x == id && Taken(c1, id, c.rows[id], dispatchOnly, now) && TerminalAt(c1.rows, id))
  {
    hide RowSwept, Taken;
    var w' := Sweep(w.listed + [id], [], w.states + [c'], w.ks + [k]);
    forall i | 0 <= i < |w.listed|
      ensures w'.listed[i] == w.listed[i]
              && (ClaimedAgain(dispatchOnly, now, w', i) <==> ClaimedAgain(dispatchOnly, now, w, i))
    {
    }
    assert w'.listed[|w.listed|] == id;
    assert ClaimedAgain(dispatchOnly, now, w', |w.listed|)
           <==> Taken(c1, id, c.rows[id], dispatchOnly, now) && TerminalAt(c1.rows, id);
    hide SweepProgress, ClaimedAgain;
  }

  lemma SweepQueue(recoveries: Recoveries, dispatchOnly: bool, now: int, c: Core, c1: Core, c': Core, w: Sweep,
                   s: ScheduleId, k: nat)
    requires SweepProgress(recoveries, dispatchOnly, now, c, c1, w) && s !in w.served && DrainedCore(s, k, c1, c')
    ensures var w' := Sweep(w.listed, w.served + [s], w.states + [c'], w.ks + [k]);
            && SweepProgress(recoveries, dispatchOnly, now, c, c', w')
            && (forall x :: Again(dispatchOnly, now, w', x) <==> Again(dispatchOnly, now, w, x))
  {
    hide Reconciled, DrainedCore, InvOf, Taken;
    var w' := Sweep(w.listed, w.served + [s], w.states + [c'], w.ks + [k]);
    forall i | 0 <= i < |w'.listed|
      ensures RowSwept(recoveries, dispatchOnly, now, w', i)
      ensures ClaimedAgain(dispatchOnly, now, w', i) <==> ClaimedAgain(dispatchOnly, now, w, i)
    {
      assert RowSwept(recoveries, dispatchOnly, now, w, i);
    }
    forall i | 0 <= i < |w'.served| ensures QueueServed(w', i) {
      if i < |w.served| { assert QueueServed(w, i); }
    }
    hide RowSwept, QueueServed, ClaimedAgain;
  }

  /** When its turn comes, a listed run is as it was listed, or was launched from its
      queue, found lost or ended meanwhile. */
  lemma {:induction false} StillPending(recoveries: Recoveries, dispatchOnly: bool, now: int, c: Core, c': Core,
                                        w: Sweep, i: nat, x: RunId)
    requires SweepProgress(recoveries, dispatchOnly, now, c, c', w) && i <= |w.listed| && x in c.rows
             && x !in w.listed[..i]
    requires InvOf(c, {})
    ensures Bystander(c, w.states[i], x) && SameBase(c, w.states[i])
    ensures dispatchOnly ==> w.states[i].rows[x] == c.rows[x]
    decreases i
  {
    if i == 0 {
      NotMoved(c, c, x + 1, x);
    } else {
      var id, c1, c2 := w.listed[i - 1], w.states[i - 1], w.states[i];
      assert RowSwept(recoveries, dispatchOnly, now, w, i - 1);
      assert x !in w.listed[..i - 1] by { assert w.listed[..i] == w.listed[..i - 1] + [id]; }
      assert x != id by { assert w.listed[..i][i - 1] == id; }
      StillPending(recoveries, dispatchOnly, now, c, c', w, i - 1, x);
      StillPending(recoveries, dispatchOnly, now, c, c', w, i - 1, id);
      hide SweepProgress, Bystander, Reconciled, InvOf;
      if id !in c1.runtimes { PendingIsListed(c, c1, id); }
      assert x in c1.rows by { PendingHasRow(c, c1, x); }
      ReconciledSpares(id, c.rows[id], RecoveryOf(recoveries, id), dispatchOnly, now, w.ks[i - 1], c1, c2, x);
      if x in c1.runtimes { HeldIn(c1, {}, x); }
      BystanderComposes(c, c1, c2, x);
    }
  }

  lemma PendingHasRow(c: Core, cur: Core, x: RunId)
    requires Bystander(c, cur, x)
    ensures x in cur.rows
  {
  }

  lemma PendingIsListed(c: Core, cur: Core, x: RunId)
    requires InvOf(c, {}) && Bystander(c, cur, x) && x !in cur.runtimes && !Terminal(c.rows[x].status)
    ensures Lists(cur, x, c.rows[x])
  {
    if x in c.runtimes { HeldIn(c, {}, x); }
    BoundedRow(c, x);
    hide InvOf, Stays;
  }

  lemma BoundedRow(c: Core, x: RunId)
    requires InvOf(c, {}) && x in c.rows
    ensures RowBounded(c.rows[x])
    ensures x in c.begun ==> c.rows[x].phase != Some(Queued)
  {
  }

  /** A run can only be claimed again if it was waiting in this engine's memory, still
      owned by it, and its launch would end it at once. */
  lemma AgainIsUnlaunchable(recoveries: Recoveries, dispatchOnly: bool, now: int, c: Core, c': Core, w: Sweep, i: nat)
    requires SweepProgress(recoveries, dispatchOnly, now, c, c', w) && InvOf(c, {})
    requires i < |w.listed| && ClaimedAgain(dispatchOnly, now, w, i)
    ensures var x := w.listed[i];
            !dispatchOnly && x in c.runtimes && c.runtimes[x].phase.Queued? && EndsOnLaunch(c, x)
  {
    var x := w.listed[i];
    assert RowSwept(recoveries, dispatchOnly, now, w, i);
    assert x !in w.listed[..i];
    StillPending(recoveries, dispatchOnly, now, c, c', w, i, x);
    hide InvOf, Reconciled, Stays, EndsOnLaunch;
  }

  // ---------------------------------------------------------------------
  // The steps of a sweep
  // ---------------------------------------------------------------------

  lemma NothingClaimed(rows: Rows)
    ensures ClaimsFrom(rows, []) && NoReclaim([])
  {
  }

  /** The steps a sweep took so far: its claims go by the listing, and exactly the
      runs that finished since are claimed again, each once. */
  ghost predicate SweepTrail(silent: bool, now: int, c: Core, n: seq<Note>, w: Sweep, trail: seq<Step>, rows: Rows,
                             notes: seq<Note>)
  {
    && Trailed(c.me, now, silent, c.rows, n, trail, rows, notes)
    && ClaimsFrom(c.rows, trail)
    && forall id :: ReclaimCount(trail, id) == if Again(silent, now, w, id) then 1 else 0
  }

  lemma RowTrail(recoveries: Recoveries, silent: bool, now: int, c: Core, n: seq<Note>, c1: Core, n1: seq<Note>,
                 c': Core, n': seq<Note>, id: RunId, w: Sweep, k: nat, t0: seq<Step>, more: seq<Step>)
    requires SweepProgress(recoveries, silent, now, c, c1, w) && w.served == [] && id !in w.listed
    requires SweepTrail(silent, now, c, n, w, t0, c1.rows, n1) && c1.me == c.me
    requires Trailed(c.me, now, silent, c1.rows, n1, more, c'.rows, n')
    requires id in c.rows && !Terminal(c.rows[id].status) && id in c1.rows
    requires if Taken(c1, id, c.rows[id], silent, now) then ClaimTrail(c1, id, c.rows[id], more) else more == []
    ensures SweepTrail(silent, now, c, n, Sweep(w.listed + [id], [], w.states + [c'], w.ks + [k]), t0 + more, c'.rows,
                       n')
  {
    ClaimExtends(c.rows, t0, c1, id, silent, now, more);
    hide Trailed, ClaimsFrom, Again, Taken, ClaimTrail, SweepProgress, NoReclaim;
    TrailsJoin(c.me, now, silent, c.rows, n, t0, c1.rows, n1, more, c'.rows, n');
    TracesJoin(c.rows, t0, more);
    forall x {
      AgainByRow(recoveries, silent, now, c, c1, c', w, id, k, x);
    }
    assert Again(silent, now, w, id) ==> id in w.listed by { AgainIsListed(silent, now, w, id); }
    hide ReclaimCount;
  }

  lemma AgainIsListed(silent: bool, now: int, w: Sweep, id: RunId)
    ensures Again(silent, now, w, id) ==> id in w.listed
  {
  }

  lemma QueueTrail(silent: bool, now: int, c: Core, n: seq<Note>, c1: Core, n1: seq<Note>,
                   c': Core, n': seq<Note>, w0: Sweep, t0: seq<Step>, w: Sweep, more: seq<Step>)
    requires SweepTrail(silent, now, c, n, w0, t0, c1.rows, n1)
    requires Trailed(c.me, now, silent, c1.rows, n1, more, c'.rows, n') && NoReclaim(more)
    requires forall x :: Again(silent, now, w, x) <==> Again(silent, now, w0, x)
    ensures SweepTrail(silent, now, c, n, w, t0 + more, c'.rows, n')
  {
    NoReclaimCounts(more);
    hide Trailed, ClaimsFrom, NoReclaim, Again;
    ClaimsExtend(c.rows, t0, more);
    TrailsJoin(c.me, now, silent, c.rows, n, t0, c1.rows, n1, more, c'.rows, n');
    TracesJoin(c.rows, t0, more);
    forall x ensures ReclaimCount(t0 + more, x) == if Again(silent, now, w, x) then 1 else 0 {
      assert ReclaimCount(t0, x) == if Again(silent, now, w0, x) then 1 else 0;
      assert ReclaimCount(more, x) == 0;
      hide ReclaimCount;
    }
  }

  lemma ClaimsExtend(rows: Rows, t0: seq<Step>, t1: seq<Step>)
    requires ClaimsFrom(rows, t0) && NoReclaim(t1)
    ensures ClaimsFrom(rows, t0 + t1)
  {
    assert forall i | |t0| <= i < |t0 + t1| :: (t0 + t1)[i] == t1[i - |t0|];
  }

  /** One more row taken, its claim among the steps. */
  lemma ClaimExtends(rows: Rows, t0: seq<Step>, c: Core, id: RunId, dispatchOnly: bool, now: int, t1: seq<Step>)
    requires ClaimsFrom(rows, t0) && id in rows && !Terminal(rows[id].status) && id in c.rows
    requires if Taken(c, id, rows[id], dispatchOnly, now) then ClaimTrail(c, id, rows[id], t1) else t1 == []
    ensures ClaimsFrom(rows, t0 + t1)
    ensures forall x :: ReclaimCount(t1, x)
                        == if x == id && Taken(c, id, rows[id], dispatchOnly, now) && TerminalAt(c.rows, id) then 1
                            else 0
  {
    assert forall i | |t0| <= i < |t0 + t1| :: (t0 + t1)[i] == t1[i - |t0|];
    if t1 != [] {
      assert NoReclaim(t1[1..]) by { assert forall i | 0 <= i < |t1| - 1 :: t1[1..][i] == t1[i + 1]; }
      NoReclaimCounts(t1[1..]);
    }
    hide Taken, NoReclaim;
    forall x
      ensures ReclaimCount(t1, x)
              == if x == id && Taken(c, id, rows[id], dispatchOnly, now) && TerminalAt(c.rows, id) then 1 else 0
    {
      assert t1 != [] ==> ReclaimCount(t1[1..], x) == 0;
    }
  }

  lemma PendingNow(recoveries: Recoveries, dispatchOnly: bool, now: int, c: Core, cur: Core, w: Sweep, id: RunId)
    requires SweepProgress(recoveries, dispatchOnly, now, c, cur, w) && w.served == [] && InvOf(c, {})
    requires id in c.rows && !Terminal(c.rows[id].status) && id !in w.listed
    ensures id in cur.rows && (id !in cur.runtimes ==> Lists(cur, id, c.rows[id]))
  {
    assert w.states[|w.listed|] == cur && w.listed[..|w.listed|] == w.listed;
    StillPending(recoveries, dispatchOnly, now, c, cur, w, |w.listed|, id);
    PendingHasRow(c, cur, id);
    hide SweepProgress, InvOf, Bystander, Lists;
    if id !in cur.runtimes { PendingIsListed(c, cur, id); }
  }

  /** The listing was taken and all queues of `all` but those in `waiting` were served. */
  ghost predicate Serving(recoveries: Recoveries, dispatchOnly: bool, now: int, c: Core, c': Core, w: Sweep,
                          listed: seq<RunId>, all: set<ScheduleId>, waiting: set<ScheduleId>)
  {
    && SweepProgress(recoveries, dispatchOnly, now, c, c', w)
    && w.listed == listed && Elements(w.served) == all - waiting
    && w.states[|listed|].queues.Keys == all
  }

  lemma ServingStarts(recoveries: Recoveries, dispatchOnly: bool, now: int, c: Core, c': Core, w: Sweep)
    requires SweepProgress(recoveries, dispatchOnly, now, c, c', w) && w.served == []
    ensures Serving(recoveries, dispatchOnly, now, c, c', w, w.listed, c'.queues.Keys, c'.queues.Keys)
  {
  }

  lemma OneMoreServed(recoveries: Recoveries, dispatchOnly: bool, now: int, c: Core, c1: Core, c': Core, w: Sweep,
                      listed: seq<RunId>, all: set<ScheduleId>, waiting: set<ScheduleId>, s: ScheduleId, k: nat)
    returns (w': Sweep)
    requires Serving(recoveries, dispatchOnly, now, c, c1, w, listed, all, waiting) && s in waiting && waiting <= all
    requires DrainedCore(s, k, c1, c')
    ensures Serving(recoveries, dispatchOnly, now, c, c', w', listed, all, waiting - {s})
    ensures forall x :: Again(dispatchOnly, now, w', x) <==> Again(dispatchOnly, now, w, x)
  {
    w' := Sweep(w.listed, w.served + [s], w.states + [c'], w.ks + [k]);
    NotYetListed(w.served, s);
    SweepQueue(recoveries, dispatchOnly, now, c, c1, c', w, s, k);
    ElementsExtend(w.served, s);
    hide DrainedCore, Again, RowSwept, QueueServed, Elements;
  }

  lemma ServingEnds(recoveries: Recoveries, dispatchOnly: bool, now: int, createdAt: RunId -> int, c: Core, c': Core,
                    w: Sweep, listed: seq<RunId>, all: set<ScheduleId>)
    requires Serving(recoveries, dispatchOnly, now, c, c', w, listed, all, {}) && Listing(c.rows, createdAt, listed)
    ensures Swept(recoveries, dispatchOnly, now, createdAt, c, c', w)
  {
    hide SweepProgress, Listing;
  }

  lemma ElementsExtend(q: seq<RunId>, x: RunId)
    ensures Elements(q + [x]) == Elements(q) + {x}
    ensures Elements([]) == {}
  {
  }

  lemma NotYetListed(q: seq<RunId>, x: RunId)
    ensures x in Elements(q) <==> x in q
  {
  }

  /** Before the queues are served, waiting runs need no active one beside them. */
  lemma BusyButAll(c: Core, s: ScheduleId)
    ensures BusyBut(c, c.queues.Keys) && BusyBut(c, c.queues.Keys + {s})
  {
  }
}
