/** What a step of an engine leaves steady for a schedule: the runs it holds, the order
    in which waiting runs are launched, and the sets that exempt schedules and runs
    from the invariant. */
module SchedulerSteady {
  import opened Wrappers
  import opened RunStore
  import opened Fencing
  import opened SchedulerState
  import opened SchedulerSweep

  /** The schedule has lost a run, or the row of one of its runs is no longer this engine's. */
  ghost predicate Lost(c: Core, s: ScheduleId) {
    s in c.starved || exists id | id in c.runtimes :: c.runtimes[id].scheduleId == s && !Owned(c, id)
  }

  /** An unfinished run of the schedule is stored in this engine's name, but not held by it. */
  ghost predicate Stray(c: Core, s: ScheduleId) {
    exists id | id in c.rows :: StrayRow(c, s, id)
  }

  predicate StrayRow(c: Core, s: ScheduleId, id: RunId)
    requires id in c.rows
  {
    c.rows[id].schedule == s && !Terminal(c.rows[id].status) && c.rows[id].owner == Some(c.me) && !Owned(c, id)
  }

  /** No run of `s` was lost. */
  ghost predicate NoneLost(s: ScheduleId, c: Core, c': Core) {
    && (Lost(c', s) ==> Lost(c, s))
    && (Stray(c', s) ==> Stray(c, s))
  }

  /** `x` was admitted to its queue before `y`. */
  predicate Ahead(c: Core, x: RunId, y: RunId) {
    x in c.ticket && y in c.ticket && c.ticket[x] < c.ticket[y]
  }

  predicate SameTicket(c: Core, c': Core, x: RunId) {
    x in c.ticket ==> x in c'.ticket && c'.ticket[x] == c.ticket[x]
  }

  /** Run `x` left its queue and is live. */
  predicate Launched(rts: Runtimes, s: ScheduleId, x: RunId) {
    x in rts && rts[x].scheduleId == s && !rts[x].phase.Queued?
  }

  /** No run is forgotten by the store or moves to another schedule. */
  ghost predicate RowsStay(c: Core, c': Core) {
    forall x | x in c.rows :: x in c'.rows && c'.rows[x].schedule == c.rows[x].schedule
  }

  /** No run comes back or waits anew, and none is launched while one ahead of it waits. */
  ghost predicate InOrder(s: ScheduleId, c: Core, c': Core) {
    && RowsStay(c, c')
    && (forall x | x in c.rows && Waits(c'.runtimes, s, x, {}) :: Waits(c.runtimes, s, x, {}) && SameTicket(c, c', x))
    && (forall x | x in c.rows && Launched(c'.runtimes, s, x) ::
          x in c.runtimes && c.runtimes[x].scheduleId == s)
    && (forall x, y | x in c.rows && y in c.rows && Waits(c.runtimes, s, x, {}) && Waits(c.runtimes, s, y, {})
                      && Ahead(c, x, y) && Launched(c'.runtimes, s, y) :: !Waits(c'.runtimes, s, x, {}))
  }

  /** Neither the schedule nor a run of it is exempted anew. */
  ghost predicate SetsKept(s: ScheduleId, c: Core, c': Core) {
    && (s in c'.overlapped ==> s in c.overlapped)
    && (forall id | id in c'.excused && id !in c.excused :: id in c'.rows && c'.rows[id].schedule != s)
  }

  /** Rows of `s` that are not this engine's stay as they are. */
  ghost predicate ForeignKept(s: ScheduleId, c: Core, c': Core) {
    forall id | id in c.rows && c.rows[id].schedule == s && c.rows[id].owner != Some(c.me) ::
      id in c'.rows && c'.rows[id] == c.rows[id]
  }

  /** What a step that does not disturb schedule `s` leaves steady. */
  ghost predicate SteadyAt(s: ScheduleId, c: Core, c': Core) {
    NoneLost(s, c, c') && InOrder(s, c, c') && SetsKept(s, c, c') && ForeignKept(s, c, c')
  }

  /** No run was lost anywhere. */
  ghost predicate HoldsOn(c: Core, c': Core) {
    c'.me == c.me && c.starved <= c'.starved && RowsStay(c, c') && forall s :: NoneLost(s, c, c')
  }

  /** No run was lost, and only the schedules in `but` were disturbed. */
  ghost predicate SteadyBut(but: set<ScheduleId>, c: Core, c': Core) {
    HoldsOn(c, c') && forall s | s !in but :: SteadyAt(s, c, c')
  }

  lemma InOrderComposes(s: ScheduleId, c: Core, c1: Core, c2: Core)
    requires InOrder(s, c, c1) && InOrder(s, c1, c2)
    ensures InOrder(s, c, c2)
  {
  }

  lemma SetsKeptComposes(s: ScheduleId, c: Core, c1: Core, c2: Core)
    requires SetsKept(s, c, c1) && SetsKept(s, c1, c2) && InOrder(s, c1, c2)
    ensures SetsKept(s, c, c2)
  {
  }

  lemma SteadyAtComposes(s: ScheduleId, c: Core, c1: Core, c2: Core)
    requires SteadyAt(s, c, c1) && SteadyAt(s, c1, c2) && c1.me == c.me
    ensures SteadyAt(s, c, c2)
  {
    hide Lost, Stray, Waits, SameTicket, Ahead, Launched;
    assert ForeignKept(s, c, c2);
    InOrderComposes(s, c, c1, c2);
    hide InOrder;
    SetsKeptComposes(s, c, c1, c2);
  }

  lemma HoldsOnComposes(c: Core, c1: Core, c2: Core)
    requires HoldsOn(c, c1) && HoldsOn(c1, c2)
    ensures HoldsOn(c, c2)
  {
    hide Lost, Stray;
    forall s ensures NoneLost(s, c, c2) {
      assert NoneLost(s, c, c1) && NoneLost(s, c1, c2);
    }
  }

  lemma SteadyComposes(but: set<ScheduleId>, c: Core, c1: Core, c2: Core)
    requires SteadyBut(but, c, c1) && SteadyBut(but, c1, c2)
    ensures SteadyBut(but, c, c2)
  {
    HoldsOnComposes(c, c1, c2);
    hide SteadyAt, NoneLost, RowsStay;
    forall s | s !in but ensures SteadyAt(s, c, c2) { SteadyAtComposes(s, c, c1, c2); }
  }

  lemma SteadyWeakens(but: set<ScheduleId>, more: set<ScheduleId>, c: Core, c': Core)
    requires SteadyBut(but, c, c') && but <= more
    ensures SteadyBut(more, c, c')
  {
    hide SteadyAt, HoldsOn;
  }

  // ---------------------------------------------------------------------
  // The changes a step is made of
  // ---------------------------------------------------------------------

  /** Queues, executions, schedules and what was begun do not matter here. */
  predicate SameRuns(c: Core, c': Core) {
    && c'.me == c.me && c'.runtimes == c.runtimes && c'.rows == c.rows && c'.ticket == c.ticket
    && c'.overlapped == c.overlapped && c'.excused == c.excused && c'.starved == c.starved
  }

  lemma SameRunsIsSteady(c: Core, c': Core)
    requires SameRuns(c, c')
    ensures SteadyBut({}, c, c')
  {
    assert forall id :: Owned(c', id) <==> Owned(c, id);
    forall s ensures SteadyAt(s, c, c') {
      hide Owned;
    }
  }

  /** Only run `id` of schedule `t` may have changed, and no run was added. */
  predicate OnlyRun(id: RunId, t: ScheduleId, c: Core, c': Core) {
    && id in c.runtimes && id in c.rows && c.runtimes[id].scheduleId == t
    && c'.me == c.me && c'.ticket == c.ticket && c'.overlapped == c.overlapped && c'.excused == c.excused
    && c'.runtimes - {id} == c.runtimes - {id} && c'.rows - {id} == c.rows - {id}
    && id in c'.rows && c'.rows[id].schedule == c.rows[id].schedule
    && (id in c'.runtimes ==> c'.runtimes[id].scheduleId == t)
    && (id in c'.runtimes && c'.runtimes[id].phase.Queued? ==> c'.runtimes[id] == c.runtimes[id])
    && (c'.starved == c.starved || (c'.starved == c.starved + {t} && !Owned(c, id)))
    && (c'.rows[id] == c.rows[id] || Owned(c, id))
    && (Owned(c, id) ==> Owned(c', id) || (id !in c'.runtimes && c'.rows[id].owner != Some(c.me)))
  }

  /** No run of the schedule waits ahead of `id`. */
  predicate Foremost(c: Core, id: RunId)
    requires id in c.runtimes
  {
    c.runtimes[id].phase.Queued? ==>
      forall x | x in c.runtimes && c.runtimes[x].scheduleId == c.runtimes[id].scheduleId
                 && c.runtimes[x].phase.Queued? :: !Ahead(c, x, id)
  }

  /** The other runs and rows look the same. */
  lemma OthersLookSame(id: RunId, t: ScheduleId, c: Core, c': Core, x: RunId)
    requires OnlyRun(id, t, c, c') && x != id
    ensures (x in c'.runtimes <==> x in c.runtimes) && (x in c.runtimes ==> c'.runtimes[x] == c.runtimes[x])
    ensures (x in c'.rows <==> x in c.rows) && (x in c.rows ==> c'.rows[x] == c.rows[x])
    ensures Owned(c', x) <==> Owned(c, x)
  {
    assert x in c'.runtimes <==> x in c'.runtimes - {id};
    assert x in c.runtimes <==> x in c.runtimes - {id};
    assert x in c'.rows <==> x in c'.rows - {id};
    assert x in c.rows <==> x in c.rows - {id};
  }

  lemma OnlyRunIsSteady(id: RunId, t: ScheduleId, c: Core, c': Core)
    requires OnlyRun(id, t, c, c')
    requires id in c'.runtimes && !c'.runtimes[id].phase.Queued? ==> Foremost(c, id)
    ensures SteadyBut({}, c, c')
  {
    forall x | x != id { OthersLookSame(id, t, c, c', x); }
    forall s ensures SteadyAt(s, c, c') {
      OnlyRunLosesNone(id, t, s, c, c');
      hide Owned, Lost, Stray;
    }
    hide SteadyAt;
  }

  lemma OnlyRunLosesNone(id: RunId, t: ScheduleId, s: ScheduleId, c: Core, c': Core)
    requires OnlyRun(id, t, c, c')
    ensures NoneLost(s, c, c')
  {
    forall x | x != id { OthersLookSame(id, t, c, c', x); }
    if x :| x in c'.runtimes && c'.runtimes[x].scheduleId == s && !Owned(c', x) {
      assert x in c.runtimes && c.runtimes[x].scheduleId == s && !Owned(c, x);
    }
    if x :| x in c'.rows && StrayRow(c', s, x) {
      assert x in c.rows && StrayRow(c, s, x);
    }
    hide Owned;
  }

  lemma RenewedIsSteady(c: Core, id: RunId, now: int)
    requires Owned(c, id)
    ensures SteadyBut({}, c, Renewed(c, id, now))
  {
    OnlyRunIsSteady(id, c.runtimes[id].scheduleId, c, Renewed(c, id, now));
  }

  lemma DroppedIsSteady(c: Core, id: RunId)
    requires id in c.runtimes && id in c.rows && !Owned(c, id)
    ensures SteadyBut({}, c, Dropped(c, id))
  {
    hide RemovedFrom;
    OnlyRunIsSteady(id, c.runtimes[id].scheduleId, c, Dropped(c, id));
  }

  lemma RecheckedIsSteady(c: Core, id: RunId, now: int)
    requires id in c.runtimes && id in c.rows
    ensures SteadyBut({}, c, Rechecked(c, id, now))
  {
    if Owned(c, id) {
      RenewedIsSteady(c, id, now);
    } else {
      DroppedIsSteady(c, id);
    }
  }

  lemma FinishedIsSteady(c: Core, id: RunId, status: Status)
    requires id in c.runtimes && id in c.rows
    requires Owned(c, id) ==> Mirrors(c.rows[id], c.runtimes[id], c.me)
    ensures SteadyBut({}, c, Finished(c, id, status))
  {
    hide RemovedFrom;
    OnlyRunIsSteady(id, c.runtimes[id].scheduleId, c, Finished(c, id, status));
  }

  lemma MovedIsSteady(c: Core, id: RunId, rt: Runtime, now: int)
    requires Owned(c, id) && Mirrors(c.rows[id], c.runtimes[id], c.me) && MayMove(c.runtimes[id], rt) && Foremost(c, id)
    ensures SteadyBut({}, c, Moved(c, id, rt, now))
  {
    OnlyRunIsSteady(id, rt.scheduleId, c, Moved(c, id, rt, now));
  }

  lemma ExecutedIsSteady(c: Core, id: RunId, now: int)
    requires InvOf(c, {}) && id in c.runtimes && IsActive(c.runtimes[id])
    ensures SteadyBut({}, c, Executed(c, id, now))
  {
    HeldIn(c, {}, id);
    hide InvOf;
    var rt := c.runtimes[id].(phase := Executing, status := Running);
    if Owned(c, id) {
      MovedIsSteady(c, id, rt, now);
    } else {
      RelabelledIsSteady(c, id, rt);
    }
  }

  /** A run of which only its progress changed, in memory alone. */
  lemma RelabelledIsSteady(c: Core, id: RunId, rt: Runtime)
    requires id in c.runtimes && id in c.rows && !c.runtimes[id].phase.Queued? && !rt.phase.Queued?
    requires rt.scheduleId == c.runtimes[id].scheduleId && rt.ownerEpoch == c.runtimes[id].ownerEpoch
    ensures SteadyBut({}, c, c.(runtimes := c.runtimes[id := rt]))
  {
    OnlyRunIsSteady(id, rt.scheduleId, c, c.(runtimes := c.runtimes[id := rt]));
  }

  lemma AttributedIsSteady(c: Core, x: ExecutionId, id: RunId, workflow: bool)
    requires InvOf(c, {}) && id in c.runtimes && IsActive(c.runtimes[id])
    ensures SteadyBut({}, c, Attributed(c, x, id, workflow))
  {
    HeldIn(c, {}, id);
    hide InvOf;
    var rt := if workflow then c.runtimes[id].(workflowId := Some(x)) else c.runtimes[id].(sessionId := Some(x));
    var c1 := c.(runtimes := c.runtimes[id := rt]);
    RelabelledIsSteady(c, id, rt);
    hide SteadyBut;
    SameRunsIsSteady(c1, Attributed(c, x, id, workflow));
    SteadyComposes({}, c, c1, Attributed(c, x, id, workflow));
  }

  /** The head of a queue is foremost. */
  lemma HeadIsForemost(c: Core, s: ScheduleId)
    requires InvOf(c, {}) && s in c.queues && c.queues[s] != [] && c.queues[s][0] in c.runtimes
    requires c.runtimes[c.queues[s][0]].scheduleId == s
    ensures Foremost(c, c.queues[s][0])
  {
    var q := QueueOf(c.queues, s);
    assert Increasing(q, c.ticket, c.nextTicket);
    forall x | x in c.runtimes && c.runtimes[x].scheduleId == s && c.runtimes[x].phase.Queued?
      ensures !Ahead(c, x, q[0])
    {
      assert x in q <==> Waits(c.runtimes, s, x, {});
      var i :| 0 <= i < |q| && q[i] == x;
    }
  }

  /** A new run joins no one's place: it waits behind all others, or was never queued. */
  lemma NewRunIsSteady(c: Core, id: RunId, rt: Runtime, c': Core)
    requires InvOf(c, {}) && id !in c.rows && rt.ownerEpoch == 0
    requires c'.me == c.me && c'.runtimes == c.runtimes[id := rt] && id in c'.rows
    requires c'.rows == c.rows[id := c'.rows[id]] && c'.rows[id].owner == Some(c.me) && c'.rows[id].epoch == 0
    requires c'.overlapped == c.overlapped && c'.excused == c.excused && c'.starved == c.starved
    requires forall x | x in c.rows :: SameTicket(c, c', x)
    ensures SteadyBut({}, c, c')
  {
    assert id !in c.runtimes by { if id in c.runtimes { HeldIn(c, {}, id); } }
    assert forall x | x in c.runtimes :: x in c.rows;
    hide InvOf;
    forall x | x in c.rows ensures Owned(c', x) <==> Owned(c, x) {
    }
    assert Owned(c', id);
    forall s ensures SteadyAt(s, c, c') {
      assert NoneLost(s, c, c') by {
        if x :| x in c'.runtimes && c'.runtimes[x].scheduleId == s && !Owned(c', x) {
          assert x in c.runtimes && c.runtimes[x].scheduleId == s && !Owned(c, x);
        }
        if x :| x in c'.rows && StrayRow(c', s, x) {
          assert x in c.rows && StrayRow(c, s, x);
        }
      }
      hide Owned, Lost, Stray;
    }
    hide SteadyAt;
  }

  /** A row that was finished from the start. */
  lemma FinishedRowIsSteady(c: Core, id: RunId, row: Row, c': Core)
    requires InvOf(c, {}) && id !in c.rows && Terminal(row.status)
    requires SameRuns(c.(rows := c.rows[id := row]), c')
    ensures SteadyBut({}, c, c')
  {
    assert id !in c.runtimes by { if id in c.runtimes { HeldIn(c, {}, id); } }
    hide InvOf;
    forall x ensures x != id ==> (Owned(c', x) <==> Owned(c, x)) {
    }
    forall s ensures SteadyAt(s, c, c') {
      assert NoneLost(s, c, c') by {
        if x :| x in c'.runtimes && c'.runtimes[x].scheduleId == s && !Owned(c', x) {
          assert !Owned(c, x);
        }
        if x :| x in c'.rows && StrayRow(c', s, x) {
          assert x in c.rows && StrayRow(c, s, x);
        }
      }
      hide Owned, Lost, Stray;
    }
    hide SteadyAt;
  }

  lemma NothingIsSteady(but: set<ScheduleId>, c: Core)
    ensures SteadyBut(but, c, c)
  {
    SameRunsIsSteady(c, c);
    SteadyWeakens({}, but, c, c);
  }

  lemma WithScheduleIsSteady(c: Core, s: ScheduleId, schedule: Schedule, but: set<ScheduleId>)
    requires schedule.overlap.Allow? ==> s in c.overlapped || s in but
    ensures SteadyBut(but, c, WithSchedule(c, s, schedule))
  {
    var c1 := WithSchedule(c, s, schedule).(overlapped := c.overlapped);
    SameRunsIsSteady(c, c1);
    SteadyWeakens({}, but, c, c1);
    hide NoneLost, InOrder, ForeignKept;
    ExemptIsSteady(but, c1, WithSchedule(c, s, schedule));
    SteadyComposes(but, c, c1, WithSchedule(c, s, schedule));
  }

  /** Exempting schedules or runs of them disturbs only these schedules. */
  lemma ExemptIsSteady(but: set<ScheduleId>, c: Core, c': Core)
    requires c' == c.(overlapped := c'.overlapped, excused := c'.excused)
    requires forall s | s !in but :: SetsKept(s, c, c')
    ensures SteadyBut(but, c, c')
  {
    var c1 := c.(excused := c'.excused);
    forall id ensures Owned(c', id) <==> Owned(c, id) {
    }
    forall s ensures NoneLost(s, c, c') && InOrder(s, c, c') && ForeignKept(s, c, c') {
      hide Owned;
    }
    hide NoneLost, InOrder, ForeignKept;
  }

  /** A patch that gives the schedule a policy allowing overlap. */
  predicate Allows(patch: Patch) {
    patch.policy.Some? && patch.policy.value.overlap.Allow?
  }

  lemma PatchAllows(c: Core, s: ScheduleId, patch: Patch, now: int)
    requires ValidCore(c) && s in c.schedules
    ensures Patched(c.schedules[s], patch, now).overlap.Allow? ==> s in c.overlapped || Allows(patch)
  {
  }

  /** The schedule of a run that a controller's verdict fails. */
  function FailedBy(rows: Rows, id: RunId, status: Status): set<ScheduleId> {
    if status.Failed? && id in rows then {rows[id].schedule} else {}
  }

  lemma ExcusedIsSteady(c: Core, id: RunId)
    requires id in c.rows
    ensures SteadyBut({c.rows[id].schedule}, c, c.(excused := c.excused + {id}))
  {
    ExemptIsSteady({c.rows[id].schedule}, c, c.(excused := c.excused + {id}));
  }

  // ---------------------------------------------------------------------
  // Teardown
  // ---------------------------------------------------------------------

  /** Teardown leaves a schedule alone that has no run to retire. */
  lemma RetiredElsewhere(s: ScheduleId, gone: set<RunId>, c: Core, c': Core)
    requires InvOf(c, {}) && AllRetired(gone, c, c')
    requires s !in SchedulesOf(c.runtimes, gone)
    ensures SteadyAt(s, c, c')
  {
    RetiredLosesNone(s, gone, c, c');
    RetiredRowsStay(gone, c, c');
    NoneFailsElsewhere(s, gone, c);
    OwnedIsMine(c);
    hide InvOf, NoneLost, Owned, FailsOnTeardown, FailedOnTeardown, SchedulesOf, RetiredRow;
    assert InOrder(s, c, c') by { hide RowsStay; }
  }

  lemma NoneFailsElsewhere(s: ScheduleId, gone: set<RunId>, c: Core)
    requires InvOf(c, {}) && s !in SchedulesOf(c.runtimes, gone)
    ensures forall x | x in FailedOnTeardown(c, gone) :: x in c.rows && c.rows[x].schedule != s
  {
    forall x | x in FailedOnTeardown(c, gone) ensures x in c.rows && c.rows[x].schedule != s {
      HeldIn(c, {}, x);
      hide InvOf;
      assert c.runtimes[x].scheduleId in SchedulesOf(c.runtimes, gone);
    }
  }

  lemma OwnedIsMine(c: Core)
    ensures forall x | Owned(c, x) :: x in c.rows && c.rows[x].owner == Some(c.me)
  {
  }

  lemma RetiredRowsStay(gone: set<RunId>, c: Core, c': Core)
    requires InvOf(c, {}) && AllRetired(gone, c, c')
    ensures RowsStay(c, c')
  {
    forall x | Owned(c, x) ensures c.rows[x].schedule == c.runtimes[x].scheduleId { HeldIn(c, {}, x); }
    hide InvOf;
  }

  lemma RetiredLosesNone(s: ScheduleId, gone: set<RunId>, c: Core, c': Core)
    requires AllRetired(gone, c, c') && s !in SchedulesOf(c.runtimes, gone)
    ensures NoneLost(s, c, c')
  {
    hide SchedulesOf, FailedOnTeardown;
    forall x | x in c'.runtimes ensures x in c.runtimes && x !in gone && (Owned(c', x) <==> Owned(c, x)) {
    }
    if x :| x in c'.runtimes && c'.runtimes[x].scheduleId == s && !Owned(c', x) {
      assert x in c.runtimes && c.runtimes[x].scheduleId == s && !Owned(c, x);
    }
    if x :| x in c'.rows && StrayRow(c', s, x) {
      assert x in c.rows && StrayRow(c, s, x);
    }
  }

  // ---------------------------------------------------------------------
  // Sweeps
  // ---------------------------------------------------------------------

  /** A run adopted is a run held. */
  lemma AdoptedHoldsOn(c: Core, id: RunId, listed: Row, phase: Phase, status: Status, now: int)
    requires Claims(c, id, now) && Lists(c, id, listed)
    ensures HoldsOn(c, Adopted(c, id, listed, phase, status, now))
    ensures HoldsOn(c, Pushed(Adopted(c, id, listed, phase, status, now), id))
  {
    var c1 := Adopted(c, id, listed, phase, status, now);
    var c2 := Pushed(c1, id);
    forall x ensures x != id ==> (Owned(c1, x) <==> Owned(c, x)) && (Owned(c2, x) <==> Owned(c, x)) {
    }
    assert Owned(c1, id) && Owned(c2, id);
    forall c' | c' in {c1, c2}, s ensures NoneLost(s, c, c') {
      if x :| x in c'.runtimes && c'.runtimes[x].scheduleId == s && !Owned(c', x) {
        assert x in c.runtimes && c.runtimes[x].scheduleId == s && !Owned(c, x);
      }
      if x :| x in c'.rows && StrayRow(c', s, x) {
        assert x in c.rows && StrayRow(c, s, x);
      }
    }
    hide NoneLost;
  }

  lemma OrphanEndedHoldsOn(c: Core, id: RunId, listed: Row, status: Status, now: int)
    requires Claims(c, id, now) && Lists(c, id, listed) && Terminal(status)
    ensures HoldsOn(c, OrphanEnded(c, id, listed, status))
  {
    var c' := OrphanEnded(c, id, listed, status);
    forall x ensures x != id ==> (Owned(c', x) <==> Owned(c, x)) {
    }
    forall s ensures NoneLost(s, c, c') {
      if x :| x in c'.runtimes && c'.runtimes[x].scheduleId == s && !Owned(c', x) {
        assert x in c.runtimes && c.runtimes[x].scheduleId == s && !Owned(c, x);
      }
      if x :| x in c'.rows && StrayRow(c', s, x) {
        assert x in c.rows && StrayRow(c, s, x);
      }
    }
    hide NoneLost;
  }

  /** There is an unfinished run of `s` that a sweep may claim. */
  ghost predicate Orphaned(c: Core, s: ScheduleId, now: int) {
    exists id | id in c.rows :: OrphanRow(c, s, now, id)
  }

  predicate OrphanRow(c: Core, s: ScheduleId, now: int, id: RunId)
    requires id in c.rows
  {
    c.rows[id].schedule == s && !Terminal(c.rows[id].status) && !Owned(c, id) && Claimable(c.rows[id], c.me, now)
  }

  /** No run of schedule `s` changed, in memory or in the store. */
  ghost predicate Untouched(s: ScheduleId, c: Core, c': Core) {
    && c'.me == c.me && c'.rows.Keys == c.rows.Keys
    && (forall x | x in c.rows && c.rows[x].schedule == s :: c'.rows[x] == c.rows[x])
    && (forall x | x in c.runtimes && c.runtimes[x].scheduleId == s ::
          x in c'.runtimes && c'.runtimes[x] == c.runtimes[x] && SameTicket(c, c', x))
    && (forall x | x in c'.runtimes && c'.runtimes[x].scheduleId == s ::
          x in c.runtimes && c.runtimes[x].scheduleId == s)
    && (s in c'.overlapped ==> s in c.overlapped)
    && (forall x | x in c'.excused && x !in c.excused :: x in c.rows && c.rows[x].schedule != s)
  }

  lemma UntouchedIsSteady(s: ScheduleId, c: Core, c': Core)
    requires Untouched(s, c, c') && HoldsOn(c, c')
    ensures SteadyAt(s, c, c')
  {
    hide NoneLost, SameTicket;
  }

  lemma UntouchedComposes(s: ScheduleId, c: Core, c1: Core, c2: Core)
    requires Untouched(s, c, c1) && Untouched(s, c1, c2)
    ensures Untouched(s, c, c2)
  {
    forall x | x in c.runtimes && c.runtimes[x].scheduleId == s
      ensures x in c2.runtimes && c2.runtimes[x] == c.runtimes[x] && SameTicket(c, c2, x)
    {
      assert x in c1.runtimes && c1.runtimes[x] == c.runtimes[x];
    }
    hide SameTicket;
  }

  lemma NothingTouched(s: ScheduleId, c: Core)
    ensures Untouched(s, c, c)
  {
  }

  /** Serving another schedule's queue. */
  lemma DrainedElsewhere(s: ScheduleId, t: ScheduleId, k: nat, c: Core, c': Core)
    requires InvOf(c, {}) && DrainedCore(t, k, c, c') && t != s
    ensures Untouched(s, c, c')
  {
    var left := QueueOf(c.queues, t)[..k];
    forall x | x in left
      ensures x in c.runtimes && x in c.rows && c.runtimes[x].scheduleId == t
      ensures x in c'.runtimes ==> c'.runtimes[x].scheduleId == t
      ensures c.rows[x].schedule == s ==> c'.rows[x] == c.rows[x]
    {
      var i :| 0 <= i < k && left[i] == x;
      QueueMemberWaits(c, t, i);
      HeldIn(c, {}, x);
      assert LaunchedAs(c, left[i], c');
    }
    hide InvOf, QueueAdvanced, ServedInOrder;
  }

  lemma EndedElsewhere(s: ScheduleId, id: RunId, k: nat, c: Core, c': Core)
    requires InvOf(c, {}) && Owned(c, id) && c.runtimes[id].scheduleId != s
    requires c.runtimes[id].attempt >= c.runtimes[id].maxAttempts && EndedAndDrained(id, Failed, k, c, c')
    ensures Untouched(s, c, c')
  {
    HeldIn(c, {}, id);
    EndedKeepsInv(c, id, Failed, {}, {});
    var e := Ended(c, id, Failed);
    hide InvOf, RemovedFrom, Drained;
    assert Untouched(s, c, e);
    DrainedElsewhere(s, c.runtimes[id].scheduleId, k, e, c');
    hide Untouched;
    UntouchedComposes(s, c, e, c');
  }

  lemma FailedElsewhere(s: ScheduleId, id: RunId, k: nat, c: Core, c': Core)
    requires InvOf(c, {}) && Owned(c, id) && c.runtimes[id].scheduleId != s
    requires Concluded(id, Fails, k, c, c')
    ensures Untouched(s, c, c')
  {
    if c.runtimes[id].attempt >= c.runtimes[id].maxAttempts {
      hide InvOf, EndedAndDrained, Owned;
      EndedElsewhere(s, id, k, c, c');
    } else {
      HeldIn(c, {}, id);
      hide InvOf;
      assert c'.runtimes - {id} == c.runtimes - {id};
    }
  }

  lemma AdoptedElsewhere(s: ScheduleId, c: Core, id: RunId, listed: Row, phase: Phase, status: Status, now: int)
    requires InvOf(c, {}) && Claims(c, id, now) && Lists(c, id, listed) && listed.schedule != s
    ensures var c1 := Adopted(c, id, listed, phase, status, now);
            Untouched(s, c, c1) && Untouched(s, c, Pushed(c1, id))
            && forall x :: Untouched(s, c, Attributed(c1, x, id, true))
  {
    hide InvOf, Owned, Claimable;
  }

  /** Taking a row of one schedule leaves the others alone. */
  lemma ReconciledElsewhere(s: ScheduleId, id: RunId, listed: Row, recovery: Recovery, dispatchOnly: bool, now: int,
                            k: nat, c: Core, c': Core)
    requires InvOf(c, {}) && (id !in c.runtimes ==> Lists(c, id, listed))
    requires Reconciled(id, listed, recovery, dispatchOnly, now, k, c, c')
    requires Taken(c, id, listed, dispatchOnly, now) ==> listed.schedule != s
    ensures Untouched(s, c, c')
  {
    hide InvOf, Concluded, Adopted, Attributed, Pushed, Lists, Untouched, Claimable;
    if !Taken(c, id, listed, dispatchOnly, now) {
      NothingTouched(s, c);
    } else if listed.dispatch.Some? {
      AdoptedElsewhere(s, c, id, listed, if listed.phase == Some(Queued) then Queued else Executing,
                       if listed.phase == Some(Queued) then Pending else Running, now);
    } else if listed.phase == Some(RetryWait) {
      AdoptedElsewhere(s, c, id, listed, RetryWait, Pending, now);
    } else {
      AdoptedElsewhere(s, c, id, listed, Executing, Running, now);
      match recovery {
        case NoWorkflow => OrphanEndedElsewhere(s, c, id, listed, LostStatus(listed));
        case EndedWorkflow(status) => OrphanEndedElsewhere(s, c, id, listed, status);
        case LiveWorkflow(x) =>
        case FailedWorkflow(x) => AdoptedAndFailedElsewhere(s, c, id, listed, x, now, k, c');
      }
    }
  }

  lemma OrphanEndedElsewhere(s: ScheduleId, c: Core, id: RunId, listed: Row, status: Status)
    requires Lists(c, id, listed) && listed.schedule != s
    ensures Untouched(s, c, OrphanEnded(c, id, listed, status))
  {
  }

  lemma AdoptedAndFailedElsewhere(s: ScheduleId, c: Core, id: RunId, listed: Row, x: ExecutionId, now: int, k: nat,
                                  c': Core)
    requires InvOf(c, {}) && Claims(c, id, now) && Lists(c, id, listed) && listed.schedule != s
    requires Concluded(id, Fails, k, Attributed(Adopted(c, id, listed, Executing, Running, now), x, id, true), c')
    ensures Untouched(s, c, c')
  {
    var c1 := Adopted(c, id, listed, Executing, Running, now);
    var c2 := Attributed(c1, x, id, true);
    AdoptedKeepsInv(c, id, listed, Executing, Running, now);
    AttributedKeepsInv(c1, x, id, true);
    AdoptedElsewhere(s, c, id, listed, Executing, Running, now);
    assert c2.runtimes[id].scheduleId == listed.schedule;
    hide InvOf, Concluded, Untouched, Lists, Claims, Adopted, Attributed;
    FailedElsewhere(s, id, k, c2, c');
    UntouchedComposes(s, c, c2, c');
  }

  /** A sweep over the listing leaves a schedule alone that has no run to be claimed. */
  lemma {:induction false} SweptElsewhere(s: ScheduleId, recoveries: Recoveries, dispatchOnly: bool, now: int, c: Core,
                                          c': Core, w: Sweep, i: nat)
    requires SweepProgress(recoveries, dispatchOnly, now, c, c', w) && InvOf(c, {}) && !Orphaned(c, s, now)
    requires i <= |w.listed|
    ensures Untouched(s, c, w.states[i])
  {
    if i == 0 {
      NothingTouched(s, c);
    } else {
      var id, c1, c2 := w.listed[i - 1], w.states[i - 1], w.states[i];
      assert RowSwept(recoveries, dispatchOnly, now, w, i - 1);
      assert id !in w.listed[..i - 1];
      SweptElsewhere(s, recoveries, dispatchOnly, now, c, c', w, i - 1);
      StillPending(recoveries, dispatchOnly, now, c, c', w, i - 1, id);
      hide SweepProgress, Bystander, Reconciled, InvOf, Orphaned;
      if id !in c1.runtimes { PendingIsListed(c, c1, id); }
      if c.rows[id].schedule == s { NotTaken(s, c, c1, id, dispatchOnly, now); }
      ReconciledElsewhere(s, id, c.rows[id], RecoveryOf(recoveries, id), dispatchOnly, now, w.ks[i - 1], c1, c2);
      hide Untouched;
      UntouchedComposes(s, c, c1, c2);
    }
  }

  lemma NotTaken(s: ScheduleId, c: Core, c1: Core, id: RunId, dispatchOnly: bool, now: int)
    requires InvOf(c, {}) && !Orphaned(c, s, now) && Untouched(s, c, c1)
    requires id in c.rows && c.rows[id].schedule == s && !Terminal(c.rows[id].status)
    ensures !Taken(c1, id, c.rows[id], dispatchOnly, now)
  {
    assert !OrphanRow(c, s, now, id);
    if Owned(c, id) { HeldIn(c, {}, id); }
  }

  lemma NothingLost(c: Core)
    ensures HoldsOn(c, c)
  {
    SameRunsIsSteady(c, c);
    hide NoneLost;
  }

  lemma SteadyHolds(but: set<ScheduleId>, c: Core, c': Core)
    requires SteadyBut(but, c, c')
    ensures HoldsOn(c, c')
  {
  }

  /** An engine that holds its leases starves no schedule. */
  lemma HeldStarvesNone(c: Core, c': Core)
    requires HoldsOn(c, c') && LeasesHeld(c)
    ensures c'.starved == c.starved
  {
    hide Owned, RowsStay;
    forall s | s in c'.starved ensures s in c.starved {
      assert NoneLost(s, c, c') && Lost(c', s);
    }
  }

  // ---------------------------------------------------------------------
  // When a sweep makes runs overlap
  // ---------------------------------------------------------------------

  /** A listed run of `s` that a sweep may adopt as an active one. */
  predicate MayBeActive(recoveries: Recoveries, s: ScheduleId, id: RunId, row: Row) {
    && row.schedule == s && !Terminal(row.status)
    && (row.phase != Some(Queued) || RecoveryOf(recoveries, id).LiveWorkflow?
        || RecoveryOf(recoveries, id).FailedWorkflow?)
  }

  /** There are two of them. */
  ghost predicate Crowded(recoveries: Recoveries, rows: Rows, s: ScheduleId) {
    exists a, b | a in rows && b in rows && a != b ::
      MayBeActive(recoveries, s, a, rows[a]) && MayBeActive(recoveries, s, b, rows[b])
  }

  /** A schedule that had lost no run comes to overlap only if it was crowded. */
  ghost predicate CrowdsOnly(recoveries: Recoveries, c: Core, c': Core) {
    forall s | s in c'.overlapped && s !in c.overlapped :: Lost(c, s) || Crowded(recoveries, c.rows, s)
  }

  /** Some run made the schedule active: one that was active from the start, or one taken so far. */
  ghost predicate ActiveBy(recoveries: Recoveries, s: ScheduleId, c: Core, taken: seq<RunId>) {
    exists a | a in c.rows && MayBeActive(recoveries, s, a, c.rows[a]) ::
      a in taken || (a in c.runtimes && IsActive(c.runtimes[a]))
  }

  lemma ActiveFromStart(recoveries: Recoveries, s: ScheduleId, c: Core, id: RunId)
    requires InvOf(c, {}) && !Lost(c, s)
    requires id in c.runtimes && c.runtimes[id].scheduleId == s && IsActive(c.runtimes[id])
    ensures ActiveBy(recoveries, s, c, [])
  {
    HeldIn(c, {}, id);
    hide InvOf;
    assert MayBeActive(recoveries, s, id, c.rows[id]);
  }

  lemma {:induction false} SweptActivity(s: ScheduleId, recoveries: Recoveries, dispatchOnly: bool, now: int, c: Core,
                                         c': Core, w: Sweep, i: nat)
    requires SweepProgress(recoveries, dispatchOnly, now, c, c', w) && InvOf(c, {}) && !Lost(c, s)
    requires i <= |w.listed|
    ensures Active(w.states[i].runtimes, s) ==> ActiveBy(recoveries, s, c, w.listed[..i])
    ensures s in w.states[i].overlapped ==> s in c.overlapped || Crowded(recoveries, c.rows, s)
  {
    if i == 0 {
      if Active(c.runtimes, s) {
        var id :| id in c.runtimes && c.runtimes[id].scheduleId == s && IsActive(c.runtimes[id]);
        ActiveFromStart(recoveries, s, c, id);
        assert w.listed[..0] == [];
      }
    } else {
      var id, c1, c2 := w.listed[i - 1], w.states[i - 1], w.states[i];
      assert RowSwept(recoveries, dispatchOnly, now, w, i - 1);
      assert id !in w.listed[..i - 1];
      assert w.listed[..i] == w.listed[..i - 1] + [id];
      SweptActivity(s, recoveries, dispatchOnly, now, c, c', w, i - 1);
      StillPending(recoveries, dispatchOnly, now, c, c', w, i - 1, id);
      hide SweepProgress, Reconciled, InvOf, Active, Lost, ActiveBy, Crowded;
      if id !in c1.runtimes { PendingIsListed(c, c1, id); }
      if Taken(c1, id, c.rows[id], dispatchOnly, now) && c.rows[id].schedule == s {
        TakenActivity(recoveries, s, id, RecoveryOf(recoveries, id), dispatchOnly, now, w.ks[i - 1], c, c1, c2,
                      w.listed[..i - 1]);
      } else {
        ReconciledElsewhere(s, id, c.rows[id], RecoveryOf(recoveries, id), dispatchOnly, now, w.ks[i - 1], c1, c2);
        SameActivityUntouched(s, c1, c2);
        MoreTaken(recoveries, s, c, w.listed[..i - 1], id);
      }
    }
  }

  lemma MoreTaken(recoveries: Recoveries, s: ScheduleId, c: Core, taken: seq<RunId>, id: RunId)
    ensures ActiveBy(recoveries, s, c, taken) ==> ActiveBy(recoveries, s, c, taken + [id])
  {
  }

  lemma SameActivityUntouched(s: ScheduleId, c: Core, c': Core)
    requires Untouched(s, c, c')
    ensures Active(c'.runtimes, s) ==> Active(c.runtimes, s)
    ensures s in c'.overlapped ==> s in c.overlapped
  {
  }

  /** One more row of `s` taken: if it is adopted as active beside an active run, two may be active. */
  lemma TakenActivity(recoveries: Recoveries, s: ScheduleId, id: RunId, recovery: Recovery, dispatchOnly: bool,
                      now: int, k: nat, c: Core, c1: Core, c2: Core, taken: seq<RunId>)
    requires id in c.rows && c.rows[id].schedule == s && !Terminal(c.rows[id].status) && id !in taken
    requires recovery == RecoveryOf(recoveries, id) && Bystander(c, c1, id)
    requires Taken(c1, id, c.rows[id], dispatchOnly, now) && Lists(c1, id, c.rows[id])
    requires Reconciled(id, c.rows[id], recovery, dispatchOnly, now, k, c1, c2)
    requires Active(c1.runtimes, s) ==> ActiveBy(recoveries, s, c, taken)
    requires s in c1.overlapped ==> s in c.overlapped || Crowded(recoveries, c.rows, s)
    ensures Active(c2.runtimes, s) ==> ActiveBy(recoveries, s, c, taken + [id])
    ensures s in c2.overlapped ==> s in c.overlapped || Crowded(recoveries, c.rows, s)
  {
    var listed := c.rows[id];
    ReconciledActivity(recoveries, s, id, listed, dispatchOnly, now, k, c1, c2);
    assert id in c.runtimes ==> !IsActive(c.runtimes[id]);
    MoreTaken(recoveries, s, c, taken, id);
    hide Reconciled, Lists, Active, Bystander, MayBeActive, Claimable;
    if MayBeActive(recoveries, s, id, listed) {
      assert ActiveBy(recoveries, s, c, taken + [id]);
      if Active(c1.runtimes, s) {
        var a :| a in c.rows && MayBeActive(recoveries, s, a, c.rows[a])
                 && (a in taken || (a in c.runtimes && IsActive(c.runtimes[a])));
        assert a != id;
        assert Crowded(recoveries, c.rows, s);
      }
    }
  }

  lemma ReconciledActivity(recoveries: Recoveries, s: ScheduleId, id: RunId, listed: Row, dispatchOnly: bool, now: int,
                           k: nat, c: Core, c': Core)
    requires Taken(c, id, listed, dispatchOnly, now) && Lists(c, id, listed) && listed.schedule == s
    requires Reconciled(id, listed, RecoveryOf(recoveries, id), dispatchOnly, now, k, c, c')
    ensures !MayBeActive(recoveries, s, id, listed) ==>
              (Active(c'.runtimes, s) ==> Active(c.runtimes, s)) && c'.overlapped == c.overlapped
    ensures s in c'.overlapped ==> s in c.overlapped || Active(c.runtimes, s)
  {
    var recovery := RecoveryOf(recoveries, id);
    if listed.dispatch.Some? && listed.phase == Some(Queued) {
      AdoptedQueuedActivity(s, c, id, listed, now);
      hide Adopted, Pushed, Active;
    } else if listed.dispatch.Some? || listed.phase == Some(RetryWait) || recovery.LiveWorkflow?
           || recovery.FailedWorkflow? {
      ActiveOverlaps(s, id, listed, recovery, dispatchOnly, now, k, c, c');
      hide Reconciled, Active;
    } else {
      hide Active;
    }
  }

  /** Adopting a run as active makes its schedule overlap only beside an active run. */
  lemma ActiveOverlaps(s: ScheduleId, id: RunId, listed: Row, recovery: Recovery, dispatchOnly: bool, now: int, k: nat,
                       c: Core, c': Core)
    requires Taken(c, id, listed, dispatchOnly, now) && listed.schedule == s
    requires Reconciled(id, listed, recovery, dispatchOnly, now, k, c, c')
    requires listed.dispatch.None? || listed.phase != Some(Queued)
    requires listed.dispatch.Some? || listed.phase == Some(RetryWait) || recovery.LiveWorkflow?
             || recovery.FailedWorkflow?
    ensures s in c'.overlapped ==> s in c.overlapped || Active(c.runtimes, s)
  {
    AdoptedOverlaps(s, c, id, listed, Executing, Running, now);
    AdoptedOverlaps(s, c, id, listed, RetryWait, Pending, now);
    hide Adopted, Active, Claimable, Concluded;
    if recovery.FailedWorkflow? && listed.dispatch.None? && listed.phase != Some(RetryWait) {
      FailedOverlaps(id, k, Attributed(Adopted(c, id, listed, Executing, Running, now), recovery.x, id, true), c');
    }
  }

  lemma AdoptedOverlaps(s: ScheduleId, c: Core, id: RunId, listed: Row, phase: Phase, status: Status, now: int)
    requires id in c.rows && listed.schedule == s
    ensures var c' := Adopted(c, id, listed, phase, status, now);
            id in c'.runtimes && (s in c'.overlapped ==> s in c.overlapped || Active(c.runtimes, s))
  {
  }

  lemma FailedOverlaps(id: RunId, k: nat, c: Core, c': Core)
    requires id in c.runtimes && Concluded(id, Fails, k, c, c')
    ensures c'.overlapped == c.overlapped
  {
    hide Drained;
  }

  lemma AdoptedQueuedActivity(s: ScheduleId, c: Core, id: RunId, listed: Row, now: int)
    requires id in c.rows && id !in c.runtimes
    ensures var c' := Pushed(Adopted(c, id, listed, Queued, Pending, now), id);
            (Active(c'.runtimes, s) ==> Active(c.runtimes, s)) && c'.overlapped == c.overlapped
  {
  }

  // ---------------------------------------------------------------------
  // Whole sweeps
  // ---------------------------------------------------------------------

  /** No run was lost, only schedules with a run to be claimed were disturbed, and only
      crowded ones came to overlap. */
  ghost predicate SweptSteadily(recoveries: Recoveries, now: int, c: Core, c': Core) {
    && HoldsOn(c, c')
    && (forall s | !Orphaned(c, s, now) :: SteadyAt(s, c, c'))
    && CrowdsOnly(recoveries, c, c')
  }

  lemma NothingOrphaned(recoveries: Recoveries, now: int, c: Core)
    ensures SweptSteadily(recoveries, now, c, c)
  {
    NothingIsSteady({}, c);
    hide HoldsOn, SteadyAt;
  }

  /** The rows taken and then the queues served. */
  lemma SweepIsSteady(recoveries: Recoveries, dispatchOnly: bool, now: int, c: Core, c1: Core, w: Sweep, c': Core)
    requires InvOf(c, {}) && SweepProgress(recoveries, dispatchOnly, now, c, c1, w) && w.served == []
    requires HoldsOn(c, c1) && SteadyBut({}, c1, c')
    ensures SweptSteadily(recoveries, now, c, c')
  {
    assert w.states[|w.listed|] == c1;
    hide InvOf, SweepProgress, Orphaned, Untouched, SteadyAt;
    HoldsOnComposes(c, c1, c');
    forall s | !Orphaned(c, s, now) ensures SteadyAt(s, c, c') {
      SweptElsewhere(s, recoveries, dispatchOnly, now, c, c1, w, |w.listed|);
      UntouchedIsSteady(s, c, c1);
      SteadyAtComposes(s, c, c1, c');
    }
    hide HoldsOn, Lost, Crowded;
    forall s | s in c'.overlapped && s !in c.overlapped && !Lost(c, s) ensures Crowded(recoveries, c.rows, s) {
      SweptActivity(s, recoveries, dispatchOnly, now, c, c1, w, |w.listed|);
      OverlappedBefore(s, c1, c');
    }
  }

  lemma OverlappedBefore(s: ScheduleId, c: Core, c': Core)
    requires SteadyBut({}, c, c') && s in c'.overlapped
    ensures s in c.overlapped
  {
    assert SteadyAt(s, c, c');
  }

  /** Leases renewed first: what a sweep may claim then it might have claimed before. */
  lemma RenewedThenSwept(recoveries: Recoveries, now: int, c: Core, mid: Core, c': Core)
    requires SteadyBut({}, c, mid) && LeasesRenewed({}, c, mid) && SweptSteadily(recoveries, now, mid, c')
    ensures SweptSteadily(recoveries, now, c, c')
  {
    forall s | Orphaned(mid, s, now) ensures Orphaned(c, s, now) {
      var id :| id in mid.rows && OrphanRow(mid, s, now, id);
      assert OrphanRow(c, s, now, id);
    }
    forall s | s in c'.overlapped && s !in c.overlapped ensures Lost(c, s) || Crowded(recoveries, c.rows, s) {
      assert s !in mid.overlapped by { hide SteadyBut; }
      assert NoneLost(s, c, mid) by { hide NoneLost; }
      CrowdedBefore(recoveries, s, c, mid);
      hide Lost, Crowded;
    }
    hide HoldsOn, SteadyAt, Orphaned, LeasesRenewed, Lost, Crowded;
    HoldsOnComposes(c, mid, c');
    forall s | !Orphaned(c, s, now) ensures SteadyAt(s, c, c') {
      SteadyAtComposes(s, c, mid, c');
    }
  }

  lemma CrowdedBefore(recoveries: Recoveries, s: ScheduleId, c: Core, mid: Core)
    requires LeasesRenewed({}, c, mid)
    ensures Crowded(recoveries, mid.rows, s) ==> Crowded(recoveries, c.rows, s)
  {
    if Crowded(recoveries, mid.rows, s) {
      var a, b :| a in mid.rows && b in mid.rows && a != b
                  && MayBeActive(recoveries, s, a, mid.rows[a]) && MayBeActive(recoveries, s, b, mid.rows[b]);
      assert MayBeActive(recoveries, s, a, c.rows[a]) && MayBeActive(recoveries, s, b, c.rows[b]);
    }
  }
}
