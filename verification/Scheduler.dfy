/** packages/core/src/scheduler-engine.ts: the L4 scheduler.

    A method is what the source runs between two `await`s. Everything the
    outside world decides (which execution starts, which event arrives, when a
    timer fires) is a parameter of a method or the choice of the next call. */
module Scheduler {
  import opened Wrappers
  import opened Cron
  import opened RunStore
  import opened Fencing
  import opened SchedulerState
  import opened SchedulerSweep
  import opened SchedulerReclaims
  import opened SchedulerSteady

  class SchedulerEngine {
    const me: OwnerId
    const store: RunTable
    /** Whether session and workflow executors were supplied. */
    const hasEngine: bool
    const hasWorkflows: bool

    var runtimes: Runtimes
    var queues: Queues
    var sessionToRun: map<ExecutionId, RunId>
    var workflowToRun: map<ExecutionId, RunId>
    var started: bool
    var disposed: bool
    var dispatchOnly: bool
    /** What was sent to the controller. */
    var emitted: seq<Note>

    /** Runs whose launch was entered: what pending `await`s may continue. */
    var begun: set<RunId>

    /** Order of admission to a queue. */
    ghost var ticket: map<RunId, nat>
    ghost var nextTicket: nat
    /** Schedules that lost a run to another owner or to teardown. */
    ghost var starved: set<ScheduleId>

    constructor (me: OwnerId, store: RunTable, hasEngine: bool, hasWorkflows: bool, dispatchOnly: bool)
      requires StoreInv(store.rows, store.schedules, store.overlapped, store.excused)
      ensures Valid() && !started && this.dispatchOnly == dispatchOnly
      ensures this.me == me && this.store == store && runtimes == map[] && emitted == [] && starved == {}
    {
      this.me, this.store, this.hasEngine, this.hasWorkflows := me, store, hasEngine, hasWorkflows;
      this.dispatchOnly := dispatchOnly;
      runtimes, queues, sessionToRun, workflowToRun := map[], map[], map[], map[];
      started, disposed, emitted := false, false, [];
      ticket, nextTicket, begun, starved := map[], 0, {}, {};
    }

    ghost function View(): Core
      reads this, store
    {
      Core(me, Caps(hasEngine, hasWorkflows), runtimes, queues, sessionToRun, workflowToRun, store.rows,
           store.schedules, store.overlapped, store.excused, ticket, nextTicket, begun, starved)
    }

    /** Holds between calls, whatever other owners did to the store meanwhile. */
    ghost predicate Valid()
      reads this, store
    {
      ValidCore(View())
    }

    // -------------------------------------------------------------------
    // Persistence and ownership
    // -------------------------------------------------------------------

    method SafeEmit(note: Note)
      modifies `emitted
      ensures emitted == if dispatchOnly then old(emitted) else old(emitted) + [note]
    {
      if dispatchOnly { return; }
      emitted := emitted + [note];
    }

    /** `persistRuntime`: the store takes the write only from the row's owner. */
    method PersistRuntime(id: RunId, rt: Runtime, now: int) returns (persisted: bool)
      requires id in store.rows
      requires Fences(store.rows[id], Some(me), rt.ownerEpoch) ==>
                 store.rows[id].schedule == rt.scheduleId && store.rows[id].dispatch == rt.dispatch
      modifies store`rows
      ensures persisted <==> Fences(old(store.rows)[id], Some(me), rt.ownerEpoch)
      ensures store.rows == if persisted then old(store.rows)[id := Record(me, rt, now)] else old(store.rows)
    {
      persisted := store.UpsertRun(id, Record(me, rt, now));
    }

    /** A live run that this engine owns moves on. */
    method Move(id: RunId, rt: Runtime, now: int)
      requires Owned(View(), id) && Mirrors(store.rows[id], runtimes[id], me)
      requires MayMove(runtimes[id], rt)
      modifies `runtimes, store`rows
      ensures View() == Moved(old(View()), id, rt, now)
    {
      runtimes := runtimes[id := rt];
      var persisted := PersistRuntime(id, rt, now);
    }

    method DetachMappings(rt: Runtime)
      modifies `sessionToRun, `workflowToRun
      ensures sessionToRun == Detached(old(sessionToRun), rt.sessionId)
      ensures workflowToRun == Detached(old(workflowToRun), rt.workflowId)
    {
      if rt.sessionId.Some? { sessionToRun := sessionToRun - {rt.sessionId.value}; }
      if rt.workflowId.Some? { workflowToRun := workflowToRun - {rt.workflowId.value}; }
    }

    /** The run leaves this engine's memory. */
    method Forget(id: RunId)
      requires id in runtimes
      modifies `runtimes, `queues, `sessionToRun, `workflowToRun
      ensures View() == Forgotten(old(View()), id)
    {
      hide RemovedFrom;
      var rt := runtimes[id];
      DetachMappings(rt);
      queues := RemovedFrom(queues, rt.scheduleId, id);
      runtimes := runtimes - {id};
    }

    /** Renews the lease; a lost lease drops the run from this engine. */
    method AssertRunOwner(id: RunId, now: int, ghost popped: set<RunId>, ghost but: set<ScheduleId>)
      returns (owned: bool)
      requires InvOf(View(), popped) && popped <= {id}
      requires id in runtimes && BusyBut(View(), but + {runtimes[id].scheduleId})
      modifies `runtimes, `queues, `sessionToRun, `workflowToRun, `starved, store`rows
      ensures owned <==> Owned(old(View()), id)
      ensures View() == if owned then Renewed(old(View()), id, now) else Dropped(old(View()), id)
      ensures owned ==>
                && InvOf(View(), popped) && Owned(View(), id) && Mirrors(store.rows[id], runtimes[id], me)
                && BusyBut(View(), but + {runtimes[id].scheduleId})
      ensures !owned ==> InvOf(View(), {}) && BusyBut(View(), but)
      ensures Told(me, now, false, old(store.rows), emitted, store.rows, emitted)
      ensures SteadyBut({}, old(View()), View())
    {
      hide InvOf, BusyBut, Guarantee, Announced, Told, Forgotten, Mirrors, SteadyBut;
      ghost var c := View();
      HeldIn(c, popped, id);
      var rt := runtimes[id];
      owned := store.RenewRunLease(id, me, rt.ownerEpoch, now + LEASE_MS);
      if owned {
        RenewedIsSteady(c, id, now);
        RenewedKeepsInv(c, id, now, popped, emitted);
        HeldIn(View(), popped, id);
        BusyIsLocal(c, View(), but + {rt.scheduleId});
        return;
      }
      DroppedIsSteady(c, id);
      DroppedKeepsValid(c, id, popped, but);
      GuaranteeOfNothing(me, now, store.rows, emitted);
      Forget(id);
      starved := starved + {rt.scheduleId};
    }

    // -------------------------------------------------------------------
    // Ending runs, draining queues, launching and retrying attempts
    // -------------------------------------------------------------------

    /** The durable end of a run: written first, then announced, then released.
        The store refuses it if another owner has the row. */
    method EndRow(id: RunId, rt: Runtime, emit: bool, now: int) returns (persisted: bool)
      requires id in store.rows && Terminal(rt.status)
      requires Fences(store.rows[id], Some(me), rt.ownerEpoch) ==>
                 store.rows[id].schedule == rt.scheduleId && store.rows[id].dispatch == rt.dispatch
      modifies `emitted, store`rows
      ensures persisted <==> Fences(old(store.rows)[id], Some(me), rt.ownerEpoch)
      ensures store.rows == if persisted then old(store.rows)[id := FinishedRow(rt, rt.status)] else old(store.rows)
      ensures emitted == if persisted && emit && !dispatchOnly then old(emitted) + [RunFinished(id, rt.status)]
              else old(emitted)
    {
      persisted := PersistRuntime(id, rt, now);
      if persisted && emit {
        SafeEmit(RunFinished(id, rt.status));
      }
      if persisted {
        var released := store.ReleaseRun(id, me, rt.ownerEpoch);
      }
    }

    /** `finishRun` up to the drain. */
    method EndRun(id: RunId, status: Status, now: int)
      requires id in runtimes && id in store.rows && !Terminal(runtimes[id].status) && Terminal(status)
      requires Owned(View(), id) ==> Mirrors(store.rows[id], runtimes[id], me)
      modifies `runtimes, `queues, `sessionToRun, `workflowToRun, `emitted, `starved, store`rows
      ensures View() == Finished(old(View()), id, status)
      ensures emitted == if Owned(old(View()), id) && !dispatchOnly then old(emitted) + [RunFinished(id, status)]
              else old(emitted)
    {
      hide Forgotten;
      var rt := runtimes[id].(status := status);
      Forget(id);
      var persisted := EndRow(id, rt, true, now);
      starved := if persisted then starved else starved + {rt.scheduleId};
    }

    /** `finishRun` with `drain: false`. */
    method EndWithoutDrain(id: RunId, status: Status, now: int, ghost popped: set<RunId>, ghost rest: set<RunId>)
      requires InvOf(View(), popped) && id in runtimes && Terminal(status) && rest == popped - {id}
      requires status.Failed? && id !in store.excused ==> runtimes[id].attempt == runtimes[id].maxAttempts
      modifies `runtimes, `queues, `sessionToRun, `workflowToRun, `emitted, `starved, store`rows
      ensures InvOf(View(), rest) && View() == Finished(old(View()), id, status)
      ensures Told(me, now, dispatchOnly, old(store.rows), old(emitted), store.rows, emitted)
      ensures emitted == if Owned(old(View()), id) && !dispatchOnly then old(emitted) + [RunFinished(id, status)]
              else old(emitted)
      ensures SteadyBut({}, old(View()), View())
    {
      hide InvOf, Guarantee, Announced, Told, SteadyBut;
      ghost var c := View();
      HeldIn(c, popped, id);
      FinishedIsSteady(c, id, status);
      FinishedKeepsInv(c, id, status, popped, rest);
      FinishedIsLegal(c, id, status, now, dispatchOnly, emitted,
                      if Owned(c, id) && !dispatchOnly then emitted + [RunFinished(id, status)] else emitted);
      EndRun(id, status, now);
    }

    /** `but` are the schedules whose queues are still to be served by the caller. */
    method FinishRun(id: RunId, status: Status, now: int, ghost popped: set<RunId>, ghost but: set<ScheduleId>)
      returns (ghost k: nat)
      requires !disposed && InvOf(View(), popped) && popped <= {id}
      requires Owned(View(), id) && Terminal(status)
      requires BusyBut(View(), but + {runtimes[id].scheduleId})
      requires status.Failed? && id !in store.excused ==> runtimes[id].attempt == runtimes[id].maxAttempts
      modifies `runtimes, `queues, `sessionToRun, `workflowToRun, `emitted, `begun, `starved, store`rows
      decreases |QueueOf(queues, runtimes[id].scheduleId)|, 1
      ensures InvOf(View(), {}) && BusyBut(View(), but)
      ensures EndedAndDrained(id, status, k, old(View()), View())
      ensures Told(me, now, dispatchOnly, old(store.rows), old(emitted), store.rows, emitted)
      ensures SteadyBut({}, old(View()), View())
    {
      hide InvOf, BusyBut, Guarantee, Announced, Told, RemovedFrom, Drained, SteadyBut;
      ghost var c := View();
      EndedStaysBusyElsewhere(c, id, status, but);
      HeldIn(c, popped, id);
      QueueShrinks(c, id, popped);
      var s := runtimes[id].scheduleId;
      EndWithoutDrain(id, status, now, popped, {});
      ghost var c1, n1 := View(), emitted;
      k := DrainQueue(s, now, but);
      ToldComposes(me, now, dispatchOnly, c.rows, old(emitted), c1.rows, n1, store.rows, emitted);
      SteadyComposes({}, c, c1, View());
      EndedRowStays(id, s, k, c1, View());
    }

    /** Serves the schedule's queue unless a run of it is active. */
    method DrainQueue(s: ScheduleId, now: int, ghost but: set<ScheduleId>) returns (ghost k: nat)
      requires !disposed && InvOf(View(), {}) && BusyBut(View(), but + {s})
      modifies `runtimes, `queues, `sessionToRun, `workflowToRun, `emitted, `begun, `starved, store`rows
      decreases |QueueOf(queues, s)|, 0
      ensures InvOf(View(), {}) && BusyBut(View(), but)
      ensures DrainedCore(s, k, old(View()), View())
      ensures Told(me, now, dispatchOnly, old(store.rows), old(emitted), store.rows, emitted)
      ensures SteadyBut({}, old(View()), View())
    {
      ghost var c := View();
      k := 0;
      if Active(runtimes, s) || s !in queues {
        NothingToDrain(c, s, but);
        SameRunsIsSteady(c, c);
        GuaranteeOfNothing(me, now, store.rows, emitted);
        return;
      }
      // The source skips queue entries that are no longer queued; QueueExact says there are none.
      hide InvOf, BusyBut, Guarantee, Announced, Drained, Popped, Stays, SteadyBut;
      QueuesAreNotEmpty(c, s);
      PoppedKeepsInv(c, s);
      PoppedKeepsBusy(c, s, but);
      HeadIsForemost(c, s);
      var id := queues[s][0];
      queues := Popped(queues, s);
      ghost var c1 := View();
      k := LaunchAttempt(id, now, {id}, but);
      SameRunsIsSteady(c, c1);
      SteadyComposes({}, c, c1, View());
      HeadDrained(s, id, k, c, c1, View());
      k := if EndsOnLaunch(c, id) then k + 1 else 1;
    }

    /** The part of `launchAttempt` before its first `await`. */
    method LaunchAttempt(id: RunId, now: int, ghost popped: set<RunId>, ghost but: set<ScheduleId>)
      returns (ghost k: nat)
      requires !disposed && InvOf(View(), popped) && MayLaunch(View(), id, popped) && Foremost(View(), id)
      requires BusyBut(View(), but + {runtimes[id].scheduleId})
      modifies `runtimes, `queues, `sessionToRun, `workflowToRun, `emitted, `begun, `starved, store`rows
      decreases |QueueOf(queues, runtimes[id].scheduleId)|, 3
      ensures InvOf(View(), {}) && BusyBut(View(), but)
      ensures LaunchOutcome(id, k, old(View()), View())
      ensures Told(me, now, dispatchOnly, old(store.rows), old(emitted), store.rows, emitted)
      ensures SteadyBut({}, old(View()), View())
    {
      hide InvOf, BusyBut, Guarantee, Announced, LaunchOutcome, EndedAndDrained, QueueOf, RemovedFrom, Mirrors,
           SteadyBut;
      ghost var c, n := View(), emitted;
      NotQueued(c, id, popped);
      k := 0;
      var owned := AssertRunOwner(id, now, popped, but);
      if !owned {
        LaunchLost(id, c);
        return;
      }
      ghost var c1 := View();
      var s := runtimes[id].scheduleId;
      if s !in store.schedules || !store.schedules[s].enabled {
        k := FinishRun(id, Cancelled, now, popped, but);
        ToldComposes(me, now, dispatchOnly, c.rows, n, c1.rows, n, store.rows, emitted);
        SteadyComposes({}, c, c1, View());
        LaunchEnded(id, Cancelled, k, c, c1, View());
        return;
      }
      k := StartAttempt(id, store.schedules[s], now, popped, but, c);
      SteadyComposes({}, c, c1, View());
      ToldComposes(me, now, dispatchOnly, c.rows, n, c1.rows, n, store.rows, emitted);
    }

    /** `launchAttempt` once ownership and schedule are checked; `c` is the state before the check. */
    method StartAttempt(id: RunId, schedule: Schedule, now: int, ghost popped: set<RunId>, ghost but: set<ScheduleId>,
                        ghost c: Core)
      returns (ghost k: nat)
      requires !disposed && InvOf(View(), popped) && MayLaunch(View(), id, popped) && Foremost(View(), id)
      requires Owned(c, id) && Owned(View(), id) && View() == Renewed(c, id, now)
      requires c.runtimes[id].scheduleId in c.schedules && schedule == c.schedules[c.runtimes[id].scheduleId]
               && schedule.enabled
      requires id !in QueueOf(queues, runtimes[id].scheduleId)
      requires BusyBut(View(), but + {runtimes[id].scheduleId})
      modifies `runtimes, `queues, `sessionToRun, `workflowToRun, `emitted, `begun, `starved, store`rows
      decreases |QueueOf(queues, runtimes[id].scheduleId)|, 2, 2
      ensures InvOf(View(), {}) && BusyBut(View(), but)
      ensures LaunchOutcome(id, k, c, View())
      ensures Told(me, now, dispatchOnly, old(store.rows), old(emitted), store.rows, emitted)
      ensures SteadyBut({}, old(View()), View())
    {
      hide InvOf, BusyBut, Guarantee, Announced, Drained, LaunchOutcome, EndedAndDrained, QueueOf, Startable, SteadyBut;
      ghost var c1, n := View(), emitted;
      HeldIn(c1, popped, id);
      AttemptBegunKeepsInv(c1, id, schedule, now, popped, emitted);
      var rt := BegunRuntime(runtimes[id], schedule);
      MovedIsSteady(c1, id, rt, now);
      Move(id, rt, now);
      ghost var c2 := View();
      MovedOnStaysBusy(id, c1, c2, but);
      if !Startable(Caps(hasEngine, hasWorkflows), rt, schedule) {
        k := FailAttempt(id, now, but);
        ToldComposes(me, now, dispatchOnly, c1.rows, n, c2.rows, n, store.rows, emitted);
        SteadyComposes({}, c1, c2, View());
        StartFailed(id, schedule, now, k, c, c1, View());
        return;
      }
      k := 0;
      StartsAndStays(c, id, schedule);
      Launch(id, now, but, c1);
      ToldComposes(me, now, dispatchOnly, c1.rows, n, c2.rows, n, store.rows, emitted);
      SteadyComposes({}, c1, c2, View());
      Started(id, c, c1, View());
    }

    /** A dispatched run is handed to the controller at once; any other awaits its execution. */
    method Launch(id: RunId, now: int, ghost but: set<ScheduleId>, ghost c: Core)
      requires InvOf(View(), {}) && id in runtimes && IsActive(runtimes[id]) && Owned(View(), id)
      requires id in c.runtimes && MovedOn(id, c, View()) && BusyBut(c, but + {c.runtimes[id].scheduleId})
      modifies `runtimes, `emitted, `begun, store`rows
      ensures InvOf(View(), {}) && BusyBut(View(), but) && MovedOn(id, c, View())
      ensures runtimes[id].attempt == old(runtimes)[id].attempt
      ensures Told(me, now, dispatchOnly, old(store.rows), old(emitted), store.rows, emitted)
      ensures SteadyBut({}, old(View()), View())
    {
      hide InvOf, BusyBut, Guarantee, Announced, MovedOn, SteadyBut;
      ghost var c1 := View();
      if runtimes[id].dispatch.Some? {
        MarkRunning(id, now);
        MovedOnTwice(id, c, c1, View());
      } else {
        SameRunsIsSteady(c1, c1.(begun := c1.begun + {id}));
        BegunKeepsInv(c1, id);
        BegunMovesOn(id, c, c1);
        GuaranteeOfNothing(me, now, store.rows, emitted);
        begun := begun + {id};
      }
      MovedOnIsBusy(id, c, View(), but);
    }

    /** The run counts as running from here on. */
    method MarkRunning(id: RunId, now: int)
      requires InvOf(View(), {}) && id in runtimes && IsActive(runtimes[id])
      modifies `runtimes, `emitted, store`rows
      ensures View() == Executed(old(View()), id, now)
      ensures emitted == if dispatchOnly then old(emitted) else old(emitted) + [RunStarted(id)]
      ensures InvOf(View(), {}) && (Owned(old(View()), id) ==> MovedOn(id, old(View()), View()))
      ensures id in runtimes && runtimes[id].attempt == old(runtimes)[id].attempt
      ensures Told(me, now, false, old(store.rows), old(emitted), store.rows, emitted)
      ensures SteadyBut({}, old(View()), View())
    {
      hide InvOf, Guarantee, Announced, Told, MovedOn, Record, Mirrors, SteadyBut;
      HeldIn(View(), {}, id);
      ExecutedIsSteady(View(), id, now);
      ExecutedKeepsInv(View(), id, now, emitted, if dispatchOnly then emitted else emitted + [RunStarted(id)]);
      Execute(id, now);
      SafeEmit(RunStarted(id));
    }

    method Execute(id: RunId, now: int)
      requires id in runtimes && id in store.rows
      requires Owned(View(), id) ==> Mirrors(store.rows[id], runtimes[id], me)
      modifies `runtimes, store`rows
      ensures View() == Executed(old(View()), id, now)
    {
      var rt := runtimes[id].(phase := Executing, status := Running);
      runtimes := runtimes[id := rt];
      var persisted := PersistRuntime(id, rt, now);
    }

    /** A failed attempt waits for its retry, or was the last and ends the run. */
    method FailAttempt(id: RunId, now: int, ghost but: set<ScheduleId>) returns (ghost k: nat)
      requires !disposed && InvOf(View(), {})
      requires id in runtimes && IsActive(runtimes[id])
      requires BusyBut(View(), but + {runtimes[id].scheduleId})
      modifies `runtimes, `queues, `sessionToRun, `workflowToRun, `emitted, `begun, `starved, store`rows
      decreases |QueueOf(queues, runtimes[id].scheduleId)|, 2, 1
      ensures InvOf(View(), {}) && BusyBut(View(), but)
      ensures Told(me, now, dispatchOnly, old(store.rows), old(emitted), store.rows, emitted)
      ensures if Owned(old(View()), id) then FailOutcome(id, k, old(View()), View())
              else k == 0 && View() == Dropped(old(View()), id)
      ensures SteadyBut({}, old(View()), View())
    {
      hide InvOf, BusyBut, Guarantee, Announced, Drained, EndedAndDrained, MovedOn, QueueOf, SteadyBut;
      ghost var c, n := View(), emitted;
      k := 0;
      var owned := AssertRunOwner(id, now, {}, but);
      if !owned { return; }
      ghost var c1 := View();
      k := FailOwned(id, now, but);
      ToldComposes(me, now, dispatchOnly, c.rows, n, c1.rows, n, store.rows, emitted);
      SteadyComposes({}, c, c1, View());
      FailedFromRenewed(id, k, c, now, View());
    }

    /** `failAttempt` once ownership is checked. */
    method FailOwned(id: RunId, now: int, ghost but: set<ScheduleId>) returns (ghost k: nat)
      requires !disposed && InvOf(View(), {})
      requires Owned(View(), id) && IsActive(runtimes[id])
      requires BusyBut(View(), but + {runtimes[id].scheduleId})
      modifies `runtimes, `queues, `sessionToRun, `workflowToRun, `emitted, `begun, `starved, store`rows
      decreases |QueueOf(queues, runtimes[id].scheduleId)|, 2, 0
      ensures InvOf(View(), {}) && BusyBut(View(), but)
      ensures Told(me, now, dispatchOnly, old(store.rows), old(emitted), store.rows, emitted)
      ensures FailOutcome(id, k, old(View()), View())
      ensures SteadyBut({}, old(View()), View())
    {
      hide InvOf, BusyBut, Guarantee, Announced, Drained, EndedAndDrained, MovedOn, QueueOf, SteadyBut;
      ghost var c := View();
      k := 0;
      var rt := runtimes[id];
      DetachMappings(rt);
      DetachedKeepsInv(c, rt.sessionId, rt.workflowId, {});
      ghost var c2 := View();
      BusyIsLocal(c, c2, but + {rt.scheduleId});
      HeldIn(c2, {}, id);
      SameRunsIsSteady(c, c2);
      if rt.attempt < rt.maxAttempts {
        rt := rt.(status := Pending, phase := RetryWait, sessionId := None, workflowId := None);
        MovedIsSteady(c2, id, rt, now);
        MovedKeepsInv(c2, id, rt, now, {}, {});
        MovedIsLegal(c2, id, rt, now, emitted, emitted);
        Move(id, rt, now);
        SteadyComposes({}, c, c2, View());
        FailureWaits(id, c, c2, rt, now);
        MovedOnIsBusy(id, c, View(), but);
      } else {
        k := FinishRun(id, Failed, now, {}, but);
        SteadyComposes({}, c, c2, View());
        EndingsAgree(id, Failed, k, c, c2, View());
      }
    }

    // -------------------------------------------------------------------
    // Schedules
    // -------------------------------------------------------------------

    /** `cancelQueued`: waiting runs end cancelled, active runs go on. */
    method CancelQueued(s: ScheduleId, now: int)
      requires Valid()
      modifies `runtimes, `queues, `sessionToRun, `workflowToRun, `emitted, `starved, store`rows
      ensures Valid() && QueueCancelled(s, old(View()), View())
      ensures Guarantee(me, now, old(store.rows), old(emitted), store.rows, emitted)
      ensures SteadyBut({}, old(View()), View())
    {
      hide InvOf, BusyBut, Guarantee, Announced, RemovedFrom, CancelProgress, Ended, QueueOf, QueueCancelled, SteadyBut;
      ghost var c, n := View(), emitted;
      var ids := QueueOf(queues, s);
      CancelStart(s, c);
      queues := queues - {s};
      SameRunsIsSteady(c, View());
      GuaranteeOfNothing(me, now, store.rows, emitted);
      assert ids[0..] == ids;
      for i := 0 to |ids|
        invariant InvOf(View(), Elements(ids[i..]))
        invariant SteadyBut({}, c, View())
        invariant CancelProgress(s, ids[..i], c, View())
        invariant Guarantee(me, now, c.rows, n, store.rows, emitted)
      {
        ghost var c1, n1 := View(), emitted;
        var id := ids[i];
        NoDuplicates(c, {}, s, i);
        StillWaiting(s, i, c, c1);
        if id in runtimes && runtimes[id].phase.Queued? {
          EndWithoutDrain(id, Cancelled, now, Elements(ids[i..]), Elements(ids[i + 1..]));
          SteadyComposes({}, c, c1, View());
          GuaranteeComposes(me, now, c.rows, n, c1.rows, n1, store.rows, emitted);
        }
        CancelStep(s, ids, i, c, c1, View());
      }
      assert ids[..|ids|] == ids;
      assert Elements(ids[|ids|..]) == {};
      CancelDone(s, c, View());
    }

    /** `update` once the patched schedule is known: waiting runs go on waiting only
        for an enabled schedule that queues. `but` is the schedule if it may overlap from here on. */
    method Reschedule(s: ScheduleId, schedule: Schedule, now: int, ghost but: set<ScheduleId>)
      requires Valid()
      requires schedule.trigger.CronTrigger? ==> WellFormed(schedule.trigger.cron)
      requires schedule.overlap.Allow? ==> s in store.overlapped || s in but
      modifies `runtimes, `queues, `sessionToRun, `workflowToRun, `emitted, `starved, store`rows, store`schedules,
               store`overlapped
      ensures Valid() && SteadyBut(but, old(View()), View())
      ensures Guarantee(me, now, old(store.rows), old(emitted), store.rows, emitted)
      ensures if schedule.enabled && schedule.overlap.Queue? then View() == WithSchedule(old(View()), s, schedule)
              else QueueCancelled(s, WithSchedule(old(View()), s, schedule), View())
      ensures old(store.overlapped) <= store.overlapped
    {
      hide InvOf, BusyBut, Guarantee, Announced, WellFormed, SteadyBut;
      ghost var c := View();
      GuaranteeOfNothing(me, now, store.rows, emitted);
      ScheduleKeepsValid(c, s, schedule);
      WithScheduleIsSteady(c, s, schedule, but);
      store.UpsertSchedule(s, schedule);
      ghost var c1 := View();
      if !schedule.enabled || !schedule.overlap.Queue? {
        CancelQueued(s, now);
        SteadyWeakens({}, but, c1, View());
        SteadyComposes(but, c, c1, View());
      }
    }

    /** The schedule `update` stores, its cron cursor computed afresh. */
    method WithPatch(existing: Schedule, patch: Patch, now: int) returns (schedule: Schedule)
      requires patch.trigger.Some? && patch.trigger.value.CronTrigger? ==> WellFormed(patch.trigger.value.cron)
      requires existing.trigger.CronTrigger? ==> WellFormed(existing.trigger.cron)
      ensures schedule == Patched(existing, patch, now)
      ensures schedule.trigger.CronTrigger? ==> WellFormed(schedule.trigger.cron)
    {
      hide NextFire, WellFormed;
      var trigger := patch.trigger.GetOr(existing.trigger);
      var enabled := patch.enabled.GetOr(existing.enabled);
      var nextRunAt: Option<int> := None;
      if enabled && trigger.CronTrigger? {
        var next, _ := NextCronAfter(trigger.cron, trigger.offset, now);
        nextRunAt := next;
      }
      var policy := patch.policy.GetOr(Policy(existing.overlap, existing.maxRetries));
      return Schedule(enabled, trigger, patch.target.GetOr(existing.target), policy.overlap, policy.maxRetries,
                      nextRunAt);
    }

    method Update(s: ScheduleId, patch: Patch, now: int) returns (ok: bool)
      requires Valid()
      requires patch.trigger.Some? && patch.trigger.value.CronTrigger? ==> WellFormed(patch.trigger.value.cron)
      modifies `runtimes, `queues, `sessionToRun, `workflowToRun, `emitted, `starved, store`rows, store`schedules,
               store`overlapped
      ensures Valid()
      ensures Guarantee(me, now, old(store.rows), old(emitted), store.rows, emitted)
      ensures ok <==> s in old(store.schedules)
                      && (patch.trigger.Some? && patch.trigger.value.CronTrigger? ==>
                            NextFire(patch.trigger.value.cron, patch.trigger.value.offset, now).Some?)
      ensures !ok ==> View() == old(View())
      ensures ok ==>
                var schedule := Patched(old(store.schedules)[s], patch, now);
                if schedule.enabled && schedule.overlap.Queue? then View() == WithSchedule(old(View()), s, schedule)
                else QueueCancelled(s, WithSchedule(old(View()), s, schedule), View())
      ensures old(store.overlapped) <= store.overlapped
      ensures SteadyBut(if Allows(patch) then {s} else {}, old(View()), View())
    {
      hide InvOf, BusyBut, Guarantee, Announced, NextFire, WellFormed, SteadyBut, QueueCancelled, WithSchedule, Patched;
      ghost var c, but := View(), if Allows(patch) then {s} else {};
      NothingIsSteady(but, c);
      GuaranteeOfNothing(me, now, store.rows, emitted);
      if s !in store.schedules {
        return false;
      }
      var existing := store.schedules[s];
      if patch.trigger.Some? && patch.trigger.value.CronTrigger? {
        var fires, _ := NextCronAfter(patch.trigger.value.cron, patch.trigger.value.offset, now);
        if fires.None? {
          return false;
        }
      }
      CronIsWellFormed(c, s);
      var schedule := WithPatch(existing, patch, now);
      PatchAllows(c, s, patch, now);
      Reschedule(s, schedule, now, but);
      return true;
    }

    /** Ends every run of the schedule and forgets it. */
    method Delete(s: ScheduleId, now: int) returns (deleted: bool)
      requires Valid()
      modifies `runtimes, `queues, `sessionToRun, `workflowToRun, `emitted, `starved, store`rows, store`schedules
      ensures Valid()
      ensures Guarantee(me, now, old(store.rows), old(emitted), store.rows, emitted)
      ensures deleted <==> s in old(store.schedules)
      ensures !deleted ==> View() == old(View())
      ensures deleted ==>
                && store.schedules == old(store.schedules) - {s} && s !in queues
                && RunsCancelled(s, RunsOf(old(runtimes), s), old(View()).(schedules := store.schedules), View())
      ensures SteadyBut({}, old(View()), View())
    {
      hide InvOf, BusyBut, Guarantee, Announced, RunsCancelled, SteadyBut;
      ghost var c := View();
      if s !in store.schedules {
        SameRunsIsSteady(c, c);
        GuaranteeOfNothing(me, now, store.rows, emitted);
        return false;
      }
      EndAll(s, now);
      ghost var c1 := View();
      assert queues - {s} == queues;
      queues := queues - {s};
      store.DeleteSchedule(s);
      SameRunsIsSteady(c1, View());
      SteadyComposes({}, c, c1, View());
      ScheduleGone(c1, s);
      SchedulesDoNotMatter(s, RunsOf(c.runtimes, s), c, c1, View());
      return true;
    }

    /** The loop of `delete`. */
    method EndAll(s: ScheduleId, now: int)
      requires Valid()
      modifies `runtimes, `queues, `sessionToRun, `workflowToRun, `emitted, `starved, store`rows
      ensures Valid() && s !in queues
      ensures RunsCancelled(s, RunsOf(old(runtimes), s), old(View()), View())
      ensures Guarantee(me, now, old(store.rows), old(emitted), store.rows, emitted)
      ensures SteadyBut({}, old(View()), View())
    {
      hide InvOf, BusyBut, Guarantee, Announced, RemovedFrom, Ended, RunsCancelled, SteadyBut,
           Finished, Dropped, Mirrors;
      ghost var c, n := View(), emitted;
      ghost var all := RunsOf(runtimes, s);
      GuaranteeOfNothing(me, now, store.rows, emitted);
      var left := RunsOf(runtimes, s);
      NothingCancelled(s, c);
      SameRunsIsSteady(c, c);
      while left != {}
        invariant left <= all && InvOf(View(), {})
        invariant SteadyBut({}, c, View())
        invariant RunsCancelled(s, all - left, c, View())
        invariant Guarantee(me, now, c.rows, n, store.rows, emitted)
        decreases |left|
      {
        var id := Pick(left);
        ghost var c1, n1 := View(), emitted;
        StillListed(s, all - left, id, c, c1);
        EndWithoutDrain(id, Cancelled, now, {}, {});
        GuaranteeComposes(me, now, c.rows, n, c1.rows, n1, store.rows, emitted);
        SteadyComposes({}, c, c1, View());
        OneMoreCancelled(s, all - left, id, c, c1);
        assert all - (left - {id}) == (all - left) + {id};
        left := left - {id};
      }
      assert all - {} == all;
      AllCancelledIsValid(s, c, View());
    }

    // -------------------------------------------------------------------
    // Triggering
    // -------------------------------------------------------------------

    /** `launchRun`: `healthy` is the persistence admission check, `allowed` the
        local policy's answer, `nextRunAt` the cron cursor to commit with the run. */
    method LaunchRun(s: ScheduleId, id: RunId, nextRunAt: Option<int>, healthy: bool, allowed: bool, now: int)
      returns (r: Admission, ghost k: nat)
      requires Valid() && s in store.schedules && id !in store.rows
      modifies `runtimes, `queues, `sessionToRun, `workflowToRun, `emitted, `begun, `starved, `ticket, `nextTicket
      modifies store`rows, store`schedules, store`overlapped
      ensures Valid()
      ensures TriggerOutcome(s, id, r, k, nextRunAt, now, old(View()), View())
      ensures Guarantee(me, now, old(store.rows), old(emitted), store.rows, emitted)
      ensures r.Unavailable? ==> !healthy || disposed
      ensures r.Denied? ==>
                !allowed || Expired(old(store.schedules)[s], now)
                    || (dispatchOnly && !old(store.schedules)[s].target.DispatchTarget?)
      ensures !disposed && healthy && allowed && !dispatchOnly && !Expired(old(store.schedules)[s], now) ==>
                !r.Denied? && !r.Unavailable?
      ensures old(store.overlapped) <= store.overlapped
      ensures SteadyBut({}, old(View()), View())
    {
      hide InvOf, BusyBut, Guarantee, Announced, LaunchOutcome, QueueCancelled, Admitted, Pushed, SteadyBut;
      k := 0;
      NothingIsSteady({}, View());
      GuaranteeOfNothing(me, now, store.rows, emitted);
      var schedule := store.schedules[s];
      if disposed {
        return Unavailable, 0;
      }
      if dispatchOnly && !schedule.target.DispatchTarget? {
        return Denied, 0;
      }
      if Expired(schedule, now) {
        ghost var c := View();
        var ok := Update(s, Patch(Some(false), None, None, None), now);
        OverlapKnown(c, s);
        DisabledByUpdate(s, now, c, View());
        return Denied, 0;
      }
      if !healthy {
        return Unavailable, 0;
      }
      if !allowed {
        return Denied, 0;
      }
      var active := Active(runtimes, s);
      if Saturated(schedule, store.rows, s) || (active && schedule.overlap.Skip?) {
        PersistSkipped(s, id, nextRunAt, now);
        return SkippedRun, 0;
      }
      if active && schedule.overlap.Queue? {
        Enqueue(s, id, nextRunAt, now);
        return QueuedRun, 0;
      }
      k := Admit(s, id, nextRunAt, now);
      return LaunchedRun, k;
    }

    method PersistSkipped(s: ScheduleId, id: RunId, nextRunAt: Option<int>, now: int)
      requires Valid() && s in store.schedules && id !in store.rows
      modifies `emitted, store`rows, store`schedules
      ensures Valid()
      ensures View() == old(View()).(rows := old(store.rows)[id := SkippedRow(s, old(store.schedules)[s])],
                                     schedules := CursorMoved(old(store.schedules), s, nextRunAt))
      ensures Guarantee(me, now, old(store.rows), old(emitted), store.rows, emitted)
      ensures SteadyBut({}, old(View()), View())
    {
      hide InvOf, BusyBut, Guarantee, Announced, SteadyBut;
      var row := SkippedRow(s, store.schedules[s]);
      SkippedKeepsInv(View(), id, row, nextRunAt, now, emitted,
                      if dispatchOnly then emitted else emitted + [RunFinished(id, Skipped)]);
      ghost var c := View();
      PersistNew(id, row, nextRunAt);
      SafeEmit(RunFinished(id, Skipped));
      FinishedRowIsSteady(c, id, row, View());
    }

    /** A new row, with the cron cursor in the same transaction if there is one. */
    method PersistNew(id: RunId, row: Row, nextRunAt: Option<int>)
      requires row.schedule in store.schedules && id !in store.rows
      modifies store`rows, store`schedules
      ensures store.rows == old(store.rows)[id := row]
      ensures store.schedules == CursorMoved(old(store.schedules), row.schedule, nextRunAt)
    {
      if nextRunAt.Some? {
        var accepted := store.AcceptCronRun(id, row, nextRunAt.value);
      } else {
        var persisted := store.UpsertRun(id, row);
      }
    }

    method CreateRuntime(s: ScheduleId, id: RunId, phase: Phase, nextRunAt: Option<int>, now: int)
      requires s in store.schedules && id !in store.rows
      modifies `runtimes, store`rows, store`schedules
      ensures View() == Admitted(old(View()), id, NewRuntime(s, old(store.schedules)[s], phase), nextRunAt, now)
    {
      var rt := NewRuntime(s, store.schedules[s], phase);
      PersistNew(id, Record(me, rt, now), nextRunAt);
      runtimes := runtimes[id := rt];
    }

    /** The run goes to the end of its schedule's queue. */
    method JoinQueue(id: RunId)
      requires id in runtimes
      modifies `queues, `ticket, `nextTicket
      ensures View() == Pushed(old(View()), id)
    {
      var s := runtimes[id].scheduleId;
      queues := queues[s := QueueOf(queues, s) + [id]];
      ticket, nextTicket := ticket[id := nextTicket], nextTicket + 1;
    }

    method Enqueue(s: ScheduleId, id: RunId, nextRunAt: Option<int>, now: int)
      requires Valid() && s in store.schedules && id !in store.rows && Active(runtimes, s)
      modifies `runtimes, `queues, `ticket, `nextTicket, store`rows, store`schedules
      ensures Valid()
      ensures View() == Pushed(Admitted(old(View()), id, NewRuntime(s, old(store.schedules)[s], Queued), nextRunAt,
                                        now), id)
      ensures Guarantee(me, now, old(store.rows), old(emitted), store.rows, emitted)
      ensures SteadyBut({}, old(View()), View())
    {
      hide InvOf, BusyBut, Guarantee, Announced, SteadyBut;
      ghost var c := View();
      var rt := NewRuntime(s, store.schedules[s], Queued);
      NewIsNotHeld(c, id);
      AdmittedKeepsInv(c, id, rt, nextRunAt, now, emitted);
      CreateRuntime(s, id, Queued, nextRunAt, now);
      ghost var c1 := View();
      PushedKeepsInv(c1, id);
      JoinQueue(id);
      NewRunIsSteady(c, id, rt, View());
      PushedStaysBusy(c, c1, id, rt, nextRunAt, now);
    }

    method Admit(s: ScheduleId, id: RunId, nextRunAt: Option<int>, now: int) returns (ghost k: nat)
      requires Valid() && !disposed && s in store.schedules && id !in store.rows
      requires Active(runtimes, s) ==> store.schedules[s].overlap.Allow?
      modifies `runtimes, `queues, `sessionToRun, `workflowToRun, `emitted, `begun, `starved, store`rows,
               store`schedules
      ensures Valid()
      ensures LaunchOutcome(id, k,
                            Admitted(old(View()), id, NewRuntime(s, old(store.schedules)[s], Launching), nextRunAt,
                                     now), View())
      ensures Guarantee(me, now, old(store.rows), old(emitted), store.rows, emitted)
      ensures SteadyBut({}, old(View()), View())
    {
      hide InvOf, BusyBut, Guarantee, Announced, LaunchOutcome, SteadyBut;
      ghost var c, n := View(), emitted;
      var rt := NewRuntime(s, store.schedules[s], Launching);
      NewIsNotHeld(c, id);
      AdmittedKeepsInv(c, id, rt, nextRunAt, now, emitted);
      AdmittedStaysBusy(c, id, rt, nextRunAt, now);
      CreateRuntime(s, id, Launching, nextRunAt, now);
      ghost var c1 := View();
      BusyWeakens(c1, {}, s);
      NewRunIsSteady(c, id, rt, c1);
      k := LaunchAttempt(id, now, {}, {});
      SteadyComposes({}, c, c1, View());
      GuaranteeComposes(me, now, c.rows, n, c1.rows, n, store.rows, emitted);
    }

    // -------------------------------------------------------------------
    // Events, timers and callers that decide about a live run
    // -------------------------------------------------------------------

    /** `assertRunOwner` and then `finishRun` or `failAttempt`. */
    method Conclude(id: RunId, verdict: Verdict, now: int) returns (ghost k: nat)
      requires Valid() && !disposed && id in runtimes
      requires verdict.Fails? ==> IsActive(runtimes[id])
      requires verdict.Ends? ==> Terminal(verdict.status)
      requires verdict == Ends(Failed) ==> id in store.excused
      modifies `runtimes, `queues, `sessionToRun, `workflowToRun, `emitted, `begun, `starved, store`rows
      ensures Valid()
      ensures Concluded(id, verdict, k, old(View()), View())
      ensures Guarantee(me, now, old(store.rows), old(emitted), store.rows, emitted)
      ensures SteadyBut({}, old(View()), View())
    {
      hide InvOf, BusyBut, Guarantee, Announced, Mirrors, RemovedFrom, EndedAndDrained, FailOutcome, SteadyBut;
      ghost var c, n := View(), emitted;
      k := 0;
      BusyWeakens(c, {}, runtimes[id].scheduleId);
      var owned := AssertRunOwner(id, now, {}, {});
      if !owned { return; }
      ghost var c1 := View();
      match verdict {
        case Ends(status) => k := FinishRun(id, status, now, {}, {});
        case Fails => k := FailAttempt(id, now, {});
      }
      GuaranteeComposes(me, now, c.rows, n, c1.rows, n, store.rows, emitted);
      SteadyComposes({}, c, c1, View());
      ConcludedFromRenewed(id, verdict, k, c, now, View());
    }

    /** `assertRunOwner` on its own. */
    method Recheck(id: RunId, now: int)
      requires Valid() && id in runtimes
      modifies `runtimes, `queues, `sessionToRun, `workflowToRun, `starved, store`rows
      ensures Valid() && View() == Rechecked(old(View()), id, now)
      ensures Told(me, now, false, old(store.rows), emitted, store.rows, emitted)
      ensures SteadyBut({}, old(View()), View())
    {
      hide InvOf, BusyBut, Guarantee, Announced, Told, Mirrors, RemovedFrom, SteadyBut;
      ghost var c := View();
      BusyWeakens(c, {}, runtimes[id].scheduleId);
      var owned := AssertRunOwner(id, now, {}, {});
      if owned { BusyIsLocal(c, View(), {}); }
    }

    /** `onStreamEvent`: an event of session `x`. */
    method OnStreamEvent(x: ExecutionId, event: StreamEvent, now: int) returns (ghost k: nat)
      requires Valid()
      modifies `runtimes, `queues, `sessionToRun, `workflowToRun, `emitted, `begun, `starved, store`rows
      ensures Valid()
      ensures var c := old(View());
              if disposed || x !in c.sessionToRun || c.sessionToRun[x] !in c.runtimes then View() == c
              else if event.Message? then View() == Rechecked(c, c.sessionToRun[x], now)
              else Concluded(c.sessionToRun[x], if event.ResultOk? then Ends(Success) else Fails, k, c, View())
      ensures Guarantee(me, now, old(store.rows), old(emitted), store.rows, emitted)
      ensures SteadyBut({}, old(View()), View())
    {
      hide InvOf, BusyBut, Guarantee, Announced, Concluded, Mirrors, SteadyBut;
      k := 0;
      SameRunsIsSteady(View(), View());
      GuaranteeOfNothing(me, now, store.rows, emitted);
      if disposed || x !in sessionToRun || sessionToRun[x] !in runtimes { return; }
      var id := sessionToRun[x];
      MappedIsBegun(View(), x);
      BegunIsActive(View(), id);
      match event {
        case Message =>
          Recheck(id, now);
        case ResultOk => k := Conclude(id, Ends(Success), now);
        case ResultFailed => k := Conclude(id, Fails, now);
        case StreamError => k := Conclude(id, Fails, now);
      }
    }

    /** `onWorkflowEvent`: an event of workflow `x`, whose metadata may name a run. */
    method OnWorkflowEvent(x: ExecutionId, runId: Option<RunId>, event: WorkflowEvent, now: int) returns (ghost k: nat)
      requires Valid()
      modifies `runtimes, `queues, `sessionToRun, `workflowToRun, `emitted, `begun, `starved, store`rows
      ensures Valid()
      ensures var c, target := old(View()), RunOfWorkflow(old(runtimes), old(workflowToRun), x, runId);
              if disposed || target.None? then View() == c
              else if !Owned(c, target.value) then View() == Dropped(c, target.value)
              else Settled(target.value, x, event, k, Renewed(c, target.value, now), View())
      ensures Guarantee(me, now, old(store.rows), old(emitted), store.rows, emitted)
      ensures SteadyBut({}, old(View()), View())
    {
      hide InvOf, BusyBut, Guarantee, Announced, Mirrors, RemovedFrom, Settled, SteadyBut;
      ghost var c, n := View(), emitted;
      k := 0;
      SameRunsIsSteady(c, c);
      GuaranteeOfNothing(me, now, store.rows, emitted);
      var target := RunOfWorkflow(runtimes, workflowToRun, x, runId);
      if disposed || target.None? { return; }
      TargetIsActive(c, x, runId);
      Recheck(target.value, now);
      if target.value !in runtimes { return; }
      ghost var c1 := View();
      k := SettleWorkflow(target.value, x, event, now);
      SteadyComposes({}, c, c1, View());
      GuaranteeComposes(me, now, c.rows, n, c1.rows, n, store.rows, emitted);
    }

    /** `onWorkflowEvent` once the run is found and owned. */
    method SettleWorkflow(id: RunId, x: ExecutionId, event: WorkflowEvent, now: int) returns (ghost k: nat)
      requires Valid() && !disposed && id in runtimes && IsActive(runtimes[id])
      modifies `runtimes, `queues, `sessionToRun, `workflowToRun, `emitted, `begun, `starved, store`rows
      ensures Valid() && Settled(id, x, event, k, old(View()), View())
      ensures Guarantee(me, now, old(store.rows), old(emitted), store.rows, emitted)
      ensures SteadyBut({}, old(View()), View())
    {
      hide InvOf, BusyBut, Guarantee, Announced, Concluded, Mirrors, RemovedFrom, SteadyBut;
      k := 0;
      ghost var c := View();
      SameRunsIsSteady(c, c);
      GuaranteeOfNothing(me, now, store.rows, emitted);
      if runtimes[id].workflowId.None? { Attribute(id, x, true); }
      ghost var c1 := View();
      SameRunsIsSteady(c1, c1);
      match event {
        case WorkflowCompleted => k := Conclude(id, Ends(Success), now);
        case WorkflowFailed => k := Conclude(id, Fails, now);
        case WorkflowTimeout => k := Conclude(id, Ends(Timeout), now);
        case WorkflowCancelled => k := Conclude(id, Ends(Cancelled), now);
        case WorkflowOther =>
      }
      SteadyComposes({}, c, c1, View());
    }

    /** The retry timer; it does nothing unless the run still waits for its retry. */
    method OnRetryTimer(id: RunId, now: int) returns (ghost k: nat)
      requires Valid()
      modifies `runtimes, `queues, `sessionToRun, `workflowToRun, `emitted, `begun, `starved, store`rows
      ensures Valid()
      ensures if disposed || id !in old(runtimes) || !old(runtimes)[id].phase.RetryWait? then View() == old(View())
              else LaunchOutcome(id, k, old(View()), View())
      ensures Guarantee(me, now, old(store.rows), old(emitted), store.rows, emitted)
      ensures SteadyBut({}, old(View()), View())
    {
      hide InvOf, BusyBut, Guarantee, Announced, LaunchOutcome, SteadyBut;
      k := 0;
      SameRunsIsSteady(View(), View());
      GuaranteeOfNothing(me, now, store.rows, emitted);
      if disposed || id !in runtimes || !runtimes[id].phase.RetryWait? { return; }
      HeldIn(View(), {}, id);
      BusyWeakens(View(), {}, runtimes[id].scheduleId);
      k := LaunchAttempt(id, now, {}, {});
    }

    /** The run timeout timer (`Timeout`) and a caller's `cancel` (`Cancelled`). */
    method EndByCaller(id: RunId, status: Status, now: int) returns (ghost k: nat)
      requires Valid() && status in {Timeout, Cancelled}
      modifies `runtimes, `queues, `sessionToRun, `workflowToRun, `emitted, `begun, `starved, store`rows
      ensures Valid()
      ensures if disposed || id !in old(runtimes) then View() == old(View())
              else Concluded(id, Ends(status), k, old(View()), View())
      ensures Guarantee(me, now, old(store.rows), old(emitted), store.rows, emitted)
      ensures SteadyBut({}, old(View()), View())
    {
      hide InvOf, BusyBut, Guarantee, Announced, Concluded, SteadyBut;
      k := 0;
      SameRunsIsSteady(View(), View());
      GuaranteeOfNothing(me, now, store.rows, emitted);
      if disposed || id !in runtimes { return; }
      k := Conclude(id, Ends(status), now);
    }

    /** `resolve`: the controller reports how its dispatched occurrence ended. */
    method Resolve(id: RunId, dispatch: Dispatch, status: Status, sameText: bool, now: int)
      returns (r: Resolution, ghost k: nat)
      requires Valid() && status in {Success, Failed, Cancelled, Skipped, Timeout}
      modifies `runtimes, `queues, `sessionToRun, `workflowToRun, `emitted, `begun, `starved, store`rows, store`excused
      ensures Valid()
      ensures var answer := StoredAnswer(old(store.rows), id, dispatch, status, sameText);
              if answer.Some? then r == answer.value && View() == old(View())
              else if disposed then r.NotReady? && View() == old(View())
              else r == LiveAnswer(old(View()), id, status) && ResolvedTo(r, id, status, now, k, old(View()), View())
      ensures SteadyBut(FailedBy(old(store.rows), id, status), old(View()), View())
      ensures Guarantee(me, now, old(store.rows), old(emitted), store.rows, emitted)
    {
      hide InvOf, BusyBut, Guarantee, Announced, ResolvedTo, SteadyBut;
      k := 0;
      NothingIsSteady(FailedBy(store.rows, id, status), View());
      GuaranteeOfNothing(me, now, store.rows, emitted);
      var answer := StoredAnswer(store.rows, id, dispatch, status, sameText);
      if answer.Some? { return answer.value, 0; }
      if disposed { return NotReady, 0; }
      r, k := ResolveLive(id, status, now);
    }

    /** `resolve` for a run whose row is unfinished. */
    method ResolveLive(id: RunId, status: Status, now: int) returns (r: Resolution, ghost k: nat)
      requires Valid() && !disposed && Terminal(status)
      modifies `runtimes, `queues, `sessionToRun, `workflowToRun, `emitted, `begun, `starved, store`rows, store`excused
      ensures Valid()
      ensures r == LiveAnswer(old(View()), id, status)
      ensures SteadyBut(FailedBy(old(store.rows), id, status), old(View()), View())
      ensures ResolvedTo(r, id, status, now, k, old(View()), View())
      ensures Guarantee(me, now, old(store.rows), old(emitted), store.rows, emitted)
    {
      hide InvOf, BusyBut, Guarantee, Announced, Concluded, ResolvedTo, Dropped, SteadyBut;
      ghost var c, n := View(), emitted;
      k := 0;
      ghost var but := FailedBy(store.rows, id, status);
      NothingIsSteady(but, c);
      GuaranteeOfNothing(me, now, store.rows, emitted);
      r := NotReady;
      NotResolved(r, id, status, now, k, c, if id in runtimes then Rechecked(c, id, now) else c);
      if id !in runtimes { return; }
      Recheck(id, now);
      SteadyWeakens({}, but, c, View());
      RecheckTells(c, id, now);
      if id !in runtimes { return; }
      if runtimes[id].phase.Queued? && !status.Cancelled? && !status.Skipped? {
        NotResolved(NotHandedOff, id, status, now, k, c, View());
        return NotHandedOff, 0;
      }
      ghost var c1 := View();
      if status.Failed? {
        ExcusedKeepsValid(c1, id);
        ExcusedIsSteady(c1, id);
        store.excused := store.excused + {id};
      } else {
        NothingIsSteady({}, c1);
      }
      ghost var c2 := View();
      k := Conclude(id, Ends(status), now);
      r := Resolved;
      SteadyWeakens({}, but, c2, View());
      SteadyComposes(but, c, c1, c2);
      SteadyComposes(but, c, c2, View());
      GuaranteeComposes(me, now, c.rows, n, c1.rows, n, store.rows, emitted);
      ResolvedFromRenewed(id, status, now, k, c, View());
    }

    /** The `catch` of `launchAttempt`, when an awaited launch throws. */
    method OnLaunchThrew(id: RunId, now: int) returns (ghost k: nat)
      requires Valid() && id in begun
      modifies `runtimes, `queues, `sessionToRun, `workflowToRun, `emitted, `begun, `starved, store`rows
      ensures Valid()
      ensures if disposed || id !in old(runtimes) then View() == old(View())
              else Concluded(id, Fails, k, old(View()), View())
      ensures Guarantee(me, now, old(store.rows), old(emitted), store.rows, emitted)
      ensures SteadyBut({}, old(View()), View())
    {
      hide InvOf, BusyBut, Guarantee, Announced, FailOutcome, SteadyBut;
      k := 0;
      SameRunsIsSteady(View(), View());
      GuaranteeOfNothing(me, now, store.rows, emitted);
      if disposed || id !in runtimes { return; }
      BegunIsActive(View(), id);
      BusyWeakens(View(), {}, runtimes[id].scheduleId);
      k := FailAttempt(id, now, {});
    }

    /** Execution `x` is recorded as the run's, in memory. */
    method Attribute(id: RunId, x: ExecutionId, workflow: bool)
      requires InvOf(View(), {}) && id in runtimes && IsActive(runtimes[id])
      modifies `runtimes, `sessionToRun, `workflowToRun, `begun
      ensures InvOf(View(), {}) && View() == Attributed(old(View()), x, id, workflow)
      ensures Owned(View(), id) <==> Owned(old(View()), id)
      ensures BusyBut(old(View()), {}) ==> BusyBut(View(), {})
      ensures SteadyBut({}, old(View()), View())
    {
      hide InvOf, BusyBut, Owned, IsActive, SteadyBut;
      AttributedIsSteady(View(), x, id, workflow);
      AttributedKeepsInv(View(), x, id, workflow);
      AttributedStaysBusy(View(), x, id, workflow);
      if workflow {
        runtimes := runtimes[id := runtimes[id].(workflowId := Some(x))];
        workflowToRun := workflowToRun[x := id];
      } else {
        runtimes := runtimes[id := runtimes[id].(sessionId := Some(x))];
        sessionToRun := sessionToRun[x := id];
      }
      begun := begun + {id};
    }

    /** The part of `launchAttempt` after the `await` that created execution `x`.
        It may belong to an earlier attempt than the current one. */
    method ResumeLaunch(id: RunId, x: ExecutionId, workflow: bool, now: int)
      requires Valid() && id in begun
      modifies `runtimes, `sessionToRun, `workflowToRun, `emitted, `begun, store`rows
      ensures Valid()
      ensures View() == if disposed || id !in old(runtimes) then old(View())
                        else Executed(Attributed(old(View()), x, id, workflow), id, now)
      ensures Guarantee(me, now, old(store.rows), old(emitted), store.rows, emitted)
      ensures SteadyBut({}, old(View()), View())
    {
      hide InvOf, BusyBut, Guarantee, Announced, Executed, SteadyBut;
      ghost var c := View();
      SameRunsIsSteady(c, c);
      GuaranteeOfNothing(me, now, store.rows, emitted);
      if disposed || id !in runtimes { return; }
      BegunIsActive(View(), id);
      Attribute(id, x, workflow);
      ghost var c1 := View();
      ExecutedStaysBusy(View(), id, now);
      MarkRunning(id, now);
      SteadyComposes({}, c, c1, View());
    }

    // -------------------------------------------------------------------
    // Leases and teardown
    // -------------------------------------------------------------------

    /** `renewRunLeases`: a run whose lease was lost leaves this engine. */
    method RenewRunLeases(now: int)
      requires Valid()
      modifies `runtimes, `queues, `sessionToRun, `workflowToRun, `starved, store`rows
      ensures Valid()
      ensures if disposed then View() == old(View()) else LeasesRenewed({}, old(View()), View()) && LeasesHeld(View())
      ensures !disposed ==> runtimes.Keys == set id | id in old(runtimes) && Owned(old(View()), id)
      ensures Told(me, now, false, old(store.rows), emitted, store.rows, emitted)
      ensures SteadyBut({}, old(View()), View())
    {
      hide InvOf, BusyBut, Guarantee, Announced, Told, Dropped, Rechecked, LeasesRenewed, LeasesHeld, Owned, SteadyBut;
      ghost var c := View();
      SameRunsIsSteady(c, c);
      GuaranteeOfNothing(me, now, store.rows, emitted);
      if disposed { return; }
      var todo := runtimes.Keys;
      NothingRenewed(c);
      while todo != {}
        invariant todo <= c.runtimes.Keys && me == c.me
        invariant SteadyBut({}, c, View())
        invariant Valid() && LeasesRenewed(todo, c, View())
        invariant Told(me, now, false, c.rows, emitted, store.rows, emitted)
        decreases |todo|
      {
        var id := Pick(todo);
        ghost var c1 := View();
        HeldIn(c, {}, id);
        OneMoreRenewed(todo, id, now, c, c1);
        Recheck(id, now);
        SteadyComposes({}, c, c1, View());
        ToldComposes(me, now, false, c.rows, emitted, c1.rows, emitted, store.rows, emitted);
        todo := todo - {id};
      }
      AllRenewed(c, View());
    }

    method RetireRow(id: RunId, rt: Runtime, now: int)
      requires id in store.rows
      requires Fences(store.rows[id], Some(me), rt.ownerEpoch) ==>
                 store.rows[id].schedule == rt.scheduleId && store.rows[id].dispatch == rt.dispatch
      modifies `emitted, store`rows
      ensures emitted == old(emitted)
      ensures store.rows == if Fences(old(store.rows)[id], Some(me), rt.ownerEpoch)
                            then old(store.rows)[id := RetiredRow(rt, old(store.rows)[id])] else old(store.rows)
    {
      if Durable(rt) {
        var released := store.ReleaseRun(id, me, rt.ownerEpoch);
      } else {
        var persisted := EndRow(id, rt.(status := if rt.phase.Queued? then Cancelled else Failed), false, now);
      }
    }

    /** `retireRuntime`: durable work is released to a later owner, the rest ends unannounced. */
    method RetireRuntime(id: RunId, now: int)
      requires Valid() && id in runtimes
      modifies `runtimes, `queues, `sessionToRun, `workflowToRun, `emitted, `starved, store`rows, store`excused
      ensures Valid() && View() == Retired(old(View()), id)
      ensures emitted == old(emitted)
      ensures Guarantee(me, now, old(store.rows), old(emitted), store.rows, emitted)
    {
      hide InvOf, BusyBut, Guarantee, Announced, Forgotten, RetiredRow;
      HeldIn(View(), {}, id);
      RetiredKeepsValid(View(), id, now, emitted);
      ghost var fails := Owned(View(), id) && FailsOnTeardown(runtimes[id]);
      var rt := runtimes[id];
      Forget(id);
      RetireRow(id, rt, now);
      starved := starved + {rt.scheduleId};
      store.excused := if fails then store.excused + {id} else store.excused;
    }

    /** Retires every run in `gone`, as the loops of `dispose` and `detachDispatchClock` do. */
    method RetireAll(gone: set<RunId>, now: int)
      requires Valid() && gone <= runtimes.Keys
      modifies `runtimes, `queues, `sessionToRun, `workflowToRun, `emitted, `starved, store`rows, store`excused
      ensures Valid() && AllRetired(gone, old(View()), View())
      ensures emitted == old(emitted)
      ensures Guarantee(me, now, old(store.rows), old(emitted), store.rows, emitted)
    {
      hide InvOf, BusyBut, Guarantee, Announced, Retired, RetiredRow;
      ghost var c := View();
      GuaranteeOfNothing(me, now, store.rows, emitted);
      var left := gone;
      NothingRetired(c);
      assert gone - left == {};
      while left != {}
        invariant left <= gone && emitted == old(emitted)
        invariant Valid() && AllRetired(gone - left, c, View())
        invariant Guarantee(me, now, c.rows, emitted, store.rows, emitted)
        decreases |left|
      {
        var id := Pick(left);
        ghost var c1 := View();
        HeldIn(c, {}, id);
        RetireRuntime(id, now);
        GuaranteeComposes(me, now, c.rows, emitted, c1.rows, emitted, store.rows, emitted);
        OneMoreRetired(gone - left, id, c, c1);
        assert gone - (left - {id}) == (gone - left) + {id};
        left := left - {id};
      }
      assert gone - {} == gone;
    }

    /** Permanent teardown. */
    method Dispose(now: int)
      requires Valid()
      modifies this, store`rows, store`excused
      ensures Valid() && disposed
      ensures !old(disposed) ==>
                && !started && runtimes == map[] && queues == map[] && sessionToRun == map[] && workflowToRun == map[]
                && AllRetired(old(runtimes).Keys, old(View()), View())
      ensures old(disposed) ==> View() == old(View())
      ensures emitted == old(emitted)
      ensures Guarantee(me, now, old(store.rows), old(emitted), store.rows, emitted)
    {
      hide InvOf, BusyBut, Guarantee, Announced, AllRetired;
      GuaranteeOfNothing(me, now, store.rows, emitted);
      if disposed { return; }
      ghost var c := View();
      disposed, started := true, false;
      RetireAll(runtimes.Keys, now);
      ghost var c1 := View();
      ClearedKeepsValid(c, c1);
      queues, runtimes, sessionToRun, workflowToRun := map[], map[], map[], map[];
    }

    /** Keeps only the dispatch clock alive while the controller is offline. */
    method DetachDispatchClock(now: int)
      requires Valid()
      modifies `runtimes, `queues, `sessionToRun, `workflowToRun, `emitted, `starved, `dispatchOnly, store`rows,
               store`excused
      ensures Valid() && emitted == old(emitted)
      ensures !disposed ==> dispatchOnly
      ensures disposed || old(dispatchOnly) ==> View() == old(View())
      ensures !disposed && !old(dispatchOnly) ==>
                AllRetired(Undispatched(old(runtimes)), old(View()), View())
      ensures Guarantee(me, now, old(store.rows), old(emitted), store.rows, emitted)
    {
      hide InvOf, BusyBut, Guarantee, Announced, AllRetired;
      GuaranteeOfNothing(me, now, store.rows, emitted);
      if disposed || dispatchOnly { return; }
      dispatchOnly := true;
      RetireAll(Undispatched(runtimes), now);
    }

    // -------------------------------------------------------------------
    // Recovery
    // -------------------------------------------------------------------

    /** `claimRun`, `baseRuntime` and `persistRuntime`. */
    method ClaimRow(id: RunId, listed: Row, phase: Phase, status: Status, now: int) returns (rt: Runtime)
      requires id in store.rows && Claimable(store.rows[id], me, now)
      requires store.rows[id].schedule == listed.schedule && store.rows[id].dispatch == listed.dispatch
      modifies store`rows
      ensures rt == AdoptedRuntime(listed, ClaimedEpoch(old(store.rows)[id], me), phase, status)
      ensures store.rows == old(store.rows)[id := Record(me, rt, now)]
    {
      var epoch := store.ClaimRun(id, me, now, LEASE_MS);
      rt := Runtime(listed.schedule, status, phase, listed.attempt, listed.maxAttempts, epoch.value, None, None,
                    listed.dispatch);
      var persisted := PersistRuntime(id, rt, now);
    }

    /** Claims a listed run and takes it into memory. */
    method TakeOver(id: RunId, listed: Row, phase: Phase, status: Status, now: int)
      requires Claims(View(), id, now) && Lists(View(), id, listed)
      modifies `runtimes, store`rows, store`overlapped
      ensures View() == Adopted(old(View()), id, listed, phase, status, now)
      ensures old(store.overlapped) <= store.overlapped
    {
      hide AdoptedRuntime, Record, Active;
      var rt := ClaimRow(id, listed, phase, status, now);
      store.overlapped := if !phase.Queued? && Active(runtimes, rt.scheduleId) then store.overlapped + {rt.scheduleId}
                          else store.overlapped;
      runtimes := runtimes[id := rt];
    }

    method AdoptActive(id: RunId, listed: Row, phase: Phase, status: Status, now: int) returns (ghost trail: seq<Step>)
      requires InvOf(View(), {}) && Claims(View(), id, now) && Lists(View(), id, listed)
      requires MayAdopt(listed, phase, status) && !phase.Queued?
      modifies `runtimes, `emitted, store`rows, store`overlapped
      ensures InvOf(View(), {}) && View() == Adopted(old(View()), id, listed, phase, status, now) && Owned(View(), id)
      ensures Trailed(me, now, dispatchOnly, old(store.rows), old(emitted), trail, store.rows, emitted)
      ensures ClaimTrail(old(View()), id, listed, trail)
      ensures old(store.overlapped) <= store.overlapped
      ensures HoldsOn(old(View()), View())
    {
      hide InvOf, Lists, ClaimTrail, Trailed, HoldsOn;
      var announce := status.Running? && listed.dispatch.Some? && !dispatchOnly;
      AdoptedHoldsOn(View(), id, listed, phase, status, now);
      AdoptedKeepsInv(View(), id, listed, phase, status, now);
      trail := AdoptedTrail(View(), id, listed, phase, status, now, dispatchOnly, emitted,
                            if announce then emitted + [RunStarted(id)] else emitted);
      TakeOver(id, listed, phase, status, now);
      if announce { SafeEmit(RunStarted(id)); }
    }

    method AdoptQueued(id: RunId, listed: Row, now: int) returns (ghost trail: seq<Step>)
      requires InvOf(View(), {}) && Claims(View(), id, now) && Lists(View(), id, listed) && listed.phase == Some(Queued)
      modifies `runtimes, `queues, `ticket, `nextTicket, store`rows, store`overlapped
      ensures InvOf(View(), {}) && View() == Pushed(Adopted(old(View()), id, listed, Queued, Pending, now), id)
      ensures Trailed(me, now, dispatchOnly, old(store.rows), emitted, trail, store.rows, emitted)
      ensures ClaimTrail(old(View()), id, listed, trail)
      ensures old(store.overlapped) <= store.overlapped
      ensures HoldsOn(old(View()), View())
    {
      hide InvOf, Lists, ClaimTrail, Trailed, HoldsOn;
      AdoptedHoldsOn(View(), id, listed, Queued, Pending, now);
      AdoptedKeepsInv(View(), id, listed, Queued, Pending, now);
      trail := AdoptedTrail(View(), id, listed, Queued, Pending, now, dispatchOnly, emitted, emitted);
      TakeOver(id, listed, Queued, Pending, now);
      PushedKeepsInv(View(), id);
      JoinQueue(id);
    }

    /** The durable end of a listed run. */
    method EndOrphanRow(id: RunId, listed: Row, status: Status, now: int) returns (persisted: bool)
      requires Claims(View(), id, now) && Lists(View(), id, listed)
      modifies store`rows
      ensures persisted
      ensures store.rows == old(store.rows)[id := FinishedOrphan(listed, ClaimedEpoch(old(store.rows)[id], me), status)]
    {
      var epoch := store.ClaimRun(id, me, now, LEASE_MS);
      persisted := store.UpsertRun(id, listed.(status := status, phase := Some(Executing), owner := Some(me),
                                               epoch := epoch.value, lease := now + LEASE_MS));
      if persisted {
        var released := store.ReleaseRun(id, me, epoch.value);
      }
    }

    /** Claims a listed run and finishes it at once. */
    method FinishOrphan(id: RunId, listed: Row, status: Status, now: int) returns (ghost trail: seq<Step>)
      requires InvOf(View(), {}) && Claims(View(), id, now) && Lists(View(), id, listed) && Terminal(status)
      modifies `emitted, store`rows, store`excused
      ensures InvOf(View(), {}) && View() == OrphanEnded(old(View()), id, listed, status)
      ensures Trailed(me, now, dispatchOnly, old(store.rows), old(emitted), trail, store.rows, emitted)
      ensures ClaimTrail(old(View()), id, listed, trail)
      ensures HoldsOn(old(View()), View())
    {
      hide InvOf, Lists, ClaimTrail, Trailed, OrphanEnded, Claimable, HoldsOn;
      OrphanEndedHoldsOn(View(), id, listed, status, now);
      OrphanEndedKeepsInv(View(), id, listed, status, now);
      trail := OrphanEndedTrail(View(), id, listed, status, now, dispatchOnly, emitted,
                                if dispatchOnly then emitted else emitted + [RunFinished(id, status)]);
      EndOrphan(id, listed, status, now);
    }

    method EndOrphan(id: RunId, listed: Row, status: Status, now: int)
      requires Claims(View(), id, now) && Lists(View(), id, listed)
      modifies `emitted, store`rows, store`excused
      ensures View() == OrphanEnded(old(View()), id, listed, status)
      ensures emitted == if dispatchOnly then old(emitted) else old(emitted) + [RunFinished(id, status)]
    {
      hide Lists, FinishedOrphan, ClaimedEpoch, Claimable;
      var persisted := EndOrphanRow(id, listed, status, now);
      if persisted { SafeEmit(RunFinished(id, status)); }
      store.excused := if status.Failed? then store.excused + {id} else store.excused;
    }

    /** One row of `reconcileOrphanedRuns`: `listed` is the row when the listing was made. */
    method ReconcileRow(id: RunId, listed: Row, recovery: Recovery, now: int)
      returns (ghost k: nat, ghost trail: seq<Step>)
      requires InvOf(View(), {}) && !disposed && id in store.rows
      requires id !in runtimes ==> Lists(View(), id, listed)
      requires recovery.EndedWorkflow? ==> recovery.status in {Success, Timeout, Cancelled}
      modifies `runtimes, `queues, `sessionToRun, `workflowToRun, `emitted, `ticket, `nextTicket, `begun, `starved
      modifies store`rows, store`overlapped, store`excused
      ensures InvOf(View(), {})
      ensures Reconciled(id, listed, recovery, dispatchOnly, now, k, old(View()), View())
      ensures Trailed(me, now, dispatchOnly, old(store.rows), old(emitted), trail, store.rows, emitted)
      ensures if Taken(old(View()), id, listed, dispatchOnly, now) then ClaimTrail(old(View()), id, listed, trail)
              else trail == []
      ensures old(store.overlapped) <= store.overlapped
      ensures HoldsOn(old(View()), View())
    {
      hide InvOf, Lists, Concluded, Adopted, Attributed, Pushed, OrphanEnded, ClaimTrail, Trailed, Owned, HoldsOn;
      k, trail := 0, [];
      NothingLost(View());
      NothingTrailed(me, now, dispatchOnly, store.rows, emitted);
      if (dispatchOnly && listed.dispatch.None?) || id in runtimes || !Claimable(store.rows[id], me, now) { return; }
      if listed.dispatch.Some? {
        if listed.phase == Some(Queued) {
          trail := AdoptQueued(id, listed, now);
        } else {
          trail := AdoptActive(id, listed, Executing, Running, now);
        }
      } else if listed.phase == Some(RetryWait) {
        trail := AdoptActive(id, listed, RetryWait, Pending, now);
      } else {
        match recovery {
          case NoWorkflow => trail := FinishOrphan(id, listed, if listed.status.Running? then Failed else Cancelled,
                                                   now);
          case EndedWorkflow(status) => trail := FinishOrphan(id, listed, status, now);
          case LiveWorkflow(x) => trail := AdoptWorkflow(id, listed, x, now);
          case FailedWorkflow(x) => k, trail := AdoptFailed(id, listed, x, now);
        }
      }
    }

    method AdoptWorkflow(id: RunId, listed: Row, x: ExecutionId, now: int) returns (ghost trail: seq<Step>)
      requires InvOf(View(), {}) && Claims(View(), id, now) && Lists(View(), id, listed)
      modifies `runtimes, `sessionToRun, `workflowToRun, `emitted, `begun, store`rows, store`overlapped
      ensures InvOf(View(), {}) && id in runtimes && IsActive(runtimes[id]) && Owned(View(), id)
      ensures View() == Attributed(Adopted(old(View()), id, listed, Executing, Running, now), x, id, true)
      ensures Trailed(me, now, dispatchOnly, old(store.rows), old(emitted), trail, store.rows, emitted)
      ensures ClaimTrail(old(View()), id, listed, trail)
      ensures old(store.overlapped) <= store.overlapped
      ensures HoldsOn(old(View()), View())
    {
      hide InvOf, BusyBut, Lists, ClaimTrail, Trailed, HoldsOn, SteadyBut;
      ghost var c := View();
      trail := AdoptActive(id, listed, Executing, Running, now);
      ghost var c1 := View();
      Attribute(id, x, true);
      SteadyHolds({}, c1, View());
      HoldsOnComposes(c, c1, View());
    }

    /** A failed active attempt still honours its retries after a restart. */
    method AdoptFailed(id: RunId, listed: Row, x: ExecutionId, now: int) returns (ghost k: nat, ghost trail: seq<Step>)
      requires InvOf(View(), {}) && !disposed && Claims(View(), id, now) && Lists(View(), id, listed)
      modifies `runtimes, `queues, `sessionToRun, `workflowToRun, `emitted, `ticket, `nextTicket, `begun, `starved
      modifies store`rows, store`overlapped
      ensures InvOf(View(), {})
      ensures Concluded(id, Fails, k,
                        Attributed(Adopted(old(View()), id, listed, Executing, Running, now), x, id, true), View())
      ensures Trailed(me, now, dispatchOnly, old(store.rows), old(emitted), trail, store.rows, emitted)
      ensures ClaimTrail(old(View()), id, listed, trail)
      ensures old(store.overlapped) <= store.overlapped
      ensures HoldsOn(old(View()), View())
    {
      hide InvOf, BusyBut, Guarantee, Announced, Lists, ClaimTrail, Trailed, FailOutcome, Claimable, HoldsOn, SteadyBut;
      ghost var c, n := View(), emitted;
      ghost var claim := AdoptWorkflow(id, listed, x, now);
      ghost var c1, n1 := View(), emitted;
      BusyButAll(c1, runtimes[id].scheduleId);
      k := FailAttempt(id, now, c1.queues.Keys);
      ghost var rest := OneStep(me, now, dispatchOnly, c1.rows, n1, store.rows, emitted);
      TrailsJoin(me, now, dispatchOnly, c.rows, n, claim, c1.rows, n1, rest, store.rows, emitted);
      SteadyHolds({}, c1, View());
      HoldsOnComposes(c, c1, View());
      ClaimTrailExtends(c, id, listed, claim, rest);
      trail := claim + rest;
    }

    /** `reconcileOrphanedRuns`: lists the unfinished runs, takes over each it may claim,
        then serves all queues. Seen as one step the call keeps its guarantee exactly if
        it claims no run that has finished since the listing, and the end of a run is
        announced once more for each such claim. */
    method ReconcileOrphanedRuns(recoveries: Recoveries, now: int) returns (ghost w: Sweep, ghost trail: seq<Step>)
      requires Valid()
      requires Genuine(recoveries)
      modifies `runtimes, `queues, `sessionToRun, `workflowToRun, `emitted, `ticket, `nextTicket, `begun, `starved
      modifies store`rows, store`overlapped, store`excused
      ensures Valid()
      ensures if disposed then View() == old(View()) && trail == []
              else Swept(recoveries, dispatchOnly, now, store.createdAt, old(View()), View(), w)
                   && (forall id :: ReclaimCount(trail, id) == if Again(dispatchOnly, now, w, id) then 1 else 0)
      ensures !disposed && LeasesHeld(old(View())) ==>
                forall id :: ReclaimCount(trail, id)
                             == if ExposedRun(Pass(w.listed, recoveries, dispatchOnly, now), old(View()), id) then 1
                                 else 0
      ensures dispatchOnly || Calm(old(View())) ==> NoReclaim(trail)
      ensures Trailed(me, now, dispatchOnly, old(store.rows), old(emitted), trail, store.rows, emitted)
      ensures ClaimsFrom(old(store.rows), trail)
      ensures !dispatchOnly ==> AnnouncedPerEnd(old(store.rows), old(emitted), trail, store.rows, emitted)
      ensures RowsKept(me, now, old(store.rows), store.rows)
      ensures Guarantee(me, now, old(store.rows), old(emitted), store.rows, emitted) <==> NoReclaim(trail)
      ensures old(store.overlapped) <= store.overlapped
      ensures SweptSteadily(recoveries, now, old(View()), View())
    {
      hide InvOf, BusyBut, Guarantee, RowsKept, SweepProgress, Trailed, ClaimsFrom, NoReclaim, Again, Listing,
           LeasesHeld, Calm, ExposedRun, AnnouncedPerEnd, ReclaimCount, SweptSteadily, SteadyBut, HoldsOn;
      ghost var c, rows, n := View(), store.rows, emitted;
      NothingOrphaned(recoveries, now, c);
      w, trail := Sweep([], [], [], []), [];
      NothingTrailed(me, now, dispatchOnly, store.rows, emitted);
      NothingClaimed(rows);
      if !disposed {
        w, trail := TakeRows(recoveries, now);
        ghost var c1, w1 := View(), w;
        w, trail := ServeQueues(recoveries, now, old(View()), n, w, trail);
        SweepIsSteady(recoveries, dispatchOnly, now, c, c1, w1, View());
        SweepReclaims(recoveries, dispatchOnly, now, old(View()), View(), w);
        NoReclaimCounts(trail);
      }
      TrailAnnounces(me, now, dispatchOnly, rows, n, trail, store.rows, emitted);
      TrailIsLawfulIff(me, now, dispatchOnly, rows, n, trail, store.rows, emitted);
    }

    /** The loop over the listing that begins `reconcileOrphanedRuns`. */
    method TakeRows(recoveries: Recoveries, now: int) returns (ghost w: Sweep, ghost trail: seq<Step>)
      requires Valid() && !disposed
      requires Genuine(recoveries)
      modifies `runtimes, `queues, `sessionToRun, `workflowToRun, `emitted, `ticket, `nextTicket, `begun, `starved
      modifies store`rows, store`overlapped, store`excused
      ensures InvOf(View(), {}) && SweepProgress(recoveries, dispatchOnly, now, old(View()), View(), w)
      ensures w.served == [] && Listing(old(store.rows), store.createdAt, w.listed)
      ensures SweepTrail(dispatchOnly, now, old(View()), old(emitted), w, trail, store.rows, emitted)
      ensures old(store.overlapped) <= store.overlapped
      ensures HoldsOn(old(View()), View())
    {
      hide InvOf, BusyBut, SweepProgress, SweepTrail, Genuine, HoldsOn;
      ghost var c, n := View(), emitted;
      w, trail := Sweep([], [], [c], []), [];
      NothingLost(c);
      SweepStarts(recoveries, dispatchOnly, now, c, n);
      var rows := store.rows;
      var listing := store.ListActiveRuns();
      for i := 0 to |listing|
        invariant InvOf(View(), {}) && !disposed && old(store.overlapped) <= store.overlapped
        invariant SweepProgress(recoveries, dispatchOnly, now, c, View(), w)
        invariant w.served == [] && w.listed == listing[..i]
        invariant HoldsOn(c, View())
        invariant SweepTrail(dispatchOnly, now, c, n, w, trail, store.rows, emitted)
      {
        var id := listing[i];
        assert id in listing && id !in w.listed;
        ghost var c1 := View();
        w, trail := TakeRow(id, rows[id], RecoveryOf(recoveries, id), now, recoveries, c, n, w, trail);
        HoldsOnComposes(c, c1, View());
      }
    }

    /** One listed row taken, as one more part of the sweep. */
    method TakeRow(id: RunId, listed: Row, recovery: Recovery, now: int,
                   ghost recoveries: Recoveries, ghost c: Core, ghost n: seq<Note>, ghost w0: Sweep,
                       ghost t0: seq<Step>)
      returns (ghost w: Sweep, ghost trail: seq<Step>)
      requires InvOf(View(), {}) && !disposed && InvOf(c, {}) && c.me == me
      requires SweepProgress(recoveries, dispatchOnly, now, c, View(), w0) && w0.served == []
      requires SweepTrail(dispatchOnly, now, c, n, w0, t0, store.rows, emitted)
      requires id in c.rows && listed == c.rows[id] && !Terminal(listed.status) && id !in w0.listed
      requires recovery == RecoveryOf(recoveries, id) && Genuine(recoveries)
      modifies `runtimes, `queues, `sessionToRun, `workflowToRun, `emitted, `ticket, `nextTicket, `begun, `starved
      modifies store`rows, store`overlapped, store`excused
      ensures InvOf(View(), {})
      ensures SweepProgress(recoveries, dispatchOnly, now, c, View(), w) && w.served == []
              && w.listed == w0.listed + [id]
      ensures SweepTrail(dispatchOnly, now, c, n, w, trail, store.rows, emitted)
      ensures old(store.overlapped) <= store.overlapped
      ensures HoldsOn(old(View()), View())
    {
      hide InvOf, Reconciled, SweepProgress, SweepTrail, Trailed, ClaimTrail, Taken, Lists, HoldsOn;
      ghost var c1, n1 := View(), emitted;
      PendingNow(recoveries, dispatchOnly, now, c, c1, w0, id);
      ghost var k, more := ReconcileRow(id, listed, recovery, now);
      SweepRow(recoveries, dispatchOnly, now, c, c1, View(), w0, id, k);
      w, trail := Sweep(w0.listed + [id], [], w0.states + [View()], w0.ks + [k]), t0 + more;
      RowTrail(recoveries, dispatchOnly, now, c, n, c1, n1, View(), emitted, id, w0, k, t0, more);
    }

    /** The loop over all queues that ends `reconcileOrphanedRuns`. */
    method ServeQueues(ghost recoveries: Recoveries, now: int, ghost c: Core, ghost n: seq<Note>, ghost w0: Sweep,
                       ghost t0: seq<Step>)
      returns (ghost w: Sweep, ghost trail: seq<Step>)
      requires InvOf(View(), {}) && !disposed && c.me == me
      requires SweepProgress(recoveries, dispatchOnly, now, c, View(), w0) && w0.served == []
      requires Listing(c.rows, store.createdAt, w0.listed)
      requires SweepTrail(dispatchOnly, now, c, n, w0, t0, store.rows, emitted)
      modifies `runtimes, `queues, `sessionToRun, `workflowToRun, `emitted, `begun, `starved, store`rows
      ensures Valid() && Swept(recoveries, dispatchOnly, now, store.createdAt, c, View(), w)
      ensures SweepTrail(dispatchOnly, now, c, n, w, trail, store.rows, emitted)
      ensures SteadyBut({}, old(View()), View())
    {
      hide InvOf, BusyBut, Serving, Swept, SweepProgress, SweepTrail, Listing, SteadyBut;
      w, trail := w0, t0;
      var all := queues.Keys;
      var waiting := all;
      ghost var c0 := View();
      NothingIsSteady({}, c0);
      ServingStarts(recoveries, dispatchOnly, now, c, View(), w);
      BusyButAll(View(), 0);
      while waiting != {}
        invariant InvOf(View(), {}) && BusyBut(View(), waiting) && !disposed && waiting <= all
        invariant Serving(recoveries, dispatchOnly, now, c, View(), w, w0.listed, all, waiting)
        invariant SteadyBut({}, c0, View())
        invariant SweepTrail(dispatchOnly, now, c, n, w, trail, store.rows, emitted)
        decreases |waiting|
      {
        var s := Pick(waiting);
        ghost var c1 := View();
        w, trail := ServeQueue(s, now, recoveries, c, n, w, trail, w0.listed, all, waiting);
        SteadyComposes({}, c0, c1, View());
        waiting := waiting - {s};
      }
      ServingEnds(recoveries, dispatchOnly, now, store.createdAt, c, View(), w, w0.listed, all);
    }

    /** One queue served, as one more part of the sweep. */
    method ServeQueue(s: ScheduleId, now: int, ghost recoveries: Recoveries, ghost c: Core, ghost n: seq<Note>,
                      ghost w0: Sweep, ghost t0: seq<Step>, ghost listed: seq<RunId>,
                      ghost all: set<ScheduleId>, ghost waiting: set<ScheduleId>)
      returns (ghost w: Sweep, ghost trail: seq<Step>)
      requires !disposed && InvOf(View(), {}) && BusyBut(View(), waiting) && s in waiting && waiting <= all
               && c.me == me
      requires Serving(recoveries, dispatchOnly, now, c, View(), w0, listed, all, waiting)
      requires SweepTrail(dispatchOnly, now, c, n, w0, t0, store.rows, emitted)
      modifies `runtimes, `queues, `sessionToRun, `workflowToRun, `emitted, `begun, `starved, store`rows
      ensures InvOf(View(), {}) && BusyBut(View(), waiting - {s})
      ensures Serving(recoveries, dispatchOnly, now, c, View(), w, listed, all, waiting - {s})
      ensures SweepTrail(dispatchOnly, now, c, n, w, trail, store.rows, emitted)
      ensures SteadyBut({}, old(View()), View())
    {
      hide InvOf, BusyBut, Guarantee, Announced, DrainedCore, Serving, SweepTrail, Trailed, NoReclaim, Again, SteadyBut;
      ghost var c1, n1 := View(), emitted;
      assert waiting - {s} + {s} == waiting;
      ghost var k := DrainQueue(s, now, waiting - {s});
      ghost var more := OneStep(me, now, dispatchOnly, c1.rows, n1, store.rows, emitted);
      w := OneMoreServed(recoveries, dispatchOnly, now, c, c1, View(), w0, listed, all, waiting, s, k);
      QueueTrail(dispatchOnly, now, c, n, c1, n1, View(), emitted, w0, t0, w, more);
      trail := t0 + more;
    }

    /** `start`, without the timers it arms. */
    method Start(recoveries: Recoveries, now: int) returns (ghost w: Sweep, ghost trail: seq<Step>)
      requires Valid()
      requires Genuine(recoveries)
      modifies `runtimes, `queues, `sessionToRun, `workflowToRun, `emitted, `ticket, `nextTicket, `begun, `starved,
               `started
      modifies store`rows, store`overlapped, store`excused
      ensures Valid() && (started || disposed)
      ensures if old(started) || disposed then View() == old(View()) && trail == []
              else Swept(recoveries, dispatchOnly, now, store.createdAt, old(View()), View(), w)
                   && (forall id :: ReclaimCount(trail, id) == if Again(dispatchOnly, now, w, id) then 1 else 0)
      ensures dispatchOnly || Calm(old(View())) ==> NoReclaim(trail)
      ensures Trailed(me, now, dispatchOnly, old(store.rows), old(emitted), trail, store.rows, emitted)
      ensures ClaimsFrom(old(store.rows), trail)
      ensures RowsKept(me, now, old(store.rows), store.rows)
      ensures Guarantee(me, now, old(store.rows), old(emitted), store.rows, emitted) <==> NoReclaim(trail)
      ensures old(store.overlapped) <= store.overlapped
      ensures SweptSteadily(recoveries, now, old(View()), View())
    {
      hide InvOf, BusyBut, Guarantee, RowsKept, SweepProgress, Swept, Trailed, ClaimsFrom, NoReclaim, Again, Calm,
           LeasesHeld, ExposedRun, AnnouncedPerEnd, ReclaimCount, SweptSteadily;
      NothingOrphaned(recoveries, now, View());
      w, trail := Sweep([], [], [], []), [];
      if started || disposed {
        NothingTrailed(me, now, dispatchOnly, store.rows, emitted);
        NothingClaimed(store.rows);
        TrailIsLawfulIff(me, now, dispatchOnly, store.rows, emitted, [], store.rows, emitted);
        return;
      }
      started := true;
      w, trail := ReconcileOrphanedRuns(recoveries, now);
    }

    // -------------------------------------------------------------------
    // Triggers and the clock
    // -------------------------------------------------------------------

    /** `create`, for a fresh schedule id; a cron expression that never fires is refused. */
    method Create(s: ScheduleId, schedule: Schedule, now: int) returns (ok: bool)
      requires Valid() && s !in store.schedules
      requires schedule.trigger.CronTrigger? ==> WellFormed(schedule.trigger.cron)
      modifies store`schedules, store`overlapped
      ensures Valid()
      ensures ok <==> (schedule.trigger.CronTrigger? ==>
                NextFire(schedule.trigger.cron, schedule.trigger.offset, now).Some?)
      ensures !ok ==> View() == old(View())
      ensures ok ==>
                View() == WithSchedule(old(View()), s, Patched(schedule, Patch(None, None, None, None), now))
      ensures old(store.overlapped) <= store.overlapped
      ensures SteadyBut(if schedule.overlap.Allow? then {s} else {}, old(View()), View())
    {
      hide InvOf, BusyBut, NextFire, SteadyBut;
      NothingIsSteady(if schedule.overlap.Allow? then {s} else {}, View());
      var nextRunAt: Option<int> := None;
      if schedule.trigger.CronTrigger? {
        var next, _ := NextCronAfter(schedule.trigger.cron, schedule.trigger.offset, now);
        if next.None? { return false; }
        nextRunAt := if schedule.enabled then next else None;
      }
      WithScheduleIsSteady(View(), s, schedule.(nextRunAt := nextRunAt), if schedule.overlap.Allow? then {s} else {});
      ScheduleKeepsValid(View(), s, schedule.(nextRunAt := nextRunAt));
      store.UpsertSchedule(s, schedule.(nextRunAt := nextRunAt));
      return true;
    }

    /** `trigger` and `triggerByWebhook`: a schedule must exist and be enabled. */
    method Trigger(s: ScheduleId, id: RunId, healthy: bool, allowed: bool, now: int)
      returns (r: Admission, ghost k: nat)
      requires Valid() && id !in store.rows
      modifies `runtimes, `queues, `sessionToRun, `workflowToRun, `emitted, `begun, `starved, `ticket, `nextTicket
      modifies store`rows, store`schedules, store`overlapped
      ensures Valid()
      ensures if s !in old(store.schedules) || !old(store.schedules)[s].enabled then r.Denied? && View() == old(View())
              else TriggerOutcome(s, id, r, k, None, now, old(View()), View())
      ensures Guarantee(me, now, old(store.rows), old(emitted), store.rows, emitted)
      ensures old(store.overlapped) <= store.overlapped
      ensures SteadyBut({}, old(View()), View())
    {
      hide InvOf, BusyBut, Guarantee, Announced, TriggerOutcome, SteadyBut;
      NothingIsSteady({}, View());
      GuaranteeOfNothing(me, now, store.rows, emitted);
      if s !in store.schedules || !store.schedules[s].enabled { return Denied, 0; }
      r, k := LaunchRun(s, id, None, healthy, allowed, now);
    }

    /** One round of the loop in `onCronFire`, up to its `await`. */
    method CronRound(s: ScheduleId, processDownCatchUp: bool, id: RunId, healthy: bool, allowed: bool, now: int)
      returns (r: CronOutcome, ghost k: nat)
      requires Valid() && id !in store.rows
      modifies `runtimes, `queues, `sessionToRun, `workflowToRun, `emitted, `begun, `starved, `ticket, `nextTicket
      modifies store`rows, store`schedules, store`overlapped
      ensures Valid()
      ensures CronRoundOutcome(s, id, processDownCatchUp, started && !disposed, dispatchOnly, r, k, now, old(View()),
                               View())
      ensures r.Fired? && r.admission.Denied? ==> !allowed || Expired(old(store.schedules)[s], now)
      ensures r.Aborted? ==> !healthy
      ensures Guarantee(me, now, old(store.rows), old(emitted), store.rows, emitted)
      ensures old(store.overlapped) <= store.overlapped
      ensures SteadyBut({}, old(View()), View())
    {
      hide InvOf, BusyBut, Guarantee, Announced, Accepted, WellFormed, NextFire, SteadyBut;
      k := 0;
      NothingIsSteady({}, View());
      GuaranteeOfNothing(me, now, store.rows, emitted);
      if !started || disposed || s !in store.schedules { return Idle, 0; }
      var schedule := store.schedules[s];
      if !schedule.enabled || !schedule.trigger.CronTrigger? { return Idle, 0; }
      if dispatchOnly && !schedule.target.DispatchTarget? { return Idle, 0; }
      if schedule.nextRunAt.Some? && schedule.nextRunAt.value - now > EARLY_MS { return Early, 0; }
      CronIsWellFormed(View(), s);
      var next, _ := NextCronAfter(schedule.trigger.cron, schedule.trigger.offset,
                                   if Live(schedule, processDownCatchUp)
                                       && schedule.nextRunAt.Some? then schedule.nextRunAt.value else now);
      if next.None? { return NoSuccessor, 0; }
      r, k := FireOccurrence(s, id, next.value, healthy, allowed, now);
    }

    /** The due occurrence is accepted, denied by policy, or not accepted at all. */
    method FireOccurrence(s: ScheduleId, id: RunId, next: int, healthy: bool, allowed: bool, now: int)
      returns (r: CronOutcome, ghost k: nat)
      requires Valid() && !disposed && id !in store.rows && s in store.schedules && store.schedules[s].enabled
      modifies `runtimes, `queues, `sessionToRun, `workflowToRun, `emitted, `begun, `starved, `ticket, `nextTicket
      modifies store`rows, store`schedules, store`overlapped
      ensures Valid()
      ensures (r.Aborted? && View() == old(View()))
              || (r.Fired? && Accepted(s, id, r.admission, k, next, now, old(View()), View()))
      ensures r.Fired? && r.admission.Denied? ==>
                !allowed || Expired(old(store.schedules)[s], now)
                    || (dispatchOnly && !old(store.schedules)[s].target.DispatchTarget?)
      ensures r.Aborted? ==> !healthy
      ensures Guarantee(me, now, old(store.rows), old(emitted), store.rows, emitted)
      ensures old(store.overlapped) <= store.overlapped
      ensures SteadyBut({}, old(View()), View())
    {
      hide InvOf, BusyBut, Guarantee, Announced, Accepted, TriggerOutcome, WellFormed, NextFire, SteadyBut;
      ghost var c, n := View(), emitted;
      var admission: Admission;
      admission, k := LaunchRun(s, id, Some(next), healthy, allowed, now);
      ghost var c1, n1 := View(), emitted;
      if admission.Unavailable? {
        UnavailableIsNothing(s, id, k, next, now, c, c1);
        return Aborted, k;
      }
      if admission.Denied? { KeepCursor(s, next); }
      NothingIsSteady({}, c1);
      SteadyComposes({}, c, c1, View());
      FiredOutcome(s, id, admission, k, next, now, c, c1, View());
      if s in store.schedules {
        SafeEmit(ScheduleChanged(s));
        OnlyScheduleChanged(me, now, store.rows, n1, emitted, s);
        GuaranteeComposes(me, now, c.rows, n, c1.rows, n1, store.rows, emitted);
      }
      return Fired(admission), k;
    }

    /** After a policy denial the cursor moves on, if the schedule is still enabled. */
    method KeepCursor(s: ScheduleId, next: int)
      requires Valid()
      modifies store`schedules, store`overlapped
      ensures Valid()
      ensures View() == if s in old(store.schedules) && old(store.schedules)[s].enabled
                        then old(View()).(schedules := CursorMoved(old(store.schedules), s, Some(next)))
                            else old(View())
      ensures old(store.overlapped) <= store.overlapped
      ensures SteadyBut({}, old(View()), View())
    {
      hide InvOf, BusyBut, SteadyBut;
      NothingIsSteady({}, View());
      if s in store.schedules && store.schedules[s].enabled {
        var schedule := store.schedules[s].(nextRunAt := Some(next));
        CronIsWellFormed(View(), s);
        ScheduleKeepsValid(View(), s, schedule);
        OverlapKnown(View(), s);
        WithScheduleIsSteady(View(), s, schedule, {});
        store.UpsertSchedule(s, schedule);
      }
    }

    /** `onCronFire` for a dispatch schedule whose occurrences are owed one by one,
        with no other step between its rounds: it turns each occurrence from the
        stored cursor up to now into one outcome. `healthy` and `allowed` are what
        admission and policy answer in each round. */
    method OnCronFire(s: ScheduleId, healthy: nat -> bool, allowed: nat -> bool, now: int)
      returns (fired: seq<Firing>, ghost end: CronEnd, ghost states: seq<Core>, ghost ks: seq<nat>)
      requires Valid() && Armed(View(), s, started && !disposed, dispatchOnly)
      requires Live(store.schedules[s], false) && store.schedules[s].nextRunAt.Some?
      modifies `runtimes, `queues, `sessionToRun, `workflowToRun, `emitted, `begun, `starved, `ticket, `nextTicket
      modifies store`rows, store`schedules, store`overlapped
      ensures Valid()
      ensures Guarantee(me, now, old(store.rows), old(emitted), store.rows, emitted)
      ensures Rounds(s, now, fired, end.cursor, states, ks) && states[0] == old(View()) && states[|fired|] == View()
      ensures CronDone(old(store.schedules)[s], fired, end, now)
      ensures !end.SwitchedOff? ==>
                s in store.schedules && store.schedules[s] == old(store.schedules)[s].(nextRunAt := Some(end.cursor))
      ensures end.SwitchedOff? ==> s !in store.schedules || !store.schedules[s].enabled
      ensures end.NotAccepted? ==> !healthy(|fired|)
      ensures old(store.overlapped) <= store.overlapped
    {
      hide InvOf, BusyBut, Guarantee, Announced, Accepted, WellFormed, NextFire, CronRoundOutcome, Rounds, Consecutive;
      ghost var c, n := View(), emitted;
      ghost var schedule0 := store.schedules[s];
      var cursor := store.schedules[s].nextRunAt.value;
      GuaranteeOfNothing(me, now, store.rows, emitted);
      fired, states, ks := [], [c], [];
      NothingFired(s, now, schedule0.trigger.cron, schedule0.trigger.offset, cursor, c);
      while true
        invariant Valid() && started && !disposed && old(store.overlapped) <= store.overlapped
        invariant Guarantee(me, now, c.rows, n, store.rows, emitted)
        invariant |states| == |fired| + 1 && states[0] == c && states[|fired|] == View()
        invariant Rounds(s, now, fired, cursor, states, ks)
        invariant CronProgress(schedule0, fired, cursor, now)
        invariant s in store.schedules && store.schedules[s] == schedule0.(nextRunAt := Some(cursor))
        decreases now + EARLY_MS + 1 - cursor
      {
        ghost var c1, n1 := View(), emitted;
        var id := FreshRunId();
        var r, k := CronRound(s, false, id, healthy(|fired|), allowed(|fired|), now);
        GuaranteeComposes(me, now, c.rows, n, c1.rows, n1, store.rows, emitted);
        ghost var next := CronRoundTells(s, id, dispatchOnly, r, k, now, schedule0, cursor, c1, View());
        match r {
          case Fired(admission) =>
            FiredMovesOn(schedule0, fired, id, admission, cursor, next, now);
            RoundsExtend(s, now, fired, states, ks, Firing(cursor, id, admission), k, next, View());
            fired, states, ks := fired + [Firing(cursor, id, admission)], states + [View()], ks + [k];
            if s !in store.schedules || !store.schedules[s].enabled { return fired, SwitchedOff(next), states, ks; }
            cursor := store.schedules[s].nextRunAt.value;
            if cursor > now { return fired, CaughtUp(cursor), states, ks; }
          case Aborted => return fired, NotAccepted(cursor), states, ks;
          case NoSuccessor => return fired, Unfollowed(cursor), states, ks;
          case Early => return fired, CaughtUp(cursor), states, ks;
          case Idle =>
        }
      }
    }

    /** An id that no run has. */
    method FreshRunId() returns (id: RunId)
      ensures id !in store.rows
    {
      var todo := store.rows.Keys;
      id := 0;
      while todo != {}
        invariant forall x | x in store.rows && x !in todo :: x < id
        decreases |todo|
      {
        var x := Pick(todo);
        id := Max(id, x + 1);
        todo := todo - {x};
      }
    }
  }

  method Pick(s: set<RunId>) returns (id: RunId)
    requires s != {}
    ensures id in s
  {
    ghost var e := Element(s);
    id :| id in s;
  }
}
