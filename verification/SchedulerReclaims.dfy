/** Which runs a sweep claims again after they finished, told from the state before
    the sweep. */
module SchedulerReclaims {
  import opened Wrappers
  import opened RunStore
  import opened Fencing
  import opened SchedulerState
  import opened SchedulerSweep

  /** What a sweep goes by: its listing, what it learns of workflows, its mode and time. */
  datatype Pass = Pass(listed: seq<RunId>, recoveries: Recoveries, dispatchOnly: bool, now: int)

  predicate TakenBy(p: Pass, c: Core, x: RunId) {
    x in c.rows && Taken(c, x, c.rows[x], p.dispatchOnly, p.now)
  }

  /** A listed run without a dispatch or a retry to wait for, whose workflow failed. */
  predicate FailsBy(listed: Row, recovery: Recovery) {
    listed.dispatch.None? && listed.phase != Some(RetryWait) && recovery.FailedWorkflow?
  }

  predicate EndsBy(listed: Row, recovery: Recovery) {
    FailsBy(listed, recovery) && listed.attempt >= listed.maxAttempts
  }

  /** The claim of a listed run makes it an active one. */
  predicate ActiveBy(listed: Row, recovery: Recovery) {
    if listed.dispatch.Some? then listed.phase != Some(Queued)
    else
      || listed.phase == Some(RetryWait) || recovery.LiveWorkflow?
      || (recovery.FailedWorkflow? && !EndsBy(listed, recovery))
  }

  /** The `a`-th listed run is taken over by schedule `s` with its last attempt failed. */
  predicate EndsOn(p: Pass, c: Core, a: nat, s: ScheduleId) {
    && a < |p.listed| && TakenBy(p, c, p.listed[a]) && c.rows[p.listed[a]].schedule == s
    && EndsBy(c.rows[p.listed[a]], RecoveryOf(p.recoveries, p.listed[a]))
  }

  predicate ActivatesOn(p: Pass, c: Core, a: nat, s: ScheduleId) {
    && a < |p.listed| && TakenBy(p, c, p.listed[a]) && c.rows[p.listed[a]].schedule == s
    && ActiveBy(c.rows[p.listed[a]], RecoveryOf(p.recoveries, p.listed[a]))
  }

  ghost predicate ActivatesBefore(p: Pass, c: Core, i: nat, s: ScheduleId) {
    exists a | 0 <= a < i :: ActivatesOn(p, c, a, s)
  }

  /** Before its `i`-th row the sweep ends a run of idle schedule `s`, and so launches
      what waits there. */
  ghost predicate ServesBefore(p: Pass, c: Core, i: nat, s: ScheduleId) {
    !Active(c.runtimes, s) && exists a | 0 <= a < i :: EndsOn(p, c, a, s) && !ActivatesBefore(p, c, a, s)
  }

  predicate StaysAt(c: Core, x: RunId) {
    x in c.runtimes && Stays(c, c.runtimes[x])
  }

  /** Neither the `j`-th waiting run of `s` nor one before it would stay when launched. */
  ghost predicate NoneStays(c: Core, s: ScheduleId, j: nat) {
    j < |QueueOf(c.queues, s)| && forall i | 0 <= i <= j :: !StaysAt(c, QueueOf(c.queues, s)[i])
  }

  /** The `i`-th listed run waits on an idle schedule, an earlier listed run of that
      schedule is taken over only to end, and no launch from the queue up to this
      run succeeds. */
  ghost predicate Exposed(p: Pass, c: Core, i: nat) {
    && i < |p.listed| && p.listed[i] in c.runtimes
    && var s := c.runtimes[p.listed[i]].scheduleId;
    && ServesBefore(p, c, i, s)
    && exists j | 0 <= j < |QueueOf(c.queues, s)| :: QueueOf(c.queues, s)[j] == p.listed[i] && NoneStays(c, s, j)
  }

  // ---------------------------------------------------------------------
  // One row
  // ---------------------------------------------------------------------

  /** At schedule `s` nothing changed but run `id`, which became active there or not. */
  ghost predicate Quiet(c: Core, c': Core, s: ScheduleId, id: RunId, active: bool) {
    && QueueOf(c.queues, s) <= QueueOf(c'.queues, s)
    && (forall y | y in c.runtimes && c.runtimes[y].scheduleId == s && y != id :: SameRun(c, c', y))
    && (Active(c'.runtimes, s) <==> Active(c.runtimes, s) || active)
  }

  predicate SameRun(c: Core, c': Core, y: RunId) {
    && y in c.runtimes && y in c'.runtimes && c'.runtimes[y] == c.runtimes[y]
    && y in c.rows && y in c'.rows && c'.rows[y] == c.rows[y]
  }

  lemma QuietWhenOnlyOne(c: Core, c': Core, s: ScheduleId, id: RunId, active: bool)
    requires InvOf(c, {}) && id !in c.runtimes
    requires c'.runtimes - {id} == c.runtimes
             && (forall y | y in c.rows && y != id :: y in c'.rows && c'.rows[y] == c.rows[y])
    requires QueueOf(c.queues, s) <= QueueOf(c'.queues, s)
    requires active <==> id in c'.runtimes && c'.runtimes[id].scheduleId == s && IsActive(c'.runtimes[id])
    ensures Quiet(c, c', s, id, active)
  {
    forall y | y in c.runtimes && c.runtimes[y].scheduleId == s && y != id ensures SameRun(c, c', y) {
      HeldIn(c, {}, y);
      assert y in c'.runtimes - {id};
    }
    hide InvOf;
    if Active(c.runtimes, s) {
      var y :| y in c.runtimes && c.runtimes[y].scheduleId == s && IsActive(c.runtimes[y]);
      assert y in c'.runtimes - {id};
      assert c'.runtimes[y].scheduleId == s && IsActive(c'.runtimes[y]);
    }
    if Active(c'.runtimes, s) && !active {
      var y :| y in c'.runtimes && c'.runtimes[y].scheduleId == s && IsActive(c'.runtimes[y]);
      assert y in c'.runtimes - {id};
      assert c.runtimes[y].scheduleId == s && IsActive(c.runtimes[y]);
    }
  }

  lemma AdoptedIsQuiet(c: Core, id: RunId, listed: Row, phase: Phase, status: Status, now: int, s: ScheduleId)
    requires InvOf(c, {}) && id in c.rows && id !in c.runtimes && !Terminal(status)
    ensures Quiet(c, Adopted(c, id, listed, phase, status, now), s, id, listed.schedule == s && !phase.Queued?)
  {
    var c' := Adopted(c, id, listed, phase, status, now);
    assert c'.runtimes - {id} == c.runtimes;
    hide Quiet, Active;
    QuietWhenOnlyOne(c, c', s, id, listed.schedule == s && !phase.Queued?);
  }

  lemma PushedIsQuiet(c: Core, id: RunId, listed: Row, now: int, s: ScheduleId)
    requires InvOf(c, {}) && id in c.rows && id !in c.runtimes
    ensures Quiet(c, Pushed(Adopted(c, id, listed, Queued, Pending, now), id), s, id, false)
  {
    var c' := Pushed(Adopted(c, id, listed, Queued, Pending, now), id);
    assert c'.runtimes - {id} == c.runtimes;
    hide Quiet, Active;
    QuietWhenOnlyOne(c, c', s, id, false);
  }

  lemma AttributedIsQuiet(c: Core, id: RunId, listed: Row, x: ExecutionId, now: int, s: ScheduleId)
    requires InvOf(c, {}) && id in c.rows && id !in c.runtimes
    ensures Quiet(c, Attributed(Adopted(c, id, listed, Executing, Running, now), x, id, true), s, id,
                  listed.schedule == s)
  {
    var c' := Attributed(Adopted(c, id, listed, Executing, Running, now), x, id, true);
    assert c'.runtimes - {id} == c.runtimes;
    hide Quiet, Active;
    QuietWhenOnlyOne(c, c', s, id, listed.schedule == s);
  }

  lemma UntakenIsQuiet(c: Core, s: ScheduleId, id: RunId)
    requires InvOf(c, {})
    ensures Quiet(c, c, s, id, false)
  {
    forall y | y in c.runtimes ensures SameRun(c, c, y) { HeldIn(c, {}, y); }
  }

  lemma OrphanEndedIsQuiet(c: Core, id: RunId, listed: Row, status: Status, s: ScheduleId)
    requires InvOf(c, {}) && id in c.rows && id !in c.runtimes
    ensures Quiet(c, OrphanEnded(c, id, listed, status), s, id, false)
  {
    assert c.runtimes - {id} == c.runtimes;
    QuietWhenOnlyOne(c, OrphanEnded(c, id, listed, status), s, id, false);
  }

  /** A failed attempt with another one to come waits for its retry. */
  lemma RetriedIsQuiet(c: Core, id: RunId, listed: Row, x: ExecutionId, now: int, k: nat, c': Core, s: ScheduleId)
    requires InvOf(c, {}) && id in c.rows && id !in c.runtimes && listed.attempt < listed.maxAttempts
    requires Concluded(id, Fails, k, Attributed(Adopted(c, id, listed, Executing, Running, now), x, id, true), c')
    ensures Quiet(c, c', s, id, listed.schedule == s)
  {
    var c1 := Attributed(Adopted(c, id, listed, Executing, Running, now), x, id, true);
    assert c'.runtimes - {id} == c.runtimes;
    QuietWhenOnlyOne(c, c', s, id, listed.schedule == s);
  }

  /** The last attempt failed: the run is gone as if never adopted, and its queue drained. */
  lemma EndedView(c: Core, id: RunId, listed: Row, x: ExecutionId, now: int, k: nat, c': Core) returns (e: Core)
    requires InvOf(c, {}) && id in c.rows && id !in c.runtimes && listed.attempt >= listed.maxAttempts
    requires Concluded(id, Fails, k, Attributed(Adopted(c, id, listed, Executing, Running, now), x, id, true), c')
    ensures DrainedCore(listed.schedule, k, e, c') && SameBase(c, e)
    ensures e.runtimes == c.runtimes && (forall t :: QueueOf(e.queues, t) == QueueOf(c.queues, t))
    ensures forall y | y in c.rows && y != id :: y in e.rows && e.rows[y] == c.rows[y]
  {
    var c1 := Attributed(Adopted(c, id, listed, Executing, Running, now), x, id, true);
    e := Ended(c1, id, Failed);
    LastFailed(c, id, listed, x, now, k, c');
    EndedRuntimes(c, id, listed, x, now);
    NotInQueue(c, id, listed.schedule);
    hide InvOf, DrainedCore, Adopted;
  }

  lemma LastFailed(c: Core, id: RunId, listed: Row, x: ExecutionId, now: int, k: nat, c': Core)
    requires id in c.rows && listed.attempt >= listed.maxAttempts
    requires Concluded(id, Fails, k, Attributed(Adopted(c, id, listed, Executing, Running, now), x, id, true), c')
    ensures EndedAndDrained(id, Failed, k, Attributed(Adopted(c, id, listed, Executing, Running, now), x, id, true), c')
  {
    hide DrainedCore, Active;
  }

  lemma EndedRuntimes(c: Core, id: RunId, listed: Row, x: ExecutionId, now: int)
    requires id in c.rows && id !in c.runtimes
    ensures var c1 := Attributed(Adopted(c, id, listed, Executing, Running, now), x, id, true);
            && id in c1.runtimes && c1.runtimes[id].scheduleId == listed.schedule && SameBase(c, Ended(c1, id, Failed))
            && Ended(c1, id, Failed).runtimes == c.runtimes
            && Ended(c1, id, Failed).queues == RemovedFrom(c.queues, listed.schedule, id)
            && forall y | y in c.rows && y != id ::
                 y in Ended(c1, id, Failed).rows && Ended(c1, id, Failed).rows[y] == c.rows[y]
  {
    hide Active, RemovedFrom;
  }

  lemma NotInQueue(c: Core, id: RunId, s: ScheduleId)
    requires InvOf(c, {}) && id !in c.runtimes
    ensures forall t :: QueueOf(RemovedFrom(c.queues, s, id), t) == QueueOf(c.queues, t)
  {
    assert id !in QueueOf(c.queues, s) by { assert id in QueueOf(c.queues, s) <==> Waits(c.runtimes, s, id, {}); }
    hide InvOf;
    RemovedQueues(c.queues, s, id);
    WithoutIsIdentity(QueueOf(c.queues, s), id);
  }

  /** What follows a run that ended: `e` is the state before its queue is drained. */
  ghost predicate EndedFrom(c: Core, e: Core, id: RunId) {
    && id !in c.runtimes && SameBase(c, e)
    && e.runtimes == c.runtimes && (forall u :: QueueOf(e.queues, u) == QueueOf(c.queues, u))
    && forall y | y in c.rows && y != id :: y in e.rows && e.rows[y] == c.rows[y]
  }

  /** Draining the queue of a busy schedule changes nothing there. */
  lemma BusyIsQuiet(c: Core, e: Core, k: nat, c': Core, s: ScheduleId, id: RunId)
    requires InvOf(c, {}) && EndedFrom(c, e, id) && DrainedCore(s, k, e, c') && Active(c.runtimes, s)
    ensures Quiet(c, c', s, id, false)
  {
    assert k == 0 && QueueOf(e.queues, s)[..0] == [];
    forall y | y in c.runtimes ensures SameRun(c, c', y) { HeldIn(c, {}, y); }
    assert c'.runtimes.Keys <= c.runtimes.Keys;
    SameActivity(c.runtimes, c'.runtimes, s);
    hide InvOf, QueueOf;
  }

  lemma NotServed(c: Core, e: Core, k: nat, c': Core, t: ScheduleId, id: RunId, y: RunId)
    requires InvOf(c, {}) && EndedFrom(c, e, id) && DrainedCore(t, k, e, c')
    requires y in c.runtimes && c.runtimes[y].scheduleId != t
    ensures SameRun(c, c', y)
  {
    HeldIn(c, {}, y);
    assert y in QueueOf(c.queues, t) <==> Waits(c.runtimes, t, y, {});
    hide InvOf, QueueOf, ServedInOrder, Active;
    assert y !in QueueOf(e.queues, t)[..k];
  }

  /** Draining a queue changes nothing at another schedule. */
  lemma ElsewhereIsQuiet(c: Core, e: Core, k: nat, c': Core, t: ScheduleId, s: ScheduleId, id: RunId)
    requires InvOf(c, {}) && EndedFrom(c, e, id) && DrainedCore(t, k, e, c') && t != s
    ensures Quiet(c, c', s, id, false)
  {
    forall y | y in c.runtimes && c.runtimes[y].scheduleId == s ensures SameRun(c, c', y) {
      NotServed(c, e, k, c', t, id, y);
    }
    hide InvOf;
    forall y | y in c'.runtimes && c'.runtimes[y].scheduleId == s ensures y in c.runtimes
        && c'.runtimes[y] == c.runtimes[y] {
      LeftKeepsSchedule(e, QueueOf(e.queues, t)[..k], k == |QueueOf(e.queues, t)|, c', y);
      hide ServedInOrder, QueueOf;
    }
    SameActivity(c.runtimes, c'.runtimes, s);
    hide ServedInOrder, Active, QueueOf;
  }

  lemma LeftKeepsSchedule(e: Core, left: seq<RunId>, exhausted: bool, c': Core, y: RunId)
    requires ServedInOrder(left, exhausted, e, c')
    ensures y in left && y in c'.runtimes ==> y in e.runtimes && c'.runtimes[y].scheduleId == e.runtimes[y].scheduleId
  {
    if y in left {
      var i :| 0 <= i < |left| && left[i] == y;
      assert LaunchedAs(e, left[i], c');
    }
  }

  lemma SameActivity(rts: Runtimes, rts': Runtimes, s: ScheduleId)
    requires forall y | y in rts && rts[y].scheduleId == s :: y in rts' && rts'[y] == rts[y]
    requires forall y | y in rts' && rts'[y].scheduleId == s :: y in rts && rts'[y] == rts[y]
    ensures Active(rts', s) <==> Active(rts, s)
  {
    if Active(rts, s) {
      var y :| y in rts && rts[y].scheduleId == s && IsActive(rts[y]);
      assert rts'[y].scheduleId == s && IsActive(rts'[y]);
    }
  }

  /** A row taken changes nothing at `s` but its own run, unless it ends a run of idle `s`. */
  lemma TakenIsQuiet(id: RunId, listed: Row, recovery: Recovery, dispatchOnly: bool, now: int, k: nat, c: Core,
                     c': Core, s: ScheduleId)
    requires InvOf(c, {}) && Reconciled(id, listed, recovery, dispatchOnly, now, k, c, c')
    requires EndsBy(listed, recovery) && Taken(c, id, listed, dispatchOnly, now) ==>
               listed.schedule != s || Active(c.runtimes, s)
    ensures Quiet(c, c', s, id,
                  Taken(c, id, listed, dispatchOnly, now) && listed.schedule == s && ActiveBy(listed, recovery))
  {
    hide InvOf, Quiet, Concluded, Adopted, Attributed, Pushed, OrphanEnded, Active, Claimable;
    if !Taken(c, id, listed, dispatchOnly, now) {
      UntakenIsQuiet(c, s, id);
    } else if listed.dispatch.Some? {
      if listed.phase == Some(Queued) {
        PushedIsQuiet(c, id, listed, now, s);
      } else {
        AdoptedIsQuiet(c, id, listed, Executing, Running, now, s);
      }
    } else if listed.phase == Some(RetryWait) {
      AdoptedIsQuiet(c, id, listed, RetryWait, Pending, now, s);
    } else {
      match recovery {
        case NoWorkflow => OrphanEndedIsQuiet(c, id, listed, LostStatus(listed), s);
        case EndedWorkflow(status) => OrphanEndedIsQuiet(c, id, listed, status, s);
        case LiveWorkflow(x) => AttributedIsQuiet(c, id, listed, x, now, s);
        case FailedWorkflow(x) =>
          if listed.attempt < listed.maxAttempts {
            RetriedIsQuiet(c, id, listed, x, now, k, c', s);
          } else {
            var e := EndedView(c, id, listed, x, now, k, c');
            if listed.schedule == s { BusyIsQuiet(c, e, k, c', s, id); }
            else { ElsewhereIsQuiet(c, e, k, c', listed.schedule, s, id); }
          }
      }
    }
  }

  // ---------------------------------------------------------------------
  // The queue behind a run that ends
  // ---------------------------------------------------------------------

  lemma {:induction false} FirstStaying(c: Core, s: ScheduleId, j: nat) returns (m: nat)
    requires j < |QueueOf(c.queues, s)| && !NoneStays(c, s, j)
    ensures m <= j && StaysAt(c, QueueOf(c.queues, s)[m]) && forall i | 0 <= i < m ::
              !StaysAt(c, QueueOf(c.queues, s)[i])
  {
    if j > 0 && !NoneStays(c, s, j - 1) {
      m := FirstStaying(c, s, j - 1);
    } else {
      m := j;
    }
  }

  /** What was known of the queue of `s` still holds, and `e` looks the same there. */
  ghost predicate QueueIntact(c: Core, e: Core, s: ScheduleId) {
    && QueueOf(c.queues, s) <= QueueOf(e.queues, s)
    && (forall j | 0 <= j < |QueueOf(c.queues, s)| :: LaunchesAlike(c, e, s, QueueOf(c.queues, s)[j]))
    && (forall i, j | 0 <= i < j < |QueueOf(e.queues, s)| :: QueueOf(e.queues, s)[i] != QueueOf(e.queues, s)[j])
  }

  predicate LaunchesAlike(c: Core, e: Core, s: ScheduleId, x: RunId) {
    && x in e.runtimes && x in e.rows && e.runtimes[x].scheduleId == s && Owned(e, x)
    && (Stays(e, e.runtimes[x]) <==> StaysAt(c, x))
  }

  /** All runs before the `m`-th end at their launch: the `m`-th is launched too, and
      last if it does not end. */
  lemma ServedUpTo(q: seq<RunId>, k: nat, e: Core, c': Core, m: nat)
    requires 0 < k <= |q| && m < |q| && ServedInOrder(q[..k], k == |q|, e, c')
    requires forall i | 0 <= i < m :: EndsOnLaunch(e, q[i])
    ensures m < k && q[m] in e.runtimes && q[m] in e.rows && LaunchedAs(e, q[m], c')
    ensures !EndsOnLaunch(e, q[m]) ==> k == m + 1
  {
    var left := q[..k];
    hide EndsOnLaunch, LaunchedAs;
    assert left[k - 1] == q[k - 1];
    assert m < k;
    assert left[m] == q[m];
  }

  /** Draining the idle schedule's queue launches its runs up to the first that stays. */
  lemma QueueIsServed(c: Core, e: Core, k: nat, c': Core, s: ScheduleId, j: nat)
    requires QueueIntact(c, e, s) && Drained(s, k, e, c') && !Active(e.runtimes, s) && j < |QueueOf(c.queues, s)|
    ensures var x := QueueOf(c.queues, s)[j];
            if NoneStays(c, s, j) then x !in c'.runtimes
            else x in c'.runtimes && c'.runtimes[x].scheduleId == s && Active(c'.runtimes, s)
  {
    var q0, q := QueueOf(c.queues, s), QueueOf(e.queues, s);
    forall i | 0 <= i < |q0| ensures q[i] == q0[i] && (EndsOnLaunch(e, q[i]) <==> !StaysAt(c, q0[i])) {
      assert LaunchesAlike(c, e, s, q0[i]);
      hide Stays, Owned, StaysAt;
    }
    assert 0 < k <= |q| && ServedInOrder(q[..k], k == |q|, e, c')
           && OthersKept(q[..k], e.runtimes, e.rows, c'.runtimes, c'.rows);
    hide Drained, EndsOnLaunch, StaysAt, ServedInOrder, OthersKept, QueueOf, Active;
    if NoneStays(c, s, j) {
      ServedUpTo(q, k, e, c', j);
      EndedIsGone(e, c', q[j]);
    } else {
      var m := FirstStaying(c, s, j);
      ServedUpTo(q, k, e, c', m);
      StayingIsActive(c, e, c', s, q[m]);
      if j > m { BehindStays(q, k, j, e, c', s); }
    }
  }

  lemma EndedIsGone(e: Core, c': Core, x: RunId)
    requires x in e.runtimes && x in e.rows && EndsOnLaunch(e, x) && LaunchedAs(e, x, c')
    ensures x !in c'.runtimes
  {
  }

  lemma StayingIsActive(c: Core, e: Core, c': Core, s: ScheduleId, x: RunId)
    requires LaunchesAlike(c, e, s, x) && StaysAt(c, x) && LaunchedAs(e, x, c')
    ensures x in c'.runtimes && c'.runtimes[x].scheduleId == s && Active(c'.runtimes, s)
  {
  }

  lemma BehindStays(q: seq<RunId>, k: nat, j: nat, e: Core, c': Core, s: ScheduleId)
    requires k <= j < |q| && (forall i, j | 0 <= i < j < |q| :: q[i] != q[j])
    requires OthersKept(q[..k], e.runtimes, e.rows, c'.runtimes, c'.rows) && q[j] in e.runtimes
             && e.runtimes[q[j]].scheduleId == s
    ensures q[j] in c'.runtimes && c'.runtimes[q[j]].scheduleId == s
  {
    var left, x := q[..k], q[j];
    forall i | 0 <= i < k ensures left[i] != x {
      assert q[i] != q[j];
    }
    assert x in e.runtimes && x !in left;
  }

  // ---------------------------------------------------------------------
  // The whole pass
  // ---------------------------------------------------------------------

  /** How schedule `s` looks when `i` rows were taken. */
  ghost predicate AsExpected(p: Pass, c: Core, cur: Core, i: nat, s: ScheduleId)
    requires i <= |p.listed|
  {
    var q := QueueOf(c.queues, s);
    if ServesBefore(p, c, i, s) then
      forall j | 0 <= j < |q| ::
        if NoneStays(c, s, j) then q[j] in p.listed[..i] || q[j] !in cur.runtimes
        else q[j] in cur.runtimes && cur.runtimes[q[j]].scheduleId == s && Active(cur.runtimes, s)
    else
      && q <= QueueOf(cur.queues, s)
      && (forall j | 0 <= j < |q| :: SameRun(c, cur, q[j]))
      && (Active(cur.runtimes, s) <==> Active(c.runtimes, s) || ActivatesBefore(p, c, i, s))
  }

  lemma InitiallyAsExpected(p: Pass, c: Core, s: ScheduleId)
    requires InvOf(c, {})
    ensures AsExpected(p, c, c, 0, s)
  {
    forall j | 0 <= j < |QueueOf(c.queues, s)| ensures SameRun(c, c, QueueOf(c.queues, s)[j]) {
      QueueMemberWaits(c, s, j);
    }
  }

  /** A listed run is taken as it was listed, or again after it ended in the queue of its schedule. */
  lemma TakenOrAgain(p: Pass, c: Core, cur: Core, id: RunId)
    requires InvOf(c, {}) && LeasesHeld(c) && Bystander(c, cur, id) && cur.me == c.me && !Terminal(c.rows[id].status)
    ensures id !in c.runtimes ==> (Taken(cur, id, c.rows[id], p.dispatchOnly, p.now) <==> TakenBy(p, c, id))
    ensures id in c.runtimes ==> !TakenBy(p, c, id)
    ensures id in c.runtimes && id !in cur.runtimes ==>
              && c.runtimes[id].phase.Queued? && id in QueueOf(c.queues, c.rows[id].schedule)
              && c.rows[id].schedule == c.runtimes[id].scheduleId
              && c.rows[id].attempt < c.rows[id].maxAttempts
              && Taken(cur, id, c.rows[id], p.dispatchOnly, p.now) == (p.dispatchOnly ==> c.rows[id].dispatch.Some?)
              && Terminal(cur.rows[id].status)
  {
    if id in c.runtimes {
      HeldIn(c, {}, id);
      BoundedRow(c, id);
      assert Owned(c, id);
      assert c.runtimes[id].phase.Queued? ==> id in QueueOf(c.queues, c.runtimes[id].scheduleId) by {
        assert id in QueueOf(c.queues, c.runtimes[id].scheduleId)
               <==> Waits(c.runtimes, c.runtimes[id].scheduleId, id, {});
      }
    }
    hide InvOf, QueueOf, Stays, LeasesHeld;
  }

  lemma StillGone(p: Pass, c1: Core, c2: Core, i: nat, x: RunId)
    requires i < |p.listed| && (x in p.listed[..i] || x !in c1.runtimes)
    requires x !in p.listed[..i + 1] ==> Bystander(c1, c2, x)
    ensures x in p.listed[..i + 1] || x !in c2.runtimes
  {
    assert p.listed[..i + 1] == p.listed[..i] + [p.listed[i]];
    hide EndsOnLaunch, EndedRow;
  }

  /** A quiet row keeps schedule `s` as expected. */
  lemma QuietKeepsExpected(p: Pass, c: Core, c1: Core, c2: Core, i: nat, s: ScheduleId, taken: bool, listed: Row)
    requires i < |p.listed| && AsExpected(p, c, c1, i, s) && InvOf(c, {})
    requires Quiet(c1, c2, s, p.listed[i],
                   taken && listed.schedule == s && ActiveBy(listed, RecoveryOf(p.recoveries, p.listed[i])))
    requires p.listed[i] in c.rows && listed == c.rows[p.listed[i]]
    requires p.listed[i] in c1.runtimes ==> c2 == c1 && !taken
    requires forall x | x in QueueOf(c.queues, s) && x !in p.listed[..i + 1] :: Bystander(c1, c2, x)
    requires p.listed[i] !in c.runtimes ==> (taken <==> TakenBy(p, c, p.listed[i]))
    requires p.listed[i] in c.runtimes ==> !TakenBy(p, c, p.listed[i])
    requires p.listed[i] in c.runtimes && taken ==> p.listed[i] in QueueOf(c.queues, listed.schedule)
    requires EndsOn(p, c, i, s) && !ServesBefore(p, c, i, s) ==> Active(c1.runtimes, s)
    ensures AsExpected(p, c, c2, i + 1, s)
  {
    var id := p.listed[i];
    assert ActivatesBefore(p, c, i + 1, s) <==> ActivatesBefore(p, c, i, s) || ActivatesOn(p, c, i, s);
    var q := QueueOf(c.queues, s);
    hide InvOf, QueueOf, Active, NoneStays, ActiveBy, EndsBy, TakenBy, Taken, RecoveryOf, Bystander, ActivatesBefore;
    if ServesBefore(p, c, i, s) {
      assert ServesBefore(p, c, i + 1, s);
      forall j | 0 <= j < |q|
        ensures if NoneStays(c, s, j) then q[j] in p.listed[..i + 1] || q[j] !in c2.runtimes
                else q[j] in c2.runtimes && c2.runtimes[q[j]].scheduleId == s && Active(c2.runtimes, s)
      {
        if NoneStays(c, s, j) {
          StillGone(p, c1, c2, i, q[j]);
        } else if q[j] != id {
          assert SameRun(c1, c2, q[j]);
        }
      }
    } else {
      assert !ServesBefore(p, c, i + 1, s);
      forall j | 0 <= j < |q| ensures SameRun(c, c2, q[j]) {
        assert SameRun(c, c1, q[j]);
        QueueMemberWaits(c, s, j);
        if q[j] != id { assert SameRun(c1, c2, q[j]); }
      }
    }
  }

  lemma IntactBehindEnd(c: Core, c1: Core, e: Core, s: ScheduleId, id: RunId)
    requires InvOf(c, {}) && InvOf(c1, {}) && LeasesHeld(c) && SameBase(c, c1) && EndedFrom(c1, e, id)
             && id !in c.runtimes
    requires QueueOf(c.queues, s) <= QueueOf(c1.queues, s)
    requires forall j | 0 <= j < |QueueOf(c.queues, s)| :: SameRun(c, c1, QueueOf(c.queues, s)[j])
    ensures QueueIntact(c, e, s)
  {
    var q := QueueOf(c.queues, s);
    forall j | 0 <= j < |q| ensures LaunchesAlike(c, e, s, q[j]) {
      QueueMemberWaits(c, s, j);
      assert SameRun(c, c1, q[j]) && Owned(c, q[j]);
      hide InvOf, QueueOf;
    }
    NoneTwice(c1, s);
    hide InvOf, LeasesHeld;
  }

  lemma NoneTwice(c: Core, s: ScheduleId)
    requires InvOf(c, {})
    ensures forall i, j | 0 <= i < j < |QueueOf(c.queues, s)| :: QueueOf(c.queues, s)[i] != QueueOf(c.queues, s)[j]
  {
    var q := QueueOf(c.queues, s);
    assert Increasing(q, c.ticket, c.nextTicket);
    forall i, j | 0 <= i < j < |q| ensures q[i] != q[j] {
      assert c.ticket[q[i]] < c.ticket[q[j]];
    }
  }

  /** A run of idle schedule `s` ends: what waits there is served as expected. */
  lemma EndKeepsExpected(p: Pass, c: Core, c1: Core, e: Core, k: nat, c2: Core, i: nat, s: ScheduleId)
    requires i < |p.listed| && AsExpected(p, c, c1, i, s) && InvOf(c, {}) && InvOf(c1, {}) && LeasesHeld(c)
             && SameBase(c, c1)
    requires EndsOn(p, c, i, s) && p.listed[i] !in c.runtimes && !Active(c1.runtimes, s)
    requires EndedFrom(c1, e, p.listed[i]) && DrainedCore(s, k, e, c2)
    requires forall x | x in QueueOf(c.queues, s) && x !in p.listed[..i + 1] :: Bystander(c1, c2, x)
    ensures AsExpected(p, c, c2, i + 1, s)
  {
    hide InvOf, LeasesHeld, QueueOf, Active, NoneStays, EndsOn, Drained, Bystander, SameRun, ActivatesBefore;
    var q := QueueOf(c.queues, s);
    assert ServesBefore(p, c, i + 1, s);
    if ServesBefore(p, c, i, s) {
      forall j | 0 <= j < |q| ensures NoneStays(c, s, j) && (q[j] in p.listed[..i + 1] || q[j] !in c2.runtimes) {
        StillGone(p, c1, c2, i, q[j]);
      }
    } else {
      IntactBehindEnd(c, c1, e, s, p.listed[i]);
      forall j | 0 <= j < |q|
        ensures if NoneStays(c, s, j) then q[j] !in c2.runtimes
                else q[j] in c2.runtimes && c2.runtimes[q[j]].scheduleId == s && Active(c2.runtimes, s)
      {
        QueueIsServed(c, e, k, c2, s, j);
      }
    }
  }

  /** The pass at work: row after row, every schedule looks as expected. */
  lemma {:induction false} PassAsExpected(p: Pass, c: Core, c': Core, w: Sweep, i: nat, s: ScheduleId)
    requires SweepProgress(p.recoveries, p.dispatchOnly, p.now, c, c', w) && w.listed == p.listed && i <= |p.listed|
    requires InvOf(c, {}) && LeasesHeld(c)
    ensures AsExpected(p, c, w.states[i], i, s)
    decreases i
  {
    if i == 0 {
      InitiallyAsExpected(p, c, s);
    } else {
      PassAsExpected(p, c, c', w, i - 1, s);
      assert RowSwept(p.recoveries, p.dispatchOnly, p.now, w, i - 1);
      RowAsExpected(p, c, c', w, i - 1, s);
    }
  }

  lemma OthersStandBy(p: Pass, c: Core, c': Core, w: Sweep, i: nat, x: RunId)
    requires SweepProgress(p.recoveries, p.dispatchOnly, p.now, c, c', w) && w.listed == p.listed && i < |p.listed|
    requires InvOf(c, {}) && x in c.rows && x !in p.listed[..i + 1]
    ensures Bystander(w.states[i], w.states[i + 1], x)
  {
    var id, c1 := p.listed[i], w.states[i];
    assert RowSwept(p.recoveries, p.dispatchOnly, p.now, w, i);
    assert p.listed[..i + 1] == p.listed[..i] + [id];
    assert id !in w.listed[..i];
    StillPending(p.recoveries, p.dispatchOnly, p.now, c, c', w, i, id);
    StillPending(p.recoveries, p.dispatchOnly, p.now, c, c', w, i, x);
    PendingHasRow(c, c1, x);
    hide SweepProgress, Bystander, Reconciled, InvOf;
    if id !in c1.runtimes { PendingIsListed(c, c1, id); }
    ReconciledSpares(id, c.rows[id], RecoveryOf(p.recoveries, id), p.dispatchOnly, p.now, w.ks[i], c1, w.states[i + 1],
                     x);
  }

  lemma QueueStandsBy(p: Pass, c: Core, c': Core, w: Sweep, i: nat, s: ScheduleId)
    requires SweepProgress(p.recoveries, p.dispatchOnly, p.now, c, c', w) && w.listed == p.listed && i < |p.listed|
    requires InvOf(c, {})
    ensures forall x | x in QueueOf(c.queues, s) && x !in p.listed[..i + 1] ::
              Bystander(w.states[i], w.states[i + 1], x)
  {
    assert |w.states| > i + 1;
    hide InvOf, SweepProgress, Bystander, QueueOf;
    forall x | x in QueueOf(c.queues, s) && x !in p.listed[..i + 1] ensures Bystander(w.states[i], w.states[i + 1], x) {
      var j :| 0 <= j < |QueueOf(c.queues, s)| && QueueOf(c.queues, s)[j] == x;
      QueueMemberWaits(c, s, j);
      OthersStandBy(p, c, c', w, i, x);
    }
  }

  lemma RowAsExpected(p: Pass, c: Core, c': Core, w: Sweep, i: nat, s: ScheduleId)
    requires SweepProgress(p.recoveries, p.dispatchOnly, p.now, c, c', w) && w.listed == p.listed && i < |p.listed|
    requires InvOf(c, {}) && LeasesHeld(c) && RowSwept(p.recoveries, p.dispatchOnly, p.now, w, i)
    requires AsExpected(p, c, w.states[i], i, s)
    ensures AsExpected(p, c, w.states[i + 1], i + 1, s)
  {
    var id := p.listed[i];
    assert id !in w.listed[..i];
    StillPending(p.recoveries, p.dispatchOnly, p.now, c, c', w, i, id);
    QueueStandsBy(p, c, c', w, i, s);
    hide InvOf, LeasesHeld, Bystander, AsExpected, Reconciled, QueueOf;
    RowKeepsExpected(p, c, w.states[i], w.ks[i], w.states[i + 1], i, s);
  }

  lemma LiveIsSkipped(id: RunId, listed: Row, recovery: Recovery, dispatchOnly: bool, now: int, k: nat, c: Core,
                      c': Core)
    requires Reconciled(id, listed, recovery, dispatchOnly, now, k, c, c') && id in c.runtimes
    ensures c' == c && !Taken(c, id, listed, dispatchOnly, now)
  {
  }

  lemma LastAttemptFails(id: RunId, listed: Row, recovery: Recovery, dispatchOnly: bool, now: int, k: nat, c: Core,
                         c': Core)
    returns (e: Core)
    requires InvOf(c, {}) && Reconciled(id, listed, recovery, dispatchOnly, now, k, c, c')
    requires Taken(c, id, listed, dispatchOnly, now) && EndsBy(listed, recovery)
    ensures EndedFrom(c, e, id) && DrainedCore(listed.schedule, k, e, c')
  {
    hide InvOf, Concluded, Adopted, Attributed, Pushed, OrphanEnded, DrainedCore, QueueOf;
    e := EndedView(c, id, listed, recovery.x, now, k, c');
  }

  lemma RowKeepsExpected(p: Pass, c: Core, c1: Core, k: nat, c2: Core, i: nat, s: ScheduleId)
    requires i < |p.listed| && InvOf(c, {}) && InvOf(c1, {}) && LeasesHeld(c) && SameBase(c, c1)
    requires p.listed[i] in c.rows && !Terminal(c.rows[p.listed[i]].status) && Bystander(c, c1, p.listed[i])
    requires Reconciled(p.listed[i], c.rows[p.listed[i]], RecoveryOf(p.recoveries, p.listed[i]), p.dispatchOnly, p.now,
                        k, c1, c2)
    requires forall x | x in QueueOf(c.queues, s) && x !in p.listed[..i + 1] :: Bystander(c1, c2, x)
    requires AsExpected(p, c, c1, i, s)
    ensures AsExpected(p, c, c2, i + 1, s)
  {
    var id := p.listed[i];
    var listed, recovery := c.rows[id], RecoveryOf(p.recoveries, id);
    TakenOrAgain(p, c, c1, id);
    hide InvOf, LeasesHeld, Bystander, AsExpected, Reconciled, Taken, EndedFrom, QueueOf, Active, DrainedCore;
    var taken := Taken(c1, id, listed, p.dispatchOnly, p.now);
    if id in c1.runtimes { LiveIsSkipped(id, listed, recovery, p.dispatchOnly, p.now, k, c1, c2); }
    if taken && EndsBy(listed, recovery) && listed.schedule == s && !Active(c1.runtimes, s) {
      var e := LastAttemptFails(id, listed, recovery, p.dispatchOnly, p.now, k, c1, c2);
      EndKeepsExpected(p, c, c1, e, k, c2, i, s);
    } else {
      TakenIsQuiet(id, listed, recovery, p.dispatchOnly, p.now, k, c1, c2, s);
      QuietKeepsExpected(p, c, c1, c2, i, s, taken, listed);
    }
  }

  /** While this engine's leases are held, as they are right after it renewed them, the
      runs that a sweep claims again after they finished are exactly the exposed ones. */
  lemma ClaimedAgainIffExposed(p: Pass, c: Core, c': Core, w: Sweep, i: nat)
    requires SweepProgress(p.recoveries, p.dispatchOnly, p.now, c, c', w) && w.listed == p.listed && i < |p.listed|
    requires InvOf(c, {}) && LeasesHeld(c)
    ensures ClaimedAgain(p.dispatchOnly, p.now, w, i) <==> Exposed(p, c, i)
  {
    var id, c1 := p.listed[i], w.states[i];
    assert RowSwept(p.recoveries, p.dispatchOnly, p.now, w, i);
    assert id !in w.listed[..i];
    StillPending(p.recoveries, p.dispatchOnly, p.now, c, c', w, i, id);
    TakenOrAgain(p, c, c1, id);
    if id in c.runtimes {
      PassAsExpected(p, c, c', w, i, c.runtimes[id].scheduleId);
    }
    hide InvOf, LeasesHeld, SweepProgress, RowSwept, EndsOnLaunch, EndedRow, ServesBefore, NoneStays;
  }

  ghost predicate ExposedRun(p: Pass, c: Core, id: RunId) {
    exists i | 0 <= i < |p.listed| :: p.listed[i] == id && Exposed(p, c, i)
  }

  /** Every waiting run that is still this engine's would stay when launched. */
  ghost predicate Calm(c: Core) {
    forall x | x in c.runtimes && c.runtimes[x].phase.Queued? && Owned(c, x) :: Stays(c, c.runtimes[x])
  }

  /** Which finished runs a sweep claims again: whatever the leases none, if it only
      handles dispatches or no waiting run would end at its launch; exactly the
      exposed ones if the leases are held. */
  lemma SweepReclaims(recoveries: Recoveries, dispatchOnly: bool, now: int, c: Core, c': Core, w: Sweep)
    requires SweepProgress(recoveries, dispatchOnly, now, c, c', w) && InvOf(c, {})
    ensures dispatchOnly || Calm(c) ==> forall id :: !Again(dispatchOnly, now, w, id)
    ensures LeasesHeld(c) ==>
              forall id :: Again(dispatchOnly, now, w, id)
                  <==> ExposedRun(Pass(w.listed, recoveries, dispatchOnly, now), c, id)
  {
    var p := Pass(w.listed, recoveries, dispatchOnly, now);
    hide InvOf, SweepProgress, ClaimedAgain, LeasesHeld, Exposed, Stays, Owned;
    if LeasesHeld(c) {
      forall i | 0 <= i < |w.listed| ensures ClaimedAgain(dispatchOnly, now, w, i) <==> Exposed(p, c, i) {
        ClaimedAgainIffExposed(p, c, c', w, i);
      }
    }
    if dispatchOnly || Calm(c) {
      forall i | 0 <= i < |w.listed| ensures !ClaimedAgain(dispatchOnly, now, w, i) {
        if ClaimedAgain(dispatchOnly, now, w, i) { AgainIsUnlaunchable(recoveries, dispatchOnly, now, c, c', w, i); }
      }
    }
  }

  lemma CalmOnceRenewed(c: Core, c': Core)
    requires LeasesRenewed({}, c, c') && InvOf(c, {}) && Calm(c)
    ensures Calm(c')
  {
    assert forall id | id in c.runtimes :: id in c.rows;
    hide InvOf;
    forall x | x in c'.runtimes && c'.runtimes[x].phase.Queued? && Owned(c', x) ensures Stays(c', c'.runtimes[x]) {
      assert Owned(c, x);
      assert Stays(c, c.runtimes[x]);
    }
  }

  // ---------------------------------------------------------------------
  // A run that ends twice
  // ---------------------------------------------------------------------

  /** Another engine gave up run 10 of schedule 1, and its workflow failed. */
  const GIVEN_UP := Row(1, Running, Some(Executing), 1, 1, None, None, 3, 0)
  /** Engine 7 still holds run 11, which waits behind it. */
  const WAITING := Row(1, Pending, Some(Queued), 0, 1, None, Some(7), 0, 1_000)
  const WAITING_RUNTIME := Runtime(1, Pending, Queued, 0, 1, 0, None, None, None)
  /** The schedule queues its runs, never retries, and its workflow target has no plan. */
  const UNSTARTABLE := Schedule(true, WebhookTrigger, WorkflowTarget(false), Queue, 0, None)
  const TEN_FAILED: Recoveries := map[10 := FailedWorkflow(5)]

  function Stranded(): Core {
    Core(7, Caps(true, true), map[11 := WAITING_RUNTIME], map[1 := [11]], map[], map[],
         map[10 := GIVEN_UP, 11 := WAITING], map[1 := UNSTARTABLE], {}, {}, map[11 := 0], 1, {}, {1})
  }

  lemma StrandedQueues()
    ensures var c := Stranded(); QueueExact(c.runtimes, c.queues, {}) && Fifo(c.queues, c.ticket, c.nextTicket)
  {
    var c := Stranded();
    forall s, id ensures id in QueueOf(c.queues, s) <==> Waits(c.runtimes, s, id, {}) {
      assert QueueOf(c.queues, s) == if s == 1 then [11] else [];
    }
    forall s ensures Increasing(QueueOf(c.queues, s), c.ticket, c.nextTicket) {
      assert QueueOf(c.queues, s) == if s == 1 then [11] else [];
    }
  }

  lemma StrandedIsValid()
    ensures ValidCore(Stranded()) && LeasesHeld(Stranded())
  {
    var c := Stranded();
    StrandedQueues();
    hide QueueExact, Fifo;
    assert OnePerSchedule(c.runtimes, c.overlapped) && AttemptsBounded(c.runtimes, c.begun);
    assert Held(c.runtimes, c.rows, c.me);
    assert LeftQueue(c.rows, c.begun) && MappedIn(c.sessionToRun, c.begun) && MappedIn(c.workflowToRun, c.begun);
    assert RowsBounded(c.rows) && FailedFully(c.rows, c.excused) && Policies(c.schedules, c.overlapped);
    assert BusyBut(c, {});
    hide OnePerSchedule, AttemptsBounded, Held, LeftQueue, MappedIn, RowsBounded, FailedFully, Policies, BusyBut;
  }

  lemma StrandedIsExposed(now: int)
    ensures Exposed(Pass([10, 11], TEN_FAILED, false, now), Stranded(), 1)
  {
    var c, p := Stranded(), Pass([10, 11], TEN_FAILED, false, now);
    assert QueueOf(c.queues, 1) == [11];
    assert !Active(c.runtimes, 1);
    assert EndsOn(p, c, 0, 1) && !ActivatesBefore(p, c, 0, 1);
    assert ServesBefore(p, c, 1, 1) by { hide EndsOn, Active; }
    assert !StaysAt(c, 11);
    hide StaysAt, ServesBefore;
    assert NoneStays(c, 1, 0) && QueueOf(c.queues, 1)[0] == p.listed[1];
  }

  lemma BothListed(createdAt: RunId -> int, listed: seq<RunId>)
    requires Listing(Stranded().rows, createdAt, listed) && createdAt(10) < createdAt(11)
    ensures listed == [10, 11]
  {
    assert 10 in listed && 11 in listed;
    var i :| 0 <= i < |listed| && listed[i] == 10;
    var j :| 0 <= j < |listed| && listed[j] == 11;
    if |listed| > 2 {
      InOnePlace(createdAt, listed, i, j, 0);
      InOnePlace(createdAt, listed, i, j, 1);
      InOnePlace(createdAt, listed, i, j, 2);
    }
  }

  lemma InOnePlace(createdAt: RunId -> int, listed: seq<RunId>, i: nat, j: nat, k: nat)
    requires Listing(Stranded().rows, createdAt, listed) && i < |listed| && j < |listed| && k < |listed|
    requires listed[i] == 10 && listed[j] == 11
    ensures k == i || k == j
  {
    assert listed[k] in listed;
  }

  lemma OnlyWaitingRemains(now: int, k: nat, c1: Core)
    requires Reconciled(10, GIVEN_UP, FailedWorkflow(5), false, now, k, Stranded(), c1)
    ensures c1.runtimes.Keys <= {11}
  {
    StrandedIsValid();
    hide InvOf, BusyBut, LeasesHeld, Concluded, Adopted, Attributed;
    var e := EndedView(Stranded(), 10, GIVEN_UP, 5, now, k, c1);
    hide ServedInOrder, QueueAdvanced;
  }

  /** Run 10 is taken over only to fail, and run 11, launched from the queue, with it. */
  lemma BothGone(p: Pass, c': Core, w: Sweep)
    requires p == Pass([10, 11], TEN_FAILED, false, p.now) && w.listed == p.listed
    requires SweepProgress(p.recoveries, p.dispatchOnly, p.now, Stranded(), c', w)
    ensures w.states[1].runtimes == map[] && w.states[1].queues == map[]
  {
    var c, c1 := Stranded(), w.states[1];
    StrandedIsValid();
    StrandedIsExposed(p.now);
    PassAsExpected(p, c, c', w, 1, 1);
    assert RowSwept(p.recoveries, p.dispatchOnly, p.now, w, 0) && RowSwept(p.recoveries, p.dispatchOnly, p.now, w, 1);
    assert p.listed[..1] == [10] && QueueOf(c.queues, 1) == [11];
    hide ServesBefore, NoneStays, SweepProgress, Reconciled, LeasesHeld, InvOf, BusyBut;
    OnlyWaitingRemains(p.now, w.ks[0], c1);
    assert NoneStays(c, 1, 0);
    assert 11 !in c1.runtimes && c1.runtimes == map[];
    NothingQueued(c1);
  }

  lemma QueueHasRun(c: Core, s: ScheduleId)
    requires InvOf(c, {})
    ensures s in c.queues ==> c.runtimes != map[]
  {
    if s in c.queues {
      QueuesAreNotEmpty(c, s);
      QueueMemberWaits(c, s, 0);
    }
  }

  lemma NothingQueued(c: Core)
    requires InvOf(c, {}) && c.runtimes == map[]
    ensures c.queues == map[]
  {
    hide InvOf;
    forall s ensures s !in c.queues { QueueHasRun(c, s); }
  }

  /** One engine, one sweep: the run it just ended as failed is claimed from the listing,
      written as cancelled, and announced as finished a second time. */
  lemma SweepEndsRunTwice(createdAt: RunId -> int, now: int, c': Core, w: Sweep, trail: seq<Step>, notes: seq<Note>,
                          notes': seq<Note>)
    requires createdAt(10) < createdAt(11) && Swept(TEN_FAILED, false, now, createdAt, Stranded(), c', w)
    requires AnnouncedPerEnd(Stranded().rows, notes, trail, c'.rows, notes')
    requires forall id :: ReclaimCount(trail, id) == if Again(false, now, w, id) then 1 else 0
    ensures 11 in c'.rows && c'.rows[11].status == Cancelled
    ensures FinishedCount(notes', 11) == FinishedCount(notes, 11) + 2
  {
    var c, p := Stranded(), Pass([10, 11], TEN_FAILED, false, now);
    BothListed(createdAt, w.listed);
    BothGone(p, c', w);
    StrandedIsValid();
    StrandedIsExposed(now);
    ClaimedAgainIffExposed(p, c, c', w, 1);
    assert w.listed[1] == 11 && Again(false, now, w, 11);
    assert RowSwept(TEN_FAILED, false, now, w, 1);
    hide InvOf, BusyBut, LeasesHeld, Exposed, Listing, FinishedCount, ReclaimCount;
    assert w.states[2] == OrphanEnded(w.states[1], 11, WAITING, Cancelled);
    if w.served != [] { NonEmptyHasElements(w.served); }
    assert w.states[2] == c';
  }
}
