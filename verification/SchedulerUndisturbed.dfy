/** Whole runs again, for one schedule and as long as nothing disturbs it: the schedule has
    at most one active run in each engine, none waits without one, runs are launched in
    order of admission, and a run ends failed only with all its attempts used. */
module SchedulerUndisturbed {
  import opened Wrappers
  import opened RunStore
  import opened Fencing
  import opened SchedulerState
  import opened SchedulerSteady
  import opened Scheduler
  import opened SchedulerRuns

  /** The schedule never overlapped, and the engine holds exactly the unfinished runs of
      it that are stored in its name. */
  ghost predicate AtRest(s: ScheduleId, c: Core) {
    s !in c.overlapped && !Lost(c, s) && !Stray(c, s)
  }

  /** What an engine keeps true of schedule `s`, over its own steps and those of others. */
  ghost predicate Kept(s: ScheduleId, c: Core, c': Core) {
    NoneLost(s, c, c') && InOrder(s, c, c') && SetsKept(s, c, c')
  }

  lemma NothingHappened(s: ScheduleId, c: Core)
    ensures Kept(s, c, c)
  {
    SameRunsIsSteady(c, c);
    hide NoneLost, InOrder, SetsKept;
  }

  lemma KeptComposes(s: ScheduleId, c: Core, c1: Core, c2: Core)
    requires Kept(s, c, c1) && Kept(s, c1, c2)
    ensures Kept(s, c, c2)
  {
    hide Lost, Stray;
    assert NoneLost(s, c, c2);
    InOrderComposes(s, c, c1, c2);
    hide InOrder;
    SetsKeptComposes(s, c, c1, c2);
  }

  lemma KeptStaysAtRest(s: ScheduleId, c: Core, c': Core)
    requires AtRest(s, c) && Kept(s, c, c')
    ensures AtRest(s, c')
  {
    hide InOrder, Lost, Stray;
  }

  // ---------------------------------------------------------------------
  // What disturbs a schedule
  // ---------------------------------------------------------------------

  /** Whether a turn of engine `me` disturbs a schedule at rest, told from the call and
      the stored rows: it would claim an unfinished run of another owner or of none,
      fail one on the controller's word, tear one down, or allow runs to overlap. */
  predicate Disturbing(s: ScheduleId, call: Call, now: int, me: OwnerId, rows: Rows) {
    match call
    case Starting(_) => exists id | id in rows :: ClaimableOf(s, now, me, rows[id])
    case LeaseTimer(_) => exists id | id in rows :: ClaimableOf(s, now, me, rows[id])
    case Resolving(id, _, status, _) => s in FailedBy(rows, id, status)
    case Detaching => exists id | id in rows :: OwnedOf(s, me, rows[id])
    case Disposing => exists id | id in rows :: OwnedOf(s, me, rows[id])
    case _ => AllowsOverlap(call, s)
  }

  predicate ClaimableOf(s: ScheduleId, now: int, me: OwnerId, row: Row) {
    row.schedule == s && !Terminal(row.status) && row.owner != Some(me) && Claimable(row, me, now)
  }

  predicate OwnedOf(s: ScheduleId, me: OwnerId, row: Row) {
    row.schedule == s && !Terminal(row.status) && row.owner == Some(me)
  }

  /** At rest, the rows tell all there is to disturb. */
  lemma DisturbsByRows(s: ScheduleId, call: Call, now: int, c: Core)
    requires InvOf(c, {}) && AtRest(s, c) && Disturbs(s, call, now, c)
    ensures Disturbing(s, call, now, c.me, c.rows)
  {
    if Sweeps(call) {
      var id :| id in c.rows && OrphanRow(c, s, now, id);
      assert !StrayRow(c, s, id);
      assert ClaimableOf(s, now, c.me, c.rows[id]);
    } else if TearsDown(call) {
      var id :| id in c.runtimes && c.runtimes[id].scheduleId == s;
      HeldIn(c, {}, id);
      hide InvOf;
      assert OwnedOf(s, c.me, c.rows[id]);
    }
  }

  /** A sweep that may adopt at most one active run of the schedule leaves it at rest,
      after a restart too: no past loss or overlap is held against it. */
  lemma RecoveredAtRest(s: ScheduleId, call: Call, now: int, c: Core, c': Core)
    requires Sweeps(call) && StepIsSteady(call, now, c, c') && Exempts(call, now, c, c')
    requires AtRest(s, c) && !Crowded(call.recoveries, c.rows, s)
    ensures AtRest(s, c')
  {
    hide SteadyAt, Crowded, Lost, Stray;
    assert NoneLost(s, c, c');
  }

  // ---------------------------------------------------------------------
  // The steps of other engines
  // ---------------------------------------------------------------------

  /** What engine `e` leaves steady another engine, seen as `o`, finds kept. */
  lemma OthersFindKept(s: ScheduleId, now: int, e: Core, e': Core, o: Core, o': Core)
    requires SteadyAt(s, e, e') && RowsKept(e.me, now, e.rows, e'.rows)
    requires InvOf(o, {}) && o.me != e.me && o.rows == e.rows && o.overlapped == e.overlapped && o.excused == e.excused
    requires o' == o.(rows := e'.rows, schedules := o'.schedules, overlapped := e'.overlapped, excused := e'.excused)
    ensures Kept(s, o, o')
  {
    OthersLoseNone(s, now, e, e', o, o');
    hide InvOf, NoneLost, ForeignKept;
    assert RowsStay(o, o');
    hide RowsKept, RowsStay;
  }

  lemma OthersLoseNone(s: ScheduleId, now: int, e: Core, e': Core, o: Core, o': Core)
    requires ForeignKept(s, e, e') && RowsKept(e.me, now, e.rows, e'.rows)
    requires InvOf(o, {}) && o.me != e.me && o.rows == e.rows
    requires o'.me == o.me && o'.rows == e'.rows && o'.runtimes == o.runtimes && o'.starved == o.starved
    ensures NoneLost(s, o, o')
  {
    if x :| x in o'.runtimes && o'.runtimes[x].scheduleId == s && !Owned(o', x) {
      HeldIn(o, {}, x);
      hide InvOf;
      assert !Owned(o, x);
    }
    hide InvOf;
    if x :| x in o'.rows && StrayRow(o', s, x) {
      assert x in o.rows && RowStep(e.me, now, o.rows[x], o'.rows[x]);
      assert StrayRow(o, s, x);
    }
  }

  // ---------------------------------------------------------------------
  // The promise over a whole run
  // ---------------------------------------------------------------------

  /** What a run of turns that do not disturb schedule `s` makes of an engine's state. */
  ghost predicate Orderly(s: ScheduleId, c: Core, c': Core) {
    && AtRest(s, c')
    && (forall a, b | a in c'.runtimes && b in c'.runtimes && IsActive(c'.runtimes[a]) && IsActive(c'.runtimes[b])
                      && c'.runtimes[a].scheduleId == s && c'.runtimes[b].scheduleId == s :: a == b)
    && (QueueOf(c'.queues, s) != [] ==> Active(c'.runtimes, s))
    && (forall id | id in c'.runtimes && c'.runtimes[id].scheduleId == s :: Owned(c', id))
    && LaunchedInOrder(s, c, c')
    && (forall id | id in c'.rows && id !in c.excused && c'.rows[id].schedule == s && c'.rows[id].status.Failed? ::
          c'.rows[id].attempt == c'.rows[id].maxAttempts)
  }

  /** Of the runs that waited, none was launched while one ahead of it still waits, and
      those that still wait do so in the same order. */
  ghost predicate LaunchedInOrder(s: ScheduleId, c: Core, c': Core) {
    var q, q' := QueueOf(c.queues, s), QueueOf(c'.queues, s);
    && (forall i, j | 0 <= i < j < |q| && Launched(c'.runtimes, s, q[j]) :: q[i] !in q')
    && (forall i, j, m, n | 0 <= i < j < |q| && 0 <= m < |q'| && 0 <= n < |q'| && q'[m] == q[i] && q'[n] == q[j] ::
          m < n)
  }

  lemma KeptIsOrderly(s: ScheduleId, c: Core, c': Core)
    requires InvOf(c, {}) && ValidCore(c') && AtRest(s, c) && Kept(s, c, c')
    ensures Orderly(s, c, c')
  {
    KeptStaysAtRest(s, c, c');
    KeptInOrder(s, c, c');
    hide LaunchedInOrder, InOrder, QueueExact, Fifo, AttemptsBounded, Held, NoneLost, Stray;
  }

  lemma KeptInOrder(s: ScheduleId, c: Core, c': Core)
    requires InvOf(c, {}) && InvOf(c', {}) && InOrder(s, c, c')
    ensures LaunchedInOrder(s, c, c')
  {
    var q, q' := QueueOf(c.queues, s), QueueOf(c'.queues, s);
    assert Increasing(q, c.ticket, c.nextTicket) && Increasing(q', c'.ticket, c'.nextTicket);
    forall x ensures x in q ==> Waits(c.runtimes, s, x, {}) && x in c.rows {
      if x in q { HeldIn(c, {}, x); }
    }
    forall x ensures x in q' <==> Waits(c'.runtimes, s, x, {}) {
    }
    hide InvOf;
    forall i, j | 0 <= i < j < |q| && Launched(c'.runtimes, s, q[j]) ensures q[i] !in q' {
      assert q[i] in q && q[j] in q && Ahead(c, q[i], q[j]);
    }
    forall i, j, m, n | 0 <= i < j < |q| && 0 <= m < |q'| && 0 <= n < |q'| && q'[m] == q[i] && q'[n] == q[j]
      ensures m < n
    {
      assert q[i] in q && q[j] in q && q'[m] in q' && q'[n] in q';
      assert SameTicket(c, c', q[i]) && SameTicket(c, c', q[j]);
      assert c.ticket[q[i]] < c.ticket[q[j]];
    }
  }

  /** A new engine is at rest for a schedule exactly if the schedule never overlapped and no
      unfinished run of it is stored in the engine's name. */
  lemma FreshIsAtRestIff(s: ScheduleId, c: Core)
    requires c.runtimes == map[] && c.starved == {}
    ensures AtRest(s, c) <==> s !in c.overlapped && forall id | id in c.rows :: !OwnedOf(s, c.me, c.rows[id])
  {
    forall id | id in c.rows ensures StrayRow(c, s, id) <==> OwnedOf(s, c.me, c.rows[id]) {
    }
  }

  // ---------------------------------------------------------------------
  // Engines at work
  // ---------------------------------------------------------------------

  ghost function Views(engines: seq<SchedulerEngine>, store: RunTable): (views: seq<Core>)
    requires forall i | 0 <= i < |engines| :: engines[i].store == store
    reads engines, store
    ensures |views| == |engines| && forall i | 0 <= i < |engines| :: views[i] == engines[i].View()
  {
    if engines == [] then []
    else Views(engines[..|engines| - 1], store) + [engines[|engines| - 1].View()]
  }

  ghost predicate AllAtRest(s: ScheduleId, views: seq<Core>) {
    forall i | 0 <= i < |views| :: AtRest(s, views[i])
  }

  ghost predicate AllKept(s: ScheduleId, views: seq<Core>, views': seq<Core>) {
    |views'| == |views| && forall i | 0 <= i < |views| :: Kept(s, views[i], views'[i])
  }

  lemma AllKeptComposes(s: ScheduleId, v0: seq<Core>, v1: seq<Core>, v2: seq<Core>)
    requires AllKept(s, v0, v1) && AllKept(s, v1, v2)
    ensures AllKept(s, v0, v2)
  {
    hide Kept;
    forall i | 0 <= i < |v0| ensures Kept(s, v0[i], v2[i]) { KeptComposes(s, v0[i], v1[i], v2[i]); }
  }

  lemma AllStayAtRest(s: ScheduleId, views: seq<Core>, views': seq<Core>)
    requires AllAtRest(s, views) && AllKept(s, views, views')
    ensures AllAtRest(s, views')
  {
    hide Kept, AtRest;
    forall i | 0 <= i < |views| ensures AtRest(s, views'[i]) { KeptStaysAtRest(s, views[i], views'[i]); }
  }

  /** One turn that does not disturb the schedule. */
  method ServeTurn(engines: seq<SchedulerEngine>, store: RunTable, turn: Turn, s: ScheduleId)
    requires Fleet(engines, store) && turn.engine < |engines| && WellTyped(turn.call)
    requires AllAtRest(s, Views(engines, store))
    requires !Disturbing(s, turn.call, turn.now, engines[turn.engine].me, store.rows)
    modifies store, engines
    ensures Fleet(engines, store)
    ensures AllKept(s, old(Views(engines, store)), Views(engines, store))
  {
    hide BusyBut, AtRest, Kept, Disturbing, WellTyped, Disturbs, SteadyAt, HoldsOn, RowsKept, Trailed, NoReclaim,
         ClockTurns;
    ghost var views := Views(engines, store);
    ghost var e := engines[turn.engine].View();
    assert AtRest(s, views[turn.engine]);
    assert InvOf(e, {});
    hide InvOf;
    ghost var trail, fired := TakeTurn(engines, store, turn);
    ghost var e' := engines[turn.engine].View();
    if Disturbs(s, turn.call, turn.now, e) { DisturbsByRows(s, turn.call, turn.now, e); }
    assert SteadyAt(s, e, e');
    forall i | 0 <= i < |engines| ensures Kept(s, views[i], Views(engines, store)[i]) {
      if i == turn.engine {
        SteadyIsKept(s, e, e');
      } else {
        OthersFindKept(s, turn.now, e, e', views[i], engines[i].View());
      }
    }
  }

  lemma SteadyIsKept(s: ScheduleId, c: Core, c': Core)
    requires SteadyAt(s, c, c')
    ensures Kept(s, c, c')
  {
    hide NoneLost, InOrder, SetsKept, ForeignKept;
  }

  /** The turns are taken until one would disturb schedule `s`. Up to then, whatever the
      interleaving, the schedule is served in order in every engine. */
  method ServeInOrder(engines: seq<SchedulerEngine>, store: RunTable, turns: seq<Turn>, s: ScheduleId)
    returns (taken: nat)
    requires Fleet(engines, store) && AllAtRest(s, Views(engines, store))
    requires forall t | t in turns :: t.engine < |engines| && WellTyped(t.call)
    modifies store, engines
    ensures Fleet(engines, store)
    ensures taken <= |turns|
    ensures taken < |turns| ==>
              Disturbing(s, turns[taken].call, turns[taken].now, engines[turns[taken].engine].me, store.rows)
    ensures forall i | 0 <= i < |engines| :: Orderly(s, old(engines[i].View()), engines[i].View())
  {
    hide AtRest, Kept, Orderly, Disturbing, WellTyped, AllKept, AllAtRest, ValidCore;
    ghost var views := Views(engines, store);
    AllKeptAtFirst(s, views);
    taken := 0;
    while taken < |turns|
        && !Disturbing(s, turns[taken].call, turns[taken].now, engines[turns[taken].engine].me, store.rows)
      invariant taken <= |turns| && Fleet(engines, store)
      invariant AllKept(s, views, Views(engines, store)) && AllAtRest(s, Views(engines, store))
      decreases |turns| - taken
    {
      ghost var now := Views(engines, store);
      ServeTurn(engines, store, turns[taken], s);
      AllKeptComposes(s, views, now, Views(engines, store));
      AllStayAtRest(s, now, Views(engines, store));
      taken := taken + 1;
    }
    forall i | 0 <= i < |engines| ensures Orderly(s, views[i], engines[i].View()) {
      OneIsOrderly(s, views, Views(engines, store), i);
    }
  }

  lemma AllKeptAtFirst(s: ScheduleId, views: seq<Core>)
    ensures AllKept(s, views, views)
  {
    hide Kept;
    forall i | 0 <= i < |views| ensures Kept(s, views[i], views[i]) { NothingHappened(s, views[i]); }
  }

  lemma OneIsOrderly(s: ScheduleId, views: seq<Core>, views': seq<Core>, i: nat)
    requires AllAtRest(s, views) && AllKept(s, views, views') && i < |views|
    requires ValidCore(views[i]) && ValidCore(views'[i])
    ensures Orderly(s, views[i], views'[i])
  {
    hide Kept, AtRest, Orderly, InvOf, BusyBut;
    KeptIsOrderly(s, views[i], views'[i]);
  }
}
