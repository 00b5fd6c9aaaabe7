/** The `runs` and `schedules` tables of packages/core/src/store.ts, for one
    tenant, and the statements the scheduler fences its writes with. */
module RunStore {
  import opened Wrappers
  import opened Cron

  type RunId = int
  type OwnerId = int
  type ScheduleId = int

  datatype Status = Pending | Running | Success | Failed | Timeout | Cancelled | Skipped

  predicate Terminal(s: Status) {
    !s.Pending? && !s.Running?
  }

  /** `Executing` is the source's phase "running". */
  datatype Phase = Queued | Launching | Executing | RetryWait

  datatype Dispatch = Dispatch(key: string, revision: nat, contentHash: string, expiresAt: Option<int>)

  datatype Row = Row(
    schedule: ScheduleId, status: Status, phase: Option<Phase>, attempt: nat, maxAttempts: nat,
    dispatch: Option<Dispatch>, owner: Option<OwnerId>, epoch: nat, lease: int)

  datatype Overlap = Skip | Queue | Allow

  datatype Trigger = CronTrigger(cron: ParsedCron, offset: int) | WebhookTrigger | ManualTrigger

  datatype Target = SessionTarget | WorkflowTarget(hasPlan: bool) | DispatchTarget(dispatch: Dispatch)

  datatype Schedule = Schedule(
    enabled: bool, trigger: Trigger, target: Target, overlap: Overlap, maxRetries: nat, nextRunAt: Option<int>)

  /** The ownership guard of `upsertRun`'s conflict clause. */
  predicate Fences(row: Row, owner: Option<OwnerId>, epoch: nat) {
    (row.owner == None && owner == None) || (row.owner.Some? && row.owner == owner && row.epoch == epoch)
  }

  /** A write may update a row, never its schedule, owner, epoch or frozen dispatch. */
  function Merged(row: Row, rec: Row): Row {
    rec.(schedule := row.schedule, owner := row.owner, epoch := row.epoch,
         dispatch := if row.dispatch.Some? then row.dispatch else rec.dispatch)
  }

  /** An unowned row, an expired lease, or the caller's own row may be claimed. */
  predicate Claimable(row: Row, owner: OwnerId, now: int) {
    row.owner == None || row.owner == Some(owner) || row.lease <= now
  }

  /** What `listActiveRuns` answers: the unfinished runs, each once, in order of creation. */
  ghost predicate Listing(rows: map<RunId, Row>, createdAt: RunId -> int, listed: seq<RunId>) {
    && (forall id :: id in listed <==> id in rows && !Terminal(rows[id].status))
    && (forall i, j | 0 <= i < j < |listed| :: listed[i] != listed[j] && createdAt(listed[i]) <= createdAt(listed[j]))
  }

  class RunTable {
    /** When a run is or was created. */
    const createdAt: RunId -> int
    var rows: map<RunId, Row>
    var schedules: map<ScheduleId, Schedule>

    /** Schedules that ever allowed overlapping runs, or had a run taken over beside an active one. */
    ghost var overlapped: set<ScheduleId>
    /** Runs failed by a controller's verdict, by teardown or by recovery. */
    ghost var excused: set<RunId>

    constructor (createdAt: RunId -> int)
      ensures rows == map[] && schedules == map[] && overlapped == {} && excused == {} && this.createdAt == createdAt
    {
      this.createdAt := createdAt;
      rows, schedules, overlapped, excused := map[], map[], {}, {};
    }

    method ListActiveRuns() returns (listed: seq<RunId>)
      ensures Listing(rows, createdAt, listed)
    {
      var todo := set id | id in rows && !Terminal(rows[id].status);
      listed := [];
      while todo != {}
        invariant forall id | id in todo :: id in rows && !Terminal(rows[id].status)
        invariant forall id :: id in listed || id in todo <==> id in rows && !Terminal(rows[id].status)
        invariant forall i | 0 <= i < |listed| :: listed[i] !in todo
        invariant forall i, id | 0 <= i < |listed| && id in todo :: createdAt(listed[i]) <= createdAt(id)
        invariant forall i, j | 0 <= i < j < |listed| ::
                    listed[i] != listed[j] && createdAt(listed[i]) <= createdAt(listed[j])
        decreases |todo|
      {
        var id := Earliest(todo, createdAt);
        listed := listed + [id];
        todo := todo - {id};
      }
    }

    method UpsertRun(id: RunId, rec: Row) returns (persisted: bool)
      modifies `rows
      ensures persisted <==> id !in old(rows) || Fences(old(rows)[id], rec.owner, rec.epoch)
      ensures !persisted ==> rows == old(rows)
      ensures persisted ==> rows == old(rows)[id := if id in old(rows) then Merged(old(rows)[id], rec) else rec]
    {
      if id !in rows {
        rows := rows[id := rec];
        return true;
      }
      if !Fences(rows[id], rec.owner, rec.epoch) {
        return false;
      }
      rows := rows[id := Merged(rows[id], rec)];
      return true;
    }

    /** The run receipt and the next occurrence commit together or not at all. */
    method AcceptCronRun(id: RunId, rec: Row, nextRunAt: int) returns (accepted: bool)
      modifies `rows, `schedules
      ensures accepted <==> rec.schedule in old(schedules)
                            && (id !in old(rows) || Fences(old(rows)[id], rec.owner, rec.epoch))
      ensures !accepted ==> rows == old(rows) && schedules == old(schedules)
      ensures accepted ==>
                && rows == old(rows)[id := if id in old(rows) then Merged(old(rows)[id], rec) else rec]
                && schedules
                   == old(schedules)[rec.schedule := old(schedules)[rec.schedule].(nextRunAt := Some(nextRunAt))]
    {
      var before := rows;
      var persisted := UpsertRun(id, rec);
      if !persisted || rec.schedule !in schedules {
        rows := before;
        return false;
      }
      schedules := schedules[rec.schedule := schedules[rec.schedule].(nextRunAt := Some(nextRunAt))];
      return true;
    }

    /** Ownership changes hands only with a higher epoch. The status is not looked at. */
    method ClaimRun(id: RunId, owner: OwnerId, now: int, leaseMs: nat) returns (epoch: Option<nat>)
      modifies `rows
      ensures epoch.Some? <==> id in old(rows) && Claimable(old(rows)[id], owner, now)
      ensures epoch.None? ==> rows == old(rows)
      ensures epoch.Some? ==>
                var row := old(rows)[id];
                && epoch.value == (if row.owner == Some(owner) then row.epoch else row.epoch + 1)
                && rows == old(rows)[id := row.(owner := Some(owner), epoch := epoch.value, lease := now + leaseMs)]
    {
      if id !in rows || (rows[id].owner.Some? && rows[id].owner.value != owner && rows[id].lease > now) {
        return None;
      }
      var row := rows[id];
      var next := if row.owner == Some(owner) then row.epoch else row.epoch + 1;
      rows := rows[id := row.(owner := Some(owner), epoch := next, lease := now + leaseMs)];
      return Some(next);
    }

    method RenewRunLease(id: RunId, owner: OwnerId, epoch: nat, until: int) returns (owned: bool)
      modifies `rows
      ensures owned <==> id in old(rows) && Fences(old(rows)[id], Some(owner), epoch)
      ensures rows == if owned then old(rows)[id := old(rows)[id].(lease := until)] else old(rows)
    {
      owned := id in rows && rows[id].owner == Some(owner) && rows[id].epoch == epoch;
      if owned {
        rows := rows[id := rows[id].(lease := until)];
      }
    }

    method ReleaseRun(id: RunId, owner: OwnerId, epoch: nat) returns (released: bool)
      modifies `rows
      ensures released <==> id in old(rows) && Fences(old(rows)[id], Some(owner), epoch)
      ensures rows == if released then old(rows)[id := Released(old(rows)[id])] else old(rows)
    {
      released := id in rows && rows[id].owner == Some(owner) && rows[id].epoch == epoch;
      if released {
        rows := rows[id := Released(rows[id])];
      }
    }

    method UpsertSchedule(id: ScheduleId, schedule: Schedule)
      modifies `schedules, `overlapped
      ensures schedules == old(schedules)[id := schedule]
      ensures overlapped == if schedule.overlap.Allow? then old(overlapped) + {id} else old(overlapped)
    {
      schedules := schedules[id := schedule];
      overlapped := if schedule.overlap.Allow? then overlapped + {id} else overlapped;
    }

    method DeleteSchedule(id: ScheduleId)
      modifies `schedules
      ensures schedules == old(schedules) - {id}
    {
      schedules := schedules - {id};
    }
  }

  method Earliest(runs: set<RunId>, createdAt: RunId -> int) returns (first: RunId)
    requires runs != {}
    ensures first in runs && forall id | id in runs :: createdAt(first) <= createdAt(id)
  {
    ghost var some := Element(runs);
    first :| first in runs;
    var todo := runs - {first};
    while todo != {}
      invariant todo <= runs && first in runs
      invariant forall id | id in runs && id !in todo :: createdAt(first) <= createdAt(id)
      decreases |todo|
    {
      ghost var other := Element(todo);
      var id :| id in todo;
      if createdAt(id) < createdAt(first) { first := id; }
      todo := todo - {id};
    }
  }

  function Released(row: Row): Row {
    row.(owner := None, epoch := row.epoch + 1, lease := 0)
  }
}
