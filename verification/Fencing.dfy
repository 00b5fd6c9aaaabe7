/** Several scheduler engines over one store. An engine runs one step at a
    time between two `await`s; steps of different engines interleave freely
    and leases may be lost, expire and be reclaimed between any two of them.

    `RowStep` is what a lawful step of one engine may do to one run row. The only other
    step is `Reclaimed`: a run is claimed from a listing made before it finished. The
    engine class of module Scheduler proves that all its steps are of these kinds. */
module Fencing {
  import opened Wrappers
  import opened RunStore

  datatype Note =
    | RunStarted(id: RunId) | RunFinished(id: RunId, status: Status) | ScheduleChanged(scheduleId: ScheduleId)

  type Rows = map<RunId, Row>

  function Token(row: Row): (Option<OwnerId>, nat) {
    (row.owner, row.epoch)
  }

  predicate TerminalAt(rows: Rows, id: RunId) {
    id in rows && Terminal(rows[id].status)
  }

  /** A row may be changed by an owner entitled to it; ownership only moves to
      higher epochs, a terminal row is released and then frozen, and a run that left
      its queue never returns to it. */
  predicate RowStep(me: OwnerId, now: int, before: Row, after: Row) {
    before == after ||
    (&& !Terminal(before.status)
     && Claimable(before, me, now)
     && after.owner in {None, Some(me)}
     && (Terminal(after.status) ==> after.owner == None)
     && after.schedule == before.schedule && after.dispatch == before.dispatch
     && (before.phase != Some(Queued) ==> after.phase != Some(Queued))
     && (Token(after) == Token(before) || after.epoch > before.epoch))
  }

  predicate RowInserted(me: OwnerId, after: Row) {
    after.owner in {None, Some(me)} && (Terminal(after.status) ==> after.owner == None)
  }

  function FinishedCount(notes: seq<Note>, id: RunId): nat {
    if notes == [] then 0
    else FinishedCount(notes[..|notes| - 1], id)
         + (if notes[|notes| - 1].RunFinished? && notes[|notes| - 1].id == id then 1 else 0)
  }

  /** What one step of engine `me` does to the rows. */
  ghost predicate RowsKept(me: OwnerId, now: int, rows: Rows, rows': Rows) {
    && rows.Keys <= rows'.Keys
    && (forall id | id in rows :: RowStep(me, now, rows[id], rows'[id]))
    && (forall id | id in rows' && id !in rows :: RowInserted(me, rows'[id]))
  }

  /** Only a run that became finished is announced as finished, and once. */
  ghost predicate Heard(rows: Rows, notes: seq<Note>, rows': Rows, notes': seq<Note>) {
    && notes <= notes'
    && (forall id :: FinishedCount(notes', id) <= FinishedCount(notes, id)
                     + (if !TerminalAt(rows, id) && TerminalAt(rows', id) then 1 else 0))
  }

  /** What one step of engine `me` does to the rows and to its notification log. */
  ghost predicate Guarantee(me: OwnerId, now: int, rows: Rows, notes: seq<Note>, rows': Rows, notes': seq<Note>) {
    RowsKept(me, now, rows, rows') && Heard(rows, notes, rows', notes')
  }

  /** Every run that became finished is announced as finished. */
  ghost predicate Announced(rows: Rows, notes: seq<Note>, rows': Rows, notes': seq<Note>) {
    forall id | !TerminalAt(rows, id) && TerminalAt(rows', id) :: FinishedCount(notes', id) > FinishedCount(notes, id)
  }

  /** A lawful step that keeps no end to itself, unless the engine is `silent`. */
  ghost predicate Told(me: OwnerId, now: int, silent: bool, rows: Rows, notes: seq<Note>, rows': Rows,
                       notes': seq<Note>) {
    Guarantee(me, now, rows, notes, rows', notes') && (silent || Announced(rows, notes, rows', notes'))
  }

  lemma {:induction false} FinishedCountAdds(a: seq<Note>, b: seq<Note>, id: RunId)
    ensures FinishedCount(a + b, id) == FinishedCount(a, id) + FinishedCount(b, id)
  {
    if b == [] {
      assert a + b == a;
    } else {
      assert (a + b)[..|a + b| - 1] == a + b[..|b| - 1];
      FinishedCountAdds(a, b[..|b| - 1], id);
    }
  }

  lemma FinishedCountGrows(notes: seq<Note>, notes': seq<Note>, id: RunId)
    requires notes <= notes'
    ensures FinishedCount(notes', id) == FinishedCount(notes, id) + FinishedCount(notes'[|notes|..], id)
  {
    assert notes' == notes + notes'[|notes|..];
    FinishedCountAdds(notes, notes'[|notes|..], id);
  }

  lemma RowsKeptComposes(me: OwnerId, now: int, r0: Rows, r1: Rows, r2: Rows)
    requires RowsKept(me, now, r0, r1) && RowsKept(me, now, r1, r2)
    ensures RowsKept(me, now, r0, r2)
  {
    forall id | id in r0 ensures RowStep(me, now, r0[id], r2[id]) {
      assert RowStep(me, now, r0[id], r1[id]) && RowStep(me, now, r1[id], r2[id]);
    }
    forall id | id in r2 && id !in r0 ensures RowInserted(me, r2[id]) {
      if id in r1 {
        assert RowInserted(me, r1[id]) && RowStep(me, now, r1[id], r2[id]);
      }
    }
  }

  /** Steps of one engine at one instant compose. */
  lemma GuaranteeComposes(me: OwnerId, now: int, r0: Rows, n0: seq<Note>, r1: Rows, n1: seq<Note>, r2: Rows,
                          n2: seq<Note>)
    requires Guarantee(me, now, r0, n0, r1, n1) && Guarantee(me, now, r1, n1, r2, n2)
    ensures Guarantee(me, now, r0, n0, r2, n2)
  {
    RowsKeptComposes(me, now, r0, r1, r2);
    forall id
      ensures FinishedCount(n2, id) <= FinishedCount(n0, id)
              + (if !TerminalAt(r0, id) && TerminalAt(r2, id) then 1 else 0)
    {
      if TerminalAt(r0, id) {
        assert RowStep(me, now, r0[id], r1[id]);
      }
      if TerminalAt(r1, id) {
        assert RowStep(me, now, r1[id], r2[id]);
      }
    }
  }

  lemma ToldComposes(me: OwnerId, now: int, silent: bool, r0: Rows, n0: seq<Note>, r1: Rows, n1: seq<Note>, r2: Rows,
                     n2: seq<Note>)
    requires Told(me, now, silent, r0, n0, r1, n1) && Told(me, now, silent, r1, n1, r2, n2)
    ensures Told(me, now, silent, r0, n0, r2, n2)
  {
    GuaranteeComposes(me, now, r0, n0, r1, n1, r2, n2);
    hide RowsKept;
    if !silent {
      forall id | !TerminalAt(r0, id) && TerminalAt(r2, id) ensures FinishedCount(n2, id) > FinishedCount(n0, id) {
        FinishedCountGrows(n0, n1, id);
        FinishedCountGrows(n1, n2, id);
      }
    }
  }

  // ---------------------------------------------------------------------
  // Whole runs of the system
  // ---------------------------------------------------------------------

  /** A claim made by a listing: the run and its row when the listing was taken. */
  datatype Claim = Claim(id: RunId, listed: Row)

  /** One engine's step: the rows it leaves and what it announced live. `again` is
      a claim of a run that had finished since it was listed. */
  datatype Step = Step(me: OwnerId, now: int, rows: Rows, notes: seq<Note>, again: Option<Claim>)

  /** `claimRun` does not look at the status: a run that finished after it was listed
      is written anew from its listed row. */
  ghost predicate Reclaimed(me: OwnerId, now: int, claim: Claim, rows: Rows, rows': Rows, notes: seq<Note>) {
    && claim.id in rows && TerminalAt(rows, claim.id) && Claimable(rows[claim.id], me, now)
    && claim.id in rows' && rows' == rows[claim.id := rows'[claim.id]]
    && Rewritten(me, claim.listed, rows[claim.id], rows'[claim.id])
    && (forall id :: FinishedCount(notes, id) <= if id == claim.id && TerminalAt(rows', id) then 1 else 0)
  }

  predicate Rewritten(me: OwnerId, listed: Row, before: Row, after: Row) {
    && before.epoch < after.epoch
    && after.owner in {None, Some(me)} && (Terminal(after.status) ==> after.owner == None)
    && after.schedule == listed.schedule && after.dispatch == listed.dispatch
    && (listed.phase != Some(Queued) ==> after.phase != Some(Queued))
  }

  ghost predicate Legal(rows: Rows, step: Step) {
    match step.again
    case None => Guarantee(step.me, step.now, rows, [], step.rows, step.notes)
    case Some(claim) => Reclaimed(step.me, step.now, claim, rows, step.rows, step.notes)
  }

  ghost predicate Trace(rows: Rows, steps: seq<Step>)
    decreases |steps|
  {
    steps == [] || (Legal(rows, steps[0]) && Trace(steps[0].rows, steps[1..]))
  }

  function RowsAfter(rows: Rows, steps: seq<Step>): Rows
    decreases |steps|
  {
    if steps == [] then rows else RowsAfter(steps[0].rows, steps[1..])
  }

  function NotesOf(steps: seq<Step>): seq<Note> {
    if steps == [] then [] else steps[0].notes + NotesOf(steps[1..])
  }

  function Announcements(steps: seq<Step>, id: RunId): nat {
    if steps == [] then 0 else FinishedCount(steps[0].notes, id) + Announcements(steps[1..], id)
  }

  predicate Reclaims(step: Step, id: RunId) {
    step.again.Some? && step.again.value.id == id
  }

  /** How often a run was claimed again after it had finished. */
  function ReclaimCount(steps: seq<Step>, id: RunId): nat {
    if steps == [] then 0 else (if Reclaims(steps[0], id) then 1 else 0) + ReclaimCount(steps[1..], id)
  }

  predicate NoReclaim(steps: seq<Step>) {
    forall i | 0 <= i < |steps| :: steps[i].again.None?
  }

  lemma {:induction false} NoReclaimCounts(steps: seq<Step>)
    ensures NoReclaim(steps) <==> forall id :: ReclaimCount(steps, id) == 0
  {
    if steps != [] {
      NoReclaimCounts(steps[1..]);
      assert NoReclaim(steps) <==> steps[0].again.None? && NoReclaim(steps[1..]) by {
        assert forall i | 0 < i < |steps| :: steps[i] == steps[1..][i - 1];
      }
      if steps[0].again.Some? {
        assert ReclaimCount(steps, steps[0].again.value.id) > 0;
      } else {
        if !NoReclaim(steps) {
          var id :| ReclaimCount(steps[1..], id) != 0;
          assert ReclaimCount(steps, id) != 0;
        } else {
          forall id ensures ReclaimCount(steps, id) == 0 {
            assert ReclaimCount(steps[1..], id) == 0;
          }
        }
      }
    }
  }

  /** Every end that a step made durable was announced by that step. */
  ghost predicate Loud(rows: Rows, steps: seq<Step>)
    decreases |steps|
  {
    steps == [] || (LoudStep(rows, steps[0]) && Loud(steps[0].rows, steps[1..]))
  }

  ghost predicate LoudStep(rows: Rows, step: Step) {
    forall id | (!TerminalAt(rows, id) || Reclaims(step, id)) && TerminalAt(step.rows, id) ::
        FinishedCount(step.notes, id) > 0
  }

  function AsInt(b: bool): int {
    if b then 1 else 0
  }

  lemma StepKeepsTerminal(rows: Rows, step: Step, id: RunId)
    requires Legal(rows, step) && TerminalAt(rows, id)
    ensures id in step.rows && rows[id].epoch <= step.rows[id].epoch
    ensures if Reclaims(step, id) then rows[id].epoch < step.rows[id].epoch else step.rows[id] == rows[id]
  {
    if step.again.None? { assert RowStep(step.me, step.now, rows[id], step.rows[id]); }
  }

  lemma {:induction false} EpochsGrow(rows: Rows, steps: seq<Step>, id: RunId)
    requires Trace(rows, steps) && id in rows
    ensures id in RowsAfter(rows, steps) && rows[id].epoch <= RowsAfter(rows, steps)[id].epoch
    decreases |steps|
  {
    if steps != [] {
      if steps[0].again.None? { assert RowStep(steps[0].me, steps[0].now, rows[id], steps[0].rows[id]); }
      EpochsGrow(steps[0].rows, steps[1..], id);
    }
  }

  /** A terminal row stays exactly as it is if and only if the run is never claimed
      again from a listing made before it finished. */
  lemma {:induction false} TerminalIsFinalIff(rows: Rows, steps: seq<Step>, id: RunId)
    requires Trace(rows, steps) && TerminalAt(rows, id)
    ensures id in RowsAfter(rows, steps)
    ensures RowsAfter(rows, steps)[id] == rows[id] <==> ReclaimCount(steps, id) == 0
    decreases |steps|
  {
    if steps != [] {
      StepKeepsTerminal(rows, steps[0], id);
      EpochsGrow(steps[0].rows, steps[1..], id);
      if !Reclaims(steps[0], id) { TerminalIsFinalIff(steps[0].rows, steps[1..], id); }
    }
  }

  /** Across all owners, the end of a run is announced live at most as often as its
      row became terminal: once, and once more for each time it was claimed again
      after it had finished. If no engine keeps an end to itself, exactly as often. */
  lemma {:induction false} AnnouncedAsOftenAsEnded(rows: Rows, steps: seq<Step>, id: RunId)
    requires Trace(rows, steps)
    ensures Announcements(steps, id) <= ReclaimCount(steps, id)
                                        + AsInt(TerminalAt(RowsAfter(rows, steps), id)) - AsInt(TerminalAt(rows, id))
    ensures Loud(rows, steps) ==>
              Announcements(steps, id) == ReclaimCount(steps, id)
                                          + AsInt(TerminalAt(RowsAfter(rows, steps), id)) - AsInt(TerminalAt(rows, id))
    decreases |steps|
  {
    if steps != [] {
      if TerminalAt(rows, id) { StepKeepsTerminal(rows, steps[0], id); }
      AnnouncedAsOftenAsEnded(steps[0].rows, steps[1..], id);
    }
  }

  /** An ownership token, once gone from a row, never comes back to it. */
  lemma {:induction false} DeposedForever(rows: Rows, steps: seq<Step>, id: RunId, owner: OwnerId, epoch: nat)
    requires Trace(rows, steps) && id in rows
    requires rows[id].epoch > epoch || (rows[id].epoch == epoch && rows[id].owner != Some(owner))
    ensures id in RowsAfter(rows, steps)
    ensures !Fences(RowsAfter(rows, steps)[id], Some(owner), epoch)
    decreases |steps|
  {
    if steps != [] {
      if steps[0].again.None? { assert RowStep(steps[0].me, steps[0].now, rows[id], steps[0].rows[id]); }
      DeposedForever(steps[0].rows, steps[1..], id, owner, epoch);
    }
  }

  /** Losing a row means losing it for good: from the step that ends a token,
      no continuation of the deposed owner can write the row, whoever runs meanwhile. */
  lemma DeposedOwnerNeverWrites(rows: Rows, step: Step, steps: seq<Step>, id: RunId, owner: OwnerId, epoch: nat)
    requires Trace(rows, [step] + steps) && id in rows
    requires Fences(rows[id], Some(owner), epoch) && !Fences(step.rows[id], Some(owner), epoch)
    ensures id in RowsAfter(step.rows, steps)
    ensures !Fences(RowsAfter(step.rows, steps)[id], Some(owner), epoch)
  {
    assert ([step] + steps)[0] == step && ([step] + steps)[1..] == steps;
    if step.again.None? { assert RowStep(step.me, step.now, rows[id], step.rows[id]); }
    DeposedForever(step.rows, steps, id, owner, epoch);
  }

  /** While a lease is unexpired no other engine's step touches the row. */
  lemma LeaseProtects(rows: Rows, step: Step, id: RunId, owner: OwnerId)
    requires Trace(rows, [step]) && id in rows
    requires rows[id].owner == Some(owner) && owner != step.me && step.now < rows[id].lease
    ensures id in step.rows && step.rows[id] == rows[id]
  {
    if step.again.None? { assert RowStep(step.me, step.now, rows[id], step.rows[id]); }
  }

  /** A run that left its queue returns to it only if it was claimed again after it
      had finished, by a listing that still saw it queued. */
  lemma {:induction false} RequeuedOnlyByReclaim(rows: Rows, steps: seq<Step>, id: RunId)
    requires Trace(rows, steps) && id in rows && rows[id].phase != Some(Queued)
    ensures id in RowsAfter(rows, steps)
    ensures RowsAfter(rows, steps)[id].phase == Some(Queued) ==>
              exists i :: 0 <= i < |steps| && Reclaims(steps[i], id)
                  && steps[i].again.value.listed.phase == Some(Queued)
    decreases |steps|
  {
    if steps != [] {
      if steps[0].again.None? { assert RowStep(steps[0].me, steps[0].now, rows[id], steps[0].rows[id]); }
      EpochsGrow(steps[0].rows, steps[1..], id);
      if steps[0].rows[id].phase == Some(Queued) {
        assert Reclaims(steps[0], id);
      } else {
        RequeuedOnlyByReclaim(steps[0].rows, steps[1..], id);
        if RowsAfter(rows, steps)[id].phase == Some(Queued) {
          var i :| 0 <= i < |steps| - 1 && Reclaims(steps[1..][i], id)
              && steps[1..][i].again.value.listed.phase == Some(Queued);
          assert steps[i + 1] == steps[1..][i];
        }
      }
    }
  }

  // ---------------------------------------------------------------------
  // The steps of one call
  // ---------------------------------------------------------------------

  /** The steps of one call of engine `me`: from these rows and notes to those. */
  ghost predicate Trailed(me: OwnerId, now: int, silent: bool, rows: Rows, notes: seq<Note>, trail: seq<Step>,
                          rows': Rows, notes': seq<Note>)
  {
    && Trace(rows, trail) && RowsAfter(rows, trail) == rows' && notes' == notes + NotesOf(trail)
    && (forall i | 0 <= i < |trail| :: trail[i].me == me && trail[i].now == now)
    && (silent || Loud(rows, trail))
  }

  lemma NothingTrailed(me: OwnerId, now: int, silent: bool, rows: Rows, notes: seq<Note>)
    ensures Trailed(me, now, silent, rows, notes, [], rows, notes)
  {
  }

  /** A lawful step is a trail of its own. */
  lemma OneStep(me: OwnerId, now: int, silent: bool, rows: Rows, notes: seq<Note>, rows': Rows, notes': seq<Note>)
    returns (trail: seq<Step>)
    requires Guarantee(me, now, rows, notes, rows', notes') && (silent || Announced(rows, notes, rows', notes'))
    ensures Trailed(me, now, silent, rows, notes, trail, rows', notes')
    ensures |trail| == 1 && NoReclaim(trail)
  {
    var step := Step(me, now, rows', notes'[|notes|..], None);
    trail := [step];
    assert trail[1..] == [] && NotesOf([]) == [] && step.notes + [] == step.notes;
    assert notes' == notes + step.notes;
    forall id ensures FinishedCount(step.notes, id) == FinishedCount(notes', id) - FinishedCount(notes, id) {
      FinishedCountGrows(notes, notes', id);
    }
    assert Legal(rows, step);
    assert silent || LoudStep(rows, step);
  }

  /** ... and so is a claim of a finished run. */
  lemma OneReclaim(me: OwnerId, now: int, silent: bool, claim: Claim, rows: Rows, notes: seq<Note>, rows': Rows,
                   more: seq<Note>)
    returns (trail: seq<Step>)
    requires Reclaimed(me, now, claim, rows, rows', more)
    requires silent || (TerminalAt(rows', claim.id) ==> FinishedCount(more, claim.id) > 0)
    ensures Trailed(me, now, silent, rows, notes, trail, rows', notes + more)
    ensures |trail| == 1 && trail[0].again == Some(claim)
  {
    var step := Step(me, now, rows', more, Some(claim));
    trail := [step];
    assert trail[1..] == [] && NotesOf([]) == [] && step.notes + [] == step.notes;
    assert silent || LoudStep(rows, step);
  }

  lemma {:induction false} TrailsJoin(me: OwnerId, now: int, silent: bool, r0: Rows, n0: seq<Note>, t0: seq<Step>,
                                      r1: Rows, n1: seq<Note>, t1: seq<Step>, r2: Rows, n2: seq<Note>)
    requires Trailed(me, now, silent, r0, n0, t0, r1, n1) && Trailed(me, now, silent, r1, n1, t1, r2, n2)
    ensures Trailed(me, now, silent, r0, n0, t0 + t1, r2, n2)
    ensures NoReclaim(t0 + t1) <==> NoReclaim(t0) && NoReclaim(t1)
    decreases |t0|
  {
    TracesJoin(r0, t0, t1);
    assert n0 + NotesOf(t0) + NotesOf(t1) == n0 + (NotesOf(t0) + NotesOf(t1));
    assert forall i | 0 <= i < |t1| :: (t0 + t1)[|t0| + i] == t1[i];
    hide Trace, Loud, RowsAfter, NotesOf;
    if NoReclaim(t0 + t1) {
      assert forall i | 0 <= i < |t0| :: (t0 + t1)[i] == t0[i];
    }
  }

  lemma {:induction false} TracesJoin(rows: Rows, t0: seq<Step>, t1: seq<Step>)
    ensures Trace(rows, t0 + t1) <==> Trace(rows, t0) && Trace(RowsAfter(rows, t0), t1)
    ensures Loud(rows, t0 + t1) <==> Loud(rows, t0) && Loud(RowsAfter(rows, t0), t1)
    ensures RowsAfter(rows, t0 + t1) == RowsAfter(RowsAfter(rows, t0), t1)
    ensures NotesOf(t0 + t1) == NotesOf(t0) + NotesOf(t1)
    ensures forall id :: Announcements(t0 + t1, id) == Announcements(t0, id) + Announcements(t1, id)
    ensures forall id :: ReclaimCount(t0 + t1, id) == ReclaimCount(t0, id) + ReclaimCount(t1, id)
    decreases |t0|
  {
    if t0 == [] {
      assert t0 + t1 == t1;
    } else {
      assert (t0 + t1)[1..] == t0[1..] + t1 && (t0 + t1)[0] == t0[0];
      TracesJoin(t0[0].rows, t0[1..], t1);
      hide Legal, LoudStep;
    }
  }

  lemma {:induction false} NotesAreAnnouncements(steps: seq<Step>, id: RunId)
    ensures FinishedCount(NotesOf(steps), id) == Announcements(steps, id)
  {
    if steps != [] {
      FinishedCountAdds(steps[0].notes, NotesOf(steps[1..]), id);
      NotesAreAnnouncements(steps[1..], id);
    }
  }

  /** The claims of a trail go by rows as they were, unfinished, when it began. */
  ghost predicate ClaimsFrom(rows: Rows, steps: seq<Step>) {
    forall i | 0 <= i < |steps| && steps[i].again.Some? :: ListedIn(rows, steps[i].again.value)
  }

  predicate ListedIn(rows: Rows, claim: Claim) {
    claim.id in rows && rows[claim.id] == claim.listed && !Terminal(claim.listed.status)
  }

  /** Seen as one step, even a trail with such claims does to the rows what a step may do. */
  lemma {:induction false} RowsKeptAlong(me: OwnerId, now: int, rows: Rows, mid: Rows, steps: seq<Step>)
    requires RowsKept(me, now, rows, mid) && Trace(mid, steps) && ClaimsFrom(rows, steps)
    requires forall i | 0 <= i < |steps| :: steps[i].me == me && steps[i].now == now
    ensures RowsKept(me, now, rows, RowsAfter(mid, steps))
    decreases |steps|
  {
    if steps != [] {
      var step := steps[0];
      if step.again.None? {
        hide RowsKept;
        RowsKeptComposes(me, now, rows, mid, step.rows);
      } else {
        RowsKeptByReclaim(me, now, rows, mid, step);
      }
      assert forall i | 0 <= i < |steps| - 1 :: steps[1..][i] == steps[i + 1];
      hide RowsKept, Legal, ListedIn;
      RowsKeptAlong(me, now, rows, step.rows, steps[1..]);
    }
  }

  lemma RowsKeptByReclaim(me: OwnerId, now: int, rows: Rows, mid: Rows, step: Step)
    requires RowsKept(me, now, rows, mid) && step.again.Some? && ListedIn(rows, step.again.value)
    requires Legal(mid, step) && step.me == me && step.now == now
    ensures RowsKept(me, now, rows, step.rows)
  {
    var claim := step.again.value;
    assert RowStep(me, now, rows[claim.id], mid[claim.id]);
    forall id | id in rows ensures RowStep(me, now, rows[id], step.rows[id]) {
      if id != claim.id { assert step.rows[id] == mid[id] && RowStep(me, now, rows[id], mid[id]); }
    }
    forall id | id in step.rows && id !in rows ensures RowInserted(me, step.rows[id]) {
      assert step.rows[id] == mid[id];
    }
  }

  /** Every end was announced once, and once more for each claim of a finished run. */
  ghost predicate AnnouncedPerEnd(rows: Rows, notes: seq<Note>, trail: seq<Step>, rows': Rows, notes': seq<Note>) {
    forall id :: FinishedCount(notes', id) - FinishedCount(notes, id)
                 == ReclaimCount(trail, id) + AsInt(TerminalAt(rows', id)) - AsInt(TerminalAt(rows, id))
  }

  lemma TrailAnnounces(me: OwnerId, now: int, silent: bool, rows: Rows, notes: seq<Note>, trail: seq<Step>,
                       rows': Rows, notes': seq<Note>)
    requires Trailed(me, now, silent, rows, notes, trail, rows', notes')
    ensures !silent ==> AnnouncedPerEnd(rows, notes, trail, rows', notes')
  {
    hide TerminalAt, AsInt, FinishedCount, Trace, Loud;
    if !silent {
      forall id
        ensures FinishedCount(notes', id) - FinishedCount(notes, id)
                == ReclaimCount(trail, id) + AsInt(TerminalAt(rows', id)) - AsInt(TerminalAt(rows, id))
      {
        FinishedCountAdds(notes, NotesOf(trail), id);
        NotesAreAnnouncements(trail, id);
        AnnouncedAsOftenAsEnded(rows, trail, id);
      }
    }
  }

  /** Seen as one step, the call keeps its guarantee exactly if it claimed no run that
      had finished since it was listed. */
  lemma TrailIsLawfulIff(me: OwnerId, now: int, silent: bool, rows: Rows, notes: seq<Note>, trail: seq<Step>,
                         rows': Rows, notes': seq<Note>)
    requires Trailed(me, now, silent, rows, notes, trail, rows', notes') && ClaimsFrom(rows, trail)
    requires silent ==> NoReclaim(trail)
    ensures RowsKept(me, now, rows, rows')
    ensures Guarantee(me, now, rows, notes, rows', notes') <==> NoReclaim(trail)
  {
    assert RowsKept(me, now, rows, rows);
    RowsKeptAlong(me, now, rows, rows, trail);
    NoReclaimCounts(trail);
    hide RowsKept, Trace, Loud, RowsAfter, NoReclaim;
    forall id
      ensures FinishedCount(notes', id) == FinishedCount(notes, id) + Announcements(trail, id)
    {
      FinishedCountAdds(notes, NotesOf(trail), id);
      NotesAreAnnouncements(trail, id);
    }
    forall id | ReclaimCount(trail, id) > 0 ensures !TerminalAt(rows, id) {
      ReclaimedWasListed(rows, trail, id);
    }
    forall id
      ensures ReclaimCount(trail, id) == 0 ==>
                Announcements(trail, id) <= if !TerminalAt(rows, id) && TerminalAt(rows', id) then 1 else 0
      ensures ReclaimCount(trail, id) > 0 && !silent ==>
                Announcements(trail, id) > if !TerminalAt(rows, id) && TerminalAt(rows', id) then 1 else 0
    {
      AnnouncedAsOftenAsEnded(rows, trail, id);
    }
    if NoReclaim(trail) {
      forall id
        ensures FinishedCount(notes', id) <= FinishedCount(notes, id)
                                             + (if !TerminalAt(rows, id) && TerminalAt(rows', id) then 1 else 0)
      {
        assert ReclaimCount(trail, id) == 0;
      }
      assert notes <= notes + NotesOf(trail);
    } else {
      var id :| ReclaimCount(trail, id) > 0;
      assert FinishedCount(notes', id) > FinishedCount(notes, id)
             + (if !TerminalAt(rows, id) && TerminalAt(rows', id) then 1 else 0);
    }
  }

  /** The same of a lawful step with such a call behind it. */
  lemma LawfulThenTrail(me: OwnerId, now: int, silent: bool, r0: Rows, n0: seq<Note>, r1: Rows, n1: seq<Note>,
                        trail: seq<Step>, r2: Rows, n2: seq<Note>)
    requires Guarantee(me, now, r0, n0, r1, n1) && Trailed(me, now, silent, r1, n1, trail, r2, n2)
             && ClaimsFrom(r1, trail)
    requires silent ==> NoReclaim(trail)
    ensures RowsKept(me, now, r0, r2)
    ensures Guarantee(me, now, r0, n0, r2, n2) <==> NoReclaim(trail)
  {
    TrailIsLawfulIff(me, now, silent, r1, n1, trail, r2, n2);
    RowsKeptComposes(me, now, r0, r1, r2);
    if NoReclaim(trail) {
      GuaranteeComposes(me, now, r0, n0, r1, n1, r2, n2);
    } else {
      NoReclaimCounts(trail);
      TrailAnnounces(me, now, silent, r1, n1, trail, r2, n2);
      var id :| ReclaimCount(trail, id) > 0;
      ReclaimedWasListed(r1, trail, id);
      FinishedCountGrows(n0, n1, id);
      assert id in r0 ==> RowStep(me, now, r0[id], r1[id]);
      hide FinishedCount, ReclaimCount, NoReclaim, RowsKept, Trailed, ClaimsFrom;
      assert FinishedCount(n2, id) > FinishedCount(n0, id)
             + (if !TerminalAt(r0, id) && TerminalAt(r2, id) then 1 else 0);
    }
  }

  lemma {:induction false} ReclaimedWasListed(rows: Rows, steps: seq<Step>, id: RunId)
    requires ClaimsFrom(rows, steps) && ReclaimCount(steps, id) > 0
    ensures id in rows && !Terminal(rows[id].status)
  {
    if !Reclaims(steps[0], id) {
      assert forall i | 0 <= i < |steps| - 1 :: steps[1..][i] == steps[i + 1];
      ReclaimedWasListed(rows, steps[1..], id);
    }
  }

  // ---------------------------------------------------------------------
  // Claiming from a listing
  // ---------------------------------------------------------------------

  /** What a claim writes over `row`: the listed row with a recovered status and
      phase, owned by the claimant, or released if the status is terminal. */
  function Recovered(listed: Row, row: Row, me: OwnerId, until: int, status: Status, phase: Phase): Row {
    var epoch := if row.owner == Some(me) then row.epoch else row.epoch + 1;
    if Terminal(status) then listed.(status := status, phase := Some(phase), owner := None, epoch := epoch + 1,
                                     lease := 0)
    else listed.(status := status, phase := Some(phase), owner := Some(me), epoch := epoch, lease := until)
  }

  /** The step of one claim from a listing, whether or not the run has finished since. */
  lemma RecoveredTrail(me: OwnerId, now: int, silent: bool, rows: Rows, notes: seq<Note>, id: RunId, listed: Row,
                       until: int, status: Status, phase: Phase, more: seq<Note>)
    returns (trail: seq<Step>)
    requires id in rows && Claimable(rows[id], me, now) && !Terminal(listed.status)
    requires if Terminal(rows[id].status) then rows[id].owner == None else rows[id] == listed
    requires phase.Queued? ==> listed.phase == Some(Queued)
    requires forall x :: FinishedCount(more, x) == if x == id && Terminal(status) && !silent then 1 else 0
    ensures Trailed(me, now, silent, rows, notes, trail,
                    rows[id := Recovered(listed, rows[id], me, until, status, phase)], notes + more)
    ensures |trail| == 1 && trail[0].again == if Terminal(rows[id].status) then Some(Claim(id, listed)) else None
  {
    var rows' := rows[id := Recovered(listed, rows[id], me, until, status, phase)];
    hide Trailed;
    if Terminal(rows[id].status) {
      trail := OneReclaim(me, now, silent, Claim(id, listed), rows, notes, rows', more);
    } else {
      assert RowStep(me, now, rows[id], rows'[id]);
      forall x ensures FinishedCount(notes + more, x) == FinishedCount(notes, x) + FinishedCount(more, x) {
        FinishedCountAdds(notes, more, x);
      }
      hide FinishedCount, RowStep, Recovered;
      assert RowsKept(me, now, rows, rows') by {
        forall x | x in rows ensures RowStep(me, now, rows[x], rows'[x]) { if x != id { SameRow(me, now, rows[x]); } }
      }
      trail := OneStep(me, now, silent, rows, notes, rows', notes + more);
    }
  }

  lemma SameRow(me: OwnerId, now: int, row: Row)
    ensures RowStep(me, now, row, row)
  {
  }

  /** Two processes share the store. One lists a queued dispatched run and a running
      one; their owner then finishes and releases both. The claims of the first still
      succeed: one run is back in its queue, the end of the other is announced twice. */
  lemma StaleListingReopensFinishedRuns() returns (rows: Rows, steps: seq<Step>)
    ensures 7 in rows && 8 in rows && |steps| == 4 && Trace(rows, steps)
    ensures steps[2].again == Some(Claim(7, rows[7])) && steps[3].again == Some(Claim(8, rows[8]))
    ensures TerminalAt(steps[1].rows, 7) && TerminalAt(steps[1].rows, 8)
    ensures 7 in RowsAfter(rows, steps) && RowsAfter(rows, steps)[7].phase == Some(Queued)
            && !TerminalAt(RowsAfter(rows, steps), 7)
    ensures Announcements(steps, 8) == 2
  {
    // Engine 1 owns queued run 7 and running run 8; engine 2 lists them.
    var seven := Row(3, Pending, Some(Queued), 0, 1, Some(Dispatch("k", 1, "h", None)), Some(1), 0, 50);
    var eight := Row(4, Running, Some(Executing), 1, 1, None, Some(1), 0, 50);
    rows := map[7 := seven, 8 := eight];
    // Engine 1, in its own process, finishes and releases both.
    var r1 := rows[7 := Released(seven.(status := Cancelled))];
    var r2 := r1[8 := Released(eight.(status := Success))];
    // Engine 2 continues with its listing.
    var r3 := r2[7 := Recovered(seven, r2[7], 2, 150, Pending, Queued)];
    var r4 := r3[8 := Recovered(eight, r3[8], 2, 150, Failed, Executing)];
    var a, b := Step(1, 40, r1, [RunFinished(7, Cancelled)], None), Step(1, 40, r2, [RunFinished(8, Success)], None);
    var c, d := Step(2, 100, r3, [], Some(Claim(7, seven))),
        Step(2, 100, r4, [RunFinished(8, Failed)], Some(Claim(8, eight)));
    steps := [a, b, c, d];
    OneEndIsLegal(1, 40, rows, 7, Released(seven.(status := Cancelled)));
    OneEndIsLegal(1, 40, r1, 8, Released(eight.(status := Success)));
    ReclaimIsLegal(2, 100, r2, Claim(7, seven), 150, Pending, Queued);
    ReclaimIsLegal(2, 100, r3, Claim(8, eight), 150, Failed, Executing);
    StaleSteps(rows, a, b, c, d);
    hide Legal, Trace, RowsAfter, Announcements;
    OneNote(8, Success, 8);
    OneNote(8, Failed, 8);
    OneNote(7, Cancelled, 8);
  }

  lemma OneNote(id: RunId, status: Status, x: RunId)
    ensures FinishedCount([RunFinished(id, status)], x) == if x == id then 1 else 0
  {
    assert [RunFinished(id, status)][..0] == [];
  }

  lemma OneEndIsLegal(me: OwnerId, now: int, rows: Rows, id: RunId, after: Row)
    requires id in rows && Terminal(after.status) && after != rows[id] && RowStep(me, now, rows[id], after)
    ensures Legal(rows, Step(me, now, rows[id := after], [RunFinished(id, after.status)], None))
  {
    forall x ensures FinishedCount([RunFinished(id, after.status)], x) == if x == id then 1 else 0 {
      OneNote(id, after.status, x);
    }
  }

  /** What a sweep writes over a finished run it listed before. */
  lemma ReclaimIsLegal(me: OwnerId, now: int, rows: Rows, claim: Claim, until: int, status: Status, phase: Phase)
    requires TerminalAt(rows, claim.id) && Claimable(rows[claim.id], me, now) && rows[claim.id].owner == None
    requires phase.Queued? ==> claim.listed.phase == Some(Queued)
    ensures var rows' := rows[claim.id := Recovered(claim.listed, rows[claim.id], me, until, status, phase)];
            Legal(rows, Step(me, now, rows', if Terminal(status) then [RunFinished(claim.id, status)] else [],
                             Some(claim)))
  {
    forall x ensures FinishedCount([RunFinished(claim.id, status)], x) == if x == claim.id then 1 else 0 {
      OneNote(claim.id, status, x);
    }
  }

  /** The trace of four steps, step by step. */
  lemma StaleSteps(rows: Rows, a: Step, b: Step, c: Step, d: Step)
    ensures Trace(rows, [a, b, c, d]) <==> Legal(rows, a) && Legal(a.rows, b) && Legal(b.rows, c) && Legal(c.rows, d)
    ensures RowsAfter(rows, [a, b, c, d]) == d.rows
    ensures forall id :: Announcements([a, b, c, d], id)
                         == FinishedCount(a.notes, id) + FinishedCount(b.notes, id) + FinishedCount(c.notes, id)
                             + FinishedCount(d.notes, id)
  {
    assert [a, b, c, d][1..] == [b, c, d] && [b, c, d][1..] == [c, d] && [c, d][1..] == [d] && [d][1..] == [];
    hide Legal, FinishedCount;
    assert Trace(d.rows, []) && (Trace(c.rows, [d]) <==> Legal(c.rows, d));
    assert Trace(b.rows, [c, d]) <==> Legal(b.rows, c) && Trace(c.rows, [d]);
    assert Trace(a.rows, [b, c, d]) <==> Legal(a.rows, b) && Trace(b.rows, [c, d]);
    assert RowsAfter(c.rows, [d]) == d.rows && RowsAfter(b.rows, [c, d]) == RowsAfter(c.rows, [d]);
    assert RowsAfter(a.rows, [b, c, d]) == RowsAfter(b.rows, [c, d]);
    forall id
      ensures Announcements([d], id) == FinishedCount(d.notes, id)
      ensures Announcements([c, d], id) == FinishedCount(c.notes, id) + Announcements([d], id)
      ensures Announcements([b, c, d], id) == FinishedCount(b.notes, id) + Announcements([c, d], id)
    {
    }
  }
}
