/** packages/core/src/outbox.ts over the outbox tables of packages/core/src/store.ts,
    for one tenant. */
module OutboxDelivery {
  import opened Wrappers
  import opened OutboxQueue

  /** The tables `outbox_events` and `outbox_acks`. */
  class OutboxStore {
    var rows: seq<Event>
    var acks: map<Session, int>
    /** Every event that was ever made durable. */
    ghost var accepted: set<Event>

    constructor ()
      ensures Valid() && rows == [] && acks == map[] && accepted == {}
    {
      rows, acks, accepted := [], map[], {};
    }

    ghost predicate Valid()
      reads this
    {
      && DistinctKeys(rows)
      && (forall e | e in rows :: e in accepted)
      && (forall e | e in accepted :: e in rows || Settled(e, acks))
      && (forall a, b | a in accepted && b in accepted && KeyOf(a) == KeyOf(b) :: a == b)
      && (forall s | s in acks :: 0 <= acks[s] && exists e :: e in accepted && e.session == s && acks[s] <= e.seqNo)
    }

    /** `outboxAdd`; `repeated` says that a native proactive message was seen before. */
    method Add(e: Event, repeated: bool) returns (added: bool)
      requires Valid() && !Settled(e, acks)
      modifies this
      ensures Valid() && acks == old(acks)
      ensures added <==> !repeated && forall x | x in old(rows) :: KeyOf(x) != KeyOf(e)
      ensures rows == (if added then old(rows) + [e] else old(rows))
      ensures accepted == (if added then old(accepted) + {e} else old(accepted))
    {
      if repeated || exists i | 0 <= i < |rows| :: KeyOf(rows[i]) == KeyOf(e) { return false; }
      forall x | x in accepted ensures KeyOf(x) != KeyOf(e) {
        if x in rows {
        } else {
          assert Settled(x, acks);
        }
      }
      rows, accepted := rows + [e], accepted + {e};
      return true;
    }

    /** The watermark half of an acknowledgement. */
    method MarkFinalized(session: Session, lastSeq: int)
      requires Valid() && 0 <= lastSeq && exists e :: e in accepted && e.session == session && lastSeq <= e.seqNo
      modifies `acks
      ensures Valid() && acks == old(acks)[session := Max(lastSeq,
                                                          if session in old(acks) then old(acks)[session] else lastSeq)]
    {
      acks := acks[session := Max(lastSeq, if session in acks then acks[session] else lastSeq)];
    }

    method Delete(session: Session, seqNo: int)
      requires Valid() && forall e | e in rows && KeyOf(e) == (session, seqNo) :: Settled(e, acks)
      modifies `rows
      ensures Valid() && rows == Kept(old(rows), OtherThan((session, seqNo)))
    {
      KeptSelects(rows, OtherThan((session, seqNo)));
      rows := Kept(rows, OtherThan((session, seqNo)));
    }

    /** `outboxAck`: the watermark and the deletion of its rows, in one transaction. */
    method Ack(session: Session, lastSeq: int)
      requires Valid() && 0 <= lastSeq && exists e :: e in accepted && e.session == session && lastSeq <= e.seqNo
      modifies `rows, `acks
      ensures Valid() && acks == old(acks)[session := Max(lastSeq,
                                                          if session in old(acks) then old(acks)[session] else lastSeq)]
      ensures rows == Kept(old(rows), Beyond(session, lastSeq))
    {
      MarkFinalized(session, lastSeq);
      KeptSelects(rows, Beyond(session, lastSeq));
      rows := Kept(rows, Beyond(session, lastSeq));
    }
  }

  class Outbox {
    const store: OutboxStore
    var buffer: seq<Event>
    var keys: set<(Session, int)>
    var acked: map<Session, int>

    /** Exactly the durable, unsettled events are in memory. */
    ghost predicate Valid()
      reads this, store
    {
      && store.Valid() && buffer == store.rows && acked == store.acks
      && (forall e | e in buffer :: !Settled(e, acked))
      && keys == KeysOf(buffer)
    }

    /** Reloads what a crash left: rows at or below the watermark are deleted, the rest is pending. */
    constructor (store: OutboxStore)
      requires store.Valid()
      modifies store`rows
      ensures Valid() && this.store == store && acked == store.acks
      ensures buffer == Kept(old(store.rows), Unsettled(store.acks))
    {
      this.store, this.acked := store, store.acks;
      this.buffer, this.keys := [], {};
      new;
      buffer, keys := LoadRows(store);
    }

    /** Events already settled or already waiting are ignored; an event is never dropped for lack of room. */
    method Enqueue(e: Event, repeated: bool) returns (added: bool)
      requires Valid()
      modifies this, store
      ensures Valid() && acked == old(acked)
      ensures added <==> !Settled(e, old(acked)) && KeyOf(e) !in old(keys) && !repeated
      ensures buffer == (if added then old(buffer) + [e] else old(buffer))
      ensures store.accepted == (if added then old(store.accepted) + {e} else old(store.accepted))
    {
      if e.seqNo <= (if e.session in acked then acked[e.session] else -1) { return false; }
      if KeyOf(e) in keys { return false; }
      added := store.Add(e, repeated);
      if !added { return; }
      buffer, keys := buffer + [e], keys + {KeyOf(e)};
    }

    /** An acknowledgement only moves the watermark forward, and never beyond what this
        session has sent. */
    method Ack(session: Session, lastSeq: int)
      requires Valid()
      modifies this, store
      ensures Valid() && store.accepted == old(store.accepted)
      ensures var prev := if session in old(acked) then old(acked)[session] else -1;
              var mark := Min(lastSeq, MaxSeq(old(buffer), session));
              if mark > prev then acked == old(acked)[session := mark]
                  && buffer == Kept(old(buffer), Beyond(session, mark))
              else acked == old(acked) && buffer == old(buffer)
    {
      hide OutboxStore.Valid, Kept, MaxSeq;
      WaitingIsAccepted(store);
      if lastSeq < 0 { return; }
      var prev := if session in acked then acked[session] else -1;
      if lastSeq <= prev { return; }
      MaxSeqIsKnown(buffer, session);
      var maxKnown := MaxSeq(buffer, session);
      if maxKnown == -1 { return; }
      var effective := Min(lastSeq, maxKnown);
      if effective <= prev { return; }
      store.Ack(session, effective);
      KeptSelects(buffer, Beyond(session, effective));
      buffer, acked := Kept(buffer, Beyond(session, effective)), acked[session := effective];
      keys := KeysOf(buffer);
    }

    /** `resumeFrom`: each session's first unacknowledged sequence, by session. */
    method ResumeFrom() returns (r: seq<(Session, int)>)
      requires Valid()
      ensures forall i, j | 0 <= i < j < |r| :: r[i].0 < r[j].0
      ensures forall e | e in buffer :: exists i :: 0 <= i < |r| && r[i].0 == e.session && r[i].1 <= e.seqNo
      ensures forall i | 0 <= i < |r| :: Waiting(buffer, r[i].0, r[i].1)
    {
      var first := FirstSeqs(buffer);
      r := BySession(first);
      forall e | e in buffer ensures exists i :: 0 <= i < |r| && r[i].0 == e.session && r[i].1 <= e.seqNo {
        var i :| 0 <= i < |r| && r[i] == (e.session, first[e.session]);
        assert r[i].0 == e.session && r[i].1 <= e.seqNo;
      }
      forall i | 0 <= i < |r| ensures Waiting(buffer, r[i].0, r[i].1) {
        assert r[i].0 in first;
      }
    }

    /** `pending`: what is not acknowledged, from the given starting points on, by session and sequence. */
    method Pending(resumeFrom: seq<(Session, int)>) returns (events: seq<Event>)
      requires Valid()
      ensures StrictlySorted(events)
      ensures events == Sort(if resumeFrom == [] then buffer else Kept(buffer, StartingAt(StartsOf(resumeFrom))))
      ensures forall e :: e in events <==>
                e in buffer && (resumeFrom == [] || e.session !in StartsOf(resumeFrom)
                    || e.seqNo >= StartsOf(resumeFrom)[e.session])
    {
      var items := buffer;
      if resumeFrom != [] {
        KeptSelects(buffer, StartingAt(StartsOf(resumeFrom)));
        items := Kept(buffer, StartingAt(StartsOf(resumeFrom)));
      }
      SortSorts(items);
      events := Sort(items);
    }
  }

  ghost predicate Waiting(buffer: seq<Event>, session: Session, seqNo: int) {
    exists e :: e in buffer && e.session == session && e.seqNo == seqNo
  }

  /** `new Map(...)` over the list: a later entry of a session wins. */
  function StartsOf(r: seq<(Session, int)>): map<Session, int> {
    if r == [] then map[] else StartsOf(r[..|r| - 1])[r[|r| - 1].0 := r[|r| - 1].1]
  }

  /** The loop of `resumeFrom`: the lowest waiting sequence of each session. */
  method FirstSeqs(buffer: seq<Event>) returns (first: map<Session, int>)
    ensures forall e | e in buffer :: e.session in first && first[e.session] <= e.seqNo
    ensures forall s | s in first :: Waiting(buffer, s, first[s])
  {
    first := map[];
    for i := 0 to |buffer|
      invariant forall e | e in buffer[..i] :: e.session in first && first[e.session] <= e.seqNo
      invariant forall s | s in first :: Waiting(buffer, s, first[s])
    {
      var item := buffer[i];
      assert buffer[..i + 1] == buffer[..i] + [item];
      if item.session !in first || item.seqNo < first[item.session] {
        first := first[item.session := item.seqNo];
      }
    }
    assert buffer[..|buffer|] == buffer;
  }

  /** The entries of a map in the order of their keys. */
  method BySession(first: map<Session, int>) returns (r: seq<(Session, int)>)
    ensures forall i, j | 0 <= i < j < |r| :: r[i].0 < r[j].0
    ensures forall i | 0 <= i < |r| :: r[i].0 in first && r[i].1 == first[r[i].0]
    ensures forall s | s in first :: (s, first[s]) in r
  {
    r := [];
    var rest := first.Keys;
    while rest != {}
      invariant rest <= first.Keys
      invariant forall i, j | 0 <= i < j < |r| :: r[i].0 < r[j].0
      invariant forall i, s | 0 <= i < |r| && s in rest :: r[i].0 < s
      invariant forall i | 0 <= i < |r| :: r[i].0 in first && r[i].1 == first[r[i].0]
      invariant forall s | s in first && s !in rest :: (s, first[s]) in r
      decreases |rest|
    {
      var s := Least(rest);
      r, rest := r + [(s, first[s])], rest - {s};
    }
  }

  method Least(s: set<int>) returns (m: int)
    requires s != {}
    ensures m in s && forall x | x in s :: m <= x
  {
    ghost var some := Element(s);
    m :| m in s;
    var rest := s - {m};
    while rest != {}
      invariant m in s && rest <= s && forall x | x in s && x !in rest :: m <= x
      decreases |rest|
    {
      ghost var w := Element(rest);
      var x :| x in rest;
      if x < m { m := x; }
      rest := rest - {x};
    }
  }

  /** Asking from where to resume and resuming there replays everything pending. */
  method ResumedPendingIsPending(box: Outbox) returns (all: seq<Event>, resumed: seq<Event>)
    requires box.Valid()
    ensures all == resumed && StrictlySorted(all) && forall e :: e in all <==> e in box.buffer
  {
    var from := box.ResumeFrom();
    all := box.Pending([]);
    resumed := box.Pending(from);
    if from != [] {
      StartsAreFirst(from);
      forall e | e in box.buffer ensures StartingAt(StartsOf(from))(e) {
        if e.session in StartsOf(from) {
          var i :| 0 <= i < |from| && from[i].0 == e.session && from[i].1 <= e.seqNo;
          assert StartsOf(from)[from[i].0] == from[i].1;
        }
      }
      KeptSelects(box.buffer, StartingAt(StartsOf(from)));
    }
  }

  lemma {:induction false} StartsAreFirst(r: seq<(Session, int)>)
    requires forall i, j | 0 <= i < j < |r| :: r[i].0 < r[j].0
    ensures forall i | 0 <= i < |r| :: r[i].0 in StartsOf(r) && StartsOf(r)[r[i].0] == r[i].1
  {
    if r != [] {
      var n := |r| - 1;
      StartsAreFirst(r[..n]);
      forall i | 0 <= i < n ensures StartsOf(r)[r[i].0] == r[i].1 {
        assert r[..n][i] == r[i];
      }
    }
  }

  /** The loop of the constructor. */
  method LoadRows(store: OutboxStore) returns (buffer: seq<Event>, keys: set<(Session, int)>)
    requires store.Valid()
    modifies store`rows
    ensures store.Valid() && store.rows == buffer == Kept(old(store.rows), Unsettled(store.acks))
    ensures forall e | e in buffer :: !Settled(e, store.acks)
    ensures keys == KeysOf(buffer)
  {
    hide OutboxStore.Valid, DistinctKeys;
    var rows := store.rows;
    buffer, keys := [], {};
    var i := 0;
    assert rows[0..] == rows && rows[..0] == [];
    while i < |rows|
      invariant i <= |rows| && store.Valid()
      invariant buffer == Kept(rows[..i], Unsettled(store.acks)) && keys == KeysOf(buffer)
      invariant store.rows == buffer + rows[i..]
    {
      var r := rows[i];
      KeptStep(rows, i, Unsettled(store.acks));
      SplitAt(buffer, rows, i);
      if Settled(r, store.acks) {
        DeleteSettled(store, buffer, r, rows[i + 1..]);
      } else {
        buffer, keys := buffer + [r], keys + {KeyOf(r)};
      }
      i := i + 1;
    }
    assert rows[..i] == rows && buffer + rows[i..] == buffer;
    KeptSelects(rows, Unsettled(store.acks));
  }

  method DeleteSettled(store: OutboxStore, ghost front: seq<Event>, r: Event, ghost rest: seq<Event>)
    requires store.Valid() && store.rows == front + ([r] + rest) && Settled(r, store.acks)
    modifies store`rows
    ensures store.Valid() && store.rows == front + rest
  {
    RowsAreDistinct(store);
    DeletesOne(front, r, rest);
    OneOfItsKey(front, r, rest);
    hide OutboxStore.Valid, DistinctKeys;
    store.Delete(r.session, r.seqNo);
  }

  lemma KeptStep(rows: seq<Event>, i: nat, keep: Event -> bool)
    requires i < |rows|
    ensures Kept(rows[..i + 1], keep) == Kept(rows[..i], keep) + (if keep(rows[i]) then [rows[i]] else [])
  {
    assert rows[..i + 1][..i] == rows[..i];
  }

  lemma SplitAt(front: seq<Event>, rows: seq<Event>, i: nat)
    requires i < |rows|
    ensures front + rows[i..] == front + ([rows[i]] + rows[i + 1..])
    ensures front + rows[i..] == (front + [rows[i]]) + rows[i + 1..]
    ensures KeysOf(front + [rows[i]]) == KeysOf(front) + {KeyOf(rows[i])}
  {
    assert rows[i..] == [rows[i]] + rows[i + 1..];
  }

  lemma WaitingIsAccepted(store: OutboxStore)
    requires store.Valid()
    ensures forall e | e in store.rows :: e in store.accepted
    ensures forall s | s in store.acks :: 0 <= store.acks[s]
  {
  }

  lemma RowsAreDistinct(store: OutboxStore)
    requires store.Valid()
    ensures DistinctKeys(store.rows)
  {
  }

  lemma OneOfItsKey(front: seq<Event>, r: Event, rest: seq<Event>)
    requires DistinctKeys(front + ([r] + rest))
    ensures forall e | e in front + ([r] + rest) && KeyOf(e) == KeyOf(r) :: e == r
  {
    var s := front + ([r] + rest);
    assert s[|front|] == r;
  }

  lemma {:induction false} DeletesOne(front: seq<Event>, r: Event, rest: seq<Event>)
    requires DistinctKeys(front + ([r] + rest))
    ensures Kept(front + ([r] + rest), OtherThan(KeyOf(r))) == front + rest
  {
    var s, keep := front + ([r] + rest), OtherThan(KeyOf(r));
    if rest == [] {
      assert s[..|s| - 1] == front && front + rest == front;
      forall e | e in front ensures keep(e) {
        var i :| 0 <= i < |front| && front[i] == e;
        assert s[i] == e && s[|front|] == r;
      }
      KeptSelects(front, keep);
    } else {
      var n := |rest| - 1;
      assert s[..|s| - 1] == front + ([r] + rest[..n]);
      DeletesOne(front, r, rest[..n]);
      assert s[|s| - 1] == rest[n] && s[|front|] == r && KeyOf(rest[n]) != KeyOf(r);
      assert front + rest == (front + rest[..n]) + [rest[n]];
    }
  }
}
