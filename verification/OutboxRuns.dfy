/** Whole runs of the outbox of packages/core/src/outbox.ts with a server that
    acknowledges only the contiguous prefix it has committed
    (sdk-python/agent_phonon/server.py, `set_stream_event_handler`). */
module OutboxRuns {
  import opened Wrappers
  import opened OutboxQueue
  import opened OutboxDelivery

  /** The events a server committed, by session, in sequence from zero. */
  type Committed = map<Session, seq<Event>>

  function CommittedOf(c: Committed, s: Session): seq<Event> {
    if s in c then c[s] else []
  }

  ghost predicate InSequence(c: Committed) {
    forall s, j | 0 <= j < |CommittedOf(c, s)| :: CommittedOf(c, s)[j].session == s && CommittedOf(c, s)[j].seqNo == j
  }

  class Server {
    var committed: Committed

    constructor ()
      ensures InSequence(committed) && committed == map[]
    {
      committed := map[];
    }

    /** Commits the next event of a session; acknowledges the committed prefix once
        it covers the event. */
    method Receive(e: Event) returns (ack: Option<int>)
      requires InSequence(committed)
      modifies this
      ensures InSequence(committed)
      ensures forall s :: CommittedOf(old(committed), s) <= CommittedOf(committed, s)
      ensures forall s, x :: x in CommittedOf(committed, s) ==> x in CommittedOf(old(committed), s) || x == e
      ensures ack.Some? <==> e.seqNo < |CommittedOf(committed, e.session)|
      ensures ack.Some? ==> ack.value == |CommittedOf(committed, e.session)| - 1
    {
      var done := CommittedOf(committed, e.session);
      if e.seqNo == |done| {
        done := done + [e];
        ghost var before := committed;
        committed := committed[e.session := done];
        forall s, j | 0 <= j < |CommittedOf(committed, s)|
          ensures CommittedOf(committed, s)[j].session == s && CommittedOf(committed, s)[j].seqNo == j
        {
          assert j < |CommittedOf(before, s)| ==> CommittedOf(committed, s)[j] == CommittedOf(before, s)[j];
        }
      }
      return if e.seqNo < |done| then Some(|done| - 1) else None;
    }
  }

  datatype Action =
    | Produce(e: Event, repeated: bool)
    | Deliver(i: nat)
    | AckArrives(session: Session, lastSeq: int)
    | Restart
    | CrashInAck(session: Session, lastSeq: int)

  /** An event is safe with the server once it is committed at its sequence. */
  predicate IsCommitted(c: Committed, e: Event) {
    e.seqNo < |CommittedOf(c, e.session)| && CommittedOf(c, e.session)[e.seqNo] == e
  }

  /** What ties the two sides together. */
  ghost predicate InStep(store: OutboxStore, server: Server, wire: set<(Session, int)>)
    reads store, server
  {
    && store.Valid() && InSequence(server.committed)
    && (forall s, x :: x in CommittedOf(server.committed, s) ==> x in store.accepted)
    && (forall a | a in wire :: a.1 < |CommittedOf(server.committed, a.0)|)
    && (forall s | s in store.acks :: store.acks[s] < |CommittedOf(server.committed, s)|)
  }

  /** Whatever was made durable is committed at the server or still waiting. */
  lemma NothingIsLost(store: OutboxStore, server: Server, wire: set<(Session, int)>, e: Event)
    requires InStep(store, server, wire) && e in store.accepted
    ensures e in store.rows || IsCommitted(server.committed, e)
  {
    if e !in store.rows {
      assert Settled(e, store.acks);
      var done := CommittedOf(server.committed, e.session);
      assert done[e.seqNo] in done && KeyOf(done[e.seqNo]) == KeyOf(e);
    }
  }

  ghost predicate MarksGrow(acks: map<Session, int>, acks': map<Session, int>) {
    forall s | s in acks :: s in acks' && acks[s] <= acks'[s]
  }

  /** The network delivers a waiting event to the server. */
  method DeliverStep(box: Outbox, store: OutboxStore, server: Server, wire: set<(Session, int)>, i: nat)
    returns (wire': set<(Session, int)>)
    requires box.Valid() && box.store == store && InStep(store, server, wire)
    modifies server
    ensures box.Valid() && InStep(store, server, wire') && wire <= wire'
  {
    hide StrictlySorted, DistinctKeys, Kept, Sort, InSequence;
    wire' := wire;
    var events := box.Pending([]);
    if i < |events| {
      assert events[i] in events;
      ghost var before := server.committed;
      WaitingIsAccepted(store);
      var ack := server.Receive(events[i]);
      if ack.Some? { wire' := wire + {(events[i].session, ack.value)}; }
      forall s ensures |CommittedOf(before, s)| <= |CommittedOf(server.committed, s)| {
        assert CommittedOf(before, s) <= CommittedOf(server.committed, s);
      }
    }
  }

  /** An acknowledgement, possibly late or repeated, reaches the device. */
  method AckStep(box: Outbox, store: OutboxStore, server: Server, wire: set<(Session, int)>, session: Session,
                 lastSeq: int)
    requires box.Valid() && box.store == store && InStep(store, server, wire)
    modifies box, store
    ensures box.Valid() && InStep(store, server, wire)
    ensures store.accepted == old(store.accepted) && MarksGrow(old(store.acks), store.acks)
  {
    hide StrictlySorted, DistinctKeys, Kept, MaxSeq, InSequence, OutboxStore.Valid;
    if (session, lastSeq) in wire {
      WaitingIsAccepted(store);
      box.Ack(session, lastSeq);
    }
  }

  /** The process dies after the watermark is written and before its rows are deleted. */
  method CrashStep(box: Outbox, store: OutboxStore, server: Server, wire: set<(Session, int)>, session: Session,
                   lastSeq: int)
    requires box.Valid() && box.store == store && InStep(store, server, wire)
    modifies store
    ensures InStep(store, server, wire)
    ensures store.accepted == old(store.accepted) && MarksGrow(old(store.acks), store.acks)
  {
    hide StrictlySorted, DistinctKeys, Kept, MaxSeq, InSequence, OutboxStore.Valid;
    MaxSeqIsKnown(box.buffer, session);
    WaitingIsAccepted(store);
    var mark := Min(lastSeq, MaxSeq(box.buffer, session));
    if (session, lastSeq) in wire && 0 <= mark { store.MarkFinalized(session, mark); }
  }

  /** One step of the device, the network or the server. Acknowledgements may be
      delivered late, again and again, or never. */
  method Step(box: Outbox, store: OutboxStore, server: Server, wire: set<(Session, int)>, action: Action)
    returns (box': Outbox, wire': set<(Session, int)>)
    requires box.Valid() && box.store == store && InStep(store, server, wire)
    modifies box, store, server
    ensures box'.Valid() && box'.store == store && (box' == box || fresh(box'))
    ensures InStep(store, server, wire') && wire <= wire'
    ensures old(store.accepted) <= store.accepted && MarksGrow(old(store.acks), store.acks)
  {
    hide StrictlySorted, DistinctKeys, Kept, MaxSeq, InSequence, OutboxStore.Valid;
    box', wire' := box, wire;
    match action {
      case Produce(e, repeated) => var added := box.Enqueue(e, repeated);
      case Deliver(i) => wire' := DeliverStep(box, store, server, wire, i);
      case AckArrives(session, lastSeq) => AckStep(box, store, server, wire, session, lastSeq);
      case Restart => box' := new Outbox(store);
      case CrashInAck(session, lastSeq) =>
        CrashStep(box, store, server, wire, session, lastSeq);
        box' := new Outbox(store);
    }
  }

  /** Over any run, no accepted event is lost: it is committed at the server or in
      `pending`, which is strictly sorted; watermarks never move back. */
  method Run(box: Outbox, store: OutboxStore, server: Server, actions: seq<Action>)
    returns (last: Outbox, pending: seq<Event>)
    requires box.Valid() && box.store == store && InStep(store, server, {})
    modifies box, store, server
    ensures last.Valid() && last.store == store && old(store.accepted) <= store.accepted
    ensures StrictlySorted(pending)
    ensures forall e | e in store.accepted :: e in pending || IsCommitted(server.committed, e)
    ensures forall e | e in pending :: e in store.accepted
    ensures MarksGrow(old(store.acks), store.acks)
    ensures forall s | s in store.acks :: exists e :: e in store.accepted && e.session == s && store.acks[s] <= e.seqNo
  {
    hide StrictlySorted, DistinctKeys, IsCommitted, Kept, MaxSeq, Sort;
    last := box;
    var wire: set<(Session, int)> := {};
    for i := 0 to |actions|
      invariant last.Valid() && last.store == store && (last == box || fresh(last)) && InStep(store, server, wire)
      invariant old(store.accepted) <= store.accepted && MarksGrow(old(store.acks), store.acks)
    {
      last, wire := Step(last, store, server, wire, actions[i]);
    }
    pending := last.Pending([]);
    WaitingIsAccepted(store);
    forall e | e in store.accepted ensures e in pending || IsCommitted(server.committed, e) {
      NothingIsLost(store, server, wire, e);
    }
  }
}
