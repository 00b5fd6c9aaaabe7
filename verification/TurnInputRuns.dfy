/** Whole turns of packages/core/src/current-turn-input.ts, under every
    interleaving of its methods. */
module TurnInputRuns {
  import opened Wrappers
  import opened TurnInputState
  import opened TurnInput

  datatype Event =
    | Inserting(id: Id, cost: nat, sameTurn: bool, world: World, aborted: bool)
    | InputAborted(id: Id)
    | BoundaryReached(boundary: Boundary, world: World, aborted: bool)
    | PeersAnswered(peers: Option<PeerBatch>, world: World, aborted: bool)
    | Authorizing(o: Observation, peersAllow: bool, world: World)
    | Observing(o: Observation, contextApplied: bool, peersAccept: bool, world: World)
    | Closing

  /** A batch handed out at a boundary: peer mail first, then inputs. `at` is the
      number of receipts that had come in by then. */
  datatype Handout = Handout(boundary: Boundary, mail: seq<Message>, ordinary: seq<Message>, at: nat)

  /** A receipt, and whether the context it names was confirmed as applied. */
  datatype Receipt = Receipt(o: Observation, contextApplied: bool)

  /** What has happened so far: the batches handed out and the receipts that came in. */
  datatype History = History(handouts: seq<Handout>, receipts: seq<Receipt>)

  /** Only a provider payload or an applied context shows that a batch was applied. */
  predicate Proves(r: Receipt) {
    r.o.evidence.ProviderPayload? || r.contextApplied
  }

  /** A boundary whose `prepare` is waiting for peer mail. */
  ghost predicate InFlight(t: Turn, flight: Option<Boundary>) {
    match flight
    case None => !t.preparing
    case Some(b) =>
      t.preparing && b.id in t.boundaries && b.id !in t.peerIds && forall id | id in t.offers ::
          t.offers[id].boundary != b.id
  }

  function OfferOf(d: Handout): Offer {
    Offer(d.boundary.id, d.boundary.native)
  }

  predicate Offers(d: Handout, id: Id, offer: Offer) {
    id in IdsOf(d.ordinary) && OfferOf(d) == offer
  }

  predicate Applies(r: Receipt, id: Id, offer: Offer) {
    Proves(r) && id in r.o.ids && Offer(r.o.boundary, r.o.native) == offer
  }

  /** The `i`-th batch offered the input, and the `j`-th receipt, which came in after
      that, proves that the offer was applied. */
  predicate AppliedAfterOffer(h: History, id: Id, offer: Offer, i: int, j: int) {
    && 0 <= i < |h.handouts| && 0 <= j < |h.receipts|
    && Offers(h.handouts[i], id, offer) && h.handouts[i].at <= j && Applies(h.receipts[j], id, offer)
  }

  ghost predicate Evidenced(h: History, id: Id, offer: Offer) {
    exists i, j :: AppliedAfterOffer(h, id, offer, i, j)
  }

  /** A batch keeps to the limits of a message batch, its inputs to the native headroom
      that the peer mail leaves. */
  ghost predicate WithinBatch(d: Handout) {
    && |d.mail + d.ordinary| <= MESSAGE_LIMIT && Cost(d.mail + d.ordinary) <= BATCH_BYTES
    && Charge(d.ordinary) <= Max(0, Headroom(d.boundary.budget) - Charge(d.mail))
  }

  ghost predicate WasOffered(h: History, id: Id, offer: Offer) {
    exists i | 0 <= i < |h.handouts| :: Offers(h.handouts[i], id, offer)
  }

  ghost predicate Consistent(t: Turn, h: History) {
    && (forall i | 0 <= i < |h.handouts| :: WithinBatch(h.handouts[i]) && h.handouts[i].at <= |h.receipts|)
    && (forall i | 0 <= i < |h.handouts| :: IdsOf(h.handouts[i].ordinary) <= t.offers.Keys)
    && (forall i, j | 0 <= i < j < |h.handouts| :: IdsOf(h.handouts[i].ordinary) !! IdsOf(h.handouts[j].ordinary))
    && (forall id | id in t.offers :: WasOffered(h, id, t.offers[id]))
    && (forall id | id in t.accepted :: Evidenced(h, id, t.accepted[id]))
  }

  method Step(active: ActiveInput, flight: Option<Boundary>, event: Event, ghost h: History)
    returns (flight': Option<Boundary>, ghost h': History)
    requires active.Valid() && InFlight(active.View(), flight) && Consistent(active.View(), h)
    modifies active
    ensures active.Valid() && InFlight(active.View(), flight') && Consistent(active.View(), h')
    ensures forall id | id in old(active.offers) :: id in active.offers && active.offers[id] == old(active.offers)[id]
    ensures forall id | id in old(active.ids) :: id in active.ids
  {
    hide ValidTurn, Cost, Charge, AllRejected, AllResolved, IdsOf;
    flight', h' := flight, h;
    match event {
      case Inserting(id, cost, sameTurn, world, aborted) =>
        if id !in active.ids { var r := active.Insert(id, cost, sameTurn, world, aborted); }
      case InputAborted(id) => active.Reject(id);
      case BoundaryReached(boundary, world, aborted) => flight' := Begin(active, flight, boundary, world, aborted);
      case PeersAnswered(peers, world, aborted) =>
        if flight.Some? { h' := Finish(active, flight.value, peers, world, aborted, h); flight' := None; }
      case Authorizing(o, peersAllow, world) => Permit(active, o, peersAllow, world);
      case Observing(o, contextApplied, peersAccept, world) => h' := Receive(active, flight, o, contextApplied,
          peersAccept, world, h);
      case Closing => Finalize(active);
    }
  }

  method Begin(active: ActiveInput, flight: Option<Boundary>, boundary: Boundary, world: World, aborted: bool)
    returns (flight': Option<Boundary>)
    requires active.Valid() && InFlight(active.View(), flight)
    modifies active`boundaries, active`preparing
    ensures active.Valid() && InFlight(active.View(), flight')
  {
    flight' := flight;
    BoundariesKnown(active.View());
    hide ValidTurn;
    var r := active.PrepareBegin(boundary, world, aborted);
    if r.None? { flight' := Some(boundary); }
  }

  lemma BoundariesKnown(t: Turn)
    requires ValidTurn(t)
    ensures forall b | b in t.peerIds :: b in t.boundaries
    ensures forall id | id in t.offers :: t.offers[id].boundary in t.boundaries
  {
  }

  method Finish(active: ActiveInput, boundary: Boundary, peers: Option<PeerBatch>, world: World, aborted: bool,
                ghost h: History)
    returns (ghost h': History)
    requires active.Valid() && InFlight(active.View(), Some(boundary)) && Consistent(active.View(), h)
    modifies active`pending, active`settled, active`offers, active`peerIds, active`preparing, active`inputEvidence
    ensures active.Valid() && !active.preparing && Consistent(active.View(), h')
    ensures forall id | id in old(active.offers) :: id in active.offers && active.offers[id] == old(active.offers)[id]
  {
    hide ValidTurn, Cost, Charge, Consistent, Headroom, Served;
    ghost var before := active.View();
    var r := active.PrepareEnd(boundary, peers, world, aborted);
    h' := h;
    if r.Ok? {
      ghost var mail := PeerMail(peers);
      ghost var d := Handout(boundary, mail, r.value.messages[|mail|..], |h.receipts|);
      assert d.mail + d.ordinary == r.value.messages;
      h' := h.(handouts := h.handouts + [d]);
      BatchRecorded(d, before, active.View(), h);
    } else {
      SameHistory(before, active.View(), h);
    }
  }

  lemma BatchRecorded(d: Handout, t: Turn, t': Turn, h: History)
    requires Consistent(t, h) && OfferedBatch(OfferOf(d), d.ordinary, t, t') && t'.accepted == t.accepted
    requires WithinBatch(d) && d.at == |h.receipts|
    ensures Consistent(t', h.(handouts := h.handouts + [d]))
    ensures forall id | id in t.offers :: id in t'.offers && t'.offers[id] == t.offers[id]
  {
    hide WithinBatch, Offers, Applies;
    var h' := h.(handouts := h.handouts + [d]);
    NewIdsAreNew(d, t, t', h);
    forall id | id in t'.offers ensures WasOffered(h', id, t'.offers[id]) {
      if id in t.offers {
        var i :| 0 <= i < |h.handouts| && Offers(h.handouts[i], id, t.offers[id]);
        assert Offers(h'.handouts[i], id, t'.offers[id]);
      } else {
        NewlyOffered(d, id, t, t');
        assert Offers(h'.handouts[|h.handouts|], id, t'.offers[id]);
      }
    }
    hide IdsOf, OfferedBatch, WasOffered;
    forall id | id in t'.accepted ensures Evidenced(h', id, t'.accepted[id]) {
      var i, j :| AppliedAfterOffer(h, id, t.accepted[id], i, j);
      assert AppliedAfterOffer(h', id, t'.accepted[id], i, j);
    }
  }

  lemma NewlyOffered(d: Handout, id: Id, t: Turn, t': Turn)
    requires OfferedBatch(OfferOf(d), d.ordinary, t, t') && id in t'.offers && id !in t.offers
    ensures Offers(d, id, t'.offers[id])
  {
  }

  lemma NewIdsAreNew(d: Handout, t: Turn, t': Turn, h: History)
    requires Consistent(t, h) && OfferedBatch(OfferOf(d), d.ordinary, t, t')
    ensures forall i | 0 <= i < |h.handouts| ::
              IdsOf(h.handouts[i].ordinary) !! IdsOf(d.ordinary) && IdsOf(h.handouts[i].ordinary) <= t'.offers.Keys
    ensures IdsOf(d.ordinary) <= t'.offers.Keys
  {
    hide WithinBatch, WasOffered, Evidenced;
    forall m | m in d.ordinary ensures m.id !in t.offers {
    }
    assert IdsOf(d.ordinary) !! t.offers.Keys;
    forall id | id in t.offers ensures id in t'.offers {
      assert id in t'.offers <==> id in t.offers || id in IdsOf(d.ordinary);
    }
  }

  method Permit(active: ActiveInput, o: Observation, peersAllow: bool, world: World)
    requires active.Valid()
    modifies active`pending, active`settled
    ensures active.Valid()
  {
    hide ValidTurn, AllRejected;
    var r := active.Authorize(o, peersAllow, world);
  }

  method Receive(active: ActiveInput, ghost flight: Option<Boundary>, o: Observation, contextApplied: bool,
                 peersAccept: bool, world: World, ghost h: History)
    returns (ghost h': History)
    requires active.Valid() && InFlight(active.View(), flight) && Consistent(active.View(), h)
    modifies active`pending, active`settled, active`accepted
    ensures active.Valid() && InFlight(active.View(), flight) && Consistent(active.View(), h')
    ensures active.offers == old(active.offers)
  {
    hide ValidTurn, Cost, IdsOf, AllRejected, AllResolved, Matching, Consistent;
    ghost var t := active.View();
    var r := active.Observe(o, contextApplied, peersAccept, world);
    AcceptedAsOffered(t, active.View());
    h' := h.(receipts := h.receipts + [Receipt(o, contextApplied)]);
    ReceiptRecorded(Receipt(o, contextApplied), t, active.View(), h);
  }

  /** An accepted input keeps its offer, and one that waits carries it. */
  lemma AcceptedAsOffered(t: Turn, t': Turn)
    requires ValidTurn(t) && ValidTurn(t') && t'.offers == t.offers
    ensures forall id | id in t.accepted && id in t'.accepted :: t'.accepted[id] == t.accepted[id]
    ensures forall id | id in t.pending && t.pending[id].offered.Some? ::
              id in t.offers && t.pending[id].offered == Some(t.offers[id])
  {
  }

  lemma ReceiptRecorded(r: Receipt, t: Turn, t': Turn, h: History)
    requires Consistent(t, h) && ResolvedBy(r.o, r.contextApplied, t, t') && t'.offers == t.offers
    requires forall id | id in t.accepted && id in t'.accepted :: t'.accepted[id] == t.accepted[id]
    requires forall id | id in t.pending && t.pending[id].offered.Some? ::
               id in t.offers && t.pending[id].offered == Some(t.offers[id])
    ensures Consistent(t', h.(receipts := h.receipts + [r]))
  {
    hide WithinBatch, Offers;
    var h' := h.(receipts := h.receipts + [r]);
    forall id | id in t'.offers ensures WasOffered(h', id, t'.offers[id]) {
      assert WasOffered(h, id, t.offers[id]);
    }
    forall id | id in t'.accepted ensures Evidenced(h', id, t'.accepted[id]) {
      if id in t.accepted {
        var i, j :| AppliedAfterOffer(h, id, t.accepted[id], i, j);
        assert AppliedAfterOffer(h', id, t'.accepted[id], i, j);
      } else {
        assert WasOffered(h, id, t.offers[id]);
        var i :| 0 <= i < |h.handouts| && Offers(h.handouts[i], id, t.offers[id]);
        assert AppliedAfterOffer(h', id, t'.accepted[id], i, |h.receipts|);
      }
    }
  }

  method Finalize(active: ActiveInput)
    requires active.Valid()
    modifies active`pending, active`settled, active`peerIds, active`closed
    ensures active.Valid() && active.closed && active.pending == map[]
    ensures forall b | b in active.peerIds :: b in old(active.peerIds)
    ensures forall id | id in active.ids :: HasSettled(active.settled, id)
  {
    ClosedForgetsPeers(active.View());
    hide ValidTurn, AllRejected;
    active.Close();
    ClosedForgetsPeers(active.View());
  }

  lemma ClosedForgetsPeers(t: Turn)
    requires ValidTurn(t)
    ensures t.closed ==> t.peerIds == map[]
  {
  }

  /** A whole turn, ending as `run` does: every admitted input has settled exactly
      once; those that resolved did so on a receipt that came in after their only
      offer, for its boundary and native session, and proves that it was applied; no
      batch broke its limits or the native headroom, and no input was in two. */
  method RunTurn(receipt: ReceiptKind, events: seq<Event>) returns (active: ActiveInput, ghost h: History)
    ensures fresh(active) && active.Valid() && active.closed && active.pending == map[]
    ensures forall id | id in active.ids :: HasSettled(active.settled, id)
    ensures forall i, j | 0 <= i < j < |active.settled| :: active.settled[i].0 != active.settled[j].0
    ensures forall i | 0 <= i < |active.settled| && active.settled[i].1 ::
              var id := active.settled[i].0;
              && id in active.offers && id in active.accepted && active.accepted[id] == active.offers[id]
              && Evidenced(h, id, active.offers[id])
    ensures Consistent(active.View(), h)
  {
    hide ValidTurn, HasSettled, Evidenced, Consistent, InFlight;
    active := new ActiveInput(receipt);
    var flight: Option<Boundary> := None;
    h := History([], []);
    NothingYet(active.View(), h);
    for i := 0 to |events|
      invariant fresh(active) && active.Valid() && InFlight(active.View(), flight) && Consistent(active.View(), h)
    {
      flight, h := Step(active, flight, events[i], h);
    }
    ghost var t := active.View();
    Finalize(active);
    SameHistory(t, active.View(), h);
    SettledMeans(active.View(), h);
  }

  lemma NothingYet(t: Turn, h: History)
    requires t.offers == map[] && t.accepted == map[] && !t.preparing && h == History([], [])
    ensures InFlight(t, None) && Consistent(t, h)
  {
  }

  lemma SameHistory(t: Turn, t': Turn, h: History)
    requires Consistent(t, h) && t'.offers == t.offers && t'.accepted == t.accepted
    ensures Consistent(t', h)
  {
  }

  lemma SettledMeans(t: Turn, h: History)
    requires ValidTurn(t) && Consistent(t, h)
    ensures forall i, j | 0 <= i < j < |t.settled| :: t.settled[i].0 != t.settled[j].0
    ensures forall i | 0 <= i < |t.settled| && t.settled[i].1 ::
              var id := t.settled[i].0;
              id in t.offers && id in t.accepted && t.accepted[id] == t.offers[id] && Evidenced(h, id, t.offers[id])
  {
    forall i | 0 <= i < |t.settled| && t.settled[i].1 ensures t.settled[i].0 in t.accepted {
      assert t.settled[i] == (t.settled[i].0, true);
      assert HasResolved(t.settled, t.settled[i].0);
    }
    hide HasSettled, Evidenced;
  }
}
