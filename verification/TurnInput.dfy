/** packages/core/src/current-turn-input.ts: ordinary input offered to an active
    turn at its native boundaries. A method is what the source runs between two
    `await`s; `prepare` has one, while it asks for peer mail. */
module TurnInput {
  import opened Wrappers
  import opened TurnInputState

  datatype Observation = Observation(boundary: BoundaryId, native: Native, ids: seq<Id>, evidence: Evidence)

  datatype Match = Match(inserted: seq<Id>, peers: seq<Id>)

  /** `matching`: which observed messages are waiting inputs and which are peer mail. */
  function Matching(t: Turn, world: World, o: Observation): Result<Match, Failure> {
    var inactive := Inactive(t, world, false, Some(o.native));
    if inactive.Some? then Err(inactive.value)
    else if o.boundary !in t.peerIds then Err(Unavailable)
    else Sorted(t.peerIds[o.boundary], t.ids, t.pending, t.accepted, Offer(o.boundary, o.native), o.ids)
  }

  /** The loop over the observed ids. */
  function Sorted(mail: set<Id>, known: seq<Id>, pending: map<Id, Pending>, accepted: map<Id, Offer>, offer: Offer,
                  ids: seq<Id>)
    : Result<Match, Failure>
  {
    if ids == [] then Ok(Match([], []))
    else
      var front, id := Sorted(mail, known, pending, accepted, offer, ids[..|ids| - 1]), ids[|ids| - 1];
      if front.Err? then front
      else if id in mail then Ok(front.value.(peers := front.value.peers + [id]))
      else if id !in known then Err(Unavailable)
      else if id !in pending then
        if id in accepted && accepted[id] == offer then front else Err(Unavailable)
      else if pending[id].offered == Some(offer) then Ok(front.value.(inserted := front.value.inserted + [id]))
      else Err(Unavailable)
  }

  /** An observed input was aborted or is refused by its caller, or the peer side refuses its mail. */
  predicate Refuses(m: Match, peersAllow: bool, world: World) {
    (exists id | id in m.inserted :: id in world.aborted || id in world.refusing) || (m.peers != [] && !peersAllow)
  }

  /** Inputs that an observation matches are waiting, observed, and were offered at
      its boundary to its native session. */
  lemma {:induction false} SortedMatches(mail: set<Id>, known: seq<Id>, pending: map<Id, Pending>,
                                         accepted: map<Id, Offer>, offer: Offer, ids: seq<Id>)
    requires Sorted(mail, known, pending, accepted, offer, ids).Ok?
    ensures var m := Sorted(mail, known, pending, accepted, offer, ids).value;
            && (forall id | id in m.inserted :: id in ids && id in pending && pending[id].offered == Some(offer))
            && (forall id | id in m.peers :: id in ids && id in mail)
            && (forall id | id in ids :: id in m.inserted || id in m.peers || (id in accepted && accepted[id] == offer))
  {
    if ids != [] {
      var front := ids[..|ids| - 1];
      SortedMatches(mail, known, pending, accepted, offer, front);
      assert forall id :: id in ids <==> id in front || id == ids[|ids| - 1];
    }
  }

  class ActiveInput {
    const receipt: ReceiptKind
    var ids: seq<Id>
    var pending: map<Id, Pending>
    var accepted: map<Id, Offer>
    var boundaries: set<BoundaryId>
    var peerIds: map<BoundaryId, set<Id>>
    var bytes: nat
    var preparing: bool
    var closed: bool
    var inputEvidence: Option<Evidence>

    ghost var settled: seq<(Id, bool)>
    ghost var offers: map<Id, Offer>

    constructor (receipt: ReceiptKind)
      ensures Valid() && View() == Turn(receipt, [], map[], map[], {}, map[], 0, false, false, None, [], map[])
    {
      this.receipt := receipt;
      ids, pending, accepted, boundaries, peerIds, bytes := [], map[], map[], {}, map[], 0;
      preparing, closed, inputEvidence, settled, offers := false, false, None, [], map[];
    }

    ghost function View(): Turn
      reads this
    {
      Turn(receipt, ids, pending, accepted, boundaries, peerIds, bytes, preparing, closed, inputEvidence, settled,
           offers)
    }

    ghost predicate Valid()
      reads this
    {
      ValidTurn(View())
    }

    /** `assertActive`. */
    function Inactivity(world: World, aborted: bool, native: Option<Native>): (r: Option<Failure>)
      reads this
      ensures r == Inactive(View(), world, aborted, native)
    {
      if closed || aborted || world.turnAborted then Some(Unavailable)
      else if world.capability.None?
          || (receipt.ViaProviderPayload? && !world.capability.value.evidence.ProviderPayload?) then Some(Unsupported)
      else if world.capability.value.starting || world.capability.value.native.None?
              || (native.Some? && native != world.capability.value.native) then Some(Unavailable)
      else None
    }

    /** `insert`: admits an input, whose promise then waits, or refuses it. */
    method Insert(id: Id, cost: nat, sameTurn: bool, world: World, aborted: bool) returns (r: Option<Failure>)
      requires Valid() && id !in ids
      modifies `ids, `pending, `bytes
      ensures Valid()
      ensures View() == if r.None? then Admitted(old(View()), id, cost) else old(View())
      ensures r.None? <==>
                && Inactive(old(View()), world, aborted, None).None? && sameTurn && !HookOnly(old(View()))
                   && cost <= BATCH_BYTES
                && |old(pending)| < PENDING_LIMIT && |old(ids)| < INPUT_LIMIT && old(bytes) + cost <= TURN_BYTES
    {
      hide SettledOnce, OffersKept;
      var inactive := Inactivity(world, aborted, None);
      if inactive.Some? { return inactive; }
      if !sameTurn { return Some(Unavailable); }
      if receipt.ViaProviderPayload? && inputEvidence == Some(ContextHook) { return Some(Unsupported); }
      if cost > BATCH_BYTES { return Some(InvalidParams); }
      if |pending| >= PENDING_LIMIT || |ids| >= INPUT_LIMIT || bytes + cost > TURN_BYTES { return Some(Unavailable); }
      AdmittedKeepsValid(View(), id, cost);
      ids, bytes, pending := ids + [id], bytes + cost, pending[id := Pending(id, cost, None)];
      return None;
    }

    /** `finish` with an error: an abort signal, a refusal or the end of the turn. */
    method Reject(id: Id)
      requires Valid()
      modifies `pending, `settled
      ensures Valid() && View() == Rejected(old(View()), id)
    {
      RejectedKeepsValid(View(), id);
      if id in pending {
        pending := pending - {id};
        settled := settled + [(id, false)];
      }
    }

    /** `finish` without an error. */
    method Resolve(id: Id)
      requires Valid()
      modifies `pending, `settled, `accepted
      ensures Valid() && View() == Resolved(old(View()), id)
    {
      ResolvedKeepsValid(View(), id);
      if id in pending {
        var offer := pending[id].offered;
        pending := pending - {id};
        if offer.Some? {
          accepted := accepted[id := offer.value];
          settled := settled + [(id, true)];
        } else {
          settled := settled + [(id, false)];
        }
      }
    }

    method RejectAll(list: seq<Id>)
      requires Valid()
      modifies `pending, `settled
      ensures Valid() && AllRejected(Elems(list), old(View()), View())
    {
      hide ValidTurn, Elems;
      ghost var t := View();
      NoneResolved(t);
      assert list[..0] == [];
      for i := 0 to |list|
        invariant Valid() && AllRejected(Elems(list[..i]), t, View())
      {
        ElemsGrow(list, i);
        Reject(list[i]);
        assert t.pending - Elems(list[..i]) - {list[i]} == t.pending - (Elems(list[..i]) + {list[i]});
      }
      assert list[..|list|] == list;
    }

    method ResolveAll(list: seq<Id>)
      requires Valid()
      modifies `pending, `settled, `accepted
      ensures Valid() && AllResolved(Elems(list), old(View()), View())
    {
      hide ValidTurn, AllResolved, Elems;
      ghost var t := View();
      NoneResolved(t);
      AcceptedHaveSettled(t);
      assert list[..0] == [];
      for i := 0 to |list|
        invariant Valid() && AllResolved(Elems(list[..i]), t, View())
      {
        ElemsGrow(list, i);
        OneMoreResolved(Elems(list[..i]), list[i], t, View());
        Resolve(list[i]);
      }
      assert list[..|list|] == list;
    }

    // -------------------------------------------------------------------
    // Boundaries
    // -------------------------------------------------------------------

    /** `prepare` up to its `await` for peer mail: each boundary is taken once, one at a time. */
    method PrepareBegin(boundary: Boundary, world: World, aborted: bool) returns (r: Option<Failure>)
      requires Valid()
      modifies `boundaries, `preparing
      ensures Valid()
      ensures View() == if r.None? then old(View()).(boundaries := old(boundaries) + {boundary.id}, preparing := true)
              else old(View())
      ensures r.None? <==>
                && Inactive(old(View()), world, aborted, Some(boundary.native)).None?
                && !old(preparing) && boundary.id !in old(boundaries) && |old(boundaries)| < BOUNDARY_LIMIT
    {
      hide ValidTurn;
      var inactive := Inactivity(world, aborted, Some(boundary.native));
      if inactive.Some? { return inactive; }
      BoundaryTaken(View(), boundary.id);
      if preparing || boundary.id in boundaries || |boundaries| >= BOUNDARY_LIMIT { return Some(Unavailable); }
      boundaries, preparing := boundaries + {boundary.id}, true;
      return None;
    }

    /** `prepare` after its `await`: peer mail first, then waiting inputs in order of
        admission, as many as the batch limits and the native headroom allow. */
    method PrepareEnd(boundary: Boundary, peers: Option<PeerBatch>, world: World, aborted: bool)
      returns (r: Result<Batch, Failure>)
      requires Valid() && preparing && boundary.id in boundaries && boundary.id !in peerIds
      requires forall id | id in offers :: offers[id].boundary != boundary.id
      modifies `pending, `settled, `offers, `peerIds, `preparing, `inputEvidence
      ensures Valid() && !preparing
      ensures accepted == old(accepted)
      ensures r.Ok? <==>
                && Inactive(old(View()), world, aborted, Some(boundary.native)).None?
                && (peers.Some? ==> peers.value.boundary == boundary.id && peers.value.native == boundary.native)
                && MailFits(PeerMail(peers), ids)
      ensures r.Err? ==> View() == old(View()).(preparing := false)
      ensures r.Ok? ==>
                var mail := PeerMail(peers);
                && mail <= r.value.messages && |r.value.messages| <= MESSAGE_LIMIT
                   && Cost(r.value.messages) <= BATCH_BYTES
                && OfferedBatch(Offer(boundary.id, boundary.native), r.value.messages[|mail|..], old(View()), View())
                && Charge(r.value.messages[|mail|..]) <= Max(0, Headroom(boundary.budget) - Charge(mail))
                && PeerDeferred(peers) <= |r.value.deferred|
                && Served(mail, Max(0, Headroom(boundary.budget) - Charge(mail)), world, r.value.messages[|mail|..],
                          r.value.deferred[..|r.value.deferred| - PeerDeferred(peers)],
                          Noted(old(View()), boundary, mail, world), View())
    {
      hide ValidTurn, OfferedBatch, Charge, Headroom, Served, Cost;
      preparing := false;
      FlagsAreFree(old(View()), false);
      var inactive := Inactivity(world, aborted, Some(boundary.native));
      if inactive.Some? { return Err(inactive.value); }
      if peers.Some? && (peers.value.boundary != boundary.id
          || peers.value.native != boundary.native) { return Err(Unavailable); }
      var mail := PeerMail(peers);
      var available := TakePeers(mail, ids, Headroom(boundary.budget));
      if available.None? { return Err(Unavailable); }
      PeersNoted(View(), boundary.id, IdsOf(mail),
                 if boundary.evidence.Some? then boundary.evidence else Some(world.capability.value.evidence));
      peerIds := peerIds[boundary.id := IdsOf(mail)];
      inputEvidence := if boundary.evidence.Some? then boundary.evidence else Some(world.capability.value.evidence);
      ghost var noted := View();
      var ordinary, deferred := OfferWaiting(Offer(boundary.id, boundary.native), mail, available.value, world);
      assert (mail + ordinary)[|mail|..] == ordinary;
      SameInputs(Offer(boundary.id, boundary.native), ordinary, old(View()), noted, View());
      var peerDeferred := if peers.Some? then peers.value.deferred else [];
      assert (deferred + peerDeferred)[..|deferred + peerDeferred| - |peerDeferred|] == deferred;
      return Ok(Batch(mail + ordinary, deferred + peerDeferred));
    }

    /** The loop over the waiting inputs in `prepare`. */
    method OfferWaiting(offer: Offer, mail: seq<Message>, available: nat, world: World)
      returns (ordinary: seq<Message>, deferred: seq<Id>)
      requires Valid() && offer.boundary in boundaries
      requires forall id | id in offers :: offers[id].boundary != offer.boundary
      requires |mail| <= MESSAGE_LIMIT && Cost(mail) <= BATCH_BYTES
      modifies `pending, `settled, `offers
      ensures Valid() && accepted == old(accepted)
      ensures OfferedBatch(offer, ordinary, old(View()), View())
      ensures |mail + ordinary| <= MESSAGE_LIMIT && Cost(mail + ordinary) <= BATCH_BYTES
              && Charge(ordinary) <= available
      ensures Served(mail, available, world, ordinary, deferred, old(View()), View())
    {
      hide ValidTurn, OfferedBatch, Charge, Cost, Serving, Served;
      ordinary, deferred := [], [];
      ghost var t := View();
      NothingOffered(offer, mail, t);
      ServingStarts(available, world, t);
      for i := 0 to |ids|
        invariant Valid() && View() == t.(pending := pending, settled := settled, offers := offers)
        invariant OfferedBatch(offer, ordinary, t, View())
        invariant |mail + ordinary| <= MESSAGE_LIMIT && Cost(mail + ordinary) <= BATCH_BYTES
                  && Charge(ordinary) <= available
        invariant Serving(available, world, i, ordinary, deferred, t, View())
      {
        var id := ids[i];
        ghost var before := View();
        if id !in pending || pending[id].offered.Some? {
          ServingSkips(available, world, i, ordinary, deferred, t, before);
          continue;
        }
        var cost := pending[id].cost;
        if id in world.aborted || (receipt.ViaProviderPayload? && inputEvidence == Some(ContextHook)) {
          RejectingKeepsBatch(offer, ordinary, t, before, id);
          ServingRejects(available, world, i, ordinary, deferred, t, before);
          Reject(id);
          continue;
        }
        if cost + FRAMING > available - Charge(ordinary) {
          ServingDefers(available, world, i, ordinary, deferred, t, before);
          deferred := deferred + [id];
          continue;
        }
        if |mail + ordinary| >= MESSAGE_LIMIT || Cost(mail + ordinary) + cost > BATCH_BYTES {
          ServingStops(mail, available, world, i, ordinary, deferred, t, before);
          return;
        }
        if id in world.refusing {
          RejectingKeepsBatch(offer, ordinary, t, before, id);
          ServingRejects(available, world, i, ordinary, deferred, t, before);
          Reject(id);
          continue;
        }
        OfferedKeepsBatch(offer, ordinary, t, before, id);
        ServingOffers(offer, available, world, i, ordinary, deferred, t, before);
        BatchGrows(mail, ordinary, Message(id, cost));
        pending, offers := pending[id := pending[id].(offered := Some(offer))], offers[id := offer];
        ordinary := ordinary + [Message(id, cost)];
      }
      ServingEnds(mail, available, world, ordinary, deferred, t, View());
    }

    // -------------------------------------------------------------------
    // Receipts
    // -------------------------------------------------------------------

    /** `authorize`: a refusal withdraws the whole observed batch. `peersAllow` is the peer side's answer. */
    method Authorize(o: Observation, peersAllow: bool, world: World) returns (r: Option<Failure>)
      requires Valid()
      modifies `pending, `settled
      ensures Valid() && accepted == old(accepted) && offers == old(offers)
      ensures r.None? <==>
                && Matching(old(View()), world, o).Ok?
                && !Refuses(Matching(old(View()), world, o).value, peersAllow, world)
      ensures r.None? ==> View() == old(View())
      ensures r.Some? ==>
                var m := Matching(old(View()), world, o);
                AllRejected(if m.Ok? then Elems(m.value.inserted) else {}, old(View()), View())
    {
      hide ValidTurn, Sorted;
      var m := Matched(world, o);
      if m.Err? { return Some(m.error); }
      var inserted, peers := m.value.inserted, m.value.peers;
      if (exists id | id in inserted :: id in world.aborted || id in world.refusing) || (peers != [] && !peersAllow) {
        RejectAll(inserted);
        return Some(Refused);
      }
      return None;
    }

    /** `matching`, on this turn. */
    function Matched(world: World, o: Observation): (r: Result<Match, Failure>)
      reads this
      ensures r == Matching(View(), world, o)
    {
      var inactive := Inactivity(world, false, Some(o.native));
      if inactive.Some? then Err(inactive.value)
      else if o.boundary !in peerIds then Err(Unavailable)
      else Sorted(peerIds[o.boundary], ids, pending, accepted, Offer(o.boundary, o.native), o.ids)
    }

    /** `observe` and `contextApplied`: evidence that a batch was applied resolves its
        inputs, each only if it was offered at the observed boundary to the observed
        native session. A refusal rejects them all. */
    method Observe(o: Observation, contextApplied: bool, peersAccept: bool, world: World) returns (r: Option<Failure>)
      requires Valid()
      modifies `pending, `settled, `accepted
      ensures Valid() && offers == old(offers)
      ensures ResolvedBy(o, contextApplied, old(View()), View())
      ensures var m := Matching(old(View()), world, o);
              if m.Err? then r == Some(m.error) && View() == old(View())
              else if receipt.ViaNativeContext? && o.evidence.ProviderPayload? then r == Some(Unsupported)
                  && View() == old(View())
              else if !o.evidence.ProviderPayload? && !contextApplied then
                r == (if m.value.peers != [] && !peersAccept then Some(Refused) else None) && View() == old(View())
              else if Refuses(m.value, peersAccept, world) then
                r == Some(Refused) && AllRejected(Elems(m.value.inserted), old(View()), View())
              else r == None && AllResolved(Elems(m.value.inserted), old(View()), View())
    {
      hide ValidTurn, Sorted, AllRejected, AllResolved;
      ghost var t := View();
      NoneResolved(t);
      var m := Matched(world, o);
      if m.Err? { return Some(m.error); }
      SortedMatches(t.peerIds[o.boundary], ids, pending, accepted, Offer(o.boundary, o.native), o.ids);
      if receipt.ViaNativeContext? && o.evidence.ProviderPayload? { return Some(Unsupported); }
      var inserted, peers := m.value.inserted, m.value.peers;
      if !o.evidence.ProviderPayload? && !contextApplied {
        return if peers != [] && !peersAccept then Some(Refused) else None;
      }
      if (exists id | id in inserted :: id in world.aborted || id in world.refusing) || (peers != [] && !peersAccept) {
        RejectAll(inserted);
        RejectionResolvesNone(o, contextApplied, inserted, t, View());
        return Some(Refused);
      }
      ResolveAll(inserted);
      ObservedAreResolved(o, contextApplied, inserted, t, View());
      return None;
    }

    /** `close`: at the final event, on abort and when `run` returns. */
    method Close()
      requires Valid()
      modifies `pending, `settled, `peerIds, `closed
      ensures Valid() && closed && pending == map[]
      ensures AllRejected(Elems(old(ids)), old(View()), View().(closed := old(closed), peerIds := old(peerIds)))
      ensures forall id | id in ids :: HasSettled(settled, id)
    {
      hide ValidTurn;
      ghost var t := View();
      RejectAll(ids);
      NoneWaits(t, View());
      peerIds, closed := map[], true;
    }
  }

  /** Peer mail of a batch, if there is one. */
  function PeerMail(peers: Option<PeerBatch>): seq<Message> {
    if peers.Some? then peers.value.messages else []
  }

  function PeerDeferred(peers: Option<PeerBatch>): nat {
    if peers.Some? then |peers.value.deferred| else 0
  }

  /** Peer mail within the batch limits, under ids of its own. */
  ghost predicate MailFits(mail: seq<Message>, ids: seq<Id>) {
    && |mail| <= MESSAGE_LIMIT && Cost(mail) <= BATCH_BYTES
    && (forall i, j | 0 <= i < j < |mail| :: mail[i].id != mail[j].id)
    && (forall m | m in mail :: m.id !in ids)
  }

  /** The turn once the peer mail of a boundary is taken. */
  function Noted(t: Turn, boundary: Boundary, mail: seq<Message>, world: World): Turn {
    t.(preparing := false, peerIds := t.peerIds[boundary.id := IdsOf(mail)],
       inputEvidence := if boundary.evidence.Some? then boundary.evidence
                        else if world.capability.Some? then Some(world.capability.value.evidence) else None)
  }

  /** The loop over the peer mail in `prepare`: what is left of the headroom, or
      nothing if the mail breaks a limit or repeats an id. */
  method TakePeers(mail: seq<Message>, ids: seq<Id>, headroom: nat) returns (available: Option<nat>)
    ensures available.Some? <==> MailFits(mail, ids)
    ensures available.Some? ==> available.value == Max(0, headroom - Charge(mail))
  {
    var left, bytes := headroom, 0;
    for i := 0 to |mail|
      invariant i <= MESSAGE_LIMIT && bytes == Cost(mail[..i]) <= BATCH_BYTES
      invariant left == Max(0, headroom - Charge(mail[..i]))
      invariant forall a, b | 0 <= a < b < i :: mail[a].id != mail[b].id
      invariant forall a | 0 <= a < i :: mail[a].id !in ids
    {
      var m := mail[i];
      assert mail[..i + 1] == mail[..i] + [m];
      CostOfLast(mail[..i], m);
      if m.id in ids || exists a | 0 <= a < i :: mail[a].id == m.id { return None; }
      if i >= MESSAGE_LIMIT || bytes + m.cost > BATCH_BYTES {
        CostGrows(mail, i + 1);
        return None;
      }
      bytes, left := bytes + m.cost, Max(0, left - m.cost - FRAMING);
    }
    assert mail[..|mail|] == mail;
    return Some(left);
  }

  lemma {:induction false} CostGrows(messages: seq<Message>, n: nat)
    requires n <= |messages|
    ensures Cost(messages[..n]) <= Cost(messages)
  {
    if n < |messages| {
      CostGrows(messages[..|messages| - 1], n);
      assert messages[..|messages| - 1][..n] == messages[..n];
    } else {
      assert messages[..n] == messages;
    }
  }

  // ---------------------------------------------------------------------
  // Several inputs at once
  // ---------------------------------------------------------------------

  function Elems(list: seq<Id>): set<Id> {
    set id | id in list
  }

  lemma ElemsGrow(list: seq<Id>, i: nat)
    requires i < |list|
    ensures Elems(list[..i + 1]) == Elems(list[..i]) + {list[i]}
  {
    assert list[..i + 1] == list[..i] + [list[i]];
  }

  /** The waiting inputs among `gone` were rejected, and nothing else changed. */
  ghost predicate AllRejected(gone: set<Id>, t: Turn, t': Turn) {
    && t' == t.(pending := t'.pending, settled := t'.settled)
    && t'.pending == t.pending - gone
  }

  /** The waiting inputs among `gone` were resolved with their offers. */
  ghost predicate AllResolved(gone: set<Id>, t: Turn, t': Turn) {
    && t' == t.(pending := t'.pending, settled := t'.settled, accepted := t'.accepted)
    && t'.pending == t.pending - gone
    && (forall id :: id in t'.accepted <==> id in t.accepted || ResolvesNow(gone, t, id))
    && (forall id | id in t'.accepted :: if ResolvesNow(gone, t, id) then t.pending[id].offered == Some(t'.accepted[id])
                                         else t'.accepted[id] == t.accepted[id])
  }

  predicate ResolvesNow(gone: set<Id>, t: Turn, id: Id) {
    id in gone && id in t.pending && t.pending[id].offered.Some?
  }

  /** These inputs were offered, each for the first time; the others kept their offers. */
  ghost predicate OfferedBatch(offer: Offer, ordinary: seq<Message>, t: Turn, t': Turn) {
    && (forall i, j | 0 <= i < j < |ordinary| :: ordinary[i].id != ordinary[j].id)
    && (forall m | m in ordinary :: m.id in t.pending && m.cost == t.pending[m.id].cost && m.id !in t.offers)
    && (forall id :: id in t'.offers <==> id in t.offers || id in IdsOf(ordinary))
    && (forall id | id in t'.offers :: t'.offers[id] == if id in t.offers then t.offers[id] else offer)
    && (forall id | id in t'.pending :: id in t.pending && t'.pending[id].cost == t.pending[id].cost)
    && (forall m | m in ordinary :: m.id in t'.pending)
  }

  lemma FlagsAreFree(t: Turn, preparing: bool)
    requires ValidTurn(t)
    ensures ValidTurn(t.(preparing := preparing))
  {
  }

  lemma PeersNoted(t: Turn, b: BoundaryId, mail: set<Id>, evidence: Option<Evidence>)
    requires ValidTurn(t) && b in t.boundaries && !t.closed
    ensures ValidTurn(t.(peerIds := t.peerIds[b := mail], inputEvidence := evidence))
  {
  }

  /** Rejecting everything leaves nothing waiting, and a turn that can be closed. */
  lemma NoneWaits(t: Turn, t': Turn)
    requires ValidTurn(t) && ValidTurn(t') && AllRejected(Elems(t.ids), t, t')
    ensures t'.pending == map[] && ValidTurn(t'.(closed := true, peerIds := map[]))
    ensures forall id | id in t.ids :: HasSettled(t'.settled, id)
  {
    forall id | id in t.pending ensures id in t.ids && id !in t'.pending {
      assert id in t.ids <==> id in t.pending || HasSettled(t.settled, id);
    }
    assert t'.pending.Keys == {};
  }

  lemma BoundaryTaken(t: Turn, b: BoundaryId)
    requires ValidTurn(t)
    ensures |t.boundaries| < BOUNDARY_LIMIT ==> ValidTurn(t.(boundaries := t.boundaries + {b}, preparing := true))
  {
    assert |t.boundaries + {b}| <= |t.boundaries| + 1;
    hide SettledOnce, HasSettled, HasResolved;
  }

  lemma AcceptedHaveSettled(t: Turn)
    requires ValidTurn(t)
    ensures forall id | id in t.accepted :: id !in t.pending
  {
    forall id | id in t.accepted ensures id !in t.pending {
      assert HasResolved(t.settled, id);
      assert HasSettled(t.settled, id);
    }
  }

  lemma SameInputs(offer: Offer, ordinary: seq<Message>, t: Turn, t1: Turn, t': Turn)
    requires OfferedBatch(offer, ordinary, t1, t') && t1.offers == t.offers && t1.pending == t.pending
    ensures OfferedBatch(offer, ordinary, t, t')
  {
  }

  /** Only evidence of application resolves an input, and only at the boundary and
      native session of its offer. */
  ghost predicate ResolvedBy(o: Observation, contextApplied: bool, t: Turn, t': Turn) {
    && (forall id | id in t'.accepted && id !in t.accepted ::
          && id in o.ids && t'.accepted[id] == Offer(o.boundary, o.native)
          && id in t.pending && t.pending[id].offered == Some(Offer(o.boundary, o.native))
          && (o.evidence.ProviderPayload? || contextApplied))
    && (forall id | id in t.accepted :: id in t'.accepted)
  }

  lemma NoneResolved(t: Turn)
    ensures AllResolved(Elems([]), t, t) && AllRejected(Elems([]), t, t)
  {
    assert Elems([]) == {} && t.pending - {} == t.pending;
  }

  lemma OneMoreResolved(gone: set<Id>, id: Id, t: Turn, t1: Turn)
    requires AllResolved(gone, t, t1) && forall x | x in t.accepted :: x !in t.pending
    ensures AllResolved(gone + {id}, t, Resolved(t1, id))
  {
    assert t.pending - gone - {id} == t.pending - (gone + {id});
    assert id !in t1.pending ==> t.pending - (gone + {id}) == t.pending - gone;
  }

  lemma ObservedAreResolved(o: Observation, contextApplied: bool, inserted: seq<Id>, t: Turn, t': Turn)
    requires AllResolved(Elems(inserted), t, t') && (o.evidence.ProviderPayload? || contextApplied)
    requires forall id | id in inserted ::
               id in o.ids && id in t.pending && t.pending[id].offered == Some(Offer(o.boundary, o.native))
    ensures ResolvedBy(o, contextApplied, t, t')
  {
  }

  lemma RejectionResolvesNone(o: Observation, contextApplied: bool, inserted: seq<Id>, t: Turn, t': Turn)
    requires AllRejected(Elems(inserted), t, t')
    ensures ResolvedBy(o, contextApplied, t, t')
  {
  }

  lemma NothingOffered(offer: Offer, mail: seq<Message>, t: Turn)
    ensures OfferedBatch(offer, [], t, t) && mail + [] == mail && Charge([]) == 0
  {
  }

  lemma BatchGrows(mail: seq<Message>, ordinary: seq<Message>, m: Message)
    ensures |mail + (ordinary + [m])| == |mail + ordinary| + 1
    ensures Cost(mail + (ordinary + [m])) == Cost(mail + ordinary) + m.cost
    ensures Charge(ordinary + [m]) == Charge(ordinary) + m.cost + FRAMING
  {
    CostOfLast(ordinary, m);
    CostOfLast(mail + ordinary, m);
    assert mail + (ordinary + [m]) == (mail + ordinary) + [m];
  }

  lemma RejectingKeepsBatch(offer: Offer, ordinary: seq<Message>, t: Turn, t1: Turn, id: Id)
    requires OfferedBatch(offer, ordinary, t, t1) && id in t1.pending && t1.pending[id].offered.None? && ValidTurn(t1)
    ensures OfferedBatch(offer, ordinary, t, Rejected(t1, id))
  {
    forall m | m in ordinary ensures m.id != id {
      assert m.id in IdsOf(ordinary);
    }
  }

  lemma OfferedKeepsBatch(offer: Offer, ordinary: seq<Message>, t: Turn, t1: Turn, id: Id)
    requires OfferedBatch(offer, ordinary, t, t1) && id in t1.pending && t1.pending[id].offered.None? && ValidTurn(t1)
    requires offer.boundary in t1.boundaries
    ensures OfferedBatch(offer, ordinary + [Message(id, t1.pending[id].cost)], t, Offered(t1, id, offer))
    ensures ValidTurn(Offered(t1, id, offer))
  {
    OfferedKeepsValid(t1, id, offer);
    var more := ordinary + [Message(id, t1.pending[id].cost)];
    assert id !in t1.offers;
    forall m | m in ordinary ensures m.id != id {
      assert m.id in IdsOf(ordinary);
    }
    assert IdsOf(more) == IdsOf(ordinary) + {id};
  }

  // ---------------------------------------------------------------------
  // Which inputs a boundary serves
  // ---------------------------------------------------------------------

  /** An input that may not be offered. */
  predicate Barred(world: World, t: Turn, id: Id) {
    id in world.aborted || id in world.refusing || HookOnly(t)
  }

  predicate Waiting(t: Turn, id: Id) {
    id in t.pending && t.pending[id].offered.None?
  }

  /** The inputs come in order of admission. */
  ghost predicate Ordered(ids: seq<Id>, n: nat, ordinary: seq<Message>)
    requires n <= |ids|
  {
    && (forall m | m in ordinary :: m.id in ids[..n])
    && (forall a, b, i, j | 0 <= a < b < |ordinary| && 0 <= i < |ids| && 0 <= j < |ids|
                            && ids[i] == ordinary[a].id && ids[j] == ordinary[b].id :: i < j)
  }

  /** The first `i` inputs of the turn have been considered. */
  ghost predicate Serving(available: nat, world: World, i: nat, ordinary: seq<Message>, deferred: seq<Id>, t: Turn,
                          t': Turn) {
    && i <= |t.ids| && t' == t.(pending := t'.pending, settled := t'.settled, offers := t'.offers)
    && (forall a, b | 0 <= a < b < |t.ids| :: t.ids[a] != t.ids[b])
    && Ordered(t.ids, i, ordinary)
    && (forall m | m in ordinary :: Waiting(t, m.id) && !Barred(world, t, m.id))
    && (forall j | 0 <= j < i :: Considered(available, world, t.ids[j], ordinary, deferred, t, t'))
    && (forall j | i <= j < |t.ids| :: Untouched(t.ids[j], t, t'))
    && (forall id | id in deferred :: id in t.ids[..i] && Waiting(t', id))
  }

  predicate Untouched(id: Id, t: Turn, t': Turn) {
    (id in t'.pending <==> id in t.pending) && (id in t.pending ==> t'.pending[id] == t.pending[id])
  }

  /** A waiting input was offered, or rejected for a reason, or deferred because the
      headroom that is left is too small for it. */
  ghost predicate Considered(available: nat, world: World, id: Id, ordinary: seq<Message>, deferred: seq<Id>, t: Turn,
                             t': Turn) {
    Waiting(t, id) ==>
      || (id in IdsOf(ordinary) && id in t'.pending)
      || (id !in t'.pending && Barred(world, t, id))
      || (Waiting(t', id) && id in deferred && t.pending[id].cost + FRAMING > available - Charge(ordinary))
  }

  /** A batch that is full: eight messages, or the next input is too long for it. */
  ghost predicate Full(mail: seq<Message>, ordinary: seq<Message>, t: Turn, t': Turn) {
    || |mail + ordinary| >= MESSAGE_LIMIT
    || exists id :: Waiting(t, id) && Waiting(t', id) && Cost(mail + ordinary) + t.pending[id].cost > BATCH_BYTES
  }

  /** What a boundary does with the inputs that wait for one: in order of admission, it
      offers each that may be offered and fits; an input is left waiting only for lack
      of headroom, or because the batch was full. */
  ghost predicate Served(mail: seq<Message>, available: nat, world: World, ordinary: seq<Message>, deferred: seq<Id>,
                         t: Turn, t': Turn) {
    && t' == t.(pending := t'.pending, settled := t'.settled, offers := t'.offers)
    && Ordered(t.ids, |t.ids|, ordinary)
    && (forall m | m in ordinary :: Waiting(t, m.id) && !Barred(world, t, m.id))
    && (forall id | id in deferred :: Waiting(t', id))
    && (forall id | id in t.ids ::
          || Considered(available, world, id, ordinary, deferred, t, t')
          || (Waiting(t', id) && Full(mail, ordinary, t, t')))
  }

  lemma ServingStarts(available: nat, world: World, t: Turn)
    requires ValidTurn(t)
    ensures Serving(available, world, 0, [], [], t, t)
  {
  }

  lemma ServingSkips(available: nat, world: World, i: nat, ordinary: seq<Message>, deferred: seq<Id>, t: Turn, t': Turn)
    requires Serving(available, world, i, ordinary, deferred, t, t') && i < |t.ids| && !Waiting(t', t.ids[i])
    ensures Serving(available, world, i + 1, ordinary, deferred, t, t')
  {
    hide Charge;
    assert Untouched(t.ids[i], t, t');
  }

  lemma ServingRejects(available: nat, world: World, i: nat, ordinary: seq<Message>, deferred: seq<Id>, t: Turn,
                       t': Turn)
    requires Serving(available, world, i, ordinary, deferred, t, t') && i < |t.ids| && Waiting(t', t.ids[i])
    requires Barred(world, t, t.ids[i])
    ensures Serving(available, world, i + 1, ordinary, deferred, t, Rejected(t', t.ids[i]))
  {
    hide Charge;
    var t1 := Rejected(t', t.ids[i]);
    forall j | 0 <= j < i ensures Considered(available, world, t.ids[j], ordinary, deferred, t, t1) {
      assert Considered(available, world, t.ids[j], ordinary, deferred, t, t') && t.ids[j] != t.ids[i];
    }
    forall j | i < j < |t.ids| ensures Untouched(t.ids[j], t, t1) {
      assert Untouched(t.ids[j], t, t') && t.ids[j] != t.ids[i];
    }
  }

  lemma ServingDefers(available: nat, world: World, i: nat, ordinary: seq<Message>, deferred: seq<Id>, t: Turn,
                      t': Turn)
    requires Serving(available, world, i, ordinary, deferred, t, t') && i < |t.ids| && Waiting(t', t.ids[i])
    requires t'.pending[t.ids[i]].cost + FRAMING > available - Charge(ordinary)
    ensures Serving(available, world, i + 1, ordinary, deferred + [t.ids[i]], t, t')
  {
    hide Charge;
    assert Untouched(t.ids[i], t, t');
    forall j | 0 <= j < i + 1 ensures Considered(available, world, t.ids[j], ordinary, deferred + [t.ids[i]], t, t') {
      if j < i { assert Considered(available, world, t.ids[j], ordinary, deferred, t, t'); }
    }
  }

  lemma ServingOffers(offer: Offer, available: nat, world: World, i: nat, ordinary: seq<Message>, deferred: seq<Id>,
                      t: Turn, t': Turn)
    requires Serving(available, world, i, ordinary, deferred, t, t') && i < |t.ids| && Waiting(t', t.ids[i])
    requires !Barred(world, t, t.ids[i])
    ensures var m := Message(t.ids[i], t'.pending[t.ids[i]].cost);
            Serving(available, world, i + 1, ordinary + [m], deferred, t, Offered(t', t.ids[i], offer))
  {
    hide Considered, Ordered, Barred;
    var id := t.ids[i];
    var m, t1 := Message(id, t'.pending[id].cost), Offered(t', id, offer);
    assert Untouched(id, t, t');
    forall j | 0 <= j < i + 1 ensures Considered(available, world, t.ids[j], ordinary + [m], deferred, t, t1) {
      if j < i {
        ConsideredStays(offer, available, world, id, t.ids[j], ordinary, deferred, t, t');
      } else {
        OfferedIsConsidered(offer, available, world, id, ordinary, deferred, t, t');
      }
    }
    forall j | i < j < |t.ids| ensures Untouched(t.ids[j], t, t1) {
      assert Untouched(t.ids[j], t, t') && t.ids[j] != id;
    }
    OrderedGrows(t.ids, i, ordinary, m);
    assert t.ids[..i + 1] == t.ids[..i] + [id];
  }

  lemma ConsideredStays(offer: Offer, available: nat, world: World, id: Id, other: Id, ordinary: seq<Message>,
                        deferred: seq<Id>, t: Turn, t': Turn)
    requires Considered(available, world, other, ordinary, deferred, t, t') && Waiting(t', id) && other != id
    ensures var m := Message(id, t'.pending[id].cost);
            Considered(available, world, other, ordinary + [m], deferred, t, Offered(t', id, offer))
  {
    var m := Message(id, t'.pending[id].cost);
    CostOfLast(ordinary, m);
    assert IdsOf(ordinary + [m]) == IdsOf(ordinary) + {id};
    hide Charge;
  }

  lemma OfferedIsConsidered(offer: Offer, available: nat, world: World, id: Id, ordinary: seq<Message>,
                            deferred: seq<Id>, t: Turn, t': Turn)
    requires Waiting(t', id)
    ensures var m := Message(id, t'.pending[id].cost);
            Considered(available, world, id, ordinary + [m], deferred, t, Offered(t', id, offer))
  {
    var m := Message(id, t'.pending[id].cost);
    hide Charge;
    assert m in ordinary + [m];
  }

  lemma OrderedGrows(ids: seq<Id>, i: nat, ordinary: seq<Message>, m: Message)
    requires i < |ids| && Ordered(ids, i, ordinary) && m.id == ids[i]
    requires forall a, b | 0 <= a < b < |ids| :: ids[a] != ids[b]
    ensures Ordered(ids, i + 1, ordinary + [m])
  {
    var more := ordinary + [m];
    assert ids[..i + 1] == ids[..i] + [ids[i]];
    forall a, b, p, q | 0 <= a < b < |more| && 0 <= p < |ids| && 0 <= q < |ids| && ids[p] == more[a].id
        && ids[q] == more[b].id
      ensures p < q
    {
      if b == |ordinary| {
        assert ordinary[a] in ordinary && q == i;
        var k :| 0 <= k < i && ids[k] == ordinary[a].id;
        assert k == p;
      }
    }
  }

  lemma ServingStops(mail: seq<Message>, available: nat, world: World, i: nat, ordinary: seq<Message>,
                     deferred: seq<Id>, t: Turn, t': Turn)
    requires Serving(available, world, i, ordinary, deferred, t, t') && i < |t.ids| && Waiting(t', t.ids[i])
    requires |mail + ordinary| >= MESSAGE_LIMIT || Cost(mail + ordinary) + t'.pending[t.ids[i]].cost > BATCH_BYTES
    ensures Served(mail, available, world, ordinary, deferred, t, t')
  {
    hide Charge, Cost;
    assert Untouched(t.ids[i], t, t') && Full(mail, ordinary, t, t');
    OrderedInAll(t.ids, i, ordinary);
    forall id | id in t.ids
      ensures Considered(available, world, id, ordinary, deferred, t, t')
              || (Waiting(t', id) && Full(mail, ordinary, t, t'))
    {
      var j :| 0 <= j < |t.ids| && t.ids[j] == id;
      if j >= i { assert Untouched(t.ids[j], t, t'); }
    }
  }

  lemma ServingEnds(mail: seq<Message>, available: nat, world: World, ordinary: seq<Message>, deferred: seq<Id>,
                    t: Turn, t': Turn)
    requires Serving(available, world, |t.ids|, ordinary, deferred, t, t')
    ensures Served(mail, available, world, ordinary, deferred, t, t')
  {
    hide Charge, Cost, Considered;
  }

  lemma OrderedInAll(ids: seq<Id>, n: nat, ordinary: seq<Message>)
    requires n <= |ids| && Ordered(ids, n, ordinary)
    ensures Ordered(ids, |ids|, ordinary)
  {
    assert ids[..|ids|] == ids;
  }
}
