/** packages/core/src/current-turn-input.ts: the values of one active turn. */
module TurnInputState {
  import opened Wrappers

  type Id = int
  type BoundaryId = int
  type Native = int

  datatype Evidence = ContextHook | ProviderPayload
  datatype ReceiptKind = ViaProviderPayload | ViaNativeContext
  datatype Capability = Capability(evidence: Evidence, starting: bool, native: Option<Native>)

  datatype Offer = Offer(boundary: BoundaryId, native: Native)
  datatype Pending = Pending(id: Id, cost: nat, offered: Option<Offer>)

  datatype Budget = Known(window: nat, input: nat, output: nat, overhead: nat) | Unknown
  datatype Boundary = Boundary(id: BoundaryId, native: Native, budget: Option<Budget>, evidence: Option<Evidence>)

  datatype Failure = Unavailable | Unsupported | InvalidParams | Refused

  datatype Message = Message(id: Id, cost: nat)
  datatype Batch = Batch(messages: seq<Message>, deferred: seq<Id>)
  datatype PeerBatch = PeerBatch(boundary: BoundaryId, native: Native, messages: seq<Message>, deferred: seq<Id>)

  /** What the surroundings answer during one step: the adapter's capability, the
      turn's and the inputs' abort signals, and which `beforeApply` callbacks throw. */
  datatype World = World(capability: Option<Capability>, turnAborted: bool, aborted: set<Id>, refusing: set<Id>)

  const MESSAGE_LIMIT := 8
  const BATCH_BYTES := 16000
  const FRAMING := 64
  const PENDING_LIMIT := 32
  const INPUT_LIMIT := 64
  const TURN_BYTES := 128000
  const BOUNDARY_LIMIT := 256

  /** `peerContextHeadroom`, over exact tenths. */
  function Headroom(budget: Option<Budget>): nat {
    match budget
    case None => 0
    case Some(Unknown) => 0
    case Some(Known(window, input, output, overhead)) =>
      Max(0, window - input - overhead - Max(output, Max(2048, (window + 9) / 10)))
  }

  function Cost(messages: seq<Message>): nat {
    if messages == [] then 0 else Cost(messages[..|messages| - 1]) + messages[|messages| - 1].cost
  }

  /** What messages take from the native headroom. */
  function Charge(messages: seq<Message>): nat {
    Cost(messages) + FRAMING * |messages|
  }

  lemma CostOfLast(messages: seq<Message>, m: Message)
    ensures Cost(messages + [m]) == Cost(messages) + m.cost
    ensures Charge(messages + [m]) == Charge(messages) + m.cost + FRAMING
  {
    assert (messages + [m])[..|messages|] == messages;
  }

  function IdsOf(messages: seq<Message>): set<Id> {
    set m | m in messages :: m.id
  }

  /** All that one active turn keeps, and what has become of its inputs' promises. */
  datatype Turn = Turn(
    receipt: ReceiptKind,
    /** Every input admitted, in order; a JavaScript set. */
    ids: seq<Id>,
    pending: map<Id, Pending>,
    accepted: map<Id, Offer>,
    boundaries: set<BoundaryId>,
    peerIds: map<BoundaryId, set<Id>>,
    bytes: nat, preparing: bool, closed: bool, inputEvidence: Option<Evidence>,
    /** Promises settled so far, in order: resolved or rejected. */
    settled: seq<(Id, bool)>,
    /** Every offer ever made. */
    offers: map<Id, Offer>)

  predicate HasSettled(settled: seq<(Id, bool)>, id: Id) {
    exists i | 0 <= i < |settled| :: settled[i].0 == id
  }

  predicate HasResolved(settled: seq<(Id, bool)>, id: Id) {
    exists i | 0 <= i < |settled| :: settled[i] == (id, true)
  }

  /** Each admitted input waits or has settled, exactly once. */
  ghost predicate SettledOnce(t: Turn) {
    && (forall i, j | 0 <= i < j < |t.ids| :: t.ids[i] != t.ids[j])
    && (forall i, j | 0 <= i < j < |t.settled| :: t.settled[i].0 != t.settled[j].0)
    && (forall id :: id in t.ids <==> id in t.pending || HasSettled(t.settled, id))
    && (forall id | id in t.pending :: !HasSettled(t.settled, id) && t.pending[id].id == id)
  }

  /** An input has at most one offer, made at a boundary of this turn; it is
      resolved exactly if that offer was accepted. */
  ghost predicate OffersKept(t: Turn) {
    && (forall id | id in t.pending :: t.pending[id].offered == (if id in t.offers then Some(t.offers[id]) else None))
    && (forall id | id in t.offers :: id in t.ids && t.offers[id].boundary in t.boundaries)
    && (forall id | id in t.accepted :: id in t.offers && t.accepted[id] == t.offers[id])
    && (forall id :: HasResolved(t.settled, id) <==> id in t.accepted)
  }

  ghost predicate WithinLimits(t: Turn) {
    && |t.pending| <= PENDING_LIMIT && |t.ids| <= INPUT_LIMIT && t.bytes <= TURN_BYTES
       && |t.boundaries| <= BOUNDARY_LIMIT
    && (forall id | id in t.pending :: t.pending[id].cost <= BATCH_BYTES)
    && (forall b | b in t.peerIds :: b in t.boundaries)
  }

  ghost predicate ValidTurn(t: Turn) {
    && SettledOnce(t) && OffersKept(t) && WithinLimits(t)
    && (t.closed ==> t.pending == map[] && t.peerIds == map[])
  }

  // ---------------------------------------------------------------------
  // The steps
  // ---------------------------------------------------------------------

  /** `assertActive`. */
  function Inactive(t: Turn, world: World, aborted: bool, native: Option<Native>): Option<Failure> {
    if t.closed || aborted || world.turnAborted then Some(Unavailable)
    else if world.capability.None?
        || (t.receipt.ViaProviderPayload? && !world.capability.value.evidence.ProviderPayload?) then Some(Unsupported)
    else if world.capability.value.starting || world.capability.value.native.None?
            || (native.Some? && native != world.capability.value.native) then Some(Unavailable)
    else None
  }

  /** A binding that needs payload receipts cannot use a boundary that only has a hook. */
  predicate HookOnly(t: Turn) {
    t.receipt.ViaProviderPayload? && t.inputEvidence == Some(ContextHook)
  }

  function Admitted(t: Turn, id: Id, cost: nat): Turn {
    t.(ids := t.ids + [id], bytes := t.bytes + cost, pending := t.pending[id := Pending(id, cost, None)])
  }

  /** `finish` with an error. */
  function Rejected(t: Turn, id: Id): Turn {
    if id !in t.pending then t else t.(pending := t.pending - {id}, settled := t.settled + [(id, false)])
  }

  /** `finish` without an error: only an offered input resolves. */
  function Resolved(t: Turn, id: Id): Turn {
    if id !in t.pending then t
    else if t.pending[id].offered.None? then Rejected(t, id)
    else t.(pending := t.pending - {id}, settled := t.settled + [(id, true)],
            accepted := t.accepted[id := t.pending[id].offered.value])
  }

  function Offered(t: Turn, id: Id, offer: Offer): Turn
    requires id in t.pending
  {
    t.(pending := t.pending[id := t.pending[id].(offered := Some(offer))], offers := t.offers[id := offer])
  }

  lemma SettlingGrows(settled: seq<(Id, bool)>, id: Id, ok: bool)
    ensures forall x :: HasSettled(settled + [(id, ok)], x) <==> x == id || HasSettled(settled, x)
    ensures forall x :: HasResolved(settled + [(id, ok)], x) <==> (x == id && ok) || HasResolved(settled, x)
  {
    var s := settled + [(id, ok)];
    assert s[|settled|] == (id, ok);
    forall x ensures HasSettled(settled, x) ==> HasSettled(s, x) {
      if HasSettled(settled, x) {
        var i :| 0 <= i < |settled| && settled[i].0 == x;
        assert s[i].0 == x;
      }
    }
    forall x ensures HasResolved(settled, x) ==> HasResolved(s, x) {
      if HasResolved(settled, x) {
        var i :| 0 <= i < |settled| && settled[i] == (x, true);
        assert s[i] == (x, true);
      }
    }
  }

  lemma FewerPending(pending: map<Id, Pending>, id: Id)
    ensures |pending - {id}| <= |pending| && (pending - {id}).Keys == pending.Keys - {id}
  {
    assert (pending - {id}).Keys == pending.Keys - {id};
    assert |pending - {id}| == |(pending - {id}).Keys| && |pending| == |pending.Keys|;
  }

  lemma AdmittedKeepsValid(t: Turn, id: Id, cost: nat)
    requires ValidTurn(t) && !t.closed && id !in t.ids
    requires |t.pending| < PENDING_LIMIT && |t.ids| < INPUT_LIMIT && t.bytes + cost <= TURN_BYTES && cost <= BATCH_BYTES
    ensures ValidTurn(Admitted(t, id, cost))
  {
  }

  lemma RejectedKeepsValid(t: Turn, id: Id)
    requires ValidTurn(t)
    ensures ValidTurn(Rejected(t, id))
  {
    SettlingGrows(t.settled, id, false);
    FewerPending(t.pending, id);
  }

  lemma ResolvedKeepsValid(t: Turn, id: Id)
    requires ValidTurn(t)
    ensures ValidTurn(Resolved(t, id))
  {
    if id in t.pending && t.pending[id].offered.Some? {
      SettlingGrows(t.settled, id, true);
      FewerPending(t.pending, id);
    } else {
      RejectedKeepsValid(t, id);
    }
  }

  lemma OfferedKeepsValid(t: Turn, id: Id, offer: Offer)
    requires ValidTurn(t) && id in t.pending && t.pending[id].offered.None? && offer.boundary in t.boundaries
    ensures ValidTurn(Offered(t, id, offer))
  {
    assert t.pending[id := t.pending[id].(offered := Some(offer))].Keys == t.pending.Keys;
    hide HasSettled, HasResolved;
  }
}
