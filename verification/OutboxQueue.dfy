/** packages/core/src/outbox.ts: unacknowledged events in order, and their sorting. */
module OutboxQueue {
  import opened Wrappers

  type Session = int

  datatype Event = Event(session: Session, seqNo: nat, payload: int)

  function KeyOf(e: Event): (Session, int) {
    (e.session, e.seqNo)
  }

  function KeysOf(s: seq<Event>): set<(Session, int)> {
    set e | e in s :: KeyOf(e)
  }

  /** The order of `pending`: by session, then by sequence. */
  predicate Before(a: Event, b: Event) {
    a.session < b.session || (a.session == b.session && a.seqNo < b.seqNo)
  }

  ghost predicate StrictlySorted(s: seq<Event>) {
    forall i, j | 0 <= i < j < |s| :: Before(s[i], s[j])
  }

  ghost predicate DistinctKeys(s: seq<Event>) {
    forall i, j | 0 <= i < j < |s| :: KeyOf(s[i]) != KeyOf(s[j])
  }

  function Insert(e: Event, s: seq<Event>): seq<Event> {
    if s == [] then [e]
    else if Before(e, s[0]) then [e] + s
    else [s[0]] + Insert(e, s[1..])
  }

  function Sort(s: seq<Event>): seq<Event> {
    if s == [] then [] else Insert(s[|s| - 1], Sort(s[..|s| - 1]))
  }

  lemma {:induction false} InsertSorts(e: Event, s: seq<Event>)
    requires StrictlySorted(s) && forall x | x in s :: KeyOf(x) != KeyOf(e)
    ensures StrictlySorted(Insert(e, s)) && |Insert(e, s)| == |s| + 1
    ensures forall x :: x in Insert(e, s) <==> x == e || x in s
  {
    if s != [] {
      var rest := s[1..];
      assert s == [s[0]] + rest;
      assert forall i | 0 <= i < |rest| :: rest[i] == s[i + 1];
      InsertSorts(e, rest);
      if !Before(e, s[0]) {
        var t := Insert(e, rest);
        assert s[0] in s && Before(s[0], e);
        forall j | 0 <= j < |t| ensures Before(s[0], t[j]) {
          assert t[j] in t;
          if t[j] != e {
            var i :| 0 <= i < |rest| && rest[i] == t[j];
            assert Before(s[0], s[i + 1]);
          }
        }
      }
    }
  }

  /** Sorting keeps exactly the events and puts them in strict order. */
  lemma {:induction false} SortSorts(s: seq<Event>)
    requires DistinctKeys(s)
    ensures StrictlySorted(Sort(s)) && |Sort(s)| == |s|
    ensures forall x :: x in Sort(s) <==> x in s
  {
    if s != [] {
      var n := |s| - 1;
      SortSorts(s[..n]);
      assert s == s[..n] + [s[n]];
      InsertSorts(s[n], Sort(s[..n]));
    }
  }

  /** JavaScript's `filter`. */
  function Kept(s: seq<Event>, keep: Event -> bool): seq<Event> {
    if s == [] then []
    else Kept(s[..|s| - 1], keep) + (if keep(s[|s| - 1]) then [s[|s| - 1]] else [])
  }

  lemma {:induction false} KeptSelects(s: seq<Event>, keep: Event -> bool)
    ensures forall e :: e in Kept(s, keep) <==> e in s && keep(e)
    ensures DistinctKeys(s) ==> DistinctKeys(Kept(s, keep))
    ensures (forall e | e in s :: keep(e)) ==> Kept(s, keep) == s
  {
    if s != [] {
      var n := |s| - 1;
      assert s == s[..n] + [s[n]];
      KeptSelects(s[..n], keep);
      if DistinctKeys(s) {
        var front := Kept(s[..n], keep);
        forall i | 0 <= i < |front| ensures KeyOf(front[i]) != KeyOf(s[n]) {
          assert front[i] in front;
        }
      }
    }
  }

  /** The highest sequence of a session, -1 if there is none. */
  function MaxSeq(s: seq<Event>, session: Session): int {
    if s == [] then -1
    else if s[|s| - 1].session == session then Max(MaxSeq(s[..|s| - 1], session), s[|s| - 1].seqNo)
    else MaxSeq(s[..|s| - 1], session)
  }

  lemma {:induction false} MaxSeqIsKnown(s: seq<Event>, session: Session)
    ensures forall e | e in s && e.session == session :: e.seqNo <= MaxSeq(s, session)
    ensures MaxSeq(s, session) == -1 || exists e :: e in s && e.session == session && e.seqNo == MaxSeq(s, session)
  {
    if s != [] {
      var n := |s| - 1;
      assert s == s[..n] + [s[n]];
      MaxSeqIsKnown(s[..n], session);
      assert s[n] in s;
    }
  }

  /** Rows at or below their session's watermark, which a crash may have left behind. */
  predicate Settled(e: Event, acks: map<Session, int>) {
    e.session in acks && e.seqNo <= acks[e.session]
  }

  function Unsettled(acks: map<Session, int>): Event -> bool {
    (e: Event) => !Settled(e, acks)
  }

  /** All but the events of a session up to a watermark. */
  function Beyond(session: Session, mark: int): Event -> bool {
    (e: Event) => !(e.session == session && e.seqNo <= mark)
  }

  function OtherThan(key: (Session, int)): Event -> bool {
    (e: Event) => KeyOf(e) != key
  }

  /** Events of the listed sessions only from their starting sequence on. */
  function StartingAt(from: map<Session, int>): Event -> bool {
    (e: Event) => e.session !in from || e.seqNo >= from[e.session]
  }
}
