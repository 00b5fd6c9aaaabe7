/** packages/core/src/conversation-archive.ts: the values an archive stores and
    the rules its entries obey. One conversation of one tenant and authority.

    SHA-256 is taken as ideal: a digest is the value it was computed from, so
    equal digests have equal inputs. */
module ArchiveState {
  import opened Wrappers

  type RecordId = int
  type Collection = int
  type Key = int

  datatype Scope = Scope(authority: int, tenant: int, conversation: int, epoch: int, project: Option<int>)

  /** `ConversationArchiveEntityIndex`: which part of which version of an entity an entry carries. */
  datatype Index = Index(collection: Collection, key: Key, order: Option<int>, version: int, part: int, parts: int,
                         deleted: bool)

  /** `body` stands for kind, entity id, revision and payload. */
  datatype Entry = Entry(sequence: int, recordId: RecordId, body: string, catalog: Option<Index>)

  datatype Digest = Genesis(scope: Scope) | Link(previous: Digest, entry: Entry)

  datatype Stored = Stored(entry: Entry, previousHash: Digest, hash: Digest)

  datatype Failure = Gap | Conflict | Capacity | Integrity | NotFound

  /** The hash an entry after the first `n` links to. */
  function Anchor(scope: Scope, s: seq<Stored>, n: nat): Digest
    requires n <= |s|
  {
    if n == 0 then Genesis(scope) else s[n - 1].hash
  }

  predicate LinkedAt(scope: Scope, s: seq<Stored>, i: nat)
    requires i < |s|
  {
    s[i].entry.sequence == i + 1 && s[i].previousHash == Anchor(scope, s, i)
        && s[i].hash == Link(s[i].previousHash, s[i].entry)
  }

  /** A hash chain from genesis with consecutive sequences. */
  ghost predicate Chained(scope: Scope, s: seq<Stored>) {
    forall i | 0 <= i < |s| :: LinkedAt(scope, s, i)
  }

  function LinkedTo(previous: Digest, e: Entry): Stored {
    Stored(e, previous, Link(previous, e))
  }

  function Appended(scope: Scope, s: seq<Stored>, e: Entry): seq<Stored> {
    s + [LinkedTo(Anchor(scope, s, |s|), e)]
  }

  // ---------------------------------------------------------------------
  // The rules for the next entry
  // ---------------------------------------------------------------------

  predicate ValidIndex(x: Index) {
    1 <= x.part <= x.parts && (if x.deleted then x.parts == 1 else x.order.Some?)
  }

  predicate SameGroup(a: Index, b: Index) {
    a.collection == b.collection && a.key == b.key && a.version == b.version
  }

  predicate Unfinished(last: Option<Index>) {
    last.Some? && last.value.part < last.value.parts
  }

  predicate Continues(last: Index, x: Index) {
    SameGroup(last, x) && x.order == last.order && x.parts == last.parts && x.deleted == last.deleted
        && x.part == last.part + 1
  }

  /** The two group checks of `append`. */
  predicate GroupRule(last: Option<Index>, x: Option<Index>, sequence: int) {
    && (Unfinished(last) ==> x.Some? && Continues(last.value, x.value))
    && (x.Some? ==>
          && x.value.version + x.value.part - 1 == sequence
          && (x.value.part > 1 ==> last.Some? && last.value.part == x.value.part - 1 && SameGroup(last.value, x.value)))
  }

  function LastIndex(s: seq<Stored>): Option<Index> {
    if s == [] then None else s[|s| - 1].entry.catalog
  }

  predicate RecordKnown(s: seq<Stored>, id: RecordId) {
    exists i | 0 <= i < |s| :: s[i].entry.recordId == id
  }

  /** A row of `conversation_archive_parts`. */
  datatype PartRow = PartRow(index: Index, order: Option<int>, sequence: int)

  /** The order of an entity, from any of its rows that has one. */
  function PriorOrder(rows: seq<PartRow>, collection: Collection, key: Key): Option<int> {
    if rows == [] then None
    else
      var r := rows[|rows| - 1];
      if r.index.collection == collection && r.index.key == key && r.order.Some? then r.order
      else PriorOrder(rows[..|rows| - 1], collection, key)
  }

  function PartOf(rows: seq<PartRow>, x: Index, sequence: int): PartRow {
    PartRow(x, if x.order.Some? then x.order else PriorOrder(rows, x.collection, x.key), sequence)
  }

  /** The parts table of a list of entries. */
  function PartsOf(s: seq<Stored>): seq<PartRow> {
    if s == [] then []
    else
      var rows, e := PartsOf(s[..|s| - 1]), s[|s| - 1].entry;
      if e.catalog.None? then rows else rows + [PartOf(rows, e.catalog.value, e.sequence)]
  }

  predicate OrderClash(rows: seq<PartRow>, x: Option<Index>) {
    x.Some? && x.value.order.Some? && PriorOrder(rows, x.value.collection, x.value.key).Some?
    && PriorOrder(rows, x.value.collection, x.value.key) != x.value.order
  }

  /** Why `e` may not be the next entry. */
  function Fault(s: seq<Stored>, e: Entry): Option<Failure> {
    if !GroupRule(LastIndex(s), e.catalog, e.sequence) then Some(Gap)
    else if RecordKnown(s, e.recordId) then Some(Conflict)
    else if OrderClash(PartsOf(s), e.catalog) then Some(Conflict)
    else None
  }

  // ---------------------------------------------------------------------
  // What a whole batch does
  // ---------------------------------------------------------------------

  function Extended(scope: Scope, s: seq<Stored>, es: seq<Entry>): seq<Stored> {
    if es == [] then s else Appended(scope, Extended(scope, s, es[..|es| - 1]), es[|es| - 1])
  }

  function FaultIn(scope: Scope, s: seq<Stored>, es: seq<Entry>): Option<Failure> {
    if es == [] then None
    else
      var front := es[..|es| - 1];
      match FaultIn(scope, s, front)
      case Some(f) => Some(f)
      case None => Fault(Extended(scope, s, front), es[|es| - 1])
  }

  datatype Batch = Batch(after: nat, afterHash: Digest, entries: seq<Entry>)

  const APPEND_RECORDS := 32

  /** `ConversationArchiveAppendParams`. */
  predicate WellFormedBatch(b: Batch) {
    && 1 <= |b.entries| <= APPEND_RECORDS
    && (forall i | 0 <= i < |b.entries| :: b.entries[i].sequence == b.after + i + 1)
    && (forall i | 0 <= i < |b.entries| :: b.entries[i].catalog.Some? ==> ValidIndex(b.entries[i].catalog.value))
    && (forall i, j | 0 <= i < j < |b.entries| :: b.entries[i].recordId != b.entries[j].recordId)
  }

  /** How many entries of the batch the archive already has. */
  function Overlap(s: seq<Stored>, b: Batch): nat
    requires b.after <= |s|
  {
    Min(|b.entries|, |s| - b.after)
  }

  /** The overlapping part of the batch is what was committed. */
  predicate Agrees(s: seq<Stored>, b: Batch)
    requires b.after <= |s|
  {
    forall i | 0 <= i < Overlap(s, b) :: s[b.after + i].entry == b.entries[i]
  }

  function NewPart(s: seq<Stored>, b: Batch): seq<Entry>
    requires b.after <= |s|
  {
    b.entries[Overlap(s, b)..]
  }

  /** Why a batch is refused before its size is looked at. */
  function Refusal(scope: Scope, s: seq<Stored>, b: Batch): Option<Failure> {
    if b.after > |s| || Anchor(scope, s, b.after) != b.afterHash then Some(Gap)
    else if !Agrees(s, b) then Some(Conflict)
    else FaultIn(scope, s, NewPart(s, b))
  }

  // ---------------------------------------------------------------------
  // The archive's invariant
  // ---------------------------------------------------------------------

  /** Every entry obeyed the rules when it was appended. */
  ghost predicate Lawful(s: seq<Stored>) {
    forall i | 0 <= i < |s| ::
      && Fault(s[..i], s[i].entry) == None
      && (s[i].entry.catalog.Some? ==> ValidIndex(s[i].entry.catalog.value))
  }

  lemma AppendedIsChained(scope: Scope, s: seq<Stored>, e: Entry)
    requires Chained(scope, s) && e.sequence == |s| + 1
    ensures Chained(scope, Appended(scope, s, e))
  {
    var t := Appended(scope, s, e);
    forall i | 0 <= i < |t| ensures LinkedAt(scope, t, i) {
      assert i < |s| ==> LinkedAt(scope, s, i);
    }
  }

  lemma {:induction false} ExtendedIsChained(scope: Scope, s: seq<Stored>, es: seq<Entry>)
    requires Chained(scope, s)
    requires forall i | 0 <= i < |es| :: es[i].sequence == |s| + i + 1
    ensures |Extended(scope, s, es)| == |s| + |es|
    ensures Chained(scope, Extended(scope, s, es)) && s <= Extended(scope, s, es)
    ensures forall i | 0 <= i < |es| :: Extended(scope, s, es)[|s| + i].entry == es[i]
  {
    if es != [] {
      var n := |es| - 1;
      ExtendedIsChained(scope, s, es[..n]);
      var t := Extended(scope, s, es[..n]);
      AppendedIsChained(scope, t, es[n]);
      forall i | 0 <= i < n ensures Appended(scope, t, es[n])[|s| + i].entry == es[i] {
        assert t[|s| + i].entry == es[..n][i];
      }
    }
  }

  lemma {:induction false} ExtendedIsLawful(scope: Scope, s: seq<Stored>, es: seq<Entry>)
    requires Lawful(s) && FaultIn(scope, s, es) == None
    requires forall i | 0 <= i < |es| :: es[i].catalog.Some? ==> ValidIndex(es[i].catalog.value)
    ensures Lawful(Extended(scope, s, es))
  {
    if es != [] {
      var front, last := es[..|es| - 1], es[|es| - 1];
      ExtendedIsLawful(scope, s, front);
      var t := Extended(scope, s, front);
      var t' := Appended(scope, t, last);
      forall i | 0 <= i < |t'| ensures Fault(t'[..i], t'[i].entry) == None
      {
        assert t'[..i] == t[..i];
        assert i == |t| ==> t[..i] == t;
      }
    }
  }

  /** Equal hashes fix the whole history before them. */
  lemma {:induction false} HashFixesHistory(scope: Scope, a: seq<Stored>, m: nat, scope': Scope, b: seq<Stored>, n: nat)
    requires Chained(scope, a) && Chained(scope', b) && m <= |a| && n <= |b|
    requires Anchor(scope, a, m) == Anchor(scope', b, n)
    ensures scope == scope' && m == n
    ensures forall i | 0 <= i < m :: a[i] == b[i]
  {
    assert m > 0 ==> LinkedAt(scope, a, m - 1);
    assert n > 0 ==> LinkedAt(scope', b, n - 1);
    if m > 0 && n > 0 {
      HashFixesHistory(scope, a, m - 1, scope', b, n - 1);
    }
  }

  /** Two valid archives with the same head hash hold identical entries, from the same genesis. */
  lemma SameHeadSameEntries(scope: Scope, a: seq<Stored>, scope': Scope, b: seq<Stored>)
    requires Chained(scope, a) && Chained(scope', b)
    requires Anchor(scope, a, |a|) == Anchor(scope', b, |b|)
    ensures scope == scope' && a == b
  {
    HashFixesHistory(scope, a, |a|, scope', b, |b|);
  }

  lemma ChainedPrefix(scope: Scope, s: seq<Stored>, n: nat)
    requires Chained(scope, s) && n <= |s|
    ensures Chained(scope, s[..n])
  {
    forall i | 0 <= i < n ensures LinkedAt(scope, s[..n], i) {
      assert LinkedAt(scope, s, i);
    }
  }

  /** A committed contiguous batch, submitted again, is refused for no reason and has nothing new. */
  lemma ResubmissionIsAccepted(scope: Scope, s: seq<Stored>, b: Batch)
    requires Chained(scope, s) && b.after + |b.entries| <= |s|
    requires b.afterHash == Anchor(scope, s, b.after)
    requires forall i | 0 <= i < |b.entries| :: b.entries[i] == s[b.after + i].entry
    ensures Refusal(scope, s, b) == None && NewPart(s, b) == []
  {
  }

  /** What was committed cannot be overwritten: a batch that changes a committed entry conflicts. */
  lemma RewriteConflicts(scope: Scope, s: seq<Stored>, b: Batch, i: nat)
    requires b.after <= |s| && i < |b.entries| && b.after + i < |s| && s[b.after + i].entry != b.entries[i]
    ensures Refusal(scope, s, b) in {Some(Gap), Some(Conflict)}
    ensures b.afterHash == Anchor(scope, s, b.after) ==> Refusal(scope, s, b) == Some(Conflict)
  {
    assert !Agrees(s, b);
  }
}
