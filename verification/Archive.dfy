/** packages/core/src/conversation-archive.ts: the archive of one conversation. */
module Archive {
  import opened Wrappers
  import opened ArchiveState

  /** `ConversationArchiveAppendResult`, without the echoed scope. */
  datatype Receipt = Receipt(throughSequence: nat, headHash: Digest, payloadBytes: nat,
                             committedThrough: int, committedHash: Digest, replayed: bool)

  function TotalBytes(documentBytes: Entry -> nat, s: seq<Stored>): nat {
    if s == [] then 0 else TotalBytes(documentBytes, s[..|s| - 1]) + documentBytes(s[|s| - 1].entry)
  }

  class ConversationArchive {
    const scope: Scope
    /** The length of an entry's JSON document. */
    const documentBytes: Entry -> nat
    /** The length of a stored entry in a page's JSON. */
    const wireBytes: Stored -> nat

    var found: bool
    var lastSeq: nat
    var headHash: Digest
    var payloadBytes: nat
    var indexedParts: nat
    var entries: seq<Stored>
    var parts: seq<PartRow>

    constructor (scope: Scope, documentBytes: Entry -> nat, wireBytes: Stored -> nat)
      requires forall e :: documentBytes(e) > 0
      ensures Valid() && entries == [] && this.scope == scope
      ensures this.documentBytes == documentBytes && this.wireBytes == wireBytes
    {
      this.scope, this.documentBytes, this.wireBytes := scope, documentBytes, wireBytes;
      found, lastSeq, headHash, payloadBytes, indexedParts := false, 0, Genesis(scope), 0, 0;
      entries, parts := [], [];
    }

    ghost predicate Valid()
      reads this
    {
      && (forall e :: documentBytes(e) > 0)
      && Chained(scope, entries) && Lawful(entries)
      && (found <==> entries != []) && lastSeq == |entries| && headHash == Anchor(scope, entries, |entries|)
      && parts == PartsOf(entries) && indexedParts == |parts|
      && payloadBytes == TotalBytes(documentBytes, entries)
    }

    /** Appends a contiguous batch, which may overlap what is committed. `elsewhere`
        is what the tenant stores besides this archive, `space` whether the disk has
        room. One transaction: a refused batch changes nothing. */
    method Append(batch: Batch, maxBytes: int, elsewhere: nat, space: bool) returns (r: Result<Receipt, Failure>)
      requires Valid() && WellFormedBatch(batch)
      modifies this
      ensures Valid()
      ensures var before := old(entries);
              var refusal := Refusal(scope, before, batch);
              if maxBytes <= 0 then r == Err(Capacity)
              else if refusal.Some? then r == Err(refusal.value)
              else
                var after := Extended(scope, before, NewPart(before, batch));
                var added := TotalBytes(documentBytes, after) - TotalBytes(documentBytes, before);
                if added > 0 && (elsewhere + old(payloadBytes) + added > maxBytes || !space) then r == Err(Capacity)
                else
                  && entries == after && r.Ok?
                  && r.value.throughSequence == |after| && r.value.headHash == Anchor(scope, after, |after|)
                  && r.value.payloadBytes == payloadBytes
                  && r.value.committedThrough == batch.after + |batch.entries| <= |after|
                  && r.value.committedHash == Anchor(scope, after, batch.after + |batch.entries|)
                  && r.value.replayed == (after == before)
      ensures r.Err? ==> entries == old(entries)
      ensures old(entries) <= entries
    {
      hide Chained, Lawful, Extended, Refusal, PartsOf, TotalBytes;
      if maxBytes <= 0 { return Err(Capacity); }
      var taken := TakeBatch(scope, documentBytes, entries, parts, batch);
      if taken.Err? { return Err(taken.error); }
      var t := taken.value;
      if t.added > 0 {
        if elsewhere + payloadBytes + t.added > maxBytes || !space { return Err(Capacity); }
        found, lastSeq, headHash, payloadBytes := true, |t.rows|, t.previous, payloadBytes + t.added;
        entries, parts, indexedParts := t.rows, t.index, |t.index|;
      }
      return Ok(Receipt(lastSeq, headHash, payloadBytes, batch.entries[|batch.entries| - 1].sequence, t.previous,
                        t.added == 0));
    }

    /** `read`: one page of a range, bounded by `limit` entries and the wire budget. */
    method Read(after: nat, afterHash: Option<Digest>, through: Option<nat>, limit: nat, envelope: nat)
      returns (r: Result<Page, Failure>)
      requires Valid() && 1 <= limit <= READ_RECORDS
      ensures var upper := through.GetOr(lastSeq);
              if !found then r == Err(NotFound)
              else if after > upper || upper > lastSeq then r == Err(Gap)
              else if afterHash.Some? && afterHash.value != Anchor(scope, entries, after) then r == Err(Conflict)
              else if after < upper && envelope + wireBytes(entries[after]) > WIRE_BYTES then r == Err(Capacity)
              else
                && r.Ok? && after + |r.value.entries| <= upper
                && r.value.entries == entries[after..after + |r.value.entries|]
                && r.value.afterHash == Anchor(scope, entries, after)
                   && r.value.headHash == Anchor(scope, entries, upper)
                && r.value.next == (if after + |r.value.entries| < upper then Some(after + |r.value.entries|) else None)
                && |r.value.entries| <= limit
                && (r.value.entries != [] ==> PageBytes(wireBytes, envelope, r.value.entries) <= WIRE_BYTES)
                && (after < upper ==> r.value.entries != [])
                // A page ends early only because nothing more fits.
                && (r.value.next.Some? && |r.value.entries| < limit ==>
                      PageBytes(wireBytes, envelope, entries[after..r.value.next.value + 1]) > WIRE_BYTES)
    {
      hide Chained, Lawful, PageBytes;
      if !found { return Err(NotFound); }
      var upper := through.GetOr(lastSeq);
      if after > upper || upper > lastSeq { return Err(Gap); }
      var initialHash := Anchor(scope, entries, after);
      if afterHash.Some? && afterHash.value != initialHash { return Err(Conflict); }
      var page := TakePage(wireBytes, envelope, entries, after, upper, limit);
      var position := after + |page|;
      if position < upper && page == [] { return Err(Capacity); }
      return Ok(Page(initialHash, Anchor(scope, entries, upper), page,
                     if position < upper then Some(position) else None));
    }
  }

  // ---------------------------------------------------------------------
  // Reading
  // ---------------------------------------------------------------------

  const WIRE_BYTES := 4 * 1024 * 1024
  const READ_RECORDS := 100

  datatype Page = Page(afterHash: Digest, headHash: Digest, entries: seq<Stored>, next: Option<nat>)

  /** The size of a page with these entries: an envelope, the entries and the commas between them. */
  function PageBytes(wireBytes: Stored -> nat, envelope: nat, es: seq<Stored>): nat {
    if es == [] then envelope
    else PageBytes(wireBytes, envelope, es[..|es| - 1]) + wireBytes(es[|es| - 1]) + (if |es| > 1 then 1 else 0)
  }

  /** The loop of `read`: as many entries as the limit and the wire budget allow. */
  method TakePage(wireBytes: Stored -> nat, envelope: nat, s: seq<Stored>, after: nat, upper: nat, limit: nat)
    returns (page: seq<Stored>)
    requires after <= upper <= |s|
    ensures after + |page| <= upper && |page| <= limit && page == s[after..after + |page|]
    ensures page != [] ==> PageBytes(wireBytes, envelope, page) <= WIRE_BYTES
    ensures after < upper && limit > 0 ==> (page != [] <==> envelope + wireBytes(s[after]) <= WIRE_BYTES)
    ensures after + |page| < upper && |page| < limit ==>
              PageBytes(wireBytes, envelope, s[after..after + |page| + 1]) > WIRE_BYTES
  {
    var pageBytes, position := envelope, after;
    page := [];
    while position < upper && |page| < limit
      invariant after <= position <= upper && page == s[after..position] && |page| <= limit
      invariant pageBytes == PageBytes(wireBytes, envelope, page)
      invariant page != [] ==> pageBytes <= WIRE_BYTES && envelope + wireBytes(s[after]) <= WIRE_BYTES
    {
      var entry := s[position];
      var recordBytes := wireBytes(entry) + (if page != [] then 1 else 0);
      assert s[after..position + 1] == page + [entry] && (page + [entry])[..|page|] == page;
      if pageBytes + recordBytes > WIRE_BYTES { break; }
      page, position, pageBytes := page + [entry], position + 1, pageBytes + recordBytes;
    }
  }

  datatype Taking = Taking(rows: seq<Stored>, index: seq<PartRow>, previous: Digest, added: nat)

  /** The loop of `append`, on the rows its transaction sees. */
  method TakeBatch(scope: Scope, documentBytes: Entry -> nat, s: seq<Stored>, parts: seq<PartRow>, batch: Batch)
    returns (r: Result<Taking, Failure>)
    requires WellFormedBatch(batch) && Chained(scope, s) && Lawful(s) && parts == PartsOf(s)
    requires forall e :: documentBytes(e) > 0
    ensures r.Err? <==> Refusal(scope, s, batch).Some?
    ensures r.Err? ==> Some(r.error) == Refusal(scope, s, batch)
    ensures r.Ok? ==>
              var after := Extended(scope, s, NewPart(s, batch));
              && r.value.rows == after && r.value.index == PartsOf(after) && s <= after
              && Chained(scope, after) && Lawful(after)
              && batch.after + |batch.entries| <= |after|
              && r.value.previous == Anchor(scope, after, batch.after + |batch.entries|)
              && r.value.added == TotalBytes(documentBytes, after) - TotalBytes(documentBytes, s)
              && (r.value.added > 0 ==> after != [] && batch.after + |batch.entries| == |after|)
              && (r.value.added == 0 <==> after == s)
  {
    hide Chained, Lawful, Taken, Extended, FaultIn, Agrees, PartsOf, TotalBytes, GroupRule, RecordKnown, OrderClash,
         PartOf;
    if batch.after > |s| || Anchor(scope, s, batch.after) != batch.afterHash { return Err(Gap); }
    var rows, index, previous, added := s, parts, batch.afterHash, 0;
    TakenNothing(scope, s, batch);
    for i := 0 to |batch.entries|
      invariant Taken(scope, s, batch, i, rows, previous)
      invariant index == PartsOf(rows)
      invariant added == TotalBytes(documentBytes, rows) - TotalBytes(documentBytes, s)
      invariant if i <= Overlap(s, batch) then added == 0 && rows == s else added > 0
    {
      var entry := batch.entries[i];
      var digest := Link(previous, entry);
      if entry.sequence <= |rows| {
        OverlappingEntry(scope, s, batch, i, rows, previous);
        var prior := rows[entry.sequence - 1];
        if prior.hash != digest || prior.previousHash != previous || prior.entry.recordId != entry.recordId {
          return Err(Conflict);
        }
      } else {
        // Contiguity makes this the next sequence, so the source's check for a jump never fails.
        NewEntry(scope, s, batch, i, rows, previous);
        if !GroupRule(LastIndex(rows), entry.catalog, entry.sequence) { return Err(Gap); }
        if RecordKnown(rows, entry.recordId) { return Err(Conflict); }
        if OrderClash(index, entry.catalog) { return Err(Conflict); }
        added := added + documentBytes(entry);
        PartsGrow(documentBytes, rows, Stored(entry, previous, digest));
        rows := rows + [Stored(entry, previous, digest)];
        if entry.catalog.Some? {
          index := index + [PartOf(index, entry.catalog.value, entry.sequence)];
        }
      }
      previous := digest;
    }
    TakenAll(scope, s, batch, rows, previous);
    return Ok(Taking(rows, index, previous, added));
  }

  // ---------------------------------------------------------------------
  // The loop of `append`
  // ---------------------------------------------------------------------

  /** The first `i` entries of the batch were taken: compared with what is
      committed or appended to it. */
  ghost predicate Taken(scope: Scope, s: seq<Stored>, b: Batch, i: nat, rows: seq<Stored>, previous: Digest) {
    && b.after <= |s| && i <= |b.entries|
    && (if i <= Overlap(s, b) then
          && rows == s && previous == Anchor(scope, s, b.after + i)
          && forall j | 0 <= j < i :: s[b.after + j].entry == b.entries[j]
        else
          && Agrees(s, b)
          && rows == Extended(scope, s, b.entries[Overlap(s, b)..i])
          && FaultIn(scope, s, b.entries[Overlap(s, b)..i]) == None
          && Chained(scope, rows) && s <= rows && |rows| == b.after + i
          && previous == Anchor(scope, rows, |rows|))
  }

  lemma TakenNothing(scope: Scope, s: seq<Stored>, b: Batch)
    requires b.after <= |s| && b.afterHash == Anchor(scope, s, b.after)
    ensures Taken(scope, s, b, 0, s, b.afterHash)
  {
  }

  /** An entry the archive has: it is the committed one exactly when the hashes agree. */
  lemma OverlappingEntry(scope: Scope, s: seq<Stored>, b: Batch, i: nat, rows: seq<Stored>, previous: Digest)
    requires WellFormedBatch(b) && Chained(scope, s) && i < |b.entries| && Taken(scope, s, b, i, rows, previous)
    requires b.after + i + 1 <= |rows|
    ensures i < Overlap(s, b) && rows == s && rows[b.after + i].previousHash == previous
    ensures rows[b.after + i].hash == Link(previous, b.entries[i]) <==> s[b.after + i].entry == b.entries[i]
    ensures s[b.after + i].entry == b.entries[i] ==> Taken(scope, s, b, i + 1, rows, Link(previous, b.entries[i]))
    ensures s[b.after + i].entry != b.entries[i] ==> Refusal(scope, s, b) in {Some(Conflict), Some(Gap)}
    ensures s[b.after + i].entry != b.entries[i] && b.afterHash == Anchor(scope, s, b.after) ==>
              Refusal(scope, s, b) == Some(Conflict)
  {
    assert LinkedAt(scope, s, b.after + i);
    if s[b.after + i].entry != b.entries[i] { RewriteConflicts(scope, s, b, i); }
  }

  /** An entry beyond what is committed. */
  lemma NewEntry(scope: Scope, s: seq<Stored>, b: Batch, i: nat, rows: seq<Stored>, previous: Digest)
    requires WellFormedBatch(b) && Chained(scope, s) && i < |b.entries| && Taken(scope, s, b, i, rows, previous)
    requires b.afterHash == Anchor(scope, s, b.after) && b.after + i + 1 > |rows|
    ensures i >= Overlap(s, b) && b.entries[i].sequence == |rows| + 1 && previous == Anchor(scope, rows, |rows|)
    ensures var f := Fault(rows, b.entries[i]);
            if f.Some? then Refusal(scope, s, b) == f
            else Taken(scope, s, b, i + 1, Appended(scope, rows, b.entries[i]), Link(previous, b.entries[i]))
    ensures Appended(scope, rows, b.entries[i]) == rows + [Stored(b.entries[i], previous, Link(previous, b.entries[i]))]
  {
    var k, e := Overlap(s, b), b.entries[i];
    if i == k { assert b.entries[k..i] == []; }
    if Fault(rows, e).Some? {
      assert b.entries[k..][..i - k] == b.entries[k..i];
      FirstFaultStays(scope, s, b.entries[k..], i - k);
    } else {
      NewEntryTaken(scope, s, b, i, rows, previous);
    }
  }

  lemma NewEntryTaken(scope: Scope, s: seq<Stored>, b: Batch, i: nat, rows: seq<Stored>, previous: Digest)
    requires WellFormedBatch(b) && b.after <= |s| && Overlap(s, b) <= i < |b.entries| && Agrees(s, b)
    requires var es := b.entries[Overlap(s, b)..i]; rows == Extended(scope, s, es) && FaultIn(scope, s, es) == None
    requires Chained(scope, rows) && s <= rows && |rows| == b.after + i && previous == Anchor(scope, rows, |rows|)
    requires Fault(rows, b.entries[i]) == None
    ensures Taken(scope, s, b, i + 1, Appended(scope, rows, b.entries[i]), Link(previous, b.entries[i]))
  {
    hide Fault, Chained;
    var k, e := Overlap(s, b), b.entries[i];
    assert b.entries[k..i + 1][..i - k] == b.entries[k..i];
    AppendedIsChained(scope, rows, e);
  }

  lemma {:induction false} FirstFaultStays(scope: Scope, s: seq<Stored>, es: seq<Entry>, i: nat)
    requires i < |es| && FaultIn(scope, s, es[..i]) == None && Fault(Extended(scope, s, es[..i]), es[i]).Some?
    ensures FaultIn(scope, s, es) == Fault(Extended(scope, s, es[..i]), es[i])
    decreases |es|
  {
    if |es| > i + 1 {
      var front := es[..|es| - 1];
      assert front[..i] == es[..i];
      FirstFaultStays(scope, s, front, i);
    }
  }

  lemma LinksToPrevious(scope: Scope, s: seq<Stored>, i: nat)
    requires Chained(scope, s) && i < |s|
    ensures s[i].previousHash == Anchor(scope, s, i)
  {
    assert LinkedAt(scope, s, i);
  }

  lemma PartsGrow(bytes: Entry -> nat, s: seq<Stored>, e: Stored)
    ensures PartsOf(s + [e]) == if e.entry.catalog.None? then PartsOf(s)
                                else PartsOf(s) + [PartOf(PartsOf(s), e.entry.catalog.value, e.entry.sequence)]
    ensures TotalBytes(bytes, s + [e]) == TotalBytes(bytes, s) + bytes(e.entry)
  {
    assert (s + [e])[..|s|] == s;
  }

  lemma TakenAll(scope: Scope, s: seq<Stored>, b: Batch, rows: seq<Stored>, previous: Digest)
    requires WellFormedBatch(b) && Chained(scope, s) && Lawful(s)
    requires Taken(scope, s, b, |b.entries|, rows, previous) && b.afterHash == Anchor(scope, s, b.after)
    ensures Refusal(scope, s, b) == None && rows == Extended(scope, s, NewPart(s, b))
    ensures Chained(scope, rows) && Lawful(rows) && s <= rows && b.after + |b.entries| <= |rows|
    ensures previous == Anchor(scope, rows, b.after + |b.entries|)
    ensures Overlap(s, b) < |b.entries| ==> |rows| > |s| && |rows| == b.after + |b.entries|
    ensures Overlap(s, b) == |b.entries| ==> rows == s
  {
    var k := Overlap(s, b);
    assert b.entries[k..|b.entries|] == NewPart(s, b);
    ExtendedIsLawful(scope, s, NewPart(s, b));
  }

  // ---------------------------------------------------------------------
  // Reading a whole range
  // ---------------------------------------------------------------------

  datatype Submission = Submission(batch: Batch, maxBytes: int, elsewhere: nat, space: bool)

  /** One page of a pinned range: never empty, and a slice of what was there when it was pinned. */
  method ReadPinned(archive: ConversationArchive, ghost s: seq<Stored>, position: nat, seen: Digest, through: nat,
                    limit: nat, envelope: nat)
    returns (page: seq<Stored>)
    requires archive.Valid() && 1 <= limit <= READ_RECORDS && s <= archive.entries
    requires position < through <= |s| && seen == Anchor(archive.scope, s, position)
    requires envelope + archive.wireBytes(s[position]) <= WIRE_BYTES
    ensures page != [] && position + |page| <= through && page == s[position..position + |page|]
    ensures page[|page| - 1].hash == Anchor(archive.scope, s, position + |page|)
  {
    hide Chained, Lawful, PageBytes, PartsOf, TotalBytes;
    var r := archive.Read(position, Some(seen), Some(through), limit, envelope);
    page := r.value.entries;
    assert page[|page| - 1] == s[position + |page| - 1];
  }

  /** Entries linked one to the next, the first to `start`. */
  ghost predicate LinkedFrom(start: Digest, all: seq<Stored>) {
    forall i | 0 <= i < |all| :: all[i].previousHash == HashBefore(start, all, i)
  }

  function HashBefore(start: Digest, all: seq<Stored>, i: nat): Digest
    requires i <= |all|
  {
    if i == 0 then start else all[i - 1].hash
  }

  lemma RangeIsLinked(scope: Scope, s: seq<Stored>, after: nat, all: seq<Stored>)
    requires Chained(scope, s) && after + |all| <= |s| && all == s[after..after + |all|]
    ensures LinkedFrom(Anchor(scope, s, after), all)
  {
    hide Chained;
    forall i | 0 <= i < |all| ensures all[i].previousHash == HashBefore(Anchor(scope, s, after), all, i) {
      LinksToPrevious(scope, s, after + i);
      assert i > 0 ==> all[i - 1] == s[after + (i - 1)];
    }
  }

  lemma SliceExtends(s: seq<Stored>, after: nat, position: nat, n: nat)
    requires after <= position && position + n <= |s|
    ensures s[after..position] + s[position..position + n] == s[after..position + n]
  {
  }

  /** A page, and then perhaps a writer's batch. */
  method ReadThenWrite(archive: ConversationArchive, ghost s: seq<Stored>, position: nat, seen: Digest, through: nat,
                       limit: nat, envelope: nat, writer: Option<Submission>)
    returns (page: seq<Stored>)
    requires archive.Valid() && 1 <= limit <= READ_RECORDS && s <= archive.entries
    requires position < through <= |s| && seen == Anchor(archive.scope, s, position)
    requires envelope + archive.wireBytes(s[position]) <= WIRE_BYTES
    requires writer.Some? ==> WellFormedBatch(writer.value.batch)
    modifies archive
    ensures archive.Valid() && s <= archive.entries
    ensures page != [] && position + |page| <= through && page == s[position..position + |page|]
    ensures page[|page| - 1].hash == Anchor(archive.scope, s, position + |page|)
  {
    hide Chained, Lawful, PageBytes, Refusal, Extended, PartsOf, TotalBytes, NewPart;
    page := ReadPinned(archive, s, position, seen, through, limit, envelope);
    if writer.Some? {
      var w := writer.value;
      var receipt := archive.Append(w.batch, w.maxBytes, w.elsewhere, w.space);
    }
  }

  /** Each entry of the range fits into a page of its own. */
  ghost predicate EachFits(wireBytes: Stored -> nat, envelope: nat -> nat, s: seq<Stored>, after: nat, through: nat) {
    through <= |s| && forall i | after <= i < through :: envelope(i) + wireBytes(s[i]) <= WIRE_BYTES
  }

  lemma FitsAt(wireBytes: Stored -> nat, envelope: nat -> nat, s: seq<Stored>, after: nat, through: nat, i: nat)
    requires EachFits(wireBytes, envelope, s, after, through) && after <= i < through
    ensures i < |s| && envelope(i) + wireBytes(s[i]) <= WIRE_BYTES
  {
  }

  /** A reader follows `nextAfterSequence` with a pinned `throughSequence` while
      writers append between any two pages. It always gets on, and the pages make
      up exactly the range it asked for, linked from the hash it started at.
      `envelope(i)` is what the page behind entry `i` costs without its entries. */
  method ReadRange(archive: ConversationArchive, after: nat, through: nat, limit: nat, envelope: nat -> nat,
                   writers: seq<Submission>)
    returns (all: seq<Stored>, pages: nat)
    requires archive.Valid() && 1 <= limit <= READ_RECORDS && after <= through <= archive.lastSeq
    requires forall w | w in writers :: WellFormedBatch(w.batch)
    requires EachFits(archive.wireBytes, envelope, archive.entries, after, through)
    modifies archive
    ensures archive.Valid() && old(archive.entries) <= archive.entries
    ensures all == old(archive.entries)[after..through]
    ensures pages <= through - after && (after < through ==> pages > 0)
    ensures LinkedFrom(Anchor(archive.scope, old(archive.entries), after), all)
  {
    hide Chained, Lawful, PageBytes, Refusal, Extended, PartsOf, TotalBytes, NewPart, EachFits, WellFormedBatch,
         LinkedFrom;
    ghost var s := archive.entries;
    assert Chained(archive.scope, s) && |s| == archive.lastSeq;
    var position, seen := after, Anchor(archive.scope, archive.entries, after);
    all, pages := [], 0;
    while position < through
      invariant archive.Valid() && s <= archive.entries && after <= position <= through
      invariant all == s[after..position] && pages <= position - after && (position > after ==> pages > 0)
      invariant seen == Anchor(archive.scope, s, position)
      decreases through - position
    {
      FitsAt(archive.wireBytes, envelope, s, after, through, position);
      var writer := if pages < |writers| then Some(writers[pages]) else None;
      var page := ReadThenWrite(archive, s, position, seen, through, limit, envelope(position), writer);
      SliceExtends(s, after, position, |page|);
      all, pages, seen := all + page, pages + 1, page[|page| - 1].hash;
      position := position + |page|;
    }
    RangeIsLinked(archive.scope, s, after, all);
  }
}
