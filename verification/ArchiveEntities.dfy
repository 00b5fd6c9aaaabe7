/** packages/core/src/conversation-archive.ts, `entities`: the entity versions
    that the catalog entries of an archive describe. */
module ArchiveEntities {
  import opened Wrappers
  import opened ArchiveState
  import opened Archive

  function CatalogAt(s: seq<Stored>, i: nat): Option<Index>
    requires i < |s|
  {
    s[i].entry.catalog
  }

  /** All entries of one entity version agree on its parts, order and deletion. */
  ghost predicate GroupsAgree(s: seq<Stored>) {
    forall i, j | 0 <= i < |s| && 0 <= j < |s| :: AgreeAt(CatalogAt(s, i), CatalogAt(s, j))
  }

  predicate AgreeAt(a: Option<Index>, b: Option<Index>) {
    a.Some? && b.Some? && SameGroup(a.value, b.value) ==>
      a.value.parts == b.value.parts && a.value.order == b.value.order && a.value.deleted == b.value.deleted
  }

  /** A part after the first continues an unfinished version. */
  predicate ContinuesUnfinished(s: seq<Stored>, i: nat)
    requires i < |s|
  {
    CatalogAt(s, i).Some? && CatalogAt(s, i).value.part > 1 ==> i > 0 && Unfinished(CatalogAt(s, i - 1))
  }

  ghost predicate WellGrouped(s: seq<Stored>) {
    forall i | 0 <= i < |s| :: ContinuesUnfinished(s, i)
  }

  lemma SequenceAt(scope: Scope, s: seq<Stored>, i: nat)
    requires Chained(scope, s) && i < |s|
    ensures s[i].entry.sequence == i + 1
  {
    assert LinkedAt(scope, s, i);
  }

  /** What `append` checked of entry `i`. */
  lemma RuleAt(scope: Scope, s: seq<Stored>, i: nat)
    requires Chained(scope, s) && Lawful(s) && i < |s|
    ensures GroupRule(if i == 0 then None else CatalogAt(s, i - 1), CatalogAt(s, i), i + 1)
    ensures CatalogAt(s, i).Some? ==> ValidIndex(CatalogAt(s, i).value)
  {
    assert LinkedAt(scope, s, i);
    assert Fault(s[..i], s[i].entry) == None;
    assert i > 0 ==> s[..i][i - 1] == s[i - 1];
  }

  /** The parts before a part of a version are its earlier parts, in place. */
  lemma {:induction false} EarlierParts(scope: Scope, s: seq<Stored>, i: nat, q: nat)
    requires Chained(scope, s) && Lawful(s) && WellGrouped(s) && i < |s| && CatalogAt(s, i).Some?
    requires 1 <= q <= CatalogAt(s, i).value.part
    ensures var x := CatalogAt(s, i).value;
            0 <= x.version - 2 + q < |s| && CatalogAt(s, x.version - 2 + q) == Some(x.(part := q))
    decreases CatalogAt(s, i).value.part - q
  {
    hide Chained, Lawful;
    var x := CatalogAt(s, i).value;
    RuleAt(scope, s, i);
    if q < x.part {
      EarlierParts(scope, s, i, q + 1);
      var j := x.version - 1 + q;
      RuleAt(scope, s, j);
      assert ContinuesUnfinished(s, j);
    }
  }

  /** The parts after a part of a version are its later parts, as far as the archive goes. */
  lemma {:induction false} LaterParts(scope: Scope, s: seq<Stored>, i: nat, q: nat)
    requires Chained(scope, s) && Lawful(s) && i < |s| && CatalogAt(s, i).Some?
    requires CatalogAt(s, i).value.part <= q <= CatalogAt(s, i).value.parts
    requires 0 <= CatalogAt(s, i).value.version - 2 + q < |s|
    ensures var x := CatalogAt(s, i).value; CatalogAt(s, x.version - 2 + q) == Some(x.(part := q))
    decreases q
  {
    hide Chained, Lawful;
    var x := CatalogAt(s, i).value;
    RuleAt(scope, s, i);
    if q > x.part {
      LaterParts(scope, s, i, q - 1);
      RuleAt(scope, s, x.version - 2 + q);
    }
  }

  /** A version occupies the sequences from its number on, one for each part, with
      equal parts, order and deletion; only the archive's last version may lack
      parts. */
  lemma VersionOccupies(scope: Scope, s: seq<Stored>, i: nat)
    requires Chained(scope, s) && Lawful(s) && WellGrouped(s) && i < |s| && CatalogAt(s, i).Some?
    ensures var x := CatalogAt(s, i).value;
            && 1 <= x.version <= i + 1
            && (forall j | 0 <= j < |s| ::
                  (CatalogAt(s, j).Some? && SameGroup(CatalogAt(s, j).value, x))
                      <==> x.version - 1 <= j < x.version - 1 + x.parts)
            && (forall j | 0 <= j < |s| && x.version - 1 <= j < x.version - 1 + x.parts ::
                  CatalogAt(s, j) == Some(x.(part := j - x.version + 2)))
            && (x.version - 1 + x.parts > |s| ==>
                  LastIndex(s).Some? && SameGroup(LastIndex(s).value, x) && Unfinished(LastIndex(s)))
  {
    hide Chained, Lawful;
    var x := CatalogAt(s, i).value;
    RuleAt(scope, s, i);
    EarlierParts(scope, s, i, 1);
    forall j | 0 <= j < |s| && x.version - 1 <= j < x.version - 1 + x.parts
      ensures CatalogAt(s, j) == Some(x.(part := j - x.version + 2))
    {
      PartInPlace(scope, s, i, j - x.version + 2);
    }
    if x.version - 1 + x.parts > |s| {
      assert CatalogAt(s, |s| - 1) == Some(x.(part := |s| - x.version + 1));
    }
    forall j | 0 <= j < |s| && CatalogAt(s, j).Some? && SameGroup(CatalogAt(s, j).value, x)
      ensures x.version - 1 <= j < x.version - 1 + x.parts
    {
      RuleAt(scope, s, j);
      EarlierParts(scope, s, j, 1);
    }
  }

  lemma PartInPlace(scope: Scope, s: seq<Stored>, i: nat, q: nat)
    requires Chained(scope, s) && Lawful(s) && WellGrouped(s) && i < |s| && CatalogAt(s, i).Some?
    requires 1 <= q <= CatalogAt(s, i).value.parts && CatalogAt(s, i).value.version - 2 + q < |s|
    ensures var x := CatalogAt(s, i).value;
            0 <= x.version - 2 + q && CatalogAt(s, x.version - 2 + q) == Some(x.(part := q))
  {
    hide Chained, Lawful;
    RuleAt(scope, s, i);
    EarlierParts(scope, s, i, 1);
    if q <= CatalogAt(s, i).value.part {
      EarlierParts(scope, s, i, q);
    } else {
      LaterParts(scope, s, i, q);
    }
  }

  // ---------------------------------------------------------------------
  // What `append` does not check
  // ---------------------------------------------------------------------

  /** `append` accepts a further part after a version is complete. The parts of a
      version agree exactly when that never happened. */
  lemma GroupsAgreeIff(scope: Scope, s: seq<Stored>)
    requires Chained(scope, s) && Lawful(s)
    ensures GroupsAgree(s) <==> WellGrouped(s)
  {
    hide Chained, Lawful;
    if GroupsAgree(s) {
      forall i | 0 <= i < |s| ensures ContinuesUnfinished(s, i) {
        RuleAt(scope, s, i);
        if i > 0 {
          RuleAt(scope, s, i - 1);
          assert AgreeAt(CatalogAt(s, i), CatalogAt(s, i - 1));
        }
      }
    }
    if WellGrouped(s) {
      forall i, j | 0 <= i < |s| && 0 <= j < |s| ensures AgreeAt(CatalogAt(s, i), CatalogAt(s, j)) {
        if CatalogAt(s, i).Some? && CatalogAt(s, j).Some? && SameGroup(CatalogAt(s, i).value, CatalogAt(s, j).value) {
          RuleAt(scope, s, i);
          RuleAt(scope, s, j);
          EarlierParts(scope, s, i, 1);
          EarlierParts(scope, s, j, 1);
        }
      }
    }
  }

  /** One accepted entry keeps the versions consistent exactly when it is not a
      further part of a version that is already complete. */
  lemma AcceptedKeepsGroupsIff(scope: Scope, s: seq<Stored>, e: Entry)
    requires Chained(scope, s) && Lawful(s) && WellGrouped(s)
    ensures WellGrouped(Appended(scope, s, e)) <==>
            (e.catalog.Some? && e.catalog.value.part > 1 ==> Unfinished(LastIndex(s)))
  {
    var t := Appended(scope, s, e);
    forall i | 0 <= i < |s| ensures ContinuesUnfinished(t, i) {
      assert ContinuesUnfinished(s, i);
    }
    assert WellGrouped(t) <==> ContinuesUnfinished(t, |s|);
  }

  /** Every further part among the new entries continues an unfinished version. */
  predicate BatchContinues(s: seq<Stored>, es: seq<Entry>) {
    forall i | 0 <= i < |es| :: EntryContinues(s, es, i)
  }

  predicate EntryContinues(s: seq<Stored>, es: seq<Entry>, i: nat)
    requires i < |es|
  {
    es[i].catalog.Some? && es[i].catalog.value.part > 1 ==>
      Unfinished(if i == 0 then LastIndex(s) else es[i - 1].catalog)
  }

  /** The same for a whole batch. */
  lemma {:induction false} BatchKeepsGroupsIff(scope: Scope, s: seq<Stored>, es: seq<Entry>)
    requires Chained(scope, s) && Lawful(s) && WellGrouped(s) && FaultIn(scope, s, es) == None
    requires forall i | 0 <= i < |es| ::
               es[i].sequence == |s| + i + 1 && (es[i].catalog.Some? ==> ValidIndex(es[i].catalog.value))
    ensures WellGrouped(Extended(scope, s, es)) <==> BatchContinues(s, es)
  {
    if es != [] {
      var n := |es| - 1;
      var t := Extended(scope, s, es[..n]);
      BatchKeepsGroupsIff(scope, s, es[..n]);
      ExtendedIsChained(scope, s, es[..n]);
      ExtendedIsLawful(scope, s, es[..n]);
      assert LastIndex(t) == if n == 0 then LastIndex(s) else es[n - 1].catalog by {
        if n > 0 { assert t[|s| + (n - 1)].entry == es[n - 1]; }
      }
      ContinuesByOne(s, es);
      if WellGrouped(t) {
        AcceptedKeepsGroupsIff(scope, t, es[n]);
      } else {
        BrokenStaysBroken(t, Appended(scope, t, es[n]));
      }
    }
  }

  lemma ContinuesByOne(s: seq<Stored>, es: seq<Entry>)
    requires es != []
    ensures BatchContinues(s, es) <==> BatchContinues(s, es[..|es| - 1]) && EntryContinues(s, es, |es| - 1)
  {
    var n := |es| - 1;
    forall i | 0 <= i < n ensures EntryContinues(s, es[..n], i) <==> EntryContinues(s, es, i) {
    }
    hide EntryContinues;
  }

  lemma BrokenStaysBroken(s: seq<Stored>, t: seq<Stored>)
    requires !WellGrouped(s) && s <= t
    ensures !WellGrouped(t)
  {
    var i :| 0 <= i < |s| && !ContinuesUnfinished(s, i);
    assert !ContinuesUnfinished(t, i);
  }

  /** A batch was accepted as a whole, or changed nothing. */
  ghost predicate Submitted(scope: Scope, s: seq<Stored>, b: Batch, s': seq<Stored>) {
    s' == s || (Refusal(scope, s, b) == None && s' == Extended(scope, s, NewPart(s, b)))
  }

  /** If the batch added anything to `s`, it continued only unfinished versions. */
  predicate Continued(s: seq<Stored>, b: Batch, s': seq<Stored>) {
    s' != s ==> b.after <= |s| && BatchContinues(s, NewPart(s, b))
  }

  lemma SubmittedKeepsGroupsIff(scope: Scope, s: seq<Stored>, b: Batch, s': seq<Stored>)
    requires Chained(scope, s) && Lawful(s) && WellFormedBatch(b) && Submitted(scope, s, b, s')
    ensures s <= s'
    ensures WellGrouped(s') <==> WellGrouped(s) && Continued(s, b, s')
  {
    hide Chained, Lawful;
    if s' != s {
      var es := NewPart(s, b);
      assert es != [];
      assert b.after + Overlap(s, b) == |s|;
      forall i | 0 <= i < |es|
        ensures es[i].sequence == |s| + i + 1 && (es[i].catalog.Some? ==> ValidIndex(es[i].catalog.value))
      {
        assert es[i] == b.entries[Overlap(s, b) + i];
      }
      ExtendedIsChained(scope, s, es);
      hide WellGrouped, Extended;
      if WellGrouped(s) { BatchKeepsGroupsIff(scope, s, es); } else { BrokenStaysBroken(s, s'); }
    }
  }

  /** The entries before and after each of the first submissions, and whether their versions are consistent. */
  ghost predicate Recorded(scope: Scope, submissions: seq<Submission>, states: seq<seq<Stored>>) {
    && 0 < |states| <= |submissions| + 1
    && (forall i | 0 <= i < |states| - 1 :: Submitted(scope, states[i], submissions[i].batch, states[i + 1]))
    && (WellGrouped(states[|states| - 1]) <==>
          forall i | 0 <= i < |states| - 1 :: Continued(states[i], submissions[i].batch, states[i + 1]))
  }

  lemma OneMoreRecorded(scope: Scope, submissions: seq<Submission>, states: seq<seq<Stored>>, s': seq<Stored>)
    requires Recorded(scope, submissions, states) && |states| <= |submissions|
    requires var s, b := states[|states| - 1], submissions[|states| - 1].batch;
             Submitted(scope, s, b, s') && (WellGrouped(s') <==> WellGrouped(s) && Continued(s, b, s'))
    ensures Recorded(scope, submissions, states + [s'])
  {
    hide Submitted, Continued, WellGrouped;
    var n, states' := |states| - 1, states + [s'];
    forall i | 0 <= i < n
      ensures Submitted(scope, states'[i], submissions[i].batch, states'[i + 1])
      ensures Continued(states'[i], submissions[i].batch, states'[i + 1])
              <==> Continued(states[i], submissions[i].batch, states[i + 1])
    {
      assert states'[i] == states[i] && states'[i + 1] == states[i + 1];
    }
    assert states'[n] == states[n] && states'[n + 1] == s';
  }

  /** Over any run of submissions, overlapping, refused or accepted: the versions of a sound
      archive stay consistent exactly if no accepted batch added a further part to a version
      that was complete. `states` are the archive's entries before and after each. */
  method SubmitAll(archive: ConversationArchive, submissions: seq<Submission>) returns (ghost states: seq<seq<Stored>>)
    requires archive.Valid() && WellGrouped(archive.entries)
    requires forall w | w in submissions :: WellFormedBatch(w.batch)
    modifies archive
    ensures archive.Valid()
    ensures |states| == |submissions| + 1 && states[0] == old(archive.entries)
            && states[|submissions|] == archive.entries
    ensures forall i | 0 <= i < |submissions| ::
              Submitted(archive.scope, states[i], submissions[i].batch, states[i + 1])
    ensures WellGrouped(archive.entries) <==>
            forall i | 0 <= i < |submissions| :: Continued(states[i], submissions[i].batch, states[i + 1])
  {
    hide Chained, Lawful, WellGrouped, Refusal, Extended, NewPart, Continued, PartsOf, TotalBytes, Recorded;
    states := [archive.entries];
    NothingRecorded(archive.scope, submissions, archive.entries);
    for i := 0 to |submissions|
      invariant archive.Valid() && |states| == i + 1
      invariant states[0] == old(archive.entries) && states[i] == archive.entries
      invariant Recorded(archive.scope, submissions, states)
    {
      var w := submissions[i];
      assert w in submissions;
      ghost var s := archive.entries;
      var receipt := archive.Append(w.batch, w.maxBytes, w.elsewhere, w.space);
      SubmittedKeepsGroupsIff(archive.scope, s, w.batch, archive.entries);
      OneMoreRecorded(archive.scope, submissions, states, archive.entries);
      states := states + [archive.entries];
    }
    RecordTells(archive.scope, submissions, states);
  }

  lemma NothingRecorded(scope: Scope, submissions: seq<Submission>, s: seq<Stored>)
    requires WellGrouped(s)
    ensures Recorded(scope, submissions, [s])
  {
  }

  lemma RecordTells(scope: Scope, submissions: seq<Submission>, states: seq<seq<Stored>>)
    requires Recorded(scope, submissions, states) && |states| == |submissions| + 1
    ensures forall i | 0 <= i < |submissions| :: Submitted(scope, states[i], submissions[i].batch, states[i + 1])
    ensures WellGrouped(states[|submissions|]) <==>
            forall i | 0 <= i < |submissions| :: Continued(states[i], submissions[i].batch, states[i + 1])
  {
    hide Submitted, Continued, WellGrouped;
  }

  /** A complete version of one part, and then a second part of it: both are
      accepted, and from then on the collection's query fails. */
  lemma CompleteVersionExtended(scope: Scope, c: Collection, k: Key, order: int, a: Entry, b: Entry)
    requires a.sequence == 1 && a.catalog == Some(Index(c, k, Some(order), 1, 1, 1, false))
    requires b.sequence == 2 && b.catalog == Some(Index(c, k, Some(order), 1, 2, 2, false)) && a.recordId != b.recordId
    ensures FaultIn(scope, [], [a, b]) == None && ValidIndex(a.catalog.value) && ValidIndex(b.catalog.value)
    ensures Entities(PartsOf(Extended(scope, [], [a, b])), c, 2) == Err(Integrity)
  {
    var x, y := PartRow(a.catalog.value, Some(order), 1), PartRow(b.catalog.value, Some(order), 2);
    TwoAppended(scope, a, b, x, y);
    UnequalParts(c, k, x, y);
    hide FaultIn, Extended, PartsOf, Inconsistent, Visible;
  }

  lemma TwoAppended(scope: Scope, a: Entry, b: Entry, x: PartRow, y: PartRow)
    requires a.sequence == 1 && a.catalog == Some(x.index) && x == PartRow(x.index, x.index.order, 1)
             && x.index.order.Some?
    requires x.index.version == 1 && x.index.part == 1 && x.index.parts == 1
    requires b.sequence == 2 && b.catalog == Some(y.index) && y == PartRow(x.index.(part := 2, parts := 2), x.order, 2)
    requires a.recordId != b.recordId
    ensures FaultIn(scope, [], [a, b]) == None && PartsOf(Extended(scope, [], [a, b])) == [x, y]
  {
    var s1 := Appended(scope, [], a);
    var s2 := Appended(scope, s1, b);
    assert [a, b][..1] == [a] && [a][..0] == [] && s1[..0] == [] && s2[..1] == s1 && [x][..0] == [];
    var none: seq<Entry> := [];
    assert [a][0] == a && [a, b][1] == b && Extended(scope, [], none) == [];
    assert Extended(scope, [], [a]) == s1;
    assert Extended(scope, [], [a, b]) == Appended(scope, Extended(scope, [], [a]), b);
    assert PartsOf(s1) == [x] && PartsOf(s2) == [x, y];
    assert FaultIn(scope, [], [a]) == None && Fault(s1, b) == None;
  }

  lemma UnequalParts(c: Collection, k: Key, x: PartRow, y: PartRow)
    requires x.index.collection == c && x.index.key == k && x.index.version == 1 && x.sequence == 1
    requires y.index.collection == c && y.index.key == k && y.index.version == 1 && y.sequence == 2
    requires x.index.parts != y.index.parts
    ensures Inconsistent(Visible([x, y], 2), c)
  {
    var rows := [x, y];
    assert [x, y][..1] == [x] && [x][..0] == [];
    assert Visible([x], 2) == [x] && Visible(rows, 2) == rows;
    assert Members([x], c, k, 1) == [x] && Members(rows, c, k, 1) == rows;
    assert rows[0] in rows && (k, 1) in Groups(rows, c);
    assert rows[0].index.parts != rows[1].index.parts;
    assert Broken(rows, 1);
  }

  // ---------------------------------------------------------------------
  // The query
  // ---------------------------------------------------------------------

  /** Rows up to a sequence. */
  function Visible(rows: seq<PartRow>, upper: nat): seq<PartRow> {
    if rows == [] then []
    else
      var r := rows[|rows| - 1];
      Visible(rows[..|rows| - 1], upper) + (if r.sequence <= upper then [r] else [])
  }

  /** The rows of one group of `GROUP BY entity_key, version`. */
  function Members(rows: seq<PartRow>, c: Collection, k: Key, v: int): seq<PartRow> {
    if rows == [] then []
    else
      var r := rows[|rows| - 1];
      Members(rows[..|rows| - 1], c, k, v)
      + (if r.index.collection == c && r.index.key == k && r.index.version == v then [r] else [])
  }

  function Groups(rows: seq<PartRow>, c: Collection): set<(Key, int)> {
    set r | r in rows && r.index.collection == c :: (r.index.key, r.index.version)
  }

  /** The integrity condition on a group's aggregates. */
  predicate Broken(m: seq<PartRow>, v: int)
    requires m != []
  {
    || (exists i, j | 0 <= i < |m| && 0 <= j < |m| :: m[i].order.Some? && m[j].order.Some? && m[i].order != m[j].order)
    || (exists i, j | 0 <= i < |m| && 0 <= j < |m| :: m[i].index.parts != m[j].index.parts)
    || (exists i, j | 0 <= i < |m| && 0 <= j < |m| :: m[i].index.deleted != m[j].index.deleted)
    || m[0].sequence != v || m[|m| - 1].sequence != v + |m| - 1
  }

  /** `n = max_parts`, in a group whose parts agree. */
  predicate Complete(rows: seq<PartRow>, c: Collection, k: Key, v: int) {
    var m := Members(rows, c, k, v);
    m != [] && |m| == m[0].index.parts
  }

  predicate Latest(rows: seq<PartRow>, c: Collection, k: Key, v: int) {
    Complete(rows, c, k, v) && !exists g | g in Groups(rows, c) :: g.0 == k && g.1 > v && Complete(rows, c, k, g.1)
  }

  predicate Deleted(rows: seq<PartRow>, c: Collection, k: Key, v: int) {
    var m := Members(rows, c, k, v);
    m != [] && m[0].index.deleted
  }

  predicate Inconsistent(rows: seq<PartRow>, c: Collection) {
    exists g | g in Groups(rows, c) :: Members(rows, c, g.0, g.1) != [] && Broken(Members(rows, c, g.0, g.1), g.1)
  }

  /** `entities`, without paging: keys with the version that is current at `upper`. */
  function Entities(rows: seq<PartRow>, c: Collection, upper: nat): Result<set<(Key, int)>, Failure> {
    var visible := Visible(rows, upper);
    if Inconsistent(visible, c) then Err(Integrity)
    else Ok(set g | g in Groups(visible, c) && Latest(visible, c, g.0, g.1) && !Deleted(visible, c, g.0, g.1))
  }

  /** The `incomplete` flag. */
  predicate Incomplete(rows: seq<PartRow>, c: Collection, upper: nat) {
    var visible := Visible(rows, upper);
    exists g | g in Groups(visible, c) :: !Complete(visible, c, g.0, g.1)
  }

  // ---------------------------------------------------------------------
  // What the query finds
  // ---------------------------------------------------------------------

  /** The rows up to `upper` are those of the entries up to `upper`, whatever was appended since. */
  lemma {:induction false} VisibleParts(scope: Scope, s: seq<Stored>, upper: nat)
    requires Chained(scope, s) && upper <= |s|
    ensures Visible(PartsOf(s), upper) == PartsOf(s[..upper])
    ensures forall r | r in PartsOf(s) :: 1 <= r.sequence <= |s|
    decreases |s|
  {
    if s != [] {
      var n := |s| - 1;
      ChainedPrefix(scope, s, n);
      assert LinkedAt(scope, s, n);
      if upper <= n {
        VisibleParts(scope, s[..n], upper);
        assert s[..n][..upper] == s[..upper];
      } else {
        VisibleParts(scope, s[..n], n);
        assert s[..n][..n] == s[..n] && s[..upper] == s;
        AllVisible(PartsOf(s[..n]), n, upper);
      }
    }
  }

  lemma {:induction false} AllVisible(rows: seq<PartRow>, n: nat, upper: nat)
    requires n <= upper && Visible(rows, n) == rows
    requires forall r | r in rows :: r.sequence <= n
    ensures Visible(rows, upper) == rows
  {
    if rows != [] {
      var front := rows[..|rows| - 1];
      assert forall r | r in front :: r in rows;
      SeesAll(front, n);
      AllVisible(front, n, upper);
      assert rows == front + [rows[|rows| - 1]];
    }
  }

  lemma {:induction false} SeesAll(rows: seq<PartRow>, n: nat)
    requires forall r | r in rows :: r.sequence <= n
    ensures Visible(rows, n) == rows
  {
    if rows != [] {
      SeesAll(rows[..|rows| - 1], n);
      assert rows == rows[..|rows| - 1] + [rows[|rows| - 1]];
    }
  }

  /** Version `v` of key `k` begins in `t`. */
  predicate Begins(t: seq<Stored>, c: Collection, k: Key, v: int) {
    && 1 <= v <= |t| && CatalogAt(t, v - 1).Some?
    && CatalogAt(t, v - 1).value.collection == c && CatalogAt(t, v - 1).value.key == k
       && CatalogAt(t, v - 1).value.version == v
  }

  /** ... and all its parts are there. */
  predicate CompleteAt(t: seq<Stored>, c: Collection, k: Key, v: int) {
    Begins(t, c, k, v) && v - 1 + CatalogAt(t, v - 1).value.parts <= |t|
  }

  /** The newest complete version of a key. */
  ghost predicate Newest(t: seq<Stored>, c: Collection, k: Key, v: int) {
    CompleteAt(t, c, k, v) && forall w | w > v :: !CompleteAt(t, c, k, w)
  }

  /** A group's rows are the version's parts in place, and all that the archive has. */
  ghost predicate Shaped(t: seq<Stored>, c: Collection, k: Key, v: int, m: seq<PartRow>) {
    if Begins(t, c, k, v) then
      var x := CatalogAt(t, v - 1).value;
      && |m| == Min(x.parts, |t| - v + 1)
      && forall j | 0 <= j < |m| ::
           m[j].sequence == v + j && m[j].index == x.(part := j + 1) && (x.order.Some? ==> m[j].order == x.order)
    else m == []
  }

  lemma {:induction false} MembersAreShaped(scope: Scope, t: seq<Stored>, c: Collection, k: Key, v: int)
    requires Chained(scope, t) && Lawful(t) && WellGrouped(t)
    ensures Shaped(t, c, k, v, Members(PartsOf(t), c, k, v))
    decreases |t|
  {
    if t != [] {
      var n := |t| - 1;
      PrefixIsSound(scope, t, n);
      MembersAreShaped(scope, t[..n], c, k, v);
      LastMember(scope, t, c, k, v);
    }
  }

  lemma PrefixIsSound(scope: Scope, t: seq<Stored>, n: nat)
    requires Chained(scope, t) && Lawful(t) && WellGrouped(t) && n <= |t|
    ensures Chained(scope, t[..n]) && Lawful(t[..n]) && WellGrouped(t[..n])
  {
    ChainedPrefix(scope, t, n);
    forall i | 0 <= i < n ensures ContinuesUnfinished(t[..n], i) && t[..n][..i] == t[..i] {
      assert ContinuesUnfinished(t, i);
    }
  }

  lemma LastMember(scope: Scope, t: seq<Stored>, c: Collection, k: Key, v: int)
    requires Chained(scope, t) && Lawful(t) && WellGrouped(t) && t != []
    requires Shaped(t[..|t| - 1], c, k, v, Members(PartsOf(t[..|t| - 1]), c, k, v))
    ensures Shaped(t, c, k, v, Members(PartsOf(t), c, k, v))
  {
    hide Chained, Lawful, WellGrouped, Shaped, Members, PartsOf;
    if Begins(t, c, k, v) && v <= |t| - 1 {
      LastMemberOf(scope, t, c, k, v);
    } else if Begins(t, c, k, v) {
      FirstMember(scope, t, c, k, v);
    } else {
      NoMember(scope, t, c, k, v);
    }
  }

  lemma FirstMember(scope: Scope, t: seq<Stored>, c: Collection, k: Key, v: int)
    requires Chained(scope, t) && Lawful(t) && Begins(t, c, k, v) && v == |t|
    requires Shaped(t[..|t| - 1], c, k, v, Members(PartsOf(t[..|t| - 1]), c, k, v))
    ensures Shaped(t, c, k, v, Members(PartsOf(t), c, k, v))
  {
    hide Chained, Lawful, Members, PartsOf;
    SequenceAt(scope, t, v - 1);
    RuleAt(scope, t, v - 1);
    MembersGrow(t, c, k, v);
  }

  lemma NoMember(scope: Scope, t: seq<Stored>, c: Collection, k: Key, v: int)
    requires Chained(scope, t) && Lawful(t) && WellGrouped(t) && t != [] && !Begins(t, c, k, v)
    requires Shaped(t[..|t| - 1], c, k, v, Members(PartsOf(t[..|t| - 1]), c, k, v))
    ensures Shaped(t, c, k, v, Members(PartsOf(t), c, k, v))
  {
    hide Chained, Lawful, Members, WellGrouped, PartsOf;
    var n := |t| - 1;
    MembersGrow(t, c, k, v);
    RuleAt(scope, t, n);
    if CatalogAt(t, n).Some? { EarlierParts(scope, t, n, 1); }
    assert 1 <= v <= n ==> CatalogAt(t[..n], v - 1) == CatalogAt(t, v - 1);
    assert !Begins(t[..n], c, k, v);
  }

  lemma LastMemberOf(scope: Scope, t: seq<Stored>, c: Collection, k: Key, v: int)
    requires Chained(scope, t) && Lawful(t) && WellGrouped(t) && t != [] && Begins(t, c, k, v) && v <= |t| - 1
    requires Shaped(t[..|t| - 1], c, k, v, Members(PartsOf(t[..|t| - 1]), c, k, v))
    ensures Shaped(t, c, k, v, Members(PartsOf(t), c, k, v))
  {
    var n := |t| - 1;
    var front, x := t[..n], CatalogAt(t, n);
    hide Chained, Lawful, Members, WellGrouped, PartsOf;
    SequenceAt(scope, t, n);
    MembersGrow(t, c, k, v);
    VersionOccupies(scope, t, v - 1);
    assert CatalogAt(front, v - 1) == CatalogAt(t, v - 1);
    assert Begins(front, c, k, v);
    var y := CatalogAt(t, v - 1).value;
    assert v - 1 <= n < v - 1 + y.parts <==> x.Some? && SameGroup(x.value, y);
  }

  lemma MembersGrow(t: seq<Stored>, c: Collection, k: Key, v: int)
    requires t != []
    ensures var front, e := t[..|t| - 1], t[|t| - 1].entry;
            Members(PartsOf(t), c, k, v) == Members(PartsOf(front), c, k, v)
              + (if e.catalog.Some? && e.catalog.value.collection == c && e.catalog.value.key == k
                  && e.catalog.value.version == v
                 then [PartOf(PartsOf(front), e.catalog.value, e.sequence)] else [])
  {
    var rows, x := PartsOf(t[..|t| - 1]), t[|t| - 1].entry.catalog;
    if x.Some? {
      var row := PartOf(rows, x.value, t[|t| - 1].entry.sequence);
      assert (rows + [row])[..|rows|] == rows;
    }
  }

  /** Each group that occurs begins somewhere, and each that begins occurs. */
  lemma GroupsBegin(scope: Scope, t: seq<Stored>, c: Collection, k: Key, v: int)
    requires Chained(scope, t) && Lawful(t) && WellGrouped(t)
    ensures (k, v) in Groups(PartsOf(t), c) <==> Begins(t, c, k, v)
  {
    var rows := PartsOf(t);
    MembersAreShaped(scope, t, c, k, v);
    if (k, v) in Groups(rows, c) {
      var r :| r in rows && r.index.collection == c && (r.index.key, r.index.version) == (k, v);
      OccursAsMember(rows, c, k, v, r);
    }
    if Begins(t, c, k, v) {
      RuleAt(scope, t, v - 1);
      MembersOccur(rows, c, k, v);
      var r := Members(rows, c, k, v)[0];
      assert r in rows && r.index.collection == c;
    }
  }

  lemma {:induction false} OccursAsMember(rows: seq<PartRow>, c: Collection, k: Key, v: int, r: PartRow)
    requires r in rows && r.index.collection == c && r.index.key == k && r.index.version == v
    ensures Members(rows, c, k, v) != []
  {
    if r != rows[|rows| - 1] {
      OccursAsMember(rows[..|rows| - 1], c, k, v, r);
    }
  }

  lemma {:induction false} MembersOccur(rows: seq<PartRow>, c: Collection, k: Key, v: int)
    ensures forall r | r in Members(rows, c, k, v) ::
              r in rows && r.index.collection == c && r.index.key == k && r.index.version == v
  {
    if rows != [] {
      MembersOccur(rows[..|rows| - 1], c, k, v);
    }
  }

  lemma ShapedGroup(scope: Scope, t: seq<Stored>, c: Collection, k: Key, v: int)
    requires Chained(scope, t) && Lawful(t) && WellGrouped(t)
    ensures var m := Members(PartsOf(t), c, k, v);
            && (m != [] <==> Begins(t, c, k, v))
            && (m != [] ==> !Broken(m, v))
            && (Complete(PartsOf(t), c, k, v) <==> CompleteAt(t, c, k, v))
            && (Begins(t, c, k, v) ==> (Deleted(PartsOf(t), c, k, v) <==> CatalogAt(t, v - 1).value.deleted))
  {
    hide Chained, Lawful, PartsOf;
    MembersAreShaped(scope, t, c, k, v);
    if Begins(t, c, k, v) { RuleAt(scope, t, v - 1); }
  }

  /** `entities` pinned at `upper` answers exactly with each key's newest complete
      version at `upper`, if that version is not a deletion. It never finds the
      archive inconsistent, and later appends do not change its answer. */
  lemma EntitiesAreNewest(scope: Scope, s: seq<Stored>, c: Collection, upper: nat)
    requires Chained(scope, s) && Lawful(s) && WellGrouped(s) && upper <= |s|
    ensures var r, t := Entities(PartsOf(s), c, upper), s[..upper];
            && r.Ok?
            && forall k, v :: (k, v) in r.value <==> Newest(t, c, k, v) && !CatalogAt(t, v - 1).value.deleted
  {
    var t := s[..upper];
    VisibleParts(scope, s, upper);
    PrefixIsSound(scope, s, upper);
    var rows := PartsOf(t);
    forall k, v
      ensures (k, v) in Groups(rows, c) <==> Begins(t, c, k, v)
      ensures Members(rows, c, k, v) != [] ==> !Broken(Members(rows, c, k, v), v)
      ensures Complete(rows, c, k, v) <==> CompleteAt(t, c, k, v)
      ensures Begins(t, c, k, v) ==> (Deleted(rows, c, k, v) <==> CatalogAt(t, v - 1).value.deleted)
    {
      GroupsBegin(scope, t, c, k, v);
      ShapedGroup(scope, t, c, k, v);
    }
    hide Begins, Members, Groups, Complete, Broken, Deleted;
    forall k, v ensures Latest(rows, c, k, v) <==> Newest(t, c, k, v) {
      LatestIsNewest(t, rows, c, k, v);
    }
  }

  lemma LatestIsNewest(t: seq<Stored>, rows: seq<PartRow>, c: Collection, k: Key, v: int)
    requires forall w :: Complete(rows, c, k, w) <==> CompleteAt(t, c, k, w)
    requires forall w :: (k, w) in Groups(rows, c) <==> Begins(t, c, k, w)
    ensures Latest(rows, c, k, v) <==> Newest(t, c, k, v)
  {
    hide Complete, Groups;
    forall w | w > v && CompleteAt(t, c, k, w) ensures !Latest(rows, c, k, v) {
      assert (k, w) in Groups(rows, c);
    }
  }

  /** A pinned answer outlives every later append. */
  lemma PinnedAnswerStays(scope: Scope, s: seq<Stored>, s': seq<Stored>, c: Collection, upper: nat)
    requires Chained(scope, s) && Chained(scope, s') && s <= s' && upper <= |s|
    ensures Entities(PartsOf(s'), c, upper) == Entities(PartsOf(s), c, upper)
    ensures Incomplete(PartsOf(s'), c, upper) == Incomplete(PartsOf(s), c, upper)
  {
    VisibleParts(scope, s, upper);
    VisibleParts(scope, s', upper);
    assert s'[..upper] == s[..upper];
  }

  /** The `incomplete` flag says that the range ends inside a version. */
  lemma IncompleteMeansCutOff(scope: Scope, s: seq<Stored>, c: Collection, upper: nat)
    requires Chained(scope, s) && Lawful(s) && WellGrouped(s) && upper <= |s|
    ensures Incomplete(PartsOf(s), c, upper) <==>
            Unfinished(LastIndex(s[..upper])) && LastIndex(s[..upper]).value.collection == c
  {
    hide Groups, Complete, Chained, Lawful, WellGrouped, PartsOf;
    var t := s[..upper];
    VisibleParts(scope, s, upper);
    PrefixIsSound(scope, s, upper);
    var rows := PartsOf(t);
    forall k, v
      ensures (k, v) in Groups(rows, c) && !Complete(rows, c, k, v) ==>
                Unfinished(LastIndex(t)) && LastIndex(t).value.collection == c
    {
      if (k, v) in Groups(rows, c) && !Complete(rows, c, k, v) { IncompleteGroup(scope, t, c, k, v); }
    }
    if Unfinished(LastIndex(t)) && LastIndex(t).value.collection == c {
      var x := LastIndex(t).value;
      CutOffGroup(scope, t, c);
      assert (x.key, x.version) in Groups(rows, c);
    }
  }

  lemma IncompleteGroup(scope: Scope, t: seq<Stored>, c: Collection, k: Key, v: int)
    requires Chained(scope, t) && Lawful(t) && WellGrouped(t)
    requires (k, v) in Groups(PartsOf(t), c) && !Complete(PartsOf(t), c, k, v)
    ensures Unfinished(LastIndex(t)) && LastIndex(t).value.collection == c
  {
    hide Groups, Complete, Chained, Lawful, WellGrouped, Members, PartsOf;
    GroupsBegin(scope, t, c, k, v);
    ShapedGroup(scope, t, c, k, v);
    VersionOccupies(scope, t, v - 1);
  }

  lemma CutOffGroup(scope: Scope, t: seq<Stored>, c: Collection)
    requires Chained(scope, t) && Lawful(t) && WellGrouped(t)
    requires Unfinished(LastIndex(t)) && LastIndex(t).value.collection == c
    ensures var x := LastIndex(t).value;
            (x.key, x.version) in Groups(PartsOf(t), c) && !Complete(PartsOf(t), c, x.key, x.version)
  {
    hide Groups, Complete, Chained, Lawful, WellGrouped, Members, PartsOf;
    var x := LastIndex(t).value;
    RuleAt(scope, t, |t| - 1);
    EarlierParts(scope, t, |t| - 1, 1);
    GroupsBegin(scope, t, c, x.key, x.version);
    ShapedGroup(scope, t, c, x.key, x.version);
  }
}
