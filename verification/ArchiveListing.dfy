/** packages/core/src/conversation-archive.ts, `entities`: the answer page by page. */
module ArchiveListing {
  import opened Wrappers
  import opened ArchiveState
  import opened Archive
  import opened ArchiveEntities

  /** A place in the answer; keys are taken as their rank. */
  datatype Position = Position(order: int, key: Key)

  predicate Below(p: Position, q: Position) {
    p.order < q.order || (p.order == q.order && p.key < q.key)
  }

  /** `ConversationArchiveEntity`, without its stored size. */
  datatype Entity = Entity(key: Key, order: int, version: int, parts: int, fromSequence: int, throughSequence: int,
                           previousHash: Digest, hash: Digest)

  datatype EntityPage = EntityPage(headHash: Digest, entities: seq<Entity>, incomplete: bool, before: Option<Position>)

  /** A key and its current version. */
  type Hit = (Key, int)

  /** The first entry of version `v` is there, with an order, and so is its last. */
  predicate Stands(t: seq<Stored>, v: int) {
    && 1 <= v <= |t| && CatalogAt(t, v - 1).Some? && CatalogAt(t, v - 1).value.order.Some?
    && 1 <= CatalogAt(t, v - 1).value.parts <= |t| - v + 1
  }

  function At(t: seq<Stored>, g: Hit): Position {
    Position(if Stands(t, g.1) then CatalogAt(t, g.1 - 1).value.order.value else 0, g.0)
  }

  /** What the answer says of one entity: everything is read off its version's entries. */
  function EntityOf(t: seq<Stored>, v: int): Entity
    requires Stands(t, v)
  {
    var x, first := CatalogAt(t, v - 1).value, t[v - 1];
    var last := t[v + x.parts - 2];
    Entity(x.key, x.order.value, v, x.parts, first.entry.sequence, last.entry.sequence, first.previousHash, last.hash)
  }

  function HitOf(e: Entity): Hit {
    (e.key, e.version)
  }

  /** Strictly falling by order and then by key. */
  ghost predicate Descending(t: seq<Stored>, hits: seq<Hit>) {
    forall i, j | 0 <= i < j < |hits| :: Below(At(t, hits[j]), At(t, hits[i]))
  }

  /** `hits` are the highest of `all`, from the top. */
  ghost predicate Topmost(t: seq<Stored>, all: set<Hit>, hits: seq<Hit>) {
    && Descending(t, hits)
    && (forall g | g in hits :: g in all)
    && (forall g, i | g in all && g !in hits && 0 <= i < |hits| :: Below(At(t, g), At(t, hits[i])))
  }

  /** No two of them at one place. */
  ghost predicate Apart(t: seq<Stored>, all: set<Hit>) {
    forall g, h | g in all && h in all && g != h :: At(t, g) != At(t, h)
  }

  /** What the `key` and `before` parameters leave of an answer. */
  function Rest(t: seq<Stored>, answer: set<Hit>, key: Option<Key>, before: Option<Position>): set<Hit> {
    set g | g in answer && (key.Some? ==> g.0 == key.value) && (before.Some? ==> Below(At(t, g), before.value))
  }

  function Hits(entities: seq<Entity>): seq<Hit> {
    seq(|entities|, i requires 0 <= i < |entities| => HitOf(entities[i]))
  }

  /** One page of an answer: its highest hits that are left, and where to go on if there are more. */
  ghost predicate IsPage(t: seq<Stored>, rest: set<Hit>, limit: nat, page: EntityPage) {
    var hits := Hits(page.entities);
    && Topmost(t, rest, hits) && |hits| <= limit
    && (forall i | 0 <= i < |hits| :: Stands(t, hits[i].1) && page.entities[i] == EntityOf(t, hits[i].1))
    && (page.before.None? ==> forall g | g in rest :: g in hits)
    && (page.before.Some? ==>
          0 < |hits| == limit && page.before.value == At(t, hits[limit - 1]) && exists g :: g in rest && g !in hits)
  }

  // ---------------------------------------------------------------------
  // The rows behind the answer
  // ---------------------------------------------------------------------

  /** A row of the parts table and the entry it was made from. */
  predicate RowFits(t: seq<Stored>, r: PartRow) {
    && 1 <= r.sequence <= |t| && CatalogAt(t, r.sequence - 1) == Some(r.index)
    && r.index.version + r.index.part - 1 == r.sequence && ValidIndex(r.index)
    && (r.index.order.Some? ==> r.order == r.index.order)
  }

  lemma {:induction false} RowsFit(scope: Scope, t: seq<Stored>)
    requires Chained(scope, t) && Lawful(t)
    ensures forall r | r in PartsOf(t) :: RowFits(t, r)
  {
    if t != [] {
      var n := |t| - 1;
      PrefixIsLawful(scope, t, n);
      RowsFit(scope, t[..n]);
      SequenceAt(scope, t, n);
      RuleAt(scope, t, n);
      hide Chained, Lawful, PartOf;
      forall r | r in PartsOf(t) ensures RowFits(t, r) {
        if r in PartsOf(t[..n]) {
          assert RowFits(t[..n], r);
        } else {
          NewRowFits(t, PartsOf(t[..n]), n);
        }
      }
    }
  }

  lemma NewRowFits(t: seq<Stored>, rows: seq<PartRow>, n: nat)
    requires n < |t| && t[n].entry.sequence == n + 1 && CatalogAt(t, n).Some? && ValidIndex(CatalogAt(t, n).value)
    requires CatalogAt(t, n).value.version + CatalogAt(t, n).value.part - 1 == n + 1
    ensures RowFits(t, PartOf(rows, CatalogAt(t, n).value, n + 1))
  {
  }

  /** A hit's rows: all parts of one version, in agreement. */
  lemma HitIsWhole(rows: seq<PartRow>, c: Collection, upper: nat, g: Hit)
    requires Visible(rows, upper) == rows
    requires Entities(rows, c, upper).Ok? && g in Entities(rows, c, upper).value
    ensures var m := Members(rows, c, g.0, g.1);
            m != [] && |m| == m[0].index.parts && !Broken(m, g.1) && !m[0].index.deleted
  {
    hide Members, Groups, Broken, Visible;
    assert g in Groups(rows, c) && Complete(rows, c, g.0, g.1);
  }

  /** A hit of the answer stands in the entries: all parts of it, none deleted. */
  lemma HitStands(scope: Scope, t: seq<Stored>, c: Collection, g: Hit)
    requires Chained(scope, t) && Lawful(t) && Visible(PartsOf(t), |t|) == PartsOf(t)
    requires Entities(PartsOf(t), c, |t|).Ok? && g in Entities(PartsOf(t), c, |t|).value
    ensures Stands(t, g.1)
    ensures var x := CatalogAt(t, g.1 - 1).value;
            && x.collection == c && x.key == g.0 && x.version == g.1 && x.part == 1 && !x.deleted
            && CatalogAt(t, g.1 + x.parts - 2) == Some(x.(part := x.parts))
  {
    hide Members, PartsOf, Visible, Chained, Lawful, Entities, Broken, RowFits, Stands;
    var rows := PartsOf(t);
    HitIsWhole(rows, c, |t|, g);
    RowsFit(scope, t);
    MembersOccur(rows, c, g.0, g.1);
    var m := Members(rows, c, g.0, g.1);
    assert m[0] in m && m[|m| - 1] in m;
    WholeStands(t, c, g, m);
  }

  lemma WholeStands(t: seq<Stored>, c: Collection, g: Hit, m: seq<PartRow>)
    requires m != [] && |m| == m[0].index.parts && !Broken(m, g.1) && !m[0].index.deleted
    requires RowFits(t, m[0]) && RowFits(t, m[|m| - 1])
    requires forall r | r in m :: r.index.collection == c && r.index.key == g.0 && r.index.version == g.1
    ensures Stands(t, g.1)
    ensures var x := CatalogAt(t, g.1 - 1).value;
            && x.collection == c && x.key == g.0 && x.version == g.1 && x.part == 1 && !x.deleted
            && CatalogAt(t, g.1 + x.parts - 2) == Some(x.(part := x.parts))
  {
    var n := |m| - 1;
    assert m[0] in m && m[n] in m;
    assert m[0].index.parts == m[n].index.parts && m[0].index.deleted == m[n].index.deleted;
    assert m[0].order.Some? && m[n].order.Some? && m[0].order == m[n].order;
  }

  /** Each key has one current version, so no two hits share a place. */
  lemma HitsAreApart(t: seq<Stored>, rows: seq<PartRow>, c: Collection, upper: nat)
    requires Entities(rows, c, upper).Ok?
    ensures Apart(t, Entities(rows, c, upper).value)
  {
    hide Complete, Groups, Visible, Inconsistent, Deleted;
    var answer, visible := Entities(rows, c, upper).value, Visible(rows, upper);
    forall g, h | g in answer && h in answer && g != h ensures At(t, g) != At(t, h) {
      assert Latest(visible, c, g.0, g.1) && Latest(visible, c, h.0, h.1);
      assert g in Groups(visible, c) && h in Groups(visible, c);
    }
  }

  // ---------------------------------------------------------------------
  // ORDER BY and LIMIT
  // ---------------------------------------------------------------------

  /** The highest of some hits. */
  method Highest(t: seq<Stored>, rest: set<Hit>) returns (g: Hit)
    requires rest != {} && Apart(t, rest)
    ensures g in rest && forall h | h in rest && h != g :: Below(At(t, h), At(t, g))
  {
    hide At;
    ghost var some := Element(rest);
    g :| g in rest;
    var todo := rest - {g};
    while todo != {}
      invariant todo <= rest && g in rest && g !in todo
      invariant forall h | h in rest && h !in todo && h != g :: Below(At(t, h), At(t, g))
      decreases |todo|
    {
      ghost var other := Element(todo);
      var h :| h in todo;
      assert At(t, h) != At(t, g);
      if Below(At(t, g), At(t, h)) { g := h; }
      todo := todo - {h};
    }
  }

  /** The first `n` rows of the query. */
  method SelectRows(t: seq<Stored>, rest: set<Hit>, n: nat) returns (hits: seq<Hit>)
    requires Apart(t, rest)
    ensures Topmost(t, rest, hits) && |hits| <= n
    ensures |hits| < n ==> forall g | g in rest :: g in hits
  {
    hits := [];
    var left := rest;
    while left != {} && |hits| < n
      invariant |hits| <= n && left <= rest && forall g | g in rest :: g in hits <==> g !in left
      invariant Topmost(t, rest, hits)
      decreases |left|
    {
      hide At, Below;
      var g := Highest(t, left);
      OneMoreHit(t, rest, hits, left, g);
      hits, left := hits + [g], left - {g};
    }
  }

  lemma OneMoreHit(t: seq<Stored>, rest: set<Hit>, hits: seq<Hit>, left: set<Hit>, g: Hit)
    requires Topmost(t, rest, hits) && left <= rest && forall h | h in rest :: h in hits <==> h !in left
    requires g in left && forall h | h in left && h != g :: Below(At(t, h), At(t, g))
    ensures Topmost(t, rest, hits + [g])
  {
    hide At, Below;
  }

  /** `entities`: the collection's hits with the given key, behind the given place, at most `limit` of them. */
  method QueryEntities(archive: ConversationArchive, c: Collection, through: Option<nat>, key: Option<Key>,
                       before: Option<Position>, limit: nat)
    returns (r: Result<EntityPage, Failure>)
    requires archive.Valid() && limit >= 1
    ensures var upper := through.GetOr(archive.lastSeq);
            if !archive.found then r == Err(NotFound)
            else if upper > archive.lastSeq then r == Err(Gap)
            else
              var t, answer := archive.entries[..upper], Entities(PartsOf(archive.entries), c, upper);
              if answer.Err? then r == Err(answer.error)
              else
                && r.Ok? && IsPage(t, Rest(t, answer.value, key, before), limit, r.value)
                && r.value.headHash == Anchor(archive.scope, archive.entries, upper)
                && r.value.incomplete == Incomplete(PartsOf(archive.entries), c, upper)
  {
    hide Chained, Lawful, Visible, PartsOf, TotalBytes, Entities, Incomplete, IsPage, Rest, Stands, Topmost;
    if !archive.found { return Err(NotFound); }
    var upper := through.GetOr(archive.lastSeq);
    if upper > archive.lastSeq { return Err(Gap); }
    if archive.indexedParts != |archive.parts| { return Err(Integrity); }
    var answer := Entities(archive.parts, c, upper);
    if answer.Err? { return Err(answer.error); }
    var t := archive.entries[..upper];
    HitsAreApart(t, archive.parts, c, upper);
    var rest := Rest(t, answer.value, key, before);
    RestIsPart(t, answer.value, key, before);
    var hits := SelectRows(t, rest, limit + 1);
    AllStand(archive.scope, archive.entries, upper, c);
    var page := MakePage(t, rest, hits, limit, Anchor(archive.scope, archive.entries, upper),
                         Incomplete(archive.parts, c, upper));
    return Ok(page);
  }

  lemma RestIsPart(t: seq<Stored>, answer: set<Hit>, key: Option<Key>, before: Option<Position>)
    ensures Rest(t, answer, key, before) <= answer
    ensures Apart(t, answer) ==> Apart(t, Rest(t, answer, key, before))
  {
  }

  /** All hits of the answer pinned at `upper` stand among the entries up to there. */
  lemma AllStand(scope: Scope, s: seq<Stored>, upper: nat, c: Collection)
    requires Chained(scope, s) && Lawful(s) && upper <= |s| && Entities(PartsOf(s), c, upper).Ok?
    ensures forall g | g in Entities(PartsOf(s), c, upper).value ::
              Stands(s[..upper], g.1) && CatalogAt(s[..upper], g.1 - 1).value.key == g.0
  {
    var t := s[..upper];
    PrefixIsLawful(scope, s, upper);
    VisibleParts(scope, t, upper);
    assert t[..upper] == t;
    PinnedAnswerStays(scope, t, s, c, upper);
    hide Chained, Lawful, Visible, PartsOf, Stands, Entities;
    forall g | g in Entities(PartsOf(s), c, upper).value
      ensures Stands(t, g.1) && CatalogAt(t, g.1 - 1).value.key == g.0
    {
      HitStands(scope, t, c, g);
    }
  }

  lemma PrefixIsLawful(scope: Scope, s: seq<Stored>, upper: nat)
    requires Chained(scope, s) && Lawful(s) && upper <= |s|
    ensures Chained(scope, s[..upper]) && Lawful(s[..upper])
  {
    ChainedPrefix(scope, s, upper);
    assert forall i | 0 <= i < upper :: s[..upper][..i] == s[..i];
  }

  /** The page made of the rows selected, one row more than it may hold. */
  method MakePage(t: seq<Stored>, rest: set<Hit>, hits: seq<Hit>, limit: nat, headHash: Digest, incomplete: bool)
    returns (page: EntityPage)
    requires limit >= 1 && Topmost(t, rest, hits) && |hits| <= limit + 1
    requires |hits| < limit + 1 ==> forall g | g in rest :: g in hits
    requires forall g | g in rest :: Stands(t, g.1) && CatalogAt(t, g.1 - 1).value.key == g.0
    ensures IsPage(t, rest, limit, page) && page.headHash == headHash && page.incomplete == incomplete
  {
    var shown := if |hits| > limit then hits[..limit] else hits;
    var entities: seq<Entity> := [];
    for i := 0 to |shown|
      invariant |entities| == i
      invariant forall j | 0 <= j < i :: Stands(t, shown[j].1) && entities[j] == EntityOf(t, shown[j].1)
      invariant forall j | 0 <= j < i :: HitOf(entities[j]) == shown[j]
    {
      assert shown[i] in hits;
      entities := entities + [EntityOf(t, shown[i].1)];
    }
    assert Hits(entities) == shown;
    hide At, Below, Stands;
    page := EntityPage(headHash, entities, incomplete, if |hits| > limit then Some(At(t, shown[limit - 1])) else None);
    ShownIsPage(t, rest, hits, limit, page);
  }

  lemma ShownIsPage(t: seq<Stored>, rest: set<Hit>, hits: seq<Hit>, limit: nat, page: EntityPage)
    requires limit >= 1 && Topmost(t, rest, hits) && |hits| <= limit + 1
    requires |hits| < limit + 1 ==> forall g | g in rest :: g in hits
    requires Hits(page.entities) == if |hits| > limit then hits[..limit] else hits
    requires forall i | 0 <= i < |page.entities| ::
               Stands(t, HitOf(page.entities[i]).1) && page.entities[i] == EntityOf(t, HitOf(page.entities[i]).1)
    requires page.before == if |hits| > limit then Some(At(t, hits[limit - 1])) else None
    ensures IsPage(t, rest, limit, page)
  {
    hide At, EntityOf, Stands;
    if |hits| > limit {
      var shown, last := hits[..limit], hits[limit];
      assert last in rest;
      forall i | 0 <= i < limit ensures shown[i] != last {
        assert Below(At(t, hits[limit]), At(t, hits[i]));
      }
      assert last !in shown;
      forall g, i | g in rest && g !in shown && 0 <= i < limit ensures Below(At(t, g), At(t, shown[i])) {
        if g in hits { assert g == last; }
      }
    }
  }

  // ---------------------------------------------------------------------
  // Page by page
  // ---------------------------------------------------------------------

  /** The pages so far: the highest hits of the answer, down to the place where to go on. */
  ghost predicate SoFar(t: seq<Stored>, answer: set<Hit>, all: seq<Entity>, before: Option<Position>) {
    && Topmost(t, answer, Hits(all)) && EachRead(t, all)
    && (if before.None? then all == [] else all != [] && before.value == At(t, HitOf(all[|all| - 1])))
  }

  /** What is said of each entity was read off its version's entries. */
  ghost predicate EachRead(t: seq<Stored>, all: seq<Entity>) {
    forall i | 0 <= i < |all| :: Stands(t, all[i].version) && all[i] == EntityOf(t, all[i].version)
  }

  /** Each hit of the answer, once, from the highest place down. */
  ghost predicate Lists(t: seq<Stored>, answer: set<Hit>, all: seq<Entity>) {
    Descending(t, Hits(all)) && EachRead(t, all) && forall g :: g in Hits(all) <==> g in answer
  }

  /** What is left behind the last hit is what was not listed yet. */
  lemma RestIsUnlisted(t: seq<Stored>, answer: set<Hit>, all: seq<Entity>, before: Option<Position>)
    requires SoFar(t, answer, all, before)
    ensures forall g :: g in Rest(t, answer, None, before) <==> g in answer && g !in Hits(all)
  {
    hide At, Stands, EachRead;
    var hits := Hits(all);
    if before.Some? {
      var n := |hits| - 1;
      assert before.value == At(t, hits[n]);
      forall g | g in answer ensures Below(At(t, g), before.value) <==> g !in hits {
        if g in hits {
          var i :| 0 <= i < |hits| && hits[i] == g;
          assert i < n ==> Below(At(t, hits[n]), At(t, hits[i]));
        }
      }
    }
  }

  lemma HitsJoin(a: seq<Entity>, b: seq<Entity>)
    ensures Hits(a + b) == Hits(a) + Hits(b)
  {
  }

  /** One more page: the highest of what was left joins the list. */
  lemma PageAdds(t: seq<Stored>, answer: set<Hit>, all: seq<Entity>, before: Option<Position>, limit: nat,
                 page: EntityPage)
    requires SoFar(t, answer, all, before) && IsPage(t, Rest(t, answer, None, before), limit, page)
    ensures page.before.None? ==> Lists(t, answer, all + page.entities)
    ensures page.before.Some? ==>
              && SoFar(t, answer, all + page.entities, page.before)
              && Rest(t, answer, None, page.before) < Rest(t, answer, None, before)
  {
    var all', hits := all + page.entities, Hits(page.entities);
    RestIsUnlisted(t, answer, all, before);
    HitsJoin(all, page.entities);
    TopmostJoin(t, answer, Rest(t, answer, None, before), Hits(all), hits);
    EachReadJoins(t, all, page);
    if page.before.Some? {
      assert all'[|all'| - 1] == page.entities[limit - 1] && HitOf(all'[|all'| - 1]) == hits[limit - 1];
      RestIsUnlisted(t, answer, all', page.before);
      hide Rest, Topmost, EachRead;
      assert hits[0] in hits && hits[0] in Hits(all') && hits[0] in Rest(t, answer, None, before);
    } else {
      hide Rest, EachRead;
    }
  }

  lemma EachReadJoins(t: seq<Stored>, all: seq<Entity>, page: EntityPage)
    requires EachRead(t, all)
    requires forall i | 0 <= i < |Hits(page.entities)| ::
               Stands(t, Hits(page.entities)[i].1) && page.entities[i] == EntityOf(t, Hits(page.entities)[i].1)
    ensures EachRead(t, all + page.entities)
  {
    hide Stands;
    forall i | 0 <= i < |page.entities|
      ensures Stands(t, page.entities[i].version) && page.entities[i] == EntityOf(t, page.entities[i].version)
    {
      assert Hits(page.entities)[i].1 == page.entities[i].version;
    }
    hide EntityOf;
  }

  lemma TopmostJoin(t: seq<Stored>, answer: set<Hit>, rest: set<Hit>, top: seq<Hit>, hits: seq<Hit>)
    requires Topmost(t, answer, top) && Topmost(t, rest, hits)
    requires forall g :: g in rest <==> g in answer && g !in top
    ensures Topmost(t, answer, top + hits)
  {
    hide At, Below;
    var all := top + hits;
    forall i, j | 0 <= i < j < |all| ensures Below(At(t, all[j]), At(t, all[i])) {
      if i < |top| <= j { assert all[j] in hits; }
    }
    forall g | g in all ensures g in answer {
      assert g in top || g in hits;
    }
    forall g, i | g in answer && g !in all && 0 <= i < |all| ensures Below(At(t, g), At(t, all[i])) {
      assert g !in top && g !in hits;
    }
  }

  /** The first answer, seen from a longer archive. */
  lemma StillTheAnswer(scope: Scope, s: seq<Stored>, s': seq<Stored>, c: Collection, upper: nat)
    requires Chained(scope, s) && Chained(scope, s') && s <= s' && upper <= |s|
    ensures s'[..upper] == s[..upper] && Entities(PartsOf(s'), c, upper) == Entities(PartsOf(s), c, upper)
  {
    PinnedAnswerStays(scope, s, s', c, upper);
  }

  /** A reader follows `before` with a pinned `throughSequence`, whatever the page size and
      whatever is appended between two pages: each current entity of the collection comes
      exactly once, in falling order. */
  method ListEntities(archive: ConversationArchive, c: Collection, through: nat, limit: nat, writers: seq<Submission>)
    returns (r: Result<seq<Entity>, Failure>)
    requires archive.Valid() && archive.found && through <= archive.lastSeq && limit >= 1
    requires forall w | w in writers :: WellFormedBatch(w.batch)
    modifies archive
    ensures archive.Valid() && old(archive.entries) <= archive.entries
    ensures var t, answer := old(archive.entries)[..through], Entities(PartsOf(old(archive.entries)), c, through);
            if answer.Err? then r == Err(answer.error)
            else
              && r.Ok? && Lists(t, answer.value, r.value)
              && (WellGrouped(t) ==>
                    forall k, v :: (k, v) in answer.value <==> Newest(t, c, k, v) && !CatalogAt(t, v - 1).value.deleted)
    ensures WellGrouped(old(archive.entries)[..through]) ==> r.Ok?
  {
    hide Chained, Lawful, WellGrouped, Visible, PartsOf, TotalBytes, Entities, Incomplete, IsPage, Rest, Refusal,
         Extended, NewPart, Newest, SoFar, Lists, WellFormedBatch;
    ghost var s, t := archive.entries, archive.entries[..through];
    ghost var answer := Entities(PartsOf(s), c, through);
    AnswerIsNewest(archive.scope, s, c, through);
    var before: Option<Position> := None;
    var all: seq<Entity> := [];
    var pages := 0;
    ghost var rest := if answer.Ok? then Rest(t, answer.value, None, None) else {};
    if answer.Ok? { NothingListed(t, answer.value); }
    while true
      invariant archive.Valid() && s <= archive.entries
      invariant answer.Ok? ==> SoFar(t, answer.value, all, before) && rest == Rest(t, answer.value, None, before)
      decreases rest
    {
      StillTheAnswer(archive.scope, s, archive.entries, c, through);
      var page := QueryEntities(archive, c, Some(through), None, before, limit);
      if page.Err? { return Err(page.error); }
      PageAdds(t, answer.value, all, before, limit, page.value);
      all := all + page.value.entities;
      if page.value.before.None? { return Ok(all); }
      before := page.value.before;
      rest := Rest(t, answer.value, None, before);
      if pages < |writers| {
        var w := writers[pages];
        var receipt := archive.Append(w.batch, w.maxBytes, w.elsewhere, w.space);
      }
      pages := pages + 1;
    }
  }

  lemma NothingListed(t: seq<Stored>, answer: set<Hit>)
    ensures SoFar(t, answer, [], None)
  {
  }

  lemma AnswerIsNewest(scope: Scope, s: seq<Stored>, c: Collection, upper: nat)
    requires Chained(scope, s) && Lawful(s) && upper <= |s|
    ensures var t, answer := s[..upper], Entities(PartsOf(s), c, upper);
            WellGrouped(t) ==>
              && answer.Ok?
              && forall k, v :: (k, v) in answer.value <==> Newest(t, c, k, v) && !CatalogAt(t, v - 1).value.deleted
  {
    var t := s[..upper];
    PrefixIsLawful(scope, s, upper);
    PinnedAnswerStays(scope, t, s, c, upper);
    hide Chained, Lawful, WellGrouped, PartsOf, Entities, Newest;
    if WellGrouped(t) {
      EntitiesAreNewest(scope, t, c, upper);
      assert t[..upper] == t;
    }
  }
}
