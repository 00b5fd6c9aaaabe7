/** packages/core/src/maintenance-file.ts: exact text edits. Every edit names a
    fragment that occurs once in the original text, and all of them are applied
    to that original. Text is a sequence of UTF-16 code units, as in JavaScript. */
module TextEdit {
  import opened Wrappers

  type Unit = c: int | 0 <= c < 0x1_0000
  type Text = seq<Unit>

  datatype Edit = Edit(oldText: Text, newText: Text)

  datatype Span = Span(start: nat, end: nat, newText: Text)

  datatype EditError =
    | WrongCount | IllFormed | EmptyOrRedacted | NotExactlyOnce | Overlapping | TooLarge | ControlCharacter

  const MAX_EDITS: nat := 100
  const MAX_CONFIG_BYTES: nat := 0x10_0000

  // ---------------------------------------------------------------------
  // Unicode
  // ---------------------------------------------------------------------

  predicate High(c: Unit) { 0xD800 <= c < 0xDC00 }

  predicate Low(c: Unit) { 0xDC00 <= c < 0xE000 }

  /** The code unit at `i` is no surrogate, or one half of a pair. */
  predicate Paired(s: Text, i: nat)
    requires i < |s|
  {
    && (High(s[i]) ==> i + 1 < |s| && Low(s[i + 1]))
    && (Low(s[i]) ==> 0 < i && High(s[i - 1]))
  }

  /** The strings that survive a round trip through UTF-8. */
  predicate WellFormed(s: Text) {
    forall i :: 0 <= i < |s| ==> Paired(s, i)
  }

  /** Bytes of the UTF-8 encoding; a lone surrogate becomes U+FFFD, three bytes. */
  function Utf8Length(s: Text): nat {
    if s == [] then 0
    else if High(s[0]) && 1 < |s| && Low(s[1]) then 4 + Utf8Length(s[2..])
    else (if s[0] < 0x80 then 1 else if s[0] < 0x800 then 2 else 3) + Utf8Length(s[1..])
  }

  predicate Control(c: Unit) {
    c <= 0x08 || c == 0x0B || c == 0x0C || 0x0E <= c <= 0x1F || c == 0x7F
  }

  /** `decodeConfig` of the text's own encoding. */
  function Decoded(s: Text): Result<Text, EditError> {
    if MAX_CONFIG_BYTES < Utf8Length(s) then Err(TooLarge)
    else if exists i :: 0 <= i < |s| && Control(s[i]) then Err(ControlCharacter)
    else Ok(s)
  }

  // ---------------------------------------------------------------------
  // Finding the one occurrence
  // ---------------------------------------------------------------------

  predicate MatchAt(text: Text, fragment: Text, i: int) {
    0 <= i && i + |fragment| <= |text| && text[i..i + |fragment|] == fragment
  }

  /** JavaScript's `indexOf`: the first match at or after `from`, or -1. */
  function IndexOf(text: Text, fragment: Text, from: nat): (r: int)
    ensures r == -1 || (from <= r && MatchAt(text, fragment, r))
    ensures forall i :: from <= i && (r == -1 || i < r) ==> !MatchAt(text, fragment, i)
    decreases |text| - from
  {
    if |text| < from then -1
    else if MatchAt(text, fragment, from) then from
    else IndexOf(text, fragment, from + 1)
  }

  ghost predicate OccursOnce(text: Text, fragment: Text) {
    exists i :: MatchAt(text, fragment, i) && forall j :: MatchAt(text, fragment, j) ==> j == i
  }

  /** Two searches decide whether there is exactly one occurrence, overlapping ones included. */
  lemma TwoSearchesDecide(text: Text, fragment: Text)
    ensures var start := IndexOf(text, fragment, 0);
      (start >= 0 && IndexOf(text, fragment, start + 1) == -1) <==> OccursOnce(text, fragment)
  {
  }

  /** Where a fragment that occurs once occurs. */
  lemma FoundWhereItIs(text: Text, fragment: Text, i: nat)
    requires OccursOnce(text, fragment) && MatchAt(text, fragment, i)
    ensures IndexOf(text, fragment, 0) == i
  {
    assert MatchAt(text, fragment, IndexOf(text, fragment, 0));
  }

  const REDACTED: Text := [0x2A, 0x2A, 0x2A]

  predicate Redacted(s: Text) {
    IndexOf(s, REDACTED, 0) != -1
  }

  /** What an edit must be, whatever the text. */
  predicate Sound(e: Edit) {
    WellFormed(e.oldText) && WellFormed(e.newText) && e.oldText != [] && !Redacted(e.oldText) && !Redacted(e.newText)
  }

  function SpanOf(text: Text, e: Edit): Span
    requires IndexOf(text, e.oldText, 0) >= 0
  {
    var start := IndexOf(text, e.oldText, 0);
    Span(start, start + |e.oldText|, e.newText)
  }

  function CheckEdit(text: Text, e: Edit): (r: Result<Span, EditError>)
    ensures r.Ok? ==> IndexOf(text, e.oldText, 0) >= 0 && r.value == SpanOf(text, e)
  {
    if !WellFormed(e.oldText) || !WellFormed(e.newText) then Err(IllFormed)
    else if e.oldText == [] || Redacted(e.oldText) || Redacted(e.newText) then Err(EmptyOrRedacted)
    else
      var start := IndexOf(text, e.oldText, 0);
      if start < 0 || IndexOf(text, e.oldText, start + 1) != -1 then Err(NotExactlyOnce)
      else Ok(SpanOf(text, e))
  }

  lemma CheckedIff(text: Text, e: Edit)
    ensures CheckEdit(text, e).Ok? <==> Sound(e) && OccursOnce(text, e.oldText)
  {
    TwoSearchesDecide(text, e.oldText);
  }

  /** The spans of all edits, in the order given; the first bad edit decides the error. */
  function Spans(text: Text, edits: seq<Edit>): (r: Result<seq<Span>, EditError>)
    ensures r.Ok? <==> forall e :: e in edits ==> CheckEdit(text, e).Ok?
    ensures r.Ok? ==> |r.value| == |edits| && forall i :: 0 <= i < |edits| ==>
              CheckEdit(text, edits[i]).Ok? && r.value[i] == SpanOf(text, edits[i])
    ensures r.Ok? ==> Proper(r.value, |text|)
  {
    if edits == [] then Ok([])
    else
      var first := CheckEdit(text, edits[0]);
      if first.Err? then Err(first.error)
      else
        var rest := Spans(text, edits[1..]);
        if rest.Err? then rest else Ok([first.value] + rest.value)
  }

  // ---------------------------------------------------------------------
  // Sorting and the overlap check
  // ---------------------------------------------------------------------

  function Insert(x: Span, sorted: seq<Span>): (r: seq<Span>)
    ensures |r| == |sorted| + 1
  {
    if sorted == [] || x.start <= sorted[0].start then [x] + sorted
    else [sorted[0]] + Insert(x, sorted[1..])
  }

  /** The stable sort on `start`. */
  function SortByStart(spans: seq<Span>): (r: seq<Span>)
    ensures |r| == |spans|
  {
    if spans == [] then [] else Insert(spans[0], SortByStart(spans[1..]))
  }

  ghost predicate Ascending(spans: seq<Span>) {
    forall i, j :: 0 <= i < j < |spans| ==> spans[i].start <= spans[j].start
  }

  /** No span starts before the one ahead of it ends: the source's overlap check. */
  predicate Spaced(spans: seq<Span>) {
    forall i :: 0 < i < |spans| ==> Follows(spans, i)
  }

  predicate Follows(spans: seq<Span>, i: int)
    requires 0 < i < |spans|
  {
    spans[i - 1].end <= spans[i].start
  }

  predicate Apart(a: Span, b: Span) {
    a.end <= b.start || b.end <= a.start
  }

  /** No two of the edits touch the same text, whatever their order. */
  ghost predicate PairwiseApart(spans: seq<Span>) {
    forall i, j :: 0 <= i < j < |spans| ==> Apart(spans[i], spans[j])
  }

  ghost predicate Proper(spans: seq<Span>, size: nat) {
    forall s :: s in spans ==> s.start < s.end <= size
  }

  /** The text with every span replaced, from `from` on: untouched segments and
      replacements, left to right. */
  function Assemble(text: Text, spans: seq<Span>, from: nat): Text
    requires Chain(spans, from, |text|)
    decreases |spans|
  {
    if spans == [] then text[from..]
    else text[from..spans[0].start] + spans[0].newText + Assemble(text, spans[1..], spans[0].end)
  }

  /** Spans one after another between `from` and `size`. */
  predicate Chain(spans: seq<Span>, from: nat, size: nat)
    decreases |spans|
  {
    if spans == [] then from <= size
    else from <= spans[0].start < spans[0].end <= size && Chain(spans[1..], spans[0].end, size)
  }

  lemma AscendingCons(x: Span, rest: seq<Span>)
    requires Ascending(rest) && forall i :: 0 <= i < |rest| ==> x.start <= rest[i].start
    ensures Ascending([x] + rest)
  {
  }

  lemma {:induction false} InsertAdds(x: Span, sorted: seq<Span>)
    ensures multiset(Insert(x, sorted)) == multiset{x} + multiset(sorted)
  {
    if sorted == [] || x.start <= sorted[0].start {
    } else {
      InsertAdds(x, sorted[1..]);
      assert sorted == [sorted[0]] + sorted[1..];
    }
  }

  lemma {:induction false} InsertKeepsOrder(x: Span, sorted: seq<Span>)
    requires Ascending(sorted)
    ensures Ascending(Insert(x, sorted))
  {
    if sorted == [] || x.start <= sorted[0].start {
      AscendingCons(x, sorted);
    } else {
      var rest := Insert(x, sorted[1..]);
      InsertKeepsOrder(x, sorted[1..]);
      InsertAdds(x, sorted[1..]);
      forall i | 0 <= i < |rest| ensures sorted[0].start <= rest[i].start {
        assert rest[i] in multiset(rest);
      }
      AscendingCons(sorted[0], rest);
    }
  }

  lemma {:induction false} SortedAndSame(spans: seq<Span>)
    ensures Ascending(SortByStart(spans))
    ensures multiset(SortByStart(spans)) == multiset(spans)
  {
    if spans == [] {
    } else {
      assert spans == [spans[0]] + spans[1..];
      SortedAndSame(spans[1..]);
      InsertAdds(spans[0], SortByStart(spans[1..]));
      InsertKeepsOrder(spans[0], SortByStart(spans[1..]));
    }
  }

  /** Sorted spans that pass the overlap check form a chain, and the other way round. */
  lemma {:induction false} ChainIffSpaced(spans: seq<Span>, from: nat, size: nat)
    requires Proper(spans, size) && from <= size
    ensures Chain(spans, from, size) <==> Spaced(spans) && (spans != [] ==> from <= spans[0].start)
    decreases |spans|
  {
    if spans == [] {
    } else {
      assert spans[0] in spans;
      assert Proper(spans[1..], size);
      ChainIffSpaced(spans[1..], spans[0].end, size);
      forall i | 0 < i < |spans| - 1
        ensures Follows(spans[1..], i) == Follows(spans, i + 1)
      {
      }
      if Spaced(spans) {
        forall i | 0 < i < |spans| - 1 ensures Follows(spans[1..], i) { assert Follows(spans, i + 1); }
        if 1 < |spans| { assert Follows(spans, 1); }
      }
      if Spaced(spans[1..]) && (1 < |spans| ==> Follows(spans, 1)) {
        forall i | 0 < i < |spans| ensures Follows(spans, i) {
          if 1 < i { assert Follows(spans[1..], i - 1); }
        }
      }
    }
  }

  lemma {:induction false} ChainBounds(spans: seq<Span>, from: nat, size: nat, i: nat)
    requires Chain(spans, from, size) && i < |spans|
    ensures from <= spans[i].start < spans[i].end <= size
    ensures forall j :: i < j < |spans| ==> spans[i].end <= spans[j].start < spans[j].end
    decreases |spans|
  {
    if i == 0 {
      forall j | 0 < j < |spans| ensures spans[0].end <= spans[j].start < spans[j].end {
        ChainBounds(spans[1..], spans[0].end, size, j - 1);
      }
    } else {
      ChainBounds(spans[1..], spans[0].end, size, i - 1);
      forall j | i < j < |spans| ensures spans[i].end <= spans[j].start < spans[j].end {
        assert spans[j] == spans[1..][j - 1];
      }
    }
  }

  /** The original occurrences, sorted and checked for overlap. */
  function Located(text: Text, edits: seq<Edit>): (r: Result<seq<Span>, EditError>)
    ensures r.Ok? ==> Chain(r.value, 0, |text|)
  {
    if |edits| == 0 || MAX_EDITS < |edits| then Err(WrongCount)
    else
      var spans := Spans(text, edits);
      if spans.Err? then spans
      else
        var sorted := SortByStart(spans.value);
        if !Spaced(sorted) then Err(Overlapping)
        else
          SortedChain(spans.value, |text|);
          Ok(sorted)
  }

  lemma SortedChain(spans: seq<Span>, size: nat)
    requires Proper(spans, size) && Spaced(SortByStart(spans))
    ensures Chain(SortByStart(spans), 0, size)
  {
    SortedProper(spans, size);
    ChainIffSpaced(SortByStart(spans), 0, size);
  }

  lemma SortedProper(spans: seq<Span>, size: nat)
    requires Proper(spans, size)
    ensures Proper(SortByStart(spans), size)
  {
    SortedAndSame(spans);
    forall s | s in SortByStart(spans) ensures s in spans {
      assert s in multiset(SortByStart(spans));
    }
  }

  /** What `editConfigText` answers. */
  function EditText(text: Text, edits: seq<Edit>): Result<Text, EditError> {
    var spans := Located(text, edits);
    if spans.Err? then Err(spans.error) else Decoded(Assemble(text, spans.value, 0))
  }

  /** `editConfigText`: checks, sort, overlap loop, and the splices from right to left. */
  method EditConfigText(text: Text, edits: seq<Edit>) returns (r: Result<Text, EditError>)
    ensures r == EditText(text, edits)
  {
    if |edits| == 0 || MAX_EDITS < |edits| { return Err(WrongCount); }
    var found := Spans(text, edits);
    if found.Err? { return Err(found.error); }
    var spans := SortByStart(found.value);
    var i := 1;
    while i < |spans|
      invariant 1 <= i && (spans != [] ==> i <= |spans|)
      invariant forall j :: 0 < j < i ==> Follows(spans, j)
    {
      if spans[i].start < spans[i - 1].end {
        assert !Follows(spans, i);
        return Err(Overlapping);
      }
      i := i + 1;
    }
    SortedChain(found.value, |text|);
    var out := Splice(text, spans);
    r := Decoded(out);
  }

  /** `out.slice(0, start) + newText + out.slice(end)`, last span first. */
  method Splice(text: Text, spans: seq<Span>) returns (out: Text)
    requires Chain(spans, 0, |text|)
    ensures out == Assemble(text, spans, 0)
  {
    out := text;
    var k := |spans|;
    ghost var from := EndBefore(spans, k);
    TailChain(spans, |text|, k);
    while k > 0
      invariant 0 <= k <= |spans| && from == EndBefore(spans, k)
      invariant Chain(spans[k..], from, |text|)
      invariant out == text[..from] + Assemble(text, spans[k..], from)
    {
      k := k - 1;
      var span := spans[k];
      TailChain(spans, |text|, k);
      from := EndBefore(spans, k);
      assert spans[k..][1..] == spans[k + 1..];
      SpliceOne(text, spans[k..], from, out);
      out := out[..span.start] + span.newText + out[span.end..];
    }
    assert spans[0..] == spans;
  }

  function EndBefore(spans: seq<Span>, k: nat): nat
    requires k <= |spans|
  {
    if k == 0 then 0 else spans[k - 1].end
  }

  lemma {:induction false} TailChain(spans: seq<Span>, size: nat, k: nat)
    requires Chain(spans, 0, size) && k <= |spans|
    ensures Chain(spans[k..], EndBefore(spans, k), size)
  {
    if k == 0 {
      assert spans[0..] == spans;
    } else {
      TailChain(spans, size, k - 1);
      assert spans[k - 1..][1..] == spans[k..];
    }
  }

  lemma SpliceOne(text: Text, spans: seq<Span>, from: nat, out: Text)
    requires spans != [] && Chain(spans, from, |text|)
    requires out == text[..spans[0].end] + Assemble(text, spans[1..], spans[0].end)
    ensures out[..spans[0].start] + spans[0].newText + out[spans[0].end..] == text[..from] + Assemble(text, spans, from)
  {
    var rest := Assemble(text, spans[1..], spans[0].end);
    var gap := text[from..spans[0].start];
    assert out[spans[0].end..] == rest;
    assert out[..spans[0].start] == text[..spans[0].start] == text[..from] + gap;
    assert text[..from] + gap + spans[0].newText + rest == text[..from] + (gap + spans[0].newText + rest);
  }

  // ---------------------------------------------------------------------
  // Which edits are accepted
  // ---------------------------------------------------------------------

  /** A sorted list is spaced exactly when no two of its spans touch. */
  lemma {:induction false} SpacedIffApart(sorted: seq<Span>, size: nat)
    requires Ascending(sorted) && Proper(sorted, size)
    ensures Spaced(sorted) <==> PairwiseApart(sorted)
  {
    if Spaced(sorted) {
      ChainIffSpaced(sorted, 0, size);
      forall i, j | 0 <= i < j < |sorted| ensures Apart(sorted[i], sorted[j]) {
        ChainBounds(sorted, 0, size, i);
      }
    }
    if PairwiseApart(sorted) {
      forall i | 0 < i < |sorted| ensures Follows(sorted, i) {
        assert Apart(sorted[i - 1], sorted[i]);
        assert sorted[i - 1] in sorted && sorted[i] in sorted;
      }
    }
  }

  ghost predicate ApartFrom(x: Span, spans: seq<Span>) {
    forall s :: s in spans ==> Apart(x, s)
  }

  lemma {:induction false} ApartCons(x: Span, spans: seq<Span>)
    ensures PairwiseApart([x] + spans) <==> ApartFrom(x, spans) && PairwiseApart(spans)
  {
    var all := [x] + spans;
    if PairwiseApart(all) {
      forall i, j | 0 <= i < j < |spans| ensures Apart(spans[i], spans[j]) {
        assert Apart(all[i + 1], all[j + 1]);
      }
      forall s | s in spans ensures Apart(x, s) {
        var i :| 0 <= i < |spans| && spans[i] == s;
        assert Apart(all[0], all[i + 1]);
      }
    }
    if ApartFrom(x, spans) && PairwiseApart(spans) {
      forall i, j | 0 <= i < j < |all| ensures Apart(all[i], all[j]) {
        assert all[j] == spans[j - 1];
        if 0 < i { assert all[i] == spans[i - 1]; }
      }
    }
  }

  lemma ApartFromCons(x: Span, y: Span, spans: seq<Span>)
    ensures ApartFrom(x, [y] + spans) <==> Apart(x, y) && ApartFrom(x, spans)
  {
    forall s ensures s in [y] + spans <==> s == y || s in spans {
    }
  }

  lemma ApartFromInserted(y: Span, x: Span, spans: seq<Span>)
    ensures ApartFrom(y, Insert(x, spans)) <==> Apart(y, x) && ApartFrom(y, spans)
  {
    hide Insert;
    InsertAdds(x, spans);
    SameMembers(Insert(x, spans), [x] + spans);
    ApartFromCons(y, x, spans);
  }

  lemma {:induction false} InsertApart(x: Span, sorted: seq<Span>)
    ensures PairwiseApart(Insert(x, sorted)) <==> ApartFrom(x, sorted) && PairwiseApart(sorted)
  {
    hide PairwiseApart, ApartFrom;
    if sorted == [] || x.start <= sorted[0].start {
      ApartCons(x, sorted);
    } else {
      var y, rest := sorted[0], sorted[1..];
      assert sorted == [y] + rest;
      InsertApart(x, rest);
      ApartCons(y, Insert(x, rest));
      ApartFromInserted(y, x, rest);
      ApartCons(y, rest);
      ApartFromCons(x, y, rest);
    }
  }

  lemma SameMembers(a: seq<Span>, b: seq<Span>)
    requires multiset(a) == multiset(b)
    ensures forall s :: s in a <==> s in b
  {
    forall s ensures s in a <==> s in b {
      assert s in multiset(a) <==> s in multiset(b);
    }
  }

  /** Sorting does not change whether two spans touch. */
  lemma {:induction false} SortKeepsApart(spans: seq<Span>)
    ensures PairwiseApart(SortByStart(spans)) <==> PairwiseApart(spans)
  {
    if spans == [] {
    } else {
      var rest := spans[1..];
      assert spans == [spans[0]] + rest;
      SortKeepsApart(rest);
      InsertApart(spans[0], SortByStart(rest));
      SortedAndSame(rest);
      SameMembers(SortByStart(rest), rest);
      ApartCons(spans[0], rest);
    }
  }

  /** The first occurrences of two edits do not share a code unit. */
  predicate Clear(text: Text, a: Edit, b: Edit) {
    var i, j := IndexOf(text, a.oldText, 0), IndexOf(text, b.oldText, 0);
    i + |a.oldText| <= j || j + |b.oldText| <= i
  }

  /** The edits are located exactly when each one is sound and matches once, and no
      two occurrences, in whatever order the edits come, share a code unit. */
  lemma LocatedIff(text: Text, edits: seq<Edit>)
    ensures Located(text, edits).Ok? <==>
      && 0 < |edits| <= MAX_EDITS
      && (forall e :: e in edits ==> Sound(e) && OccursOnce(text, e.oldText))
      && (forall i, j :: 0 <= i < j < |edits| ==> Clear(text, edits[i], edits[j]))
  {
    AllCheckedIff(text, edits);
    if 0 < |edits| <= MAX_EDITS && Spans(text, edits).Ok? {
      var spans := Spans(text, edits).value;
      SortedAndSame(spans);
      SortedProper(spans, |text|);
      SpacedIffApart(SortByStart(spans), |text|);
      SortKeepsApart(spans);
      ClearIffApart(text, edits);
    }
  }

  lemma AllCheckedIff(text: Text, edits: seq<Edit>)
    ensures Spans(text, edits).Ok? <==> forall e :: e in edits ==> Sound(e) && OccursOnce(text, e.oldText)
  {
    hide Spans, CheckEdit, Sound, OccursOnce;
    forall e ensures CheckEdit(text, e).Ok? <==> Sound(e) && OccursOnce(text, e.oldText) {
      CheckedIff(text, e);
    }
  }

  lemma ClearIffApart(text: Text, edits: seq<Edit>)
    requires Spans(text, edits).Ok?
    ensures PairwiseApart(Spans(text, edits).value) <==> forall i, j :: 0 <= i < j < |edits| ==>
              Clear(text, edits[i], edits[j])
  {
    hide Spans, CheckEdit, IndexOf;
    var spans := Spans(text, edits).value;
    forall i, j | 0 <= i < j < |edits|
      ensures Clear(text, edits[i], edits[j]) == Apart(spans[i], spans[j])
    {
      assert spans[i] == SpanOf(text, edits[i]) && spans[j] == SpanOf(text, edits[j]);
    }
  }

  // ---------------------------------------------------------------------
  // The order of the edits does not matter
  // ---------------------------------------------------------------------

  function Map<A, B>(f: A -> B, s: seq<A>): seq<B> {
    seq(|s|, i requires 0 <= i < |s| => f(s[i]))
  }

  lemma TakeOut<T>(s: seq<T>, k: nat)
    requires k < |s|
    ensures multiset(s) == multiset{s[k]} + multiset(s[..k] + s[k + 1..])
  {
    assert s == s[..k] + [s[k]] + s[k + 1..];
  }

  lemma SameRest<T>(a: seq<T>, b: seq<T>, k: nat)
    requires a != [] && k < |b| && a[0] == b[k] && multiset(a) == multiset(b)
    ensures multiset(a[1..]) == multiset(b[..k] + b[k + 1..])
  {
    TakeOut(a, 0);
    TakeOut(b, k);
    assert a[..0] + a[1..] == a[1..];
    Cancel(a[0], multiset(a[1..]), multiset(b[..k] + b[k + 1..]));
  }

  lemma Cancel<T>(x: T, m: multiset<T>, n: multiset<T>)
    requires multiset{x} + m == multiset{x} + n
    ensures m == n
  {
    assert m == multiset{x} + m - multiset{x} && n == multiset{x} + n - multiset{x};
  }

  lemma MapTakeOut<A, B>(f: A -> B, s: seq<A>, k: nat)
    requires k < |s|
    ensures multiset(Map(f, s)) == multiset{f(s[k])} + multiset(Map(f, s[..k] + s[k + 1..]))
  {
    TakeOut(Map(f, s), k);
    assert Map(f, s)[..k] + Map(f, s)[k + 1..] == Map(f, s[..k] + s[k + 1..]);
  }

  lemma {:induction false} MapSame<A, B>(f: A -> B, a: seq<A>, b: seq<A>)
    requires multiset(a) == multiset(b)
    ensures multiset(Map(f, a)) == multiset(Map(f, b))
  {
    if a == [] {
      assert |multiset(b)| == 0;
    } else {
      assert a[0] in multiset(b);
      var k :| 0 <= k < |b| && b[k] == a[0];
      SameRest(a, b, k);
      MapSame(f, a[1..], b[..k] + b[k + 1..]);
      assert a[..0] + a[1..] == a[1..];
      MapTakeOut(f, a, 0);
      MapTakeOut(f, b, k);
    }
  }

  function SpanOrNone(text: Text, e: Edit): Span {
    if IndexOf(text, e.oldText, 0) >= 0 then SpanOf(text, e) else Span(0, 0, [])
  }

  lemma SpansAreMapped(text: Text, edits: seq<Edit>)
    requires Spans(text, edits).Ok?
    ensures Spans(text, edits).value == Map(e => SpanOrNone(text, e), edits)
  {
    hide IndexOf, Spans, CheckEdit;
  }

  lemma SameFirst(chain: seq<Span>, other: seq<Span>, from: nat, size: nat)
    requires chain != [] && Chain(chain, from, size) && Ascending(other) && multiset(chain) == multiset(other)
    ensures other != [] && other[0] == chain[0]
  {
    assert chain[0] in multiset(other);
    assert other[0] in multiset(chain);
    var i :| 0 <= i < |chain| && chain[i] == other[0];
    var j :| 0 <= j < |other| && other[j] == chain[0];
    hide Chain;
    ChainBounds(chain, from, size, 0);
  }

  lemma AscendingTail(spans: seq<Span>)
    requires Ascending(spans) && spans != []
    ensures Ascending(spans[1..])
  {
  }

  lemma SameTail<T>(a: seq<T>, b: seq<T>)
    requires a != [] && b != [] && a[0] == b[0] && multiset(a) == multiset(b)
    ensures multiset(a[1..]) == multiset(b[1..])
  {
    SameRest(a, b, 0);
    assert b[..0] + b[1..] == b[1..];
  }

  lemma JoinHead<T>(a: seq<T>, b: seq<T>)
    requires a != [] && b != [] && a[0] == b[0] && a[1..] == b[1..]
    ensures a == b
  {
    assert a == [a[0]] + a[1..] && b == [b[0]] + b[1..];
  }

  /** A chain is the only ascending list with its spans. */
  lemma {:induction false} ChainIsUnique(chain: seq<Span>, other: seq<Span>, from: nat, size: nat)
    requires Chain(chain, from, size) && Ascending(other) && multiset(chain) == multiset(other)
    ensures chain == other
    decreases |chain|
  {
    hide Ascending;
    if chain == [] {
      assert |multiset(other)| == 0;
    } else {
      SameFirst(chain, other, from, size);
      SameTail(chain, other);
      AscendingTail(other);
      ChainIsUnique(chain[1..], other[1..], chain[0].end, size);
      JoinHead(chain, other);
    }
  }

  /** One list of spans sorts to a chain: so does every rearrangement of it, to the same one. */
  lemma SortToChain(chain: seq<Span>, spans: seq<Span>, size: nat)
    requires Chain(chain, 0, size) && multiset(chain) == multiset(spans)
    ensures SortByStart(spans) == chain
  {
    SortedAndSame(spans);
    ChainIsUnique(chain, SortByStart(spans), 0, size);
  }

  lemma LocatedRearranged(text: Text, a: seq<Edit>, b: seq<Edit>)
    requires multiset(a) == multiset(b) && Located(text, a).Ok?
    ensures Located(text, b) == Located(text, a)
  {
    hide CheckEdit, IndexOf, Sound;
    var chain := Located(text, a).value;
    assert |multiset(a)| == |a| && |multiset(b)| == |b|;
    SameChecks(text, a, b);
    SpansAreMapped(text, a);
    SpansAreMapped(text, b);
    MapSame(e => SpanOrNone(text, e), a, b);
    SortedAndSame(Spans(text, a).value);
    SortToChain(chain, Spans(text, b).value, |text|);
    ChainProper(chain, 0, |text|);
    ChainIffSpaced(chain, 0, |text|);
  }

  lemma SameChecks(text: Text, a: seq<Edit>, b: seq<Edit>)
    requires multiset(a) == multiset(b) && Spans(text, a).Ok?
    ensures Spans(text, b).Ok?
  {
    hide CheckEdit;
    forall e | e in b ensures CheckEdit(text, e).Ok? {
      assert e in multiset(b);
      assert e in multiset(a);
    }
  }

  lemma ChainProper(spans: seq<Span>, from: nat, size: nat)
    requires Chain(spans, from, size)
    ensures Proper(spans, size)
  {
    forall s | s in spans ensures s.start < s.end <= size {
      var i :| 0 <= i < |spans| && spans[i] == s;
      ChainBounds(spans, from, size, i);
    }
  }

  /** The same edits in another order are accepted as well, with the same result. */
  lemma OrderDoesNotMatter(text: Text, a: seq<Edit>, b: seq<Edit>)
    requires multiset(a) == multiset(b)
    ensures EditText(text, a).Ok? == EditText(text, b).Ok?
    ensures EditText(text, a).Ok? ==> EditText(text, a) == EditText(text, b)
  {
    hide Located, Decoded;
    if Located(text, a).Ok? {
      LocatedRearranged(text, a, b);
    } else if Located(text, b).Ok? {
      LocatedRearranged(text, b, a);
    }
  }

  // ---------------------------------------------------------------------
  // Undoing edits
  // ---------------------------------------------------------------------

  function Swapped(edits: seq<Edit>): seq<Edit> {
    Map((e: Edit) => Edit(e.newText, e.oldText), edits)
  }

  /** Where the replacements lie in the result, with the text each one replaced. */
  function Undoing(text: Text, spans: seq<Span>, from: nat, at: nat): (r: seq<Span>)
    requires Chain(spans, from, |text|)
    ensures |r| == |spans|
    decreases |spans|
  {
    if spans == [] then []
    else
      var s := spans[0];
      var start := at + (s.start - from);
      [Span(start, start + |s.newText|, text[s.start..s.end])] + Undoing(text, spans[1..], s.end, start + |s.newText|)
  }

  ghost predicate NoneEmpty(spans: seq<Span>) {
    forall s :: s in spans ==> s.newText != []
  }

  lemma Slices(out: Text, at: nat, gap: Text, inserted: Text, tail: Text)
    requires at <= |out| && out[at..] == gap + inserted + tail
    ensures var start := at + |gap|; var end := start + |inserted|;
      && end <= |out| && out[at..start] == gap && out[start..end] == inserted && out[end..] == tail
  {
    var rest := out[at..];
    var start := at + |gap|;
    var end := start + |inserted|;
    assert out[at..start] == rest[..|gap|];
    assert out[start..end] == rest[|gap|..|gap| + |inserted|];
    assert out[end..] == rest[|gap| + |inserted|..];
  }

  lemma UndoingStep(text: Text, spans: seq<Span>, from: nat, out: Text, at: nat)
    requires spans != [] && Chain(spans, from, |text|) && spans[0].newText != []
    requires at <= |out| && out[at..] == Assemble(text, spans, from)
    ensures var s, u := spans[0], Undoing(text, spans, from, at)[0];
      && at <= u.start < u.end <= |out| && Lands(text, s, out, u)
      && out[at..u.start] == text[from..s.start]
      && out[u.end..] == Assemble(text, spans[1..], s.end)
  {
    var s := spans[0];
    Slices(out, at, text[from..s.start], s.newText, Assemble(text, spans[1..], s.end));
  }

  lemma {:induction false} UndoingRestores(text: Text, spans: seq<Span>, from: nat, out: Text, at: nat)
    requires Chain(spans, from, |text|) && NoneEmpty(spans)
    requires at <= |out| && out[at..] == Assemble(text, spans, from)
    ensures Chain(Undoing(text, spans, from, at), at, |out|)
    ensures Assemble(out, Undoing(text, spans, from, at), at) == text[from..]
    decreases |spans|
  {
    hide Lands, MatchAt;
    var undo := Undoing(text, spans, from, at);
    if spans == [] {
    } else {
      var s, u := spans[0], undo[0];
      assert s in spans;
      UndoingStep(text, spans, from, out, at);
      UndoingRestores(text, spans[1..], s.end, out, u.end);
      assert undo[1..] == Undoing(text, spans[1..], s.end, u.end);
      assert text[from..s.start] + text[s.start..s.end] + text[s.end..] == text[from..];
    }
  }

  lemma {:induction false} UndoingLands(text: Text, spans: seq<Span>, from: nat, out: Text, at: nat, k: nat)
    requires Chain(spans, from, |text|) && NoneEmpty(spans) && k < |spans|
    requires at <= |out| && out[at..] == Assemble(text, spans, from)
    ensures Lands(text, spans[k], out, Undoing(text, spans, from, at)[k])
    decreases |spans|
  {
    hide Lands, MatchAt, Assemble;
    assert spans[0] in spans;
    UndoingStep(text, spans, from, out, at);
    if k > 0 {
      var u := Undoing(text, spans, from, at)[0];
      UndoingLands(text, spans[1..], spans[0].end, out, u.end, k - 1);
    }
  }

  /** The replacement of `s` lies at `u`, and `u` carries the text it replaced. */
  predicate Lands(text: Text, s: Span, out: Text, u: Span) {
    && MatchAt(out, s.newText, u.start) && u.end == u.start + |s.newText|
    && s.start <= s.end <= |text| && u.newText == text[s.start..s.end]
  }

  /** The span that puts back what `s` replaced, found in the result by searching. */
  function UndoOf(text: Text, out: Text, s: Span): Span {
    var start := IndexOf(out, s.newText, 0);
    if start >= 0 && s.start <= s.end <= |text| then Span(start, start + |s.newText|, text[s.start..s.end])
    else Span(0, 0, [])
  }

  ghost predicate Undoable(edits: seq<Edit>, out: Text) {
    forall e :: e in edits ==> e.newText != [] && OccursOnce(out, e.newText)
  }

  /** The search finds every replacement where it landed. */
  lemma UndoingIsFound(text: Text, spans: seq<Span>, out: Text)
    requires Chain(spans, 0, |text|) && NoneEmpty(spans) && out == Assemble(text, spans, 0)
    requires forall s :: s in spans ==> OccursOnce(out, s.newText)
    ensures Undoing(text, spans, 0, 0) == Map(s => UndoOf(text, out, s), spans)
  {
    hide Assemble, Chain, OccursOnce, IndexOf, MatchAt;
    var undo := Undoing(text, spans, 0, 0);
    assert out[0..] == out;
    forall k | 0 <= k < |spans| ensures undo[k] == UndoOf(text, out, spans[k]) {
      UndoingLands(text, spans, 0, out, 0, k);
      assert spans[k] in spans;
      LandsFound(text, spans[k], out, undo[k]);
    }
  }

  lemma LandsFound(text: Text, s: Span, out: Text, u: Span)
    requires Lands(text, s, out, u) && OccursOnce(out, s.newText)
    ensures u == UndoOf(text, out, s)
  {
    FoundWhereItIs(out, s.newText, u.start);
  }

  /** Searching the result for the swapped edits finds the same spans. */
  lemma SwappedSpans(text: Text, edits: seq<Edit>, out: Text)
    requires Spans(text, edits).Ok? && Undoable(edits, out)
    ensures Spans(out, Swapped(edits)).Ok?
    ensures Spans(out, Swapped(edits)).value == Map(s => UndoOf(text, out, s), Spans(text, edits).value)
  {
    hide Sound, OccursOnce, Spans, CheckEdit, IndexOf, MatchAt;
    var back := Swapped(edits);
    AllCheckedIff(text, edits);
    forall e | e in back ensures Sound(e) && OccursOnce(out, e.oldText) {
      var k :| 0 <= k < |back| && back[k] == e;
      assert edits[k] in edits;
      SoundSwapped(edits[k]);
    }
    AllCheckedIff(out, back);
    forall k | 0 <= k < |edits|
      ensures Spans(out, back).value[k] == UndoOf(text, out, Spans(text, edits).value[k])
    {
      SpanHoldsOld(text, edits[k]);
      assert Spans(text, edits).value[k] == SpanOf(text, edits[k]);
      assert Spans(out, back).value[k] == SpanOf(out, back[k]);
    }
  }

  lemma SoundSwapped(e: Edit)
    requires Sound(e) && e.newText != []
    ensures Sound(Edit(e.newText, e.oldText))
  {
  }

  lemma SpanHoldsOld(text: Text, e: Edit)
    requires IndexOf(text, e.oldText, 0) >= 0
    ensures var s := SpanOf(text, e); s.start <= s.end <= |text| && text[s.start..s.end] == e.oldText
  {
  }

  lemma NewTextsOf(text: Text, edits: seq<Edit>, out: Text)
    requires Located(text, edits).Ok? && Undoable(edits, out)
    ensures var spans := Located(text, edits).value;
      NoneEmpty(spans) && forall s :: s in spans ==> OccursOnce(out, s.newText)
  {
    hide OccursOnce, CheckEdit, IndexOf;
    var found, sorted := Spans(text, edits).value, Located(text, edits).value;
    SortedAndSame(found);
    SameMembers(sorted, found);
    forall s | s in sorted ensures s.newText != [] && OccursOnce(out, s.newText) {
      var k :| 0 <= k < |found| && found[k] == s;
      assert found[k] == SpanOf(text, edits[k]);
      assert edits[k] in edits;
    }
  }

  /** Edits whose replacements can all be found again are undone by the swapped edits,
      wherever these land and in whatever order they are given. */
  lemma SwappedLocated(text: Text, edits: seq<Edit>, out: Text)
    requires Located(text, edits).Ok? && out == Assemble(text, Located(text, edits).value, 0)
    requires Undoable(edits, out)
    ensures Located(out, Swapped(edits)).Ok?
    ensures Assemble(out, Located(out, Swapped(edits)).value, 0) == text
  {
    hide CheckEdit, IndexOf, OccursOnce, MatchAt, Chain, Assemble, Spans, Proper, Undoing, UndoOf, SortByStart,
         Undoable, Spaced;
    var sorted := Located(text, edits).value;
    var undo := Undoing(text, sorted, 0, 0);
    NewTextsOf(text, edits, out);
    assert out[0..] == out && text[0..] == text;
    UndoingRestores(text, sorted, 0, out, 0);
    SwappedSpans(text, edits, out);
    SwappedSame(text, edits, out);
    SortToChain(undo, Spans(out, Swapped(edits)).value, |out|);
    ChainProper(undo, 0, |out|);
    ChainIffSpaced(undo, 0, |out|);
  }

  lemma SwappedSame(text: Text, edits: seq<Edit>, out: Text)
    requires Located(text, edits).Ok? && out == Assemble(text, Located(text, edits).value, 0)
    requires Undoable(edits, out) && Spans(out, Swapped(edits)).Ok?
    ensures multiset(Undoing(text, Located(text, edits).value, 0, 0)) == multiset(Spans(out, Swapped(edits)).value)
  {
    hide CheckEdit, IndexOf, OccursOnce, MatchAt, Chain, Assemble, Spans, Proper, Undoing, UndoOf, Undoable;
    var found, sorted := Spans(text, edits).value, Located(text, edits).value;
    NewTextsOf(text, edits, out);
    UndoingIsFound(text, sorted, out);
    SwappedSpans(text, edits, out);
    SortedAndSame(found);
    MapSame(s => UndoOf(text, out, s), sorted, found);
  }

  /** The edits with old and new text exchanged are accepted on the result exactly when
      every replacement is non-empty and occurs once there (and the original was a text
      the editor reads at all); then they restore the original. */
  lemma UndoIff(text: Text, edits: seq<Edit>, out: Text)
    requires EditText(text, edits) == Ok(out)
    ensures var back := EditText(out, Swapped(edits));
      && (back.Ok? <==> Undoable(edits, out) && Decoded(text).Ok?)
      && (back.Ok? ==> back.value == text)
  {
    hide CheckEdit, IndexOf, OccursOnce, MatchAt, Sound, Assemble, Chain, Spans;
    if Undoable(edits, out) {
      SwappedLocated(text, edits, out);
    } else if Located(out, Swapped(edits)).Ok? {
      LocatedIff(out, Swapped(edits));
      forall e | e in edits ensures e.newText != [] && OccursOnce(out, e.newText) {
        var k :| 0 <= k < |edits| && edits[k] == e;
        assert Swapped(edits)[k] in Swapped(edits);
        SoundNotEmpty(Swapped(edits)[k]);
      }
    }
  }

  lemma SoundNotEmpty(e: Edit)
    requires Sound(e)
    ensures e.oldText != []
  {
  }

  // ---------------------------------------------------------------------
  // Surrogate pairs stay whole
  // ---------------------------------------------------------------------

  /** Position `i` does not fall inside a surrogate pair. */
  predicate CleanCut(s: Text, i: nat)
    requires i <= |s|
  {
    !(0 < i < |s| && High(s[i - 1]))
  }

  lemma SliceWellFormed(s: Text, i: nat, j: nat)
    requires WellFormed(s) && i <= j <= |s| && CleanCut(s, i) && CleanCut(s, j)
    ensures WellFormed(s[i..j])
  {
    var slice := s[i..j];
    forall k | 0 <= k < |slice| ensures Paired(slice, k) {
      assert Paired(s, i + k);
      if k == 0 && 0 < i { assert Paired(s, i - 1); }
    }
  }

  lemma JoinWellFormed(a: Text, b: Text)
    requires WellFormed(a) && WellFormed(b)
    ensures WellFormed(a + b)
  {
    forall k | 0 <= k < |a + b| ensures Paired(a + b, k) {
      if k < |a| { assert Paired(a, k); } else { assert Paired(b, k - |a|); }
    }
  }

  /** A well-formed fragment matches a well-formed text only at whole characters. */
  lemma MatchCutsCleanly(text: Text, fragment: Text, i: nat)
    requires WellFormed(text) && WellFormed(fragment) && fragment != [] && MatchAt(text, fragment, i)
    ensures CleanCut(text, i) && CleanCut(text, i + |fragment|)
  {
    assert Paired(fragment, 0) && text[i] == fragment[0];
    var last := |fragment| - 1;
    assert Paired(fragment, last) && text[i + last] == fragment[last];
    if 0 < i { assert Paired(text, i - 1); }
    assert Paired(text, i + last);
  }

  ghost predicate Whole(text: Text, spans: seq<Span>) {
    forall s :: s in spans ==>
      s.start <= s.end <= |text| && CleanCut(text, s.start) && CleanCut(text, s.end) && WellFormed(s.newText)
  }

  lemma {:induction false} AssembleWellFormed(text: Text, spans: seq<Span>, from: nat)
    requires WellFormed(text) && Chain(spans, from, |text|) && Whole(text, spans) && CleanCut(text, from)
    ensures WellFormed(Assemble(text, spans, from))
    decreases |spans|
  {
    hide WellFormed;
    if spans == [] {
      assert text[from..] == text[from..|text|];
      SliceWellFormed(text, from, |text|);
    } else {
      var s := spans[0];
      assert s in spans;
      SliceWellFormed(text, from, s.start);
      AssembleWellFormed(text, spans[1..], s.end);
      JoinWellFormed(text[from..s.start], s.newText);
      JoinWellFormed(text[from..s.start] + s.newText, Assemble(text, spans[1..], s.end));
    }
  }

  /** Edits never cut a surrogate pair in two: the result of editing well-formed text is well-formed. */
  lemma EditsKeepCharactersWhole(text: Text, edits: seq<Edit>)
    requires WellFormed(text) && EditText(text, edits).Ok?
    ensures WellFormed(EditText(text, edits).value)
  {
    hide IndexOf, WellFormed, OccursOnce, MatchAt, CheckEdit, Assemble, Chain, Spans, Whole;
    var sorted := Located(text, edits).value;
    LocatedWhole(text, edits);
    AssembleWellFormed(text, sorted, 0);
  }

  lemma SpanWhole(text: Text, e: Edit)
    requires WellFormed(text) && CheckEdit(text, e).Ok?
    ensures var s := SpanOf(text, e);
            s.end <= |text| && CleanCut(text, s.start) && CleanCut(text, s.end) && WellFormed(s.newText)
  {
    hide WellFormed;
    MatchCutsCleanly(text, e.oldText, IndexOf(text, e.oldText, 0));
  }

  lemma LocatedWhole(text: Text, edits: seq<Edit>)
    requires WellFormed(text) && Located(text, edits).Ok?
    ensures Whole(text, Located(text, edits).value)
  {
    hide IndexOf, WellFormed, MatchAt, CheckEdit, CleanCut;
    var found, sorted := Spans(text, edits).value, Located(text, edits).value;
    SortedAndSame(found);
    SameMembers(sorted, found);
    forall s | s in sorted
      ensures s.start <= s.end <= |text| && CleanCut(text, s.start) && CleanCut(text, s.end) && WellFormed(s.newText)
    {
      var k :| 0 <= k < |found| && found[k] == s;
      SpanWhole(text, edits[k]);
    }
  }
}
